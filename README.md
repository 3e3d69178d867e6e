# agentic_patterns — a verified model of the bookkeeping around the language model

`agentic_patterns` implements three agent designs on top of a chat-completion API:
- a **reflection agent**: a generator and a critic whose two chat histories grow in lock step;
- a **tool agent**: it advertises tool signatures, extracts `<tool_call>` blocks from the model's answer, validates and coerces their arguments, runs the tools and reports the observations back;
- a **multi-agent crew**: agents wired into a dependency graph, ordered with Kahn's algorithm and run in that order, each agent handing its output to the agents that wait for it.

The model keeps everything around the language model and treats each completion as a function parameter (an oracle). It covers:
- tag extraction;
- the bounded chat histories;
- prompt records;
- signature derivation and argument validation;
- the tool agent's call processing and its two completions;
- the reflection loop;
- agent wiring, context passing, crew registration, the topological sort and the crew run.

Modules:

| module | file | models |
|---|---|---|
| `Wrappers` | wrappers.dfy | `Option`, `Result`, `Outcome` and the Python exceptions raised (`KeyError`, `TypeError`, `ValueError`, `IndexError`, `UnboundLocalError`) |
| `Seqs` | seqs.dfy | counting and membership facts about sequences |
| `Extraction` | extraction.dfy | `utils/extraction.py` |
| `Completions` | completions.dfy | `utils/completions.py` |
| `Tools` | tool.dfy | `tool_pattern/tool.py` |
| `ToolUtils` | tool_utils.dfy | `tool_pattern/utils.py` |
| `ToolAgents` | tool_agent.dfy | `tool_pattern/tool_agent.py` |
| `Reflection` | reflection_agent.dfy | `reflection_pattern/reflection_agent.py` |
| `ReflectionUtils` | reflection_utils.dfy | `reflection_pattern/utils.py` |
| `Multiagent` | multiagent.dfy | `multiagent_pattern/agent.py` and `multiagent_pattern/crew.py` (they refer to each other) |

Modelling choices:
- **Mutating code stays imperative.** These become classes with `modifies` clauses:
  - `ChatHistory` (one class with a `Policy` field for both history classes);
  - `ToolCall`, whose `arguments` field `validate_arguments` rewrites in place;
  - `Agent` and `Crew`;
  - `Scope`, which stands for the class attribute `Crew.current_crew`.

  The loops of `topological_sort`, `Crew.run`, `Agent.run`, the list cases of `add_dependency`/`add_dependent`, `validate_arguments`, `process_tool_calls` and `ReflectionAgent.run` are `while`/`for` loops. Each is proved against a specification function.
- **The sort is specified on any wiring.** The input may hold duplicates, unregistered dependents or lists that disagree. Its correctness is stated for well-formed wiring (`Crew.WellFormed`): each agent registered once, every neighbour registered, and each edge listed as often among the waiting agent's dependencies as among the awaited agent's dependents. The library's own operations keep this wiring well formed as long as they wire registered agents together: `add_dependency` and its operators (`AddedDependenciesKeepWiring`), `add_dependent` and its operators (`AddedDependentsKeepWiring`), and the registration of a new agent (`JoinKeepsWiring`).

## Model

| member | source | states |
|---|---|---|
| Extraction.SkipSpace | src/agentic_patterns/utils/extraction.py:40 | the first non-whitespace position at or after `i`, with only whitespace skipped |
| Extraction.SkipSpaceBack | src/agentic_patterns/utils/extraction.py:40 | the position just after the last non-whitespace character before `e`, with only whitespace skipped |
| Extraction.Strip | src/agentic_patterns/utils/extraction.py:40 | `str.strip()` leaves no whitespace at either end |
| Extraction.StripTrims | src/agentic_patterns/utils/extraction.py:40 | what `strip` removes is whitespace, and only at the two ends: the result is a contiguous slice of the input |
| Extraction.StripKeeps | src/agentic_patterns/utils/extraction.py:40 | a text without whitespace at its ends is returned unchanged |
| Extraction.StripIdempotent | src/agentic_patterns/utils/extraction.py:40 | stripping twice equals stripping once |
| Extraction.FindFromFirst | src/agentic_patterns/utils/extraction.py:33-36 | the scanner reports the leftmost occurrence at or after `k`; when it reports none, there is none |
| Extraction.FindFromIs | src/agentic_patterns/utils/extraction.py:33-36 | conversely, the leftmost occurrence after `k` is the one reported |
| Extraction.OccursWithin | src/agentic_patterns/utils/extraction.py:33-36 | an occurrence inside a slice is an occurrence in the whole text, shifted by the slice's start |
| Extraction.FindAllStep | src/agentic_patterns/utils/extraction.py:36 | one `findall` step: the body between the leftmost `<tag>` and the nearest `</tag>` after it, then the scan resumes after that `</tag>` (no overlap) |
| Extraction.FindAllDecomposes | src/agentic_patterns/utils/extraction.py:33-36 | the bodies `findall` reports are exactly the matches, left to right and non-overlapping: each starts at the leftmost `<tag>`, ends at the nearest `</tag>`, and after the last one no `<tag>`…`</tag>` pair remains |
| Extraction.FindAllBound | src/agentic_patterns/utils/extraction.py:36 | `FindAllFrom`, the scan behind `re.findall`: matches do not overlap and each uses up text, so there are no more of them than characters from `k` on; a match needs a `<tag>` from `k` on |
| Extraction.FindAll | src/agentic_patterns/utils/extraction.py:33-36 | `re.findall` of `<tag>(.*?)</tag>` with `re.DOTALL`, the tag read literally: the list of bodies decomposes the text into the leftmost, shortest, non-overlapping matches, in order, with no further match after the last |
| Extraction.DecomposesNoClose | src/agentic_patterns/utils/extraction.py:33-36 | non-greedy matching: no raw body contains `</tag>` |
| Extraction.ExtractTagContent | src/agentic_patterns/utils/extraction.py:19-42 | `found` holds exactly when `content` is non-empty; `content` holds, in order, the stripped body of every match; its entries have no whitespace at either end |
| Extraction.NoOpenNoContent | src/agentic_patterns/utils/extraction.py:33-42 | a text without `<tag>` gives empty content and `found == false` |
| Extraction.CloseOneOpen | src/agentic_patterns/utils/extraction.py:33 | a plain tag name (letters, digits, `_` and `-`) puts no `<` in `</tag>` past its first character |
| Extraction.CloseAtEnd | src/agentic_patterns/utils/extraction.py:33-36 | in `<tag>body</tag>`, with no `</tag>` in `body`, the first `</tag>` after the opening tag is the closing one |
| Extraction.ExtractSingle | src/agentic_patterns/utils/extraction.py:33-41 | `<tag>` + `s` + `</tag>`, with no `</tag>` in `s`, yields exactly `[strip(s)]` and `found` for a plain tag name (letters, digits, `_` and `-`); `s` may span lines |
| Completions.BuildPromptStructure | src/agentic_patterns/utils/completions.py:17-30 | the role is kept; an empty tag keeps the prompt as it is; a non-empty tag adds exactly `<tag>` and `</tag>` around it |
| Completions.TaggedPromptExtracts | src/agentic_patterns/utils/completions.py:28-30 | a prompt wrapped in a plain tag (letters, digits, `_` and `-`) is recovered by `extract_tag_content` with that tag, stripped, as the one match (wrapping and extraction are inverses up to `strip`) |
| Completions.Appended | src/agentic_patterns/utils/completions.py:59-67 | `append` raises `IndexError` exactly when the bound is hit on a list too short to pop: empty for `pop(0)`, at most one message for `pop(1)`; otherwise `msg` is last; below the bound the old list is a prefix and the length grows by one; at the bound the length is unchanged; the fixed-first policy keeps message 0 |
| Completions.AppendKeepsBound | src/agentic_patterns/utils/completions.py:53-67 | starting at or below a bound of at least 1 (at least 2 for fixed-first), `append` succeeds and stays within the bound |
| Completions.AppendBelowBoundGrows | src/agentic_patterns/utils/completions.py:46-67 | when the length differs from the bound (always, under the default `-1`), nothing is evicted |
| Completions.OutgrownNeverEvicts | src/agentic_patterns/utils/completions.py:53-67 | a history built longer than its bound never shrinks: any sequence of appends only appends |
| Completions.SlidingWindow | src/agentic_patterns/utils/completions.py:59-67 | with `pop(0)` and a bound of at least 1, a history within the bound becomes the last `total_length` messages of everything appended |
| Completions.FixedFirstWindow | src/agentic_patterns/utils/completions.py:80-88 | with `pop(1)` and a bound of at least 2, the first message stays and the rest is the latest `total_length - 1` messages |
| Completions.FixedFirstExample | src/agentic_patterns/utils/completions.py:80-88 | capacity 3, one initial message and five appends leave three messages, the original one first |
| Completions.ChatHistory.constructor | src/agentic_patterns/utils/completions.py:45-57 | `ChatHistory(messages, total_length)` holds the given messages, or none for `None`, and evicts with `pop(0)` |
| Completions.ChatHistory.FixedFirst | src/agentic_patterns/utils/completions.py:70-78 | `FixedFirstChatHistory(messages, total_length)` holds the given messages and evicts with `pop(1)` |
| Completions.ChatHistory.Append | src/agentic_patterns/utils/completions.py:59-88 | the new list is what `Appended` gives for the history's own policy; on `IndexError` nothing changes |
| Completions.UpdateChatHistory | src/agentic_patterns/utils/completions.py:33-42 | exactly one untagged `{role, msg}` message is appended through the history's own `append`, so its eviction applies |
| Tools.TypeMapping | src/agentic_patterns/tool_pattern/tool.py:42-52 | lookup succeeds exactly for `int`, `str`, `bool`, `float` and returns the type of that name; otherwise `KeyError` of the tag, or of `None` when the property has no `"type"` |
| Tools.IsInstance | src/agentic_patterns/tool_pattern/tool.py:52 | `isinstance` against the four types: a `bool` is an instance of `bool` and of `int` and of nothing else, an `int` only of `int`; `None`, lists and dicts of none of them |
| Tools.RunTool | src/agentic_patterns/tool_pattern/tool.py:76-86 | `run(**kwargs)` forwards the keyword arguments to the tool's function and passes back its result or its error unchanged; the name and the signature text play no part |
| Tools.Coerce | src/agentic_patterns/tool_pattern/tool.py:53 | a successful coercion returns an instance of the target type; `str` and `bool` never fail |
| Tools.GetFnSignature | src/agentic_patterns/tool_pattern/tool.py:5-25 | the name and description are the function's; `properties` holds `{"type": name}` for exactly the annotated parameters other than `"return"` |
| Tools.CheckArgument | src/agentic_patterns/tool_pattern/tool.py:50-53 | an undeclared argument name raises `KeyError` of the name; an unsupported or missing type tag raises `type_mapping`'s `KeyError`; otherwise a value that already is an instance of the declared type is kept and any other value is replaced by that type's coercion of it, or the coercion's error is raised; on success the new value is an instance of the type |
| Tools.ValidatedFrom | src/agentic_patterns/tool_pattern/tool.py:49-53 | the validation loop from position `i` on leaves an argument list of the same length |
| Tools.Validated | src/agentic_patterns/tool_pattern/tool.py:49-55 | the whole validation loop leaves an argument list of the same length |
| Tools.ValidatedFromFacts | src/agentic_patterns/tool_pattern/tool.py:49-53 | the argument names, in order, never change and entries before `i` are untouched; arguments that pass their check as they are keep their value; on success every argument is declared, has a supported type and holds an instance of it, and every argument from `i` on holds the value its check gave: itself if already an instance, otherwise its coercion |
| Tools.ValidatedFacts | src/agentic_patterns/tool_pattern/tool.py:49-55 | the same facts for the whole loop: same keys in the same order, no missing parameter demanded; on success every argument is well typed and holds the value its check gave, itself if already an instance and otherwise its coercion |
| Tools.WellTypedUnchanged | src/agentic_patterns/tool_pattern/tool.py:52 | arguments that are already well typed come through unchanged and without error |
| Tools.ValidatedIdempotent | src/agentic_patterns/tool_pattern/tool.py:49-55 | validating a successfully validated list again changes nothing and succeeds |
| Tools.ValidatedFromError | src/agentic_patterns/tool_pattern/tool.py:49-53 | validation fails exactly when some check fails; the first failing argument decides the error, the arguments before it have passed and those from it on are untouched |
| Tools.ToolCall.constructor | src/agentic_patterns/tool_pattern/tool_agent.py:82 | the parsed call holds the given `name`, `arguments` and `id`, each possibly missing |
| Tools.ValidateArguments | src/agentic_patterns/tool_pattern/tool.py:28-55 | a call without `"arguments"` raises `KeyError`; otherwise the arguments are rewritten in place to what `Validated` leaves, even when it stops with an error, and on success the same call object is returned |
| Tools.MakeTool | src/agentic_patterns/tool_pattern/tool.py:89-106 | `@tool` names the tool after the signature's name (the function's name) and stores the function and the JSON text of its signature |
| Tools.AnnotatedArgumentsPass | src/agentic_patterns/tool_pattern/tool.py:16-53 | a call whose arguments are annotated parameters with a supported type and a value of that type validates unchanged |
| Tools.UnannotatedArgumentFails | src/agentic_patterns/tool_pattern/tool.py:22-50 | an argument that is not an annotated parameter (including one named `return`) makes validation fail |
| ToolUtils.ValidateArguments | src/agentic_patterns/tool_pattern/utils.py:3-22 | the same contract as `Tools.ValidateArguments`, pinned to the same `Validated`: the two copies agree on every input |
| ToolAgents.ToolsDict | src/agentic_patterns/tool_pattern/tool_agent.py:59 | the keys are exactly the tool names |
| ToolAgents.ToolsDictLast | src/agentic_patterns/tool_pattern/tool_agent.py:59 | a name maps to the last tool in the list carrying it |
| ToolAgents.NewToolAgent | src/agentic_patterns/tool_pattern/tool_agent.py:51-59 | a single tool becomes a one-element list; the dictionary is built from that list |
| ToolAgents.JoinAppend | src/agentic_patterns/tool_pattern/tool_agent.py:68 | `"".join` of a concatenation is the concatenation of the joins |
| ToolAgents.Signatures | src/agentic_patterns/tool_pattern/tool_agent.py:68 | one signature per tool, in list order |
| ToolAgents.SignatureInCatalog | src/agentic_patterns/tool_pattern/tool_agent.py:61-68 | the catalog is the in-order concatenation of the signatures: tool `k`'s signature sits right after those of the tools before it |
| ToolAgents.AddToolSignatures | src/agentic_patterns/tool_pattern/tool_agent.py:61-68 | empty without tools; otherwise it begins with the first tool's signature and ends with the last tool's |
| ToolAgents.ToolSystemPrompt | src/agentic_patterns/tool_pattern/tool_agent.py:19-35 | `TOOL_SYSTEM_PROMPT % signatures`: the template's text before `%s`, then the signatures unchanged, then the template's text after `%s` |
| ToolAgents.KeysCons | src/agentic_patterns/tool_pattern/tool_agent.py:98 | the keys of the observation dictionary are its first key and the keys of the rest |
| ToolAgents.GetFinds | src/agentic_patterns/tool_pattern/tool_agent.py:98 | a lookup finds a value exactly for the keys present |
| ToolAgents.PutLookup | src/agentic_patterns/tool_pattern/tool_agent.py:98 | after `d[k] = v`, `k` looks up `v` and every other key looks up what it did before |
| ToolAgents.PutGet | src/agentic_patterns/tool_pattern/tool_agent.py:98 | `d[k] = v` adds `k` to the keys, makes `k` look up `v`, changes no other key, and appends a new key at the end (insertion order) |
| ToolAgents.PutOverwrites | src/agentic_patterns/tool_pattern/tool_agent.py:98 | assigning to an existing key keeps the dictionary's length and order and replaces only that entry |
| ToolAgents.PutUnique | src/agentic_patterns/tool_pattern/tool_agent.py:98 | assignment keeps the keys unique |
| ToolAgents.LookupTool | src/agentic_patterns/tool_pattern/tool_agent.py:84 | lookup succeeds exactly for a string name in `tools_dict` and returns its tool; otherwise `KeyError` of the name |
| ToolAgents.HandleCall | src/agentic_patterns/tool_pattern/tool_agent.py:82 | a `json.loads` error refuses the call before anything else, with that error; a tool runs only for a call that parsed |
| ToolAgents.HandleParsed | src/agentic_patterns/tool_pattern/tool_agent.py:83-84 | a call without `"name"` raises `KeyError("name")`; an unknown name raises the lookup's `KeyError`; a tool runs only when the name looks it up, and it is that tool |
| ToolAgents.HandleTool | src/agentic_patterns/tool_pattern/tool_agent.py:89-98 | errors come in the source's order: the signature's `json.loads`, then a missing `"arguments"` (`KeyError("arguments")`), then validation, which raises the error of the first failing argument; the tool runs exactly when all three pass, on the validated arguments; a failing tool's error is passed on unchanged, and the entry is stored exactly when the run succeeds and the call has an id |
| ToolAgents.RunAndStore | src/agentic_patterns/tool_pattern/tool_agent.py:94-98 | the tool always runs; the pass succeeds exactly when the tool returns and the call has an `"id"`, and then stores `(id, result)`; a failing tool's error is the pass's error, unchanged; a tool that returns without an `"id"` gives `KeyError("id")` |
| ToolAgents.HandleCallStores | src/agentic_patterns/tool_pattern/tool_agent.py:81-98 | a successful pass parsed a call with a name, arguments and an id, found the tool, and stores the tool's result under that id |
| ToolAgents.Calls | src/agentic_patterns/tool_pattern/tool_agent.py:81 | one pass result per call text, in input order |
| ToolAgents.Fold | src/agentic_patterns/tool_pattern/tool_agent.py:80-100 | at most one tool run per call |
| ToolAgents.Step | src/agentic_patterns/tool_pattern/tool_agent.py:81-98 | after an error nothing more happens; otherwise the pass's tool run is recorded, and the observations are updated on success or replaced by the pass's error |
| ToolAgents.Processed | src/agentic_patterns/tool_pattern/tool_agent.py:70-100 | at most one tool run per call |
| ToolAgents.FoldSnoc | src/agentic_patterns/tool_pattern/tool_agent.py:81-98 | processing one more call is one more step |
| ToolAgents.FoldStops | src/agentic_patterns/tool_pattern/tool_agent.py:81-98 | once a call has raised, later calls change nothing |
| ToolAgents.FoldRuns | src/agentic_patterns/tool_pattern/tool_agent.py:80-100 | processing succeeds exactly when every pass succeeds, and then every call's tool has run, in order |
| ToolAgents.IdsSnoc | src/agentic_patterns/tool_pattern/tool_agent.py:98 | the ids of the calls are those of all but the last call, plus the last one's |
| ToolAgents.FoldKeys | src/agentic_patterns/tool_pattern/tool_agent.py:80-100 | the keys of the observations are exactly the ids of the calls |
| ToolAgents.FoldLastWins | src/agentic_patterns/tool_pattern/tool_agent.py:98 | under an id, the observation is the result of the last call carrying it: later calls overwrite earlier ones |
| ToolAgents.FoldUnique | src/agentic_patterns/tool_pattern/tool_agent.py:80-100 | the observation dictionary never holds a key twice |
| ToolAgents.ProcessedObservations | src/agentic_patterns/tool_pattern/tool_agent.py:80-100 | on success every call ran its own tool, in input order; its id is a key of the observations, and under an id no later call repeats the stored value is that call's result |
| ToolAgents.FailingCallStops | src/agentic_patterns/tool_pattern/tool_agent.py:81-98 | the first failing call ends processing with its error; the tools of the earlier calls have run (and its own, if it failed after running), and no later call is looked at |
| ToolAgents.UnknownToolRefused | src/agentic_patterns/tool_pattern/tool_agent.py:83-84 | a call naming no tool of the agent raises `KeyError` before anything runs |
| ToolAgents.MissingIdAfterRun | src/agentic_patterns/tool_pattern/tool_agent.py:94-98 | a call without `"id"` raises `KeyError("id")` after its tool has run |
| ToolAgents.HandleOne | src/agentic_patterns/tool_pattern/tool_agent.py:82-98 | one pass of the loop, with an in-place `validate_arguments` on a fresh call record, is the pass `HandleCall` specifies |
| ToolAgents.ProcessToolCalls | src/agentic_patterns/tool_pattern/tool_agent.py:70-100 | the loop yields the tool runs and the observations (or the first error) that `Processed` gives |
| ToolAgents.Run | src/agentic_patterns/tool_pattern/tool_agent.py:102-139 | the first completion sees exactly `[system(catalog), user]`; without tool calls, the second sees exactly `[user]`; with tool calls, it sees `[user, user(observations)]` once processing succeeds, and an error from processing ends the run before the second completion |
| ToolAgents.ReprEntries | src/agentic_patterns/tool_pattern/tool_agent.py:136 | the entries of `dict.__repr__`: empty exactly for an empty dict, otherwise they begin with `repr(key): repr(value)` of the first entry |
| ToolAgents.ReprDict | src/agentic_patterns/tool_pattern/tool_agent.py:136 | `dict.__repr__`: the entries between `{` and `}`, and `{}` exactly for an empty dict |
| ToolAgents.ObservationText | src/agentic_patterns/tool_pattern/tool_agent.py:136 | the observation message begins with the literal characters `f"Observation: {` and ends with `}"`; it is `f"Observation: {}"` exactly when there are no observations |
| Reflection.BuildPromptStructure | src/agentic_patterns/reflection_pattern/reflection_agent.py:30-42 | the record holds exactly the given role and the prompt unchanged |
| Reflection.Iterate | src/agentic_patterns/reflection_pattern/reflection_agent.py:119-137 | each step adds two messages to each history |
| Reflection.Initial | src/agentic_patterns/reflection_pattern/reflection_agent.py:114-117 | the generator starts from `[system(generation prompt), user(prompt)]` and the critic from `[system(reflection prompt)]` |
| Reflection.Once | src/agentic_patterns/reflection_pattern/reflection_agent.py:124-137 | a step appends two messages to each history and leaves what was there unchanged |
| Reflection.OnceRecords | src/agentic_patterns/reflection_pattern/reflection_agent.py:124-137 | a step adds the generation as the generator's `assistant` turn and the critic's `user` turn, then the critique, made from the critic's history with the generation, as the critic's `assistant` turn and the generator's `user` turn |
| Reflection.IteratePrefix | src/agentic_patterns/reflection_pattern/reflection_agent.py:119-137 | the histories after `m` steps are prefixes of those after any `n >= m` steps |
| Reflection.LastStepRecorded | src/agentic_patterns/reflection_pattern/reflection_agent.py:124-137 | the last step is recorded in place: the generation made from the generator's history is its `assistant` turn and the critic's `user` turn, and the critique made from the critic's history is its `assistant` turn and the generator's `user` turn, with identical contents |
| Reflection.StepRecordedExtends | src/agentic_patterns/reflection_pattern/reflection_agent.py:119-137 | appending to both histories keeps a recorded step recorded |
| Reflection.StepStays | src/agentic_patterns/reflection_pattern/reflection_agent.py:119-137 | every step before `n` is recorded in place after `n` steps |
| Reflection.RunShape | src/agentic_patterns/reflection_pattern/reflection_agent.py:114-137 | after `n` steps the histories have lengths `2 + 2n` and `1 + 2n` and start with the initial messages; every step is recorded in place; `generate` is only called on a history whose last message is the user's |
| Reflection.Run | src/agentic_patterns/reflection_pattern/reflection_agent.py:99-139 | the histories are those of `max(n_steps, 0)` steps from `[system, user(prompt)]` and `[system]`; with a positive `n_steps` the result is the last generation, the `assistant` message at index `2 * n_steps`; otherwise the return fails with `UnboundLocalError` |
| ReflectionUtils.BuildPromptStructure | src/agentic_patterns/reflection_pattern/utils.py:6-17 | the record holds exactly the given role and the prompt, with no tag wrapping |
| ReflectionUtils.BuildersAgree | src/agentic_patterns/reflection_pattern/utils.py:6-17 | it agrees with `ReflectionAgent.build_prompt_structure` and with the completions helper given an empty tag |
| Multiagent.ListAgentsAll | src/agentic_patterns/multiagent_pattern/agent.py:122-145 | a list all of whose items are agents is processed item by item, in list order |
| Multiagent.PromptHolds | src/agentic_patterns/multiagent_pattern/agent.py:165-190 | `Prompt`, the text `create_prompt` builds: the prompt opens with the instructions, ends by requesting the response, and holds the task description, the expected output and the context, each in its own tagged block, in that order |
| Multiagent.Chunk | src/agentic_patterns/multiagent_pattern/agent.py:156 | what `receive_context` appends: the receiver's name, then ` received context: ` and a newline, then the payload unchanged |
| Multiagent.Scope.constructor | src/agentic_patterns/multiagent_pattern/crew.py:11 | no crew is active at first |
| Multiagent.Agent.constructor | src/agentic_patterns/multiagent_pattern/agent.py:34-57 | a new agent has no dependencies, no dependents and an empty context, and is appended to the active crew, if there is one |
| Multiagent.Agent.AddDependency | src/agentic_patterns/multiagent_pattern/agent.py:109-127 | an agent or a list of agents is accepted (an empty list changes nothing); each named agent is appended to `dependencies`, and this agent to each one's `dependents`, once per occurrence and in order; any other value raises `TypeError` before anything changes |
| Multiagent.Agent.AddDependent | src/agentic_patterns/multiagent_pattern/agent.py:129-147 | the mirror image: each named agent is appended to `dependents`, and this agent to each one's `dependencies`; any other value raises `TypeError` with nothing changed |
| Multiagent.AddedDependenciesKeepWiring | src/agentic_patterns/multiagent_pattern/agent.py:119-125 | the effect of `add_dependency` on registered agents, with no other list touched, keeps each edge listed as often on both sides and every neighbour registered |
| Multiagent.AddedDependentsKeepWiring | src/agentic_patterns/multiagent_pattern/agent.py:139-145 | the same for `add_dependent`: the edge-symmetry and registered-neighbour invariants are kept |
| Multiagent.JoinKeepsWiring | src/agentic_patterns/multiagent_pattern/agent.py:51-57 | registering a new, unwired agent that no registered agent lists keeps the crew well formed: distinct, symmetric, neighbours registered |
| Multiagent.Agent.WaitForAll | src/agentic_patterns/multiagent_pattern/agent.py:122-125 | the list is appended to `dependencies`, and this agent to each item's `dependents`, once per occurrence |
| Multiagent.Agent.ReleaseAll | src/agentic_patterns/multiagent_pattern/agent.py:142-145 | the list is appended to `dependents`, and this agent to each item's `dependencies`, once per occurrence |
| Multiagent.Agent.RShift | src/agentic_patterns/multiagent_pattern/agent.py:62-70 | `a >> b` makes what `b` names wait for `a` and returns `b` |
| Multiagent.Agent.LShift | src/agentic_patterns/multiagent_pattern/agent.py:72-83 | `a << b` makes `a` wait for what `b` names and returns `b` |
| Multiagent.Agent.RRShift | src/agentic_patterns/multiagent_pattern/agent.py:85-93 | `other >> a` makes `a` wait for `other` and returns `a` |
| Multiagent.Agent.RLShift | src/agentic_patterns/multiagent_pattern/agent.py:95-107 | `other << a` makes `other` wait for `a` and returns `a` |
| Multiagent.Agent.ReceiveContext | src/agentic_patterns/multiagent_pattern/agent.py:149-156 | the old context is a prefix of the new one, which adds exactly the receiver's own name, the fixed marker and the input |
| Multiagent.Agent.CreatePrompt | src/agentic_patterns/multiagent_pattern/agent.py:158-192 | a function of the agent's fields, so nothing changes; it embeds the task description, the expected output and the current context in their tagged blocks |
| Multiagent.Agent.Run | src/agentic_patterns/multiagent_pattern/agent.py:194-209 | the output is the reasoning agent's answer to the prompt built before the run; each dependent receives it once per entry in `dependents` |
| Multiagent.Agent.Broadcast | src/agentic_patterns/multiagent_pattern/agent.py:207-208 | each dependent's context gains one chunk per entry in `dependents`, in list order |
| Multiagent.Roots | src/agentic_patterns/multiagent_pattern/crew.py:35 | the seed of the queue is exactly the agents without dependencies, in registration order |
| Multiagent.Fanout | src/agentic_patterns/multiagent_pattern/crew.py:76-78 | the dependents list of each agent of the order |
| Multiagent.FanoutOf | src/agentic_patterns/multiagent_pattern/crew.py:76-78 | lists that agree entry by entry with the dependents of the order are its fanout |
| Multiagent.RanInOrderAt | src/agentic_patterns/multiagent_pattern/crew.py:76-78 | in a run in order, agent `k` produced its output from the prompt it built after the first `k` agents had run |
| Multiagent.ReceivedStep | src/agentic_patterns/multiagent_pattern/agent.py:207-208 | one more agent's turn adds its output to what each agent has received, once per time that agent is its dependent |
| Multiagent.ContextAfterRun | src/agentic_patterns/multiagent_pattern/crew.py:76-78 | a context that held what the first `k` agents sent holds, after agent `k` runs, what the first `k + 1` sent |
| Multiagent.DependencyEdges | src/agentic_patterns/multiagent_pattern/crew.py:70-71 | one edge from each dependency to the agent |
| Multiagent.Plot | src/agentic_patterns/multiagent_pattern/crew.py:55-72 | one node per agent, named after it, in order; the edges are exactly the `(dependency, agent)` pairs |
| Multiagent.Crew.constructor | src/agentic_patterns/multiagent_pattern/crew.py:13-14 | a new crew has no agents |
| Multiagent.Crew.Enter | src/agentic_patterns/multiagent_pattern/crew.py:16-19 | this crew becomes the active one and the `with` target |
| Multiagent.Crew.Exit | src/agentic_patterns/multiagent_pattern/crew.py:21-23 | no crew is active afterwards; an outer crew is not restored |
| Multiagent.Crew.AddAgent | src/agentic_patterns/multiagent_pattern/crew.py:25-26 | the agent is appended, duplicates included |
| Multiagent.Crew.RegisterAgent | src/agentic_patterns/multiagent_pattern/crew.py:28-31 | appends the agent to the active crew when there is one, and changes nothing otherwise |
| Multiagent.Crew.Contexts | src/agentic_patterns/multiagent_pattern/crew.py:74-78 | each registered agent's context |
| Multiagent.Crew.TopologicalSort | src/agentic_patterns/multiagent_pattern/crew.py:33-53 | on any wiring, a result lists as many agents as are registered, all registered, starting with the seeded roots; an error is the cycle `ValueError` or a `KeyError` for an unregistered dependent. On a well-formed crew it succeeds exactly when there is no cycle; the result is then a permutation of the agents, each after all it waits for; otherwise it fails with the cycle `ValueError` |
| Multiagent.Crew.WellFormed | src/agentic_patterns/multiagent_pattern/agent.py:119-145 | distinct agents, registered neighbours and edge symmetry, the invariant the wiring operations keep (`AddedDependenciesKeepWiring`, `AddedDependentsKeepWiring`, `JoinKeepsWiring`); on it the two lists mirror each other: `b` is among `a`'s dependencies exactly when `a` is among `b`'s dependents |
| Multiagent.Crew.HasCycle | src/agentic_patterns/multiagent_pattern/crew.py:48-51 | a cycle among the registered agents; there is one only when some registered agent waits for a registered agent |
| Multiagent.Crew.ScheduleCovers | src/agentic_patterns/multiagent_pattern/crew.py:48-53 | a schedule (`IsSchedule`) is as long as the list of registered agents and holds the same agents |
| Multiagent.Crew.Kahn | src/agentic_patterns/multiagent_pattern/crew.py:34-46 | Kahn's loop emits only registered agents, including every root, or stops on an unregistered dependent; on a well-formed crew it ends with the invariant of the sort and an empty queue |
| Multiagent.Crew.KahnStep | src/agentic_patterns/multiagent_pattern/crew.py:40-46 | one turn emits the head of the queue and releases its dependents, keeping the loop invariant and decreasing the measure, or reports an unregistered dependent |
| Multiagent.Crew.Run | src/agentic_patterns/multiagent_pattern/crew.py:74-78 | when the sort fails no agent runs and no context changes; otherwise each agent runs exactly once, in sorted order: agent `k`'s output answers the prompt built from its context plus what the earlier agents sent; at the end every context holds what all agents sent it. On a well-formed crew it fails exactly on a cycle and the order is a schedule |
| Multiagent.Crew.RunStep | src/agentic_patterns/multiagent_pattern/crew.py:76-78 | agent `k`'s turn produces its output from the prompt of its turn and keeps the invariant of the run |
| Multiagent.Crew.RunInOrder | src/agentic_patterns/multiagent_pattern/crew.py:76-78 | the loop yields one output per agent, as `RanInOrderAt` says, and leaves each context holding what all agents sent it |
| Multiagent.ReleaseDependents | src/agentic_patterns/multiagent_pattern/crew.py:43-46 | the inner loop raises `KeyError` exactly for a dependent without an in-degree; otherwise it gives the in-degrees and the queue that `Release` specifies |
| Multiagent.Release | src/agentic_patterns/multiagent_pattern/crew.py:43-46 | releasing keeps the in-degree keys, only appends to the queue, and queues only released agents |
| Multiagent.ReleaseMeasure | src/agentic_patterns/multiagent_pattern/crew.py:43-46 | a release never increases the queue length plus the number of positive in-degrees |
| Multiagent.PositiveStep | src/agentic_patterns/multiagent_pattern/crew.py:44-45 | a decrement takes an agent out of the positive set exactly when its in-degree reaches 0 |
| Multiagent.ReleaseFirst | src/agentic_patterns/multiagent_pattern/crew.py:43-46 | releasing a list is one decrement, then releasing the rest |
| Multiagent.KahnStart | src/agentic_patterns/multiagent_pattern/crew.py:34-35 | with each agent registered once, the starting in-degrees (the number of dependencies) and the seeded queue satisfy the invariant of the sort: each in-degree counts the dependencies not yet emitted, and the queue holds each agent of in-degree 0 once |
| Multiagent.KahnPop | src/agentic_patterns/multiagent_pattern/crew.py:40-41 | dequeuing and emitting the head keeps the emitted order respecting dependencies and closed under them, and leaves exactly its dependents as pending decrements |
| Multiagent.KahnRelease | src/agentic_patterns/multiagent_pattern/crew.py:44-46 | one decrement keeps every pending in-degree equal to the number of dependencies not yet emitted, and queues an agent exactly when that count reaches 0 |
| Multiagent.KahnReleaseAll | src/agentic_patterns/multiagent_pattern/crew.py:43-46 | releasing all of the emitted agent's dependents restores the invariant between two dequeues |
| Multiagent.KahnReleaseHead | src/agentic_patterns/multiagent_pattern/crew.py:44-46 | the first decrement of a release keeps the pending counts and reduces the release to the rest |
| Multiagent.KahnTurn | src/agentic_patterns/multiagent_pattern/crew.py:40-46 | one whole turn of the loop keeps the invariant on a well-formed crew |
| Multiagent.KahnStuck | src/agentic_patterns/multiagent_pattern/crew.py:48-51 | when the queue runs dry before every agent is emitted, the agents left over contain a cycle |
| Multiagent.KahnDone | src/agentic_patterns/multiagent_pattern/crew.py:48-53 | when every agent is emitted, the order is a permutation of the agents respecting dependencies, and there is no cycle |
| Multiagent.StuckCycle | src/agentic_patterns/multiagent_pattern/crew.py:48-51 | a nonempty set in which every agent waits for another of the set contains a dependency cycle |
| Multiagent.ClosedWalk | src/agentic_patterns/multiagent_pattern/crew.py:48-51 | the stretch of a dependency walk between two visits of the same agent is a cycle |
| Multiagent.CycleBlocksOrder | src/agentic_patterns/multiagent_pattern/crew.py:48-53 | no order of the agents of a cycle respects dependencies, so the sort cannot succeed on one |

## Left out

- The language model is a function parameter. This covers `completions_create`, the Groq client, the model name and `load_dotenv`. `ReflectionAgent.generate`/`reflect` enter `Reflection.Run` as the parameters `generate` and `reflect`. The two completions of `ToolAgent.run` enter as `complete`.
- `ReactAgent` is not part of this model. The reasoning agent behind `Agent.run` is the parameter `react` (agent, prompt → output). The `tools` and `llm` constructor arguments of `Agent` are therefore left out.
- Console output, colours and delays are left out: `print`, `fancy_print`, colorama, `time.sleep`, and both `fancy_step_tracker` helpers. They change no state the model keeps. `Crew.run` keeps only the runs, not the printing.
- Graphviz rendering is left out. `Multiagent.Plot` gives the nodes and edges of the diagram only.
- `json.loads` and `json.dumps` are parameters:
  - `Oracles.parse` parses a tool call;
  - `Oracles.loadSignature` parses a tool's signature text;
  - `MakeTool` takes `dumps`.

  Their round trip is not modelled.
- Python's `int`, `str`, `bool` and `float` constructors are parameters (`Tools.Coercions`). Their only assumed property is the one `Coerce` states: a result is an instance of its type, and `str` and `bool` never raise. Floats are kept as their text.
- Introspection is reduced to `Tools.Callable`: a name, a doc string and the map from parameter names to type names. `fn(**kwargs)` is the parameter `invoke`.
- The regular expression `<{tag}>(.*?)</{tag}>` is modelled with the tag read literally. The tag is put into the pattern unescaped, so a tag holding a regular-expression metacharacter (`a*`, `a.b`, `[x]`) is a pattern in its own right; this is not modelled. The proved round trips are stated for plain tags only: letters, digits, `_` and `-` (`PlainTag`), which `re` reads literally. The source's own tag, `tool_call`, is one.
- Extraction.ExtractTagContent: matches the tag literally, so it agrees with `re` only for plain tags; for other tags the model's result may differ from the source's.
- Extraction.FindAllFrom: carries no contract of its own; its properties are stated by `FindAllBound` and `FindAllDecomposes`, and through `FindAll`.
- `dedent`/`strip` of the agent prompt template is left out. `Multiagent.PromptIntro` stands for the dedented instructions, and the layout is stated by `PromptHolds`. `dedent` removes the common indentation only when every line of the f-string's result carries it. A continuation line of an interpolated value starts without it, and every non-empty context has one, because `receive_context` puts the payload on a new line (agent.py:156). So `textwrap.dedent` removes nothing for such a prompt, and the real prompt keeps the template's indentation. `Multiagent.Prompt` and `PromptAt` are the exact text only when the three values are single lines, in particular only for an empty context. No proved property depends on the indentation.
- Multiagent.Prompt: carries no contract of its own, to keep the proofs that unfold it cheap; its layout is stated by `PromptHolds`.
- `Crew.current_crew` is the explicit `Multiagent.Scope` object passed to the agent constructor. There is no concurrency in the source.
- Dictionary keys are modelled as distinct when they are distinct values. Python's equality across types (`1 == True`) and unhashable keys are left out.
- `ChatHistory` and `FixedFirstChatHistory` are one class with a `Policy` field; Python's list subclassing is not modelled. Only `append` is modelled among the inherited list operations.
- `ToolAgents.Run` returns the two histories as out-parameters so that its contract can name them.
- `Tool.__str__`, `ReflectionAgent.__str__` and `Agent.__repr__` are left out: each returns a stored field.
- `ToolAgents.ObservationText` and `ReprDict` take the dictionary's `repr` of a value as a parameter. The braces, separators and order follow `dict.__repr__`.
- `Reflection.Run`: with `n_steps <= 0` the source's `return generation` reads an unbound local. The model returns `Err(UnboundLocalError("generation"))` without the histories being returned in Python.
- `Tools.Coerce`: does not state which values `int` and `float` accept; that is left to the parameter.
- Multiagent.Crew.WellFormed: the wiring operations are shown to keep it only when they wire agents that are already registered. Wiring an agent that no crew holds is allowed by the source and breaks the registered-neighbour part. For a new agent, `JoinKeepsWiring` takes as a premise that no registered agent lists it yet; the model does not derive this from the agent being newly allocated.
- `Multiagent.Crew.TopologicalSort`: the permutation and dependency-order guarantees are stated only for a well-formed crew. Without that, only the registered-agents and error-kind facts are stated: the source's result on duplicate registrations or one-sided edges is whatever its counts give.
