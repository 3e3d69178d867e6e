/** The reflection agent: a generation history and a reflection history grown in lock step. Each step the
    model generates from the generation history, the generation is handed to the critic as a user message,
    and the critique comes back to the generator as a user message. The two completions are parameters. */
module Reflection {
  import opened Wrappers
  import opened Completions

  /** `ReflectionAgent.build_prompt_structure(prompt, role)`: the `{"role", "content"}` record, untouched. */
  function BuildPromptStructure(prompt: string, role: string): (m: Message)
    ensures m.role == role && m.content == prompt
  {
    Message(role, prompt)
  }

  /** The two histories of `run`. */
  datatype Histories = Histories(generation: seq<Message>, reflection: seq<Message>)

  /** Before the first step: the generator's system prompt and the user's prompt; the critic's system prompt. */
  function Initial(generationSystemPrompt: string, reflectionSystemPrompt: string, prompt: string): (r: Histories)
    ensures |r.generation| == 2 && |r.reflection| == 1
    ensures r.generation[0] == Message("system", generationSystemPrompt)
    ensures r.generation[1] == Message("user", prompt)
    ensures r.reflection[0] == Message("system", reflectionSystemPrompt)
  {
    Histories([BuildPromptStructure(generationSystemPrompt, "system"), BuildPromptStructure(prompt, "user")],
              [BuildPromptStructure(reflectionSystemPrompt, "system")])
  }

  /** One step of the loop: generate, record the generation on both sides, reflect, record the critique on both sides. */
  function Once(h: Histories, generate: seq<Message> -> string, reflect: seq<Message> -> string): (r: Histories)
    ensures |r.generation| == |h.generation| + 2 && |r.reflection| == |h.reflection| + 2
    ensures r.generation[..|h.generation|] == h.generation && r.reflection[..|h.reflection|] == h.reflection
  {
    var generation := generate(h.generation);
    var reflection := h.reflection + [BuildPromptStructure(generation, "user")];
    var critique := reflect(reflection);
    Histories(h.generation + [BuildPromptStructure(generation, "assistant"), BuildPromptStructure(critique, "user")],
              reflection + [BuildPromptStructure(critique, "assistant")])
  }

  /** The histories after `n` steps. */
  function Iterate(h: Histories, n: nat, generate: seq<Message> -> string, reflect: seq<Message> -> string): (r: Histories)
    ensures |r.generation| == |h.generation| + 2 * n && |r.reflection| == |h.reflection| + 2 * n
    decreases n
  {
    if n == 0 then h else Once(Iterate(h, n - 1, generate, reflect), generate, reflect)
  }

  /** A step adds the generation as the generator's answer and as the critic's input, then the critique
      as the critic's answer and as the generator's next input; the critic sees its history with the generation. */
  lemma OnceRecords(h: Histories, generate: seq<Message> -> string, reflect: seq<Message> -> string)
    ensures var r, g, c := Once(h, generate, reflect), |h.generation|, |h.reflection|;
      && r.generation[g] == Message("assistant", generate(h.generation))
      && r.reflection[c] == Message("user", generate(h.generation))
      && r.reflection[c + 1] == Message("assistant", reflect(r.reflection[..c + 1]))
      && r.generation[g + 1] == Message("user", reflect(r.reflection[..c + 1]))
  {
  }

  /** Later steps only append: the histories after `m` steps are prefixes of those after `n >= m` steps. */
  lemma {:induction false} IteratePrefix(h: Histories, m: nat, n: nat, generate: seq<Message> -> string, reflect: seq<Message> -> string)
    requires m <= n
    ensures var hm := Iterate(h, m, generate, reflect);
      var hn := Iterate(h, n, generate, reflect);
      hm.generation == hn.generation[..|hm.generation|] && hm.reflection == hn.reflection[..|hm.reflection|]
    decreases n
  {
    var hm := Iterate(h, m, generate, reflect);
    var hn := Iterate(h, n, generate, reflect);
    if m < n {
      var hp := Iterate(h, n - 1, generate, reflect);
      assert hm.generation == hp.generation[..|hm.generation|] && hm.reflection == hp.reflection[..|hm.reflection|] by {
        IteratePrefix(h, m, n - 1, generate, reflect);
      }
      assert hn.generation[..|hp.generation|] == hp.generation && hn.reflection[..|hp.reflection|] == hp.reflection by {
        assert hn == Once(hp, generate, reflect);
      }
      assert hn.generation[..|hm.generation|] == hn.generation[..|hp.generation|][..|hm.generation|];
      assert hn.reflection[..|hm.reflection|] == hn.reflection[..|hp.reflection|][..|hm.reflection|];
    } else {
      assert hn.generation[..|hn.generation|] == hn.generation;
      assert hn.reflection[..|hn.reflection|] == hn.reflection;
    }
  }

  /** Step `j` (counting from 0) as it sits in the histories after `n > j` steps: the generation made from the
      first `2 + 2j` generation messages is the assistant's turn there and the user's turn for the critic, and the
      critique made from the first `2 + 2j` reflection messages is the critic's turn and the user's turn for the
      generator. */
  ghost predicate StepRecorded(h: Histories, j: nat, generate: seq<Message> -> string, reflect: seq<Message> -> string)
    requires 4 + 2 * j <= |h.generation| && 3 + 2 * j <= |h.reflection|
  {
    && h.generation[2 + 2 * j] == Message("assistant", generate(h.generation[..2 + 2 * j]))
    && h.reflection[1 + 2 * j] == Message("user", h.generation[2 + 2 * j].content)
    && h.reflection[2 + 2 * j] == Message("assistant", reflect(h.reflection[..2 + 2 * j]))
    && h.generation[3 + 2 * j] == Message("user", h.reflection[2 + 2 * j].content)
  }

  /** The last of `j + 1` steps is step `j`. */
  lemma LastStepRecorded(h0: Histories, j: nat, generate: seq<Message> -> string, reflect: seq<Message> -> string)
    requires |h0.generation| == 2 && |h0.reflection| == 1
    ensures StepRecorded(Iterate(h0, j + 1, generate, reflect), j, generate, reflect)
  {
    var hs := Iterate(h0, j + 1, generate, reflect);
    var hj := Iterate(h0, j, generate, reflect);
    assert hs == Once(hj, generate, reflect);
    assert hs.generation[..2 + 2 * j] == hj.generation;
    assert hs.reflection[..2 + 2 * j] == hj.reflection + [hs.reflection[1 + 2 * j]];
  }

  /** Appending to both histories keeps a recorded step recorded. */
  lemma StepRecordedExtends(h: Histories, h': Histories, j: nat, generate: seq<Message> -> string, reflect: seq<Message> -> string)
    requires 4 + 2 * j <= |h.generation| <= |h'.generation| && 3 + 2 * j <= |h.reflection| <= |h'.reflection|
    requires h'.generation[..|h.generation|] == h.generation && h'.reflection[..|h.reflection|] == h.reflection
    requires StepRecorded(h, j, generate, reflect)
    ensures StepRecorded(h', j, generate, reflect)
  {
    assert h'.generation[..2 + 2 * j] == h.generation[..2 + 2 * j];
    assert h'.reflection[..2 + 2 * j] == h.reflection[..2 + 2 * j];
    assert h'.generation[2 + 2 * j] == h.generation[2 + 2 * j] && h'.generation[3 + 2 * j] == h.generation[3 + 2 * j];
    assert h'.reflection[1 + 2 * j] == h.reflection[1 + 2 * j] && h'.reflection[2 + 2 * j] == h.reflection[2 + 2 * j];
  }

  /** Step `j` is recorded in place after any `n > j` steps: it is the last step of the first `j + 1`, and later
      steps only append. */
  lemma StepStays(h0: Histories, n: nat, j: nat, generate: seq<Message> -> string, reflect: seq<Message> -> string)
    requires |h0.generation| == 2 && |h0.reflection| == 1 && j < n
    ensures StepRecorded(Iterate(h0, n, generate, reflect), j, generate, reflect)
  {
    LastStepRecorded(h0, j, generate, reflect);
    IteratePrefix(h0, j + 1, n, generate, reflect);
    StepRecordedExtends(Iterate(h0, j + 1, generate, reflect), Iterate(h0, n, generate, reflect), j, generate, reflect);
  }

  /** The shape of both histories after `n` steps from the initial ones: lengths `2 + 2n` and `1 + 2n`, the
      initial messages first, every step recorded in place, and the generator only ever asked on a history whose
      last message is the user's. */
  lemma RunShape(generationSystemPrompt: string, reflectionSystemPrompt: string, prompt: string, n: nat,
                 generate: seq<Message> -> string, reflect: seq<Message> -> string)
    ensures var h0 := Initial(generationSystemPrompt, reflectionSystemPrompt, prompt);
      var h := Iterate(h0, n, generate, reflect);
      && |h.generation| == 2 + 2 * n && |h.reflection| == 1 + 2 * n
      && h.generation[..2] == h0.generation && h.reflection[..1] == h0.reflection
      && (forall j: nat :: j < n ==> StepRecorded(h, j, generate, reflect))
      && (forall j: nat :: j <= n ==> h.generation[1 + 2 * j].role == "user")
  {
    var h0 := Initial(generationSystemPrompt, reflectionSystemPrompt, prompt);
    var h := Iterate(h0, n, generate, reflect);
    IteratePrefix(h0, 0, n, generate, reflect);
    forall j: nat | j < n ensures StepRecorded(h, j, generate, reflect) {
      StepStays(h0, n, j, generate, reflect);
    }
    forall j: nat | j <= n ensures h.generation[1 + 2 * j].role == "user" {
      if j > 0 {
        StepStays(h0, n, j - 1, generate, reflect);
      } else {
        assert h.generation[1] == h.generation[..2][1];
      }
    }
  }

  /** `ReflectionAgent.run`: `n_steps` rounds (none when it is not positive), returning the last generation.
      With no round at all the variable holding the generation is never bound, and `run` raises. */
  method Run(generationSystemPrompt: string, reflectionSystemPrompt: string, prompt: string, nSteps: int,
             generate: seq<Message> -> string, reflect: seq<Message> -> string)
    returns (r: Result<string>, generationHistory: seq<Message>, reflectionHistory: seq<Message>)
    ensures var n := if nSteps > 0 then nSteps else 0;
      Histories(generationHistory, reflectionHistory)
        == Iterate(Initial(generationSystemPrompt, reflectionSystemPrompt, prompt), n, generate, reflect)
    ensures nSteps <= 0 ==> r == Err(UnboundLocalError("generation"))
    ensures nSteps > 0 ==>
      && |generationHistory| == 2 + 2 * nSteps
      && r == Ok(generationHistory[2 * nSteps].content)
      && generationHistory[2 * nSteps].role == "assistant"
  {
    ghost var h0 := Initial(generationSystemPrompt, reflectionSystemPrompt, prompt);
    generationHistory := [BuildPromptStructure(generationSystemPrompt, "system")];
    generationHistory := generationHistory + [BuildPromptStructure(prompt, "user")];
    reflectionHistory := [BuildPromptStructure(reflectionSystemPrompt, "system")];
    var generation: Option<string> := None;
    var steps := if nSteps > 0 then nSteps else 0;
    for step := 0 to steps
      invariant Histories(generationHistory, reflectionHistory) == Iterate(h0, step, generate, reflect)
      invariant generation.Some? <==> step > 0
      invariant step > 0 ==> generation.Some? && generationHistory[2 * step] == Message("assistant", generation.value)
    {
      var output := generate(generationHistory);
      generation := Some(output);
      generationHistory := generationHistory + [BuildPromptStructure(output, "assistant")];
      reflectionHistory := reflectionHistory + [BuildPromptStructure(output, "user")];
      var critique := reflect(reflectionHistory);
      reflectionHistory := reflectionHistory + [BuildPromptStructure(critique, "assistant")];
      generationHistory := generationHistory + [BuildPromptStructure(critique, "user")];
    }
    if generation.None? {
      return Err(UnboundLocalError("generation")), generationHistory, reflectionHistory;
    }
    r := Ok(generation.value);
  }
}
