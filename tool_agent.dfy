/** The tool agent: a first completion picks tool calls out of the model's answer, the agent runs
    them, and a second completion answers the user with the tools' observations. The language
    model, `json.loads`, the tools' own code and `repr` are parameters. */
module ToolAgents {
  import opened Wrappers
  import opened Tools
  import Completions
  import Extraction

  /** The `tools` argument: one tool or a list of them. */
  datatype ToolsArg = OneTool(tool: Tool) | ToolList(tools: seq<Tool>)

  /** The fields `__init__` sets; nothing changes them afterwards. */
  datatype ToolAgent = ToolAgent(tools: seq<Tool>, toolsDict: map<string, Tool>)

  /** `{tool.name: tool for tool in tools}`: one entry per name, the last tool with that name winning. */
  function ToolsDict(tools: seq<Tool>): (d: map<string, Tool>)
    ensures d.Keys == set t | t in tools :: t.name
    decreases |tools|
  {
    if tools == [] then map[]
    else
      var init := tools[..|tools| - 1];
      var last := tools[|tools| - 1];
      assert forall t :: t in tools <==> t in init || t == last;
      ToolsDict(init)[last.name := last]
  }

  /** The entry of a name is the last tool in the list carrying it. */
  lemma {:induction false} ToolsDictLast(tools: seq<Tool>, k: nat)
    requires k < |tools| && forall j :: k < j < |tools| ==> tools[j].name != tools[k].name
    ensures ToolsDict(tools)[tools[k].name] == tools[k]
    decreases |tools|
  {
    if k < |tools| - 1 {
      var init := tools[..|tools| - 1];
      assert init[k] == tools[k];
      forall j | k < j < |init| ensures init[j].name != init[k].name {
        assert init[j] == tools[j];
      }
      ToolsDictLast(init, k);
    }
  }

  /** `ToolAgent(tools)`: a single tool becomes a one-element list. */
  function NewToolAgent(arg: ToolsArg): (a: ToolAgent)
    ensures a.tools == (match arg case OneTool(t) => [t] case ToolList(ts) => ts)
    ensures a.toolsDict == ToolsDict(a.tools)
  {
    var tools := match arg case OneTool(t) => [t] case ToolList(ts) => ts;
    ToolAgent(tools, ToolsDict(tools))
  }

  /** `"".join(parts)`. */
  function Join(parts: seq<string>): string
    decreases |parts|
  {
    if parts == [] then "" else Join(parts[..|parts| - 1]) + parts[|parts| - 1]
  }

  /** Joining two lists one after the other is joining their concatenation. */
  lemma {:induction false} JoinAppend(a: seq<string>, b: seq<string>)
    ensures Join(a + b) == Join(a) + Join(b)
    decreases |b|
  {
    if b == [] {
      assert a + b == a;
    } else {
      var b' := b[..|b| - 1];
      JoinAppend(a, b');
      assert (a + b)[..|a + b| - 1] == a + b';
      assert (a + b)[|a + b| - 1] == b[|b| - 1];
    }
  }

  function Signatures(tools: seq<Tool>): (r: seq<string>)
    ensures |r| == |tools| && forall k :: 0 <= k < |tools| ==> r[k] == tools[k].fnSignature
  {
    seq(|tools|, k requires 0 <= k < |tools| => tools[k].fnSignature)
  }

  /** `add_tool_signatures()`: the signatures of the tools, concatenated in list order. */
  function AddToolSignatures(agent: ToolAgent): (r: string)
    ensures agent.tools == [] ==> r == ""
    ensures agent.tools != [] ==> agent.tools[0].fnSignature <= r
    ensures agent.tools != [] ==>
      var last := agent.tools[|agent.tools| - 1].fnSignature;
      |last| <= |r| && r[|r| - |last|..] == last
  {
    var sigs := Signatures(agent.tools);
    if sigs == [] then ""
    else
      JoinAppend([sigs[0]], sigs[1..]);
      assert [sigs[0]] + sigs[1..] == sigs;
      assert [sigs[0]][..0] == [];
      Join(sigs)
  }

  /** Each tool's signature sits in the catalog right after those of the tools before it. */
  lemma SignatureInCatalog(agent: ToolAgent, k: nat)
    requires k < |agent.tools|
    ensures var sigs := Signatures(agent.tools);
      AddToolSignatures(agent) == Join(sigs[..k]) + agent.tools[k].fnSignature + Join(sigs[k + 1..])
  {
    var sigs := Signatures(agent.tools);
    assert sigs == sigs[..k] + [sigs[k]] + sigs[k + 1..];
    JoinAppend(sigs[..k] + [sigs[k]], sigs[k + 1..]);
    JoinAppend(sigs[..k], [sigs[k]]);
    assert [sigs[k]][..0] == [];
  }

  /** The text of `TOOL_SYSTEM_PROMPT` before and after its `%s`. */
  const ToolPromptHead: string :=
    "\nYou are a function calling AI model. You are provided with function signatures within <tools></tools> XML tags.\n"
    + "You may call one or more functions to assist with the user query. Don't make assumptions about what values to plug\n"
    + "into functions. Pay special attention to the properties 'types'. You should use those types as in a Python dict.\n"
    + "For each function call return a json object with function name and arguments within <tool_call></tool_call>\n"
    + "XML tags as follows:\n\n<tool_call>\n"
    + "{\"name\": <function-name>,\"arguments\": <args-dict>,  \"id\": <monotonically-increasing-id>}\n"
    + "</tool_call>\n\nHere are the available tools:\n\n<tools>\n"
  const ToolPromptTail: string := "\n</tools>\n"

  /** `TOOL_SYSTEM_PROMPT % signatures`. */
  function ToolSystemPrompt(signatures: string): (r: string)
    ensures |r| == |ToolPromptHead| + |signatures| + |ToolPromptTail|
    ensures r[..|ToolPromptHead|] == ToolPromptHead
    ensures r[|ToolPromptHead|..|r| - |ToolPromptTail|] == signatures
    ensures r[|r| - |ToolPromptTail|..] == ToolPromptTail
  {
    ToolPromptHead + signatures + ToolPromptTail
  }

  /** A dictionary as Python keeps it: entries in insertion order, each key once. */
  type Dict = seq<(Value, Value)>

  function Keys(d: Dict): set<Value> {
    set p | p in d :: p.0
  }

  /** `d.get(k)`. */
  function Get(d: Dict, k: Value): Option<Value>
    decreases |d|
  {
    if d == [] then None
    else if d[0].0 == k then Some(d[0].1)
    else Get(d[1..], k)
  }

  /** `d[k] = v`: an existing key keeps its place and takes the new value; a new key goes last. */
  function Put(d: Dict, k: Value, v: Value): Dict
    decreases |d|
  {
    if d == [] then [(k, v)]
    else if d[0].0 == k then [(k, v)] + d[1..]
    else [d[0]] + Put(d[1..], k, v)
  }

  /** No key appears twice. */
  predicate UniqueKeys(d: Dict) {
    forall i, j :: 0 <= i < j < |d| ==> d[i].0 != d[j].0
  }

  lemma KeysCons(d: Dict)
    requires d != []
    ensures Keys(d) == {d[0].0} + Keys(d[1..])
  {
    assert forall p :: p in d <==> p == d[0] || p in d[1..];
  }

  /** A key is found exactly when it is one of the keys. */
  lemma {:induction false} GetFinds(d: Dict, k: Value)
    ensures Get(d, k).Some? <==> k in Keys(d)
    decreases |d|
  {
    if d != [] {
      KeysCons(d);
      GetFinds(d[1..], k);
    }
  }

  /** Looking up one key after `d[k] = v`. */
  lemma PutLookup(d: Dict, k: Value, v: Value, k': Value)
    ensures Get(Put(d, k, v), k') == if k' == k then Some(v) else Get(d, k')
  {
    PutGet(d, k, v);
  }

  /** After `d[k] = v` the keys gain `k`, `k` maps to `v` and every other key to what it did before; a new key
      is appended. */
  lemma {:induction false} PutGet(d: Dict, k: Value, v: Value)
    ensures Keys(Put(d, k, v)) == Keys(d) + {k}
    ensures Get(Put(d, k, v), k) == Some(v)
    ensures forall k' :: k' != k ==> Get(Put(d, k, v), k') == Get(d, k')
    ensures k !in Keys(d) ==> Put(d, k, v) == d + [(k, v)]
    decreases |d|
  {
    if d != [] {
      KeysCons(d);
      KeysCons(Put(d, k, v));
      if d[0].0 != k {
        PutGet(d[1..], k, v);
        assert Put(d, k, v)[1..] == Put(d[1..], k, v);
        assert [d[0]] + (d[1..] + [(k, v)]) == d + [(k, v)];
      } else {
        assert Put(d, k, v)[1..] == d[1..];
      }
    }
  }

  /** With each key once, `d[k] = v` on a present key overwrites its entry in place. */
  lemma {:induction false} PutOverwrites(d: Dict, k: Value, v: Value)
    requires UniqueKeys(d) && k in Keys(d)
    ensures |Put(d, k, v)| == |d|
    ensures forall i :: 0 <= i < |d| ==> Put(d, k, v)[i] == if d[i].0 == k then (k, v) else d[i]
    decreases |d|
  {
    KeysCons(d);
    var r := Put(d, k, v);
    if d[0].0 != k {
      PutOverwrites(d[1..], k, v);
      assert forall i :: 0 < i < |d| ==> r[i] == Put(d[1..], k, v)[i - 1];
    } else {
      assert forall i :: 0 < i < |d| ==> d[0].0 != d[i].0;
    }
  }

  /** `d[k] = v` keeps each key once. */
  lemma PutUnique(d: Dict, k: Value, v: Value)
    requires UniqueKeys(d)
    ensures UniqueKeys(Put(d, k, v))
  {
    var r := Put(d, k, v);
    if k in Keys(d) {
      PutOverwrites(d, k, v);
      assert forall i :: 0 <= i < |r| ==> r[i].0 == d[i].0;
    } else {
      PutGet(d, k, v);
      assert forall i :: 0 <= i < |d| ==> d[i].0 in Keys(d);
    }
  }

  /** A call as `json.loads` reads it; each of `"name"`, `"arguments"` and `"id"` may be missing. */
  datatype ParsedCall = ParsedCall(name: Option<Value>, arguments: Option<seq<(string, Value)>>, id: Option<Value>)

  /** What the agent leaves to the outside world: `json.loads` of a call and of a tool's signature text,
      the four type constructors, running a tool's function, and `repr`. */
  datatype Oracles = Oracles(
    parse: string -> Result<ParsedCall>,
    loadSignature: string -> Result<Signature>,
    coercions: Coercions,
    invoke: (Callable, seq<(string, Value)>) -> Result<Value>,
    repr: Value -> string)

  /** A tool the agent ran, with the arguments it ran it on. */
  datatype Invocation = Invocation(tool: Tool, arguments: seq<(string, Value)>)

  /** The key a `KeyError` reports for a missing tool name. */
  function KeyName(v: Value, repr: Value -> string): string {
    if v.StrV? then v.s else repr(v)
  }

  /** `tools_dict[name]`: names are strings, so any other value is missing as well. */
  function LookupTool(agent: ToolAgent, name: Value, repr: Value -> string): (r: Result<Tool>)
    ensures r.Ok? <==> name.StrV? && name.s in agent.toolsDict
    ensures r.Ok? ==> r.value == agent.toolsDict[name.s]
    ensures r.Err? ==> r.error == KeyError(KeyName(name, repr))
  {
    if name.StrV? && name.s in agent.toolsDict then Ok(agent.toolsDict[name.s]) else Err(KeyError(KeyName(name, repr)))
  }

  /** What one pass of the loop of `process_tool_calls` comes to: refused with an error before the tool
      runs, or the tool ran on the validated arguments and the `(id, result)` entry is stored or an error raised. */
  datatype CallResult =
    | Refused(error: Error)
    | Ran(invocation: Invocation, entry: Result<(Value, Value)>)
  {
    predicate Succeeded() {
      Ran? && entry.Ok?
    }

    /** The tool run, as a list of zero or one. */
    function Invoked(): seq<Invocation> {
      if Ran? then [invocation] else []
    }

    /** The error the pass raises. */
    function Raised(): Error
      requires !Succeeded()
    {
      if Refused? then error else entry.error
    }
  }

  /** One pass of the loop, each stage a function of its own: `json.loads`, … */
  function HandleCall(agent: ToolAgent, text: string, o: Oracles): (r: CallResult)
    ensures o.parse(text).Err? ==> r == Refused(o.parse(text).error)
    ensures r.Ran? ==> o.parse(text).Ok?
  {
    match o.parse(text)
    case Err(e) => Refused(e)
    case Ok(call) => HandleParsed(agent, call, o)
  }

  /** … `tool_call["name"]`, then `tools_dict[tool_name]`, … */
  function HandleParsed(agent: ToolAgent, call: ParsedCall, o: Oracles): (r: CallResult)
    ensures call.name.None? ==> r == Refused(KeyError("name"))
    ensures call.name.Some? && LookupTool(agent, call.name.value, o.repr).Err? ==>
      r == Refused(LookupTool(agent, call.name.value, o.repr).error)
    ensures r.Ran? ==> call.name.Some? && LookupTool(agent, call.name.value, o.repr) == Ok(r.invocation.tool)
  {
    if call.name.None? then Refused(KeyError("name"))
    else match LookupTool(agent, call.name.value, o.repr)
      case Err(e) => Refused(e)
      case Ok(tool) => HandleTool(tool, call, o)
  }

  /** … `validate_arguments(tool_call, json.loads(tool.fn_signature))`, … */
  function HandleTool(tool: Tool, call: ParsedCall, o: Oracles): (r: CallResult)
    ensures o.loadSignature(tool.fnSignature).Err? ==> r == Refused(o.loadSignature(tool.fnSignature).error)
    ensures o.loadSignature(tool.fnSignature).Ok? && call.arguments.None? ==> r == Refused(KeyError("arguments"))
    ensures o.loadSignature(tool.fnSignature).Ok? && call.arguments.Some? ==>
      var v := Validated(call.arguments.value, o.loadSignature(tool.fnSignature).value.properties, o.coercions);
      v.1.Some? ==> r == Refused(v.1.value)
    ensures r.Ran? <==>
      && o.loadSignature(tool.fnSignature).Ok? && call.arguments.Some?
      && Validated(call.arguments.value, o.loadSignature(tool.fnSignature).value.properties, o.coercions).1.None?
    ensures r.Ran? ==>
      && r.invocation == Invocation(tool, Validated(call.arguments.value, o.loadSignature(tool.fnSignature).value.properties, o.coercions).0)
      && (r.entry.Ok? <==> RunTool(tool, o.invoke, r.invocation.arguments).Ok? && call.id.Some?)
      && (RunTool(tool, o.invoke, r.invocation.arguments).Err? ==>
            r.entry == Err(RunTool(tool, o.invoke, r.invocation.arguments).error))
  {
    match o.loadSignature(tool.fnSignature)
    case Err(e) => Refused(e)
    case Ok(signature) =>
      if call.arguments.None? then Refused(KeyError("arguments"))
      else
        var v := Validated(call.arguments.value, signature.properties, o.coercions);
        if v.1.Some? then Refused(v.1.value) else RunAndStore(Invocation(tool, v.0), call.id, o)
  }

  /** … `tool.run(**arguments)`, then `validated_tool_call["id"]`: the tool has run before the id is read. */
  function RunAndStore(inv: Invocation, id: Option<Value>, o: Oracles): (r: CallResult)
    ensures r.Ran? && r.invocation == inv
    ensures r.Succeeded() <==> RunTool(inv.tool, o.invoke, inv.arguments).Ok? && id.Some?
    ensures RunTool(inv.tool, o.invoke, inv.arguments).Err? ==> r.entry == Err(RunTool(inv.tool, o.invoke, inv.arguments).error)
    ensures RunTool(inv.tool, o.invoke, inv.arguments).Ok? && id.None? ==> r.entry == Err(KeyError("id"))
    ensures r.Succeeded() ==> r.entry.value == (id.value, RunTool(inv.tool, o.invoke, inv.arguments).value)
  {
    Ran(inv,
      match RunTool(inv.tool, o.invoke, inv.arguments)
      case Err(e) => Err(e)
      case Ok(result) => if id.None? then Err(KeyError("id")) else Ok((id.value, result)))
  }

  /** A call that succeeds had a name, arguments and an id; it ran the tool its name looks up, and it is
      stored under its own id with what that tool returned on the validated arguments. */
  lemma HandleCallStores(agent: ToolAgent, text: string, o: Oracles)
    requires HandleCall(agent, text, o).Succeeded()
    ensures var call := o.parse(text);
      var h := HandleCall(agent, text, o);
      && call.Ok? && call.value.name.Some? && call.value.id.Some? && call.value.arguments.Some?
      && h.entry.value.0 == call.value.id.value
      && LookupTool(agent, call.value.name.value, o.repr) == Ok(h.invocation.tool)
      && RunTool(h.invocation.tool, o.invoke, h.invocation.arguments) == Ok(h.entry.value.1)
  {
  }

  /** The result of every call on its own; the loop only looks at those up to the first error. */
  function Calls(agent: ToolAgent, contents: seq<string>, o: Oracles): (r: seq<CallResult>)
    ensures |r| == |contents| && forall k :: 0 <= k < |contents| ==> r[k] == HandleCall(agent, contents[k], o)
  {
    seq(|contents|, k requires 0 <= k < |contents| => HandleCall(agent, contents[k], o))
  }

  /** The loop over the calls' results: the tools run so far and the observations, or the first error. */
  function Fold(results: seq<CallResult>): (r: (seq<Invocation>, Result<Dict>))
    ensures |r.0| <= |results|
    decreases |results|
  {
    if results == [] then ([], Ok([]))
    else Step(Fold(results[..|results| - 1]), results[|results| - 1])
  }

  /** One more call after `before`; an earlier error stands. */
  function Step(before: (seq<Invocation>, Result<Dict>), h: CallResult): (r: (seq<Invocation>, Result<Dict>))
    ensures before.1.Err? ==> r == before
    ensures before.1.Ok? ==> r.0 == before.0 + h.Invoked()
    ensures r.1.Ok? <==> before.1.Ok? && h.Succeeded()
    ensures before.1.Ok? && !h.Succeeded() ==> r.1 == Err(h.Raised())
    ensures before.1.Ok? && h.Succeeded() ==> r.1 == Ok(Put(before.1.value, h.entry.value.0, h.entry.value.1))
  {
    if before.1.Err? then before
    else if h.Succeeded() then (before.0 + h.Invoked(), Ok(Put(before.1.value, h.entry.value.0, h.entry.value.1)))
    else (before.0 + h.Invoked(), Err(h.Raised()))
  }

  /** `process_tool_calls(contents)`: the tools run, in order, and the observations keyed by call id,
      or the first error, which stops the loop. */
  function Processed(agent: ToolAgent, contents: seq<string>, o: Oracles): (r: (seq<Invocation>, Result<Dict>))
    ensures |r.0| <= |contents|
  {
    Fold(Calls(agent, contents, o))
  }

  /** Folding one more result is one more step. */
  lemma FoldSnoc(results: seq<CallResult>, i: nat)
    requires i < |results|
    ensures Fold(results[..i + 1]) == Step(Fold(results[..i]), results[i])
  {
    assert results[..i + 1][..i] == results[..i];
  }

  /** Once a prefix of the results has failed, the results after it change nothing. */
  lemma {:induction false} FoldStops(results: seq<CallResult>, i: nat)
    requires i <= |results| && Fold(results[..i]).1.Err?
    ensures Fold(results) == Fold(results[..i])
    decreases |results|
  {
    if i < |results| {
      assert results[..|results| - 1][..i] == results[..i];
      FoldStops(results[..|results| - 1], i);
    } else {
      assert results[..i] == results;
    }
  }

  /** Every result is a success. */
  ghost predicate AllSucceeded(results: seq<CallResult>) {
    forall k :: 0 <= k < |results| ==> results[k].Succeeded()
  }

  /** The fold succeeds exactly when every result does, and then it holds each result's tool, in order. */
  lemma {:induction false} FoldRuns(results: seq<CallResult>)
    ensures Fold(results).1.Ok? <==> AllSucceeded(results)
    ensures Fold(results).1.Ok? ==>
      |Fold(results).0| == |results| && forall k :: 0 <= k < |results| ==> Fold(results).0[k] == results[k].invocation
    decreases |results|
  {
    if results != [] {
      var n := |results| - 1;
      var init := results[..n];
      FoldRuns(init);
      assert forall k :: 0 <= k < n ==> results[k] == init[k];
    }
  }

  /** The id of a successful result. */
  function IdOf(h: CallResult): Value
    requires h.Succeeded()
  {
    h.entry.value.0
  }

  /** The ids of successful results. */
  ghost function Ids(results: seq<CallResult>): set<Value>
    requires AllSucceeded(results)
  {
    set k | 0 <= k < |results| :: IdOf(results[k])
  }

  lemma IdsSnoc(results: seq<CallResult>)
    requires results != [] && AllSucceeded(results)
    ensures AllSucceeded(results[..|results| - 1])
    ensures Ids(results) == Ids(results[..|results| - 1]) + {IdOf(results[|results| - 1])}
  {
    var n := |results| - 1;
    var init := results[..n];
    assert forall k :: 0 <= k < n ==> results[k] == init[k];
    forall x | x in Ids(results) ensures x in Ids(init) + {IdOf(results[n])} {
      var k :| 0 <= k < |results| && x == IdOf(results[k]);
      if k < n {
        assert x == IdOf(init[k]);
      }
    }
    forall x | x in Ids(init) ensures x in Ids(results) {
      var k :| 0 <= k < n && x == IdOf(init[k]);
      assert x == IdOf(results[k]);
    }
    assert IdOf(results[n]) in Ids(results);
  }

  /** On success the keys of the observations are exactly the results' ids. */
  lemma {:induction false} FoldKeys(results: seq<CallResult>)
    requires AllSucceeded(results)
    ensures Fold(results).1.Ok?
    ensures Keys(Fold(results).1.value) == Ids(results)
    decreases |results|
  {
    FoldRuns(results);
    if results != [] {
      var n := |results| - 1;
      var init := results[..n];
      IdsSnoc(results);
      FoldKeys(init);
      var h := results[n];
      PutGet(Fold(init).1.value, h.entry.value.0, h.entry.value.1);
    }
  }

  /** Result `k` is the last to store under its id. */
  ghost predicate LastWithId(results: seq<CallResult>, k: nat)
    requires k < |results| && AllSucceeded(results)
  {
    forall j :: k < j < |results| ==> IdOf(results[j]) != IdOf(results[k])
  }

  /** On success each id holds the value of the last result that carries it: a repeated id is overwritten. */
  lemma {:induction false} FoldLastWins(results: seq<CallResult>, k: nat)
    requires k < |results| && AllSucceeded(results) && LastWithId(results, k)
    ensures Fold(results).1.Ok?
    ensures Get(Fold(results).1.value, IdOf(results[k])) == Some(results[k].entry.value.1)
    decreases |results|
  {
    var n := |results| - 1;
    var init := results[..n];
    var h := results[n];
    assert Fold(init).1.Ok? && (k < n ==> LastWithId(init, k)) by {
      assert forall j :: 0 <= j < n ==> results[j] == init[j];
      FoldRuns(init);
    }
    assert Fold(results) == Step(Fold(init), h);
    PutLookup(Fold(init).1.value, h.entry.value.0, h.entry.value.1, IdOf(results[k]));
    if k < n {
      FoldLastWins(init, k);
    }
  }

  /** The observations hold each id once. */
  lemma {:induction false} FoldUnique(results: seq<CallResult>)
    ensures Fold(results).1.Ok? ==> UniqueKeys(Fold(results).1.value)
    decreases |results|
  {
    if results != [] {
      var init := results[..|results| - 1];
      var h := results[|results| - 1];
      FoldUnique(init);
      if Fold(results).1.Ok? {
        PutUnique(Fold(init).1.value, h.entry.value.0, h.entry.value.1);
      }
    }
  }

  /** On success every call found its tool, validated and ran, in order; the observations hold each call's id,
      and under an id no later call repeats, the result of that call's tool. */
  lemma ProcessedObservations(agent: ToolAgent, contents: seq<string>, o: Oracles, k: nat)
    requires k < |contents| && Processed(agent, contents, o).1.Ok?
    ensures var call := o.parse(contents[k]);
      var r := Processed(agent, contents, o);
      && |r.0| == |contents|
      && call.Ok? && call.value.name.Some? && call.value.id.Some? && call.value.arguments.Some?
      && LookupTool(agent, call.value.name.value, o.repr) == Ok(r.0[k].tool)
      && call.value.id.value in Keys(r.1.value)
      && RunTool(r.0[k].tool, o.invoke, r.0[k].arguments).Ok?
      && ((forall j :: k < j < |contents| ==> !(o.parse(contents[j]).Ok? && o.parse(contents[j]).value.id == call.value.id)) ==>
            Get(r.1.value, call.value.id.value) == Some(RunTool(r.0[k].tool, o.invoke, r.0[k].arguments).value))
  {
    var results := Calls(agent, contents, o);
    FoldRuns(results);
    HandleCallStores(agent, contents[k], o);
    FoldKeys(results);
    assert IdOf(results[k]) in Ids(results);
    if forall j :: k < j < |contents| ==> !(o.parse(contents[j]).Ok? && o.parse(contents[j]).value.id == o.parse(contents[k]).value.id) {
      forall j | k < j < |contents| ensures IdOf(results[j]) != IdOf(results[k]) {
        HandleCallStores(agent, contents[j], o);
      }
      FoldLastWins(results, k);
    }
  }

  /** Processing stops at call `k` with its error when it fails after the earlier calls succeeded:
      the tools of the earlier calls have run, and no later call is looked at. */
  lemma FailingCallStops(agent: ToolAgent, contents: seq<string>, o: Oracles, k: nat)
    requires k < |contents| && Processed(agent, contents[..k], o).1.Ok?
    requires !HandleCall(agent, contents[k], o).Succeeded()
    ensures var h := HandleCall(agent, contents[k], o);
      Processed(agent, contents, o) == (Processed(agent, contents[..k], o).0 + h.Invoked(), Err(h.Raised()))
  {
    var results := Calls(agent, contents, o);
    assert Calls(agent, contents[..k], o) == results[..k];
    FoldSnoc(results, k);
    FoldStops(results, k + 1);
  }

  /** A call naming no tool of the agent raises `KeyError` before anything runs. */
  lemma UnknownToolRefused(agent: ToolAgent, text: string, o: Oracles)
    requires o.parse(text).Ok? && o.parse(text).value.name.Some?
    requires var name := o.parse(text).value.name.value; !(name.StrV? && name.s in agent.toolsDict)
    ensures HandleCall(agent, text, o) == Refused(KeyError(KeyName(o.parse(text).value.name.value, o.repr)))
  {
  }

  /** A call without `"id"` whose tool returned raises `KeyError("id")`, after its tool has run. */
  lemma MissingIdAfterRun(agent: ToolAgent, text: string, o: Oracles)
    requires o.parse(text).Ok? && o.parse(text).value.id.None?
    requires var h := HandleCall(agent, text, o); h.Ran? && RunTool(h.invocation.tool, o.invoke, h.invocation.arguments).Ok?
    ensures var h := HandleCall(agent, text, o); h.entry == Err(KeyError("id"))
  {
  }

  /** One pass of the loop, with `validate_arguments` rewriting a fresh call record in place. */
  method HandleOne(agent: ToolAgent, text: string, o: Oracles) returns (h: CallResult)
    ensures h == HandleCall(agent, text, o)
  {
    var parsed := o.parse(text);
    if parsed.Err? {
      return Refused(parsed.error);
    }
    var toolCall := new ToolCall(parsed.value.name, parsed.value.arguments, parsed.value.id);
    if toolCall.name.None? {
      return Refused(KeyError("name"));
    }
    var tool := LookupTool(agent, toolCall.name.value, o.repr);
    if tool.Err? {
      return Refused(tool.error);
    }
    var signature := o.loadSignature(tool.value.fnSignature);
    if signature.Err? {
      return Refused(signature.error);
    }
    var validated := ValidateArguments(toolCall, signature.value, o.coercions);
    if validated.Err? {
      return Refused(validated.error);
    }
    var invocation := Invocation(tool.value, toolCall.arguments.value);
    var result := RunTool(invocation.tool, o.invoke, invocation.arguments);
    if result.Err? {
      return Ran(invocation, Err(result.error));
    }
    if toolCall.id.None? {
      return Ran(invocation, Err(KeyError("id")));
    }
    h := Ran(invocation, Ok((toolCall.id.value, result.value)));
  }

  /** `process_tool_calls(tool_calls_content)`. */
  method ProcessToolCalls(agent: ToolAgent, contents: seq<string>, o: Oracles) returns (ran: seq<Invocation>, r: Result<Dict>)
    ensures (ran, r) == Processed(agent, contents, o)
  {
    ghost var results := Calls(agent, contents, o);
    var observations: Dict := [];
    ran := [];
    for i := 0 to |contents|
      invariant (ran, Ok(observations)) == Fold(results[..i])
    {
      FoldSnoc(results, i);
      var h := HandleOne(agent, contents[i], o);
      ran := ran + h.Invoked();
      if !h.Succeeded() {
        FoldStops(results, i + 1);
        return ran, Err(h.Raised());
      }
      observations := Put(observations, h.entry.value.0, h.entry.value.1);
    }
    assert results[..|contents|] == results;
    r := Ok(observations);
  }

  /** `", ".join(f"{k!r}: {v!r}" …)` inside braces: `repr` of the observations dictionary. */
  function ReprDict(d: Dict, repr: Value -> string): (r: string)
    ensures |r| >= 2 && r[0] == '{' && r[|r| - 1] == '}'
    ensures r == "{}" <==> d == []
    decreases |d|
  {
    "{" + ReprEntries(d, repr) + "}"
  }

  function ReprEntries(d: Dict, repr: Value -> string): (r: string)
    ensures r == "" <==> d == []
    ensures d != [] ==> repr(d[0].0) + ": " + repr(d[0].1) <= r
    decreases |d|
  {
    if d == [] then ""
    else
      var entry := repr(d[0].0) + ": " + repr(d[0].1);
      if |d| == 1 then entry else entry + ", " + ReprEntries(d[1..], repr)
  }

  /** The observation message, as written: the f-string is nested in a second string literal, so a literal
      `f"` opens the text and a literal `"` closes it. */
  function ObservationText(observations: Dict, repr: Value -> string): (r: string)
    ensures "f\"Observation: {" <= r
    ensures |r| >= 18 && r[|r| - 2..] == "}\""
    ensures r == "f\"Observation: {}\"" <==> observations == []
  {
    "f\"Observation: " + ReprDict(observations, repr) + "\""
  }

  /** `run(user_msg)`: the two completions and what each is given. The first sees the tool catalog and the
      user message; the tool calls in its answer are run; the second sees the user message, followed by the
      observations when there were tool calls. An error raised by a tool call ends the run before the second
      completion. */
  method Run(agent: ToolAgent, userMsg: string, o: Oracles, complete: seq<Completions.Message> -> string)
    returns (r: Result<string>, toolPrompt: seq<Completions.Message>, agentPrompt: seq<Completions.Message>, ran: seq<Invocation>)
    ensures toolPrompt == [Completions.Message("system", ToolSystemPrompt(AddToolSignatures(agent))),
                           Completions.Message("user", userMsg)]
    ensures var calls := Extraction.ExtractTagContent(complete(toolPrompt), "tool_call");
      if !calls.found then
        ran == [] && agentPrompt == [Completions.Message("user", userMsg)] && r == Ok(complete(agentPrompt))
      else
        var (invoked, observations) := Processed(agent, calls.content, o);
        && ran == invoked
        && (observations.Err? ==> r == Err(observations.error))
        && (observations.Ok? ==>
              && agentPrompt == [Completions.Message("user", userMsg),
                                 Completions.Message("user", ObservationText(observations.value, o.repr))]
              && r == Ok(complete(agentPrompt)))
  {
    var userPrompt := Completions.BuildPromptStructure(userMsg, "user", "");
    var systemPrompt := Completions.BuildPromptStructure(ToolSystemPrompt(AddToolSignatures(agent)), "system", "");
    var toolHistory := new Completions.ChatHistory(Some([systemPrompt, userPrompt]), -1);
    var agentHistory := new Completions.ChatHistory(Some([userPrompt]), -1);
    toolPrompt := toolHistory.messages;
    var response := complete(toolPrompt);
    var toolCalls := Extraction.ExtractTagContent(response, "tool_call");
    ran := [];
    if toolCalls.found {
      var observations;
      ran, observations := ProcessToolCalls(agent, toolCalls.content, o);
      if observations.Err? {
        agentPrompt := agentHistory.messages;
        return Err(observations.error), toolPrompt, agentPrompt, ran;
      }
      var updated := Completions.UpdateChatHistory(agentHistory, ObservationText(observations.value, o.repr), "user");
    }
    agentPrompt := agentHistory.messages;
    r := Ok(complete(agentPrompt));
  }
}
