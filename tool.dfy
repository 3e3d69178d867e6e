/** Tools: a function's signature as the language model sees it, and the checking and coercion
    of the arguments of a call the model asks for. */
module Tools {
  import opened Wrappers

  /** A value as `json.loads` returns it (a float is kept as its text) or a tool returns it. */
  datatype Value =
    | IntV(i: int)
    | FloatV(text: string)
    | StrV(s: string)
    | BoolV(b: bool)
    | NullV
    | ListV(items: seq<Value>)
    | ObjectV(fields: seq<(string, Value)>)

  /** The four Python types of `type_mapping`. */
  datatype PyType = IntT | StrT | BoolT | FloatT

  /** `type_mapping[expected_type]`: a tag outside the four raises `KeyError`, and so does a missing
      `"type"` entry, which `.get` turns into `None`. */
  function TypeMapping(tag: Option<string>): (r: Result<PyType>)
    ensures r.Ok? <==> tag.Some? && tag.value in {"int", "str", "bool", "float"}
    ensures r.Err? ==> r.error == if tag.Some? then KeyError(tag.value) else NoneKeyError
    ensures r.Ok? ==> TypeName(r.value) == tag.value
  {
    match tag
    case None => Err(NoneKeyError)
    case Some(t) =>
      if t == "int" then Ok(IntT)
      else if t == "str" then Ok(StrT)
      else if t == "bool" then Ok(BoolT)
      else if t == "float" then Ok(FloatT)
      else Err(KeyError(t))
  }

  /** `t.__name__`. */
  function TypeName(t: PyType): string {
    match t
    case IntT => "int"
    case StrT => "str"
    case BoolT => "bool"
    case FloatT => "float"
  }

  /** `isinstance(v, t)`: `bool` is a subclass of `int`, and an `int` is not a `float`. */
  predicate IsInstance(v: Value, t: PyType)
    ensures v.BoolV? ==> (IsInstance(v, t) <==> t == BoolT || t == IntT)
    ensures v.IntV? ==> (IsInstance(v, t) <==> t == IntT)
    ensures v.NullV? || v.ListV? || v.ObjectV? ==> !IsInstance(v, t)
  {
    match t
    case IntT => v.IntV? || v.BoolV?
    case StrT => v.StrV?
    case BoolT => v.BoolV?
    case FloatT => v.FloatV?
  }

  /** The constructors `int`, `str`, `bool` and `float` applied to a value. `int` and `float` may raise
      (`int("x")`, `int(None)`); `str` and `bool` always succeed on these values. */
  datatype Coercions = Coercions(
    toInt: Value -> Result<int>,
    toStr: Value -> string,
    toBool: Value -> bool,
    toFloat: Value -> Result<string>)

  /** `t(v)`: when it succeeds, the result is an instance of `t`. */
  function Coerce(c: Coercions, t: PyType, v: Value): (r: Result<Value>)
    ensures r.Ok? ==> IsInstance(r.value, t)
    ensures t == StrT || t == BoolT ==> r.Ok?
  {
    match t
    case IntT => (match c.toInt(v) case Ok(i) => Ok(IntV(i)) case Err(e) => Err(e))
    case StrT => Ok(StrV(c.toStr(v)))
    case BoolT => Ok(BoolV(c.toBool(v)))
    case FloatT => (match c.toFloat(v) case Ok(f) => Ok(FloatV(f)) case Err(e) => Err(e))
  }

  /** One entry of `parameters.properties`: `{"type": name}`, where the entry may lack `"type"`. */
  datatype Property = Property(typeName: Option<string>)

  /** A function signature: its name, its doc string and the declared type of each parameter. */
  datatype Signature = Signature(name: string, description: Option<string>, properties: map<string, Property>)

  /** A Python function, reduced to what the tools use of it: `__name__`, `__doc__` and `__annotations__`
      (parameter name to the `__name__` of its type, with `"return"` for the result type). */
  datatype Callable = Callable(name: string, doc: Option<string>, annotations: map<string, string>)

  /** `get_fn_signature(fn)`. */
  function GetFnSignature(fn: Callable): (r: Signature)
    ensures r.name == fn.name && r.description == fn.doc
    ensures r.properties.Keys == fn.annotations.Keys - {"return"}
    ensures forall p :: p in r.properties ==> r.properties[p] == Property(Some(fn.annotations[p]))
  {
    Signature(fn.name, fn.doc, map p | p in fn.annotations && p != "return" :: Property(Some(fn.annotations[p])))
  }

  /** The new value of one argument: `KeyError` for a name without a declared parameter or for an
      unsupported type tag; an instance of the declared type as it is; anything else coerced. */
  function CheckArgument(arg: (string, Value), properties: map<string, Property>, c: Coercions): (r: Result<Value>)
    ensures arg.0 !in properties ==> r == Err(KeyError(arg.0))
    ensures r.Ok? ==>
      && TypeMapping(properties[arg.0].typeName).Ok?
      && IsInstance(r.value, TypeMapping(properties[arg.0].typeName).value)
    ensures r.Ok? && IsInstance(arg.1, TypeMapping(properties[arg.0].typeName).value) ==> r.value == arg.1
    ensures arg.0 in properties && TypeMapping(properties[arg.0].typeName).Err? ==>
      r == Err(TypeMapping(properties[arg.0].typeName).error)
    ensures arg.0 in properties && TypeMapping(properties[arg.0].typeName).Ok? ==>
      var t := TypeMapping(properties[arg.0].typeName).value;
      r == if IsInstance(arg.1, t) then Ok(arg.1) else Coerce(c, t, arg.1)
  {
    if arg.0 !in properties then Err(KeyError(arg.0))
    else match TypeMapping(properties[arg.0].typeName)
      case Err(e) => Err(e)
      case Ok(t) => if IsInstance(arg.1, t) then Ok(arg.1) else Coerce(c, t, arg.1)
  }

  /** The arguments `validate_arguments` leaves behind, from position `i` on, and the error that stopped
      it, if any: entries before the failing one are already rewritten, the rest are untouched. */
  function ValidatedFrom(args: seq<(string, Value)>, properties: map<string, Property>, c: Coercions, i: nat):
    (r: (seq<(string, Value)>, Option<Error>))
    requires i <= |args|
    ensures |r.0| == |args|
    decreases |args| - i
  {
    if i == |args| then (args, None)
    else match CheckArgument(args[i], properties, c)
      case Err(e) => (args, Some(e))
      case Ok(v) => ValidatedFrom(args[i := (args[i].0, v)], properties, c, i + 1)
  }

  /** `validate_arguments` on the argument list `args`, in the order of the call's arguments. */
  function Validated(args: seq<(string, Value)>, properties: map<string, Property>, c: Coercions):
    (r: (seq<(string, Value)>, Option<Error>))
    ensures |r.0| == |args|
  {
    ValidatedFrom(args, properties, c, 0)
  }

  /** Every argument is declared with a supported type and holds an instance of it. */
  predicate WellTyped(args: seq<(string, Value)>, properties: map<string, Property>) {
    forall k :: 0 <= k < |args| ==>
      && args[k].0 in properties
      && TypeMapping(properties[args[k].0].typeName).Ok?
      && IsInstance(args[k].1, TypeMapping(properties[args[k].0].typeName).value)
  }

  /** The argument names, in order, never change, and the entries before `i` are left alone; on success
      every argument is an instance of its declared type, an argument that already was one keeps its
      value, and every other argument from `i` on holds what its check gave, the coercion of its value. */
  lemma {:induction false} ValidatedFromFacts(args: seq<(string, Value)>, properties: map<string, Property>, c: Coercions, i: nat)
    requires i <= |args|
    requires WellTyped(args[..i], properties)
    ensures var r := ValidatedFrom(args, properties, c, i);
      && (forall k :: 0 <= k < |args| ==> r.0[k].0 == args[k].0)
      && (forall k :: 0 <= k < |args| && CheckArgument(args[k], properties, c) == Ok(args[k].1) ==> r.0[k] == args[k])
      && (r.1.None? ==> WellTyped(r.0, properties))
      && (forall k :: 0 <= k < i ==> r.0[k] == args[k])
      && (r.1.None? ==> forall k :: i <= k < |args| ==>
            CheckArgument(args[k], properties, c).Ok? && r.0[k] == (args[k].0, CheckArgument(args[k], properties, c).value))
    decreases |args| - i
  {
    if i < |args| {
      match CheckArgument(args[i], properties, c)
      case Err(e) =>
      case Ok(v) =>
        var next := args[i := (args[i].0, v)];
        assert next[..i + 1] == args[..i] + [(args[i].0, v)];
        ValidatedFromFacts(next, properties, c, i + 1);
        assert forall k :: i < k < |args| ==> next[k] == args[k];
    } else {
      assert args[..i] == args;
    }
  }

  lemma ValidatedFacts(args: seq<(string, Value)>, properties: map<string, Property>, c: Coercions)
    ensures var r := Validated(args, properties, c);
      && (forall k :: 0 <= k < |args| ==> r.0[k].0 == args[k].0)
      && (forall k :: 0 <= k < |args| && CheckArgument(args[k], properties, c) == Ok(args[k].1) ==> r.0[k] == args[k])
      && (r.1.None? ==> WellTyped(r.0, properties))
      && (r.1.None? ==> forall k :: 0 <= k < |args| ==>
            CheckArgument(args[k], properties, c).Ok? && r.0[k] == (args[k].0, CheckArgument(args[k], properties, c).value))
  {
    ValidatedFromFacts(args, properties, c, 0);
  }

  /** Arguments that are already well typed come through unchanged and without error. */
  lemma {:induction false} WellTypedUnchanged(args: seq<(string, Value)>, properties: map<string, Property>, c: Coercions, i: nat)
    requires i <= |args| && WellTyped(args, properties)
    ensures ValidatedFrom(args, properties, c, i) == (args, None)
    decreases |args| - i
  {
    if i < |args| {
      assert CheckArgument(args[i], properties, c) == Ok(args[i].1);
      assert args[i := (args[i].0, args[i].1)] == args;
      WellTypedUnchanged(args, properties, c, i + 1);
    }
  }

  /** Validating a second time changes nothing: `validate_arguments` is idempotent. */
  lemma ValidatedIdempotent(args: seq<(string, Value)>, properties: map<string, Property>, c: Coercions)
    requires Validated(args, properties, c).1.None?
    ensures var out := Validated(args, properties, c).0; Validated(out, properties, c) == (out, None)
  {
    ValidatedFacts(args, properties, c);
    WellTypedUnchanged(Validated(args, properties, c).0, properties, c, 0);
  }

  /** The first argument whose check fails decides the error, and every argument from there on is untouched. */
  lemma {:induction false} ValidatedFromError(args: seq<(string, Value)>, properties: map<string, Property>, c: Coercions, i: nat)
    requires i <= |args|
    ensures var r := ValidatedFrom(args, properties, c, i);
      r.1.Some? <==> exists k :: i <= k < |args| && CheckArgument(args[k], properties, c).Err?
    ensures var r := ValidatedFrom(args, properties, c, i);
      r.1.Some? ==> exists k :: i <= k < |args| && Failed(args, properties, c, i, k, r)
    decreases |args| - i
  {
    if i < |args| {
      match CheckArgument(args[i], properties, c)
      case Err(e) =>
        assert Failed(args, properties, c, i, i, ValidatedFrom(args, properties, c, i));
      case Ok(v) =>
        var next := args[i := (args[i].0, v)];
        ValidatedFromError(next, properties, c, i + 1);
        forall k | i + 1 <= k < |args| ensures next[k] == args[k] { }
        var r := ValidatedFrom(next, properties, c, i + 1);
        if r.1.Some? {
          var k :| i + 1 <= k < |args| && Failed(next, properties, c, i + 1, k, r);
          assert Failed(args, properties, c, i, k, r);
        }
    }
  }

  /** The check of entry `k` failed with the reported error, all entries between `i` and `k` passed,
      and entries `k` onwards are as they were. */
  ghost predicate Failed(args: seq<(string, Value)>, properties: map<string, Property>, c: Coercions, i: nat, k: nat,
    r: (seq<(string, Value)>, Option<Error>))
    requires i <= k < |args| == |r.0|
  {
    && CheckArgument(args[k], properties, c).Err?
    && r.1 == Some(CheckArgument(args[k], properties, c).error)
    && (forall m :: i <= m < k ==> CheckArgument(args[m], properties, c).Ok?)
    && r.0[k..] == args[k..]
  }

  /** A call as `json.loads` returns it: each of the three keys the agent reads may be missing. */
  class ToolCall {
    const name: Option<Value>
    var arguments: Option<seq<(string, Value)>>
    const id: Option<Value>

    constructor (name: Option<Value>, arguments: Option<seq<(string, Value)>>, id: Option<Value>)
      ensures this.name == name && this.arguments == arguments && this.id == id
    {
      this.name := name;
      this.arguments := arguments;
      this.id := id;
    }
  }

  /** `validate_arguments(tool_call, tool_signature)`: rewrites `tool_call["arguments"]` in place and
      returns the same call. A call without `"arguments"` raises `KeyError`; an argument that fails its
      check raises after the arguments before it have been rewritten. */
  method ValidateArguments(toolCall: ToolCall, signature: Signature, c: Coercions) returns (r: Result<ToolCall>)
    modifies toolCall`arguments
    ensures old(toolCall.arguments).None? ==> r == Err(KeyError("arguments")) && toolCall.arguments.None?
    ensures old(toolCall.arguments).Some? ==>
      var v := Validated(old(toolCall.arguments).value, signature.properties, c);
      && toolCall.arguments == Some(v.0)
      && (if v.1.None? then r == Ok(toolCall) else r == Err(v.1.value))
  {
    if toolCall.arguments.None? {
      return Err(KeyError("arguments"));
    }
    ghost var args0 := toolCall.arguments.value;
    var properties := signature.properties;
    var i := 0;
    while i < |toolCall.arguments.value|
      invariant toolCall.arguments.Some? && 0 <= i <= |toolCall.arguments.value|
      invariant Validated(args0, properties, c) == ValidatedFrom(toolCall.arguments.value, properties, c, i)
      decreases |toolCall.arguments.value| - i
    {
      var args := toolCall.arguments.value;
      var checked := CheckArgument(args[i], properties, c);
      if checked.Err? {
        return Err(checked.error);
      }
      toolCall.arguments := Some(args[i := (args[i].0, checked.value)]);
      i := i + 1;
    }
    return Ok(toolCall);
  }

  /** `Tool(name, fn, fn_signature)`: a function with the JSON text of its signature. */
  datatype Tool = Tool(name: string, fn: Callable, fnSignature: string)

  /** `Tool.run(**kwargs)`: the call is forwarded to the tool's function; the name and the signature text play no part. */
  function RunTool(tool: Tool, invoke: (Callable, seq<(string, Value)>) -> Result<Value>, kwargs: seq<(string, Value)>): (r: Result<Value>)
    ensures r == invoke(tool.fn, kwargs)
  {
    invoke(tool.fn, kwargs)
  }

  /** `@tool`: the tool is named after the function, and carries the JSON text (`dumps`) of its signature. */
  function MakeTool(fn: Callable, dumps: Signature -> string): (r: Tool)
    ensures r.name == fn.name && r.name == GetFnSignature(fn).name
    ensures r.fn == fn && r.fnSignature == dumps(GetFnSignature(fn))
  {
    var signature := GetFnSignature(fn);
    Tool(signature.name, fn, dumps(signature))
  }

  /** A call whose arguments are annotated parameters of `fn`, with a supported type and a value of it, is
      passed by the signature `@tool` derives from `fn` as it is. */
  lemma AnnotatedArgumentsPass(fn: Callable, args: seq<(string, Value)>, c: Coercions)
    requires forall k :: 0 <= k < |args| ==>
      && args[k].0 in fn.annotations && args[k].0 != "return"
      && TypeMapping(Some(fn.annotations[args[k].0])).Ok?
      && IsInstance(args[k].1, TypeMapping(Some(fn.annotations[args[k].0])).value)
    ensures Validated(args, GetFnSignature(fn).properties, c) == (args, None)
  {
    WellTypedUnchanged(args, GetFnSignature(fn).properties, c, 0);
  }

  /** An argument that is not an annotated parameter of `fn` makes validation fail. */
  lemma UnannotatedArgumentFails(fn: Callable, args: seq<(string, Value)>, c: Coercions, k: nat)
    requires k < |args| && (args[k].0 !in fn.annotations || args[k].0 == "return")
    ensures Validated(args, GetFnSignature(fn).properties, c).1.Some?
  {
    ValidatedFromError(args, GetFnSignature(fn).properties, c, 0);
    assert CheckArgument(args[k], GetFnSignature(fn).properties, c).Err?;
  }
}
