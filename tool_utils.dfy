/** The second copy of `validate_arguments`, kept beside the tool helpers. It performs the same checks
    and rewrites in the same order, so its contract is the one of `Tools.ValidateArguments`: both are
    pinned to `Tools.Validated` and agree on every input. */
module ToolUtils {
  import opened Wrappers
  import opened Tools

  method ValidateArguments(toolCall: ToolCall, signature: Signature, c: Coercions) returns (r: Result<ToolCall>)
    modifies toolCall`arguments
    ensures old(toolCall.arguments).None? ==> r == Err(KeyError("arguments")) && toolCall.arguments.None?
    ensures old(toolCall.arguments).Some? ==>
      var v := Validated(old(toolCall.arguments).value, signature.properties, c);
      && toolCall.arguments == Some(v.0)
      && (if v.1.None? then r == Ok(toolCall) else r == Err(v.1.value))
  {
    if toolCall.arguments.None? {
      return Err(KeyError("arguments"));
    }
    ghost var args0 := toolCall.arguments.value;
    var properties := signature.properties;
    var n := |toolCall.arguments.value|;
    for i := 0 to n
      invariant toolCall.arguments.Some? && |toolCall.arguments.value| == n
      invariant Validated(args0, properties, c) == ValidatedFrom(toolCall.arguments.value, properties, c, i)
    {
      var args := toolCall.arguments.value;
      var checked := CheckArgument(args[i], properties, c);
      if checked.Err? {
        return Err(checked.error);
      }
      toolCall.arguments := Some(args[i := (args[i].0, checked.value)]);
    }
    return Ok(toolCall);
  }
}
