/** Chat messages and the bounded chat histories the agents keep. A history is a list that
    evicts once its length hits the bound exactly: the plain kind drops the oldest message,
    the fixed-first kind drops the second oldest so that the system prompt stays in place. */
module Completions {
  import opened Wrappers
  import Extraction

  /** The `{"role": …, "content": …}` record sent to the language model. */
  datatype Message = Message(role: string, content: string)

  /** `build_prompt_structure(prompt, role, tag)`: a non-empty tag wraps the prompt in `<tag>…</tag>`. */
  function BuildPromptStructure(prompt: string, role: string, tag: string): (m: Message)
    ensures m.role == role
    ensures tag == "" ==> m.content == prompt
    ensures tag != "" ==>
      && |m.content| == |prompt| + 2 * |tag| + 5
      && m.content[..|tag| + 2] == Extraction.Open(tag)
      && m.content[|tag| + 2..|m.content| - |tag| - 3] == prompt
      && m.content[|m.content| - |tag| - 3..] == Extraction.Close(tag)
  {
    Message(role, if tag != "" then Extraction.Open(tag) + prompt + Extraction.Close(tag) else prompt)
  }

  /** Wrapping in a tag and extracting that tag gives the prompt back, stripped, as the one match. */
  lemma TaggedPromptExtracts(prompt: string, role: string, tag: string)
    requires tag != "" && Extraction.PlainTag(tag) && !Extraction.Contains(prompt, Extraction.Close(tag))
    ensures Extraction.ExtractTagContent(BuildPromptStructure(prompt, role, tag).content, tag)
      == Extraction.TagContentResult([Extraction.Strip(prompt)], true)
  {
    Extraction.ExtractSingle(prompt, tag);
  }

  /** The two eviction policies: `ChatHistory` pops index 0, `FixedFirstChatHistory` pops index 1. */
  datatype Policy = EvictOldest | EvictSecond

  /** The list after `append(msg)`: on an exact hit of the bound, `pop(0)` or `pop(1)` first, which
      raises `IndexError` on a list too short for that index; otherwise nothing is evicted. */
  function Appended(policy: Policy, messages: seq<Message>, totalLength: int, msg: Message): (r: Result<seq<Message>>)
    ensures r.Err? <==> |messages| == totalLength && |messages| <= (if policy == EvictOldest then 0 else 1)
    ensures r.Err? ==> r.error.IndexError?
    ensures r.Ok? ==> |r.value| > 0 && r.value[|r.value| - 1] == msg
    ensures r.Ok? && |messages| != totalLength ==> r.value == messages + [msg]
    ensures r.Ok? && |messages| == totalLength ==> |r.value| == |messages|
    ensures r.Ok? && policy == EvictSecond && messages != [] ==> r.value[0] == messages[0]
  {
    if |messages| != totalLength then Ok(messages + [msg])
    else if messages == [] then Err(IndexError("pop from empty list"))
    else match policy
      case EvictOldest => Ok(messages[1..] + [msg])
      case EvictSecond =>
        if |messages| == 1 then Err(IndexError("pop index out of range"))
        else Ok([messages[0]] + messages[2..] + [msg])
  }

  /** A history that starts at or below a bound of at least 1 (at least 2 when the first message is fixed) never
      raises and never exceeds the bound. */
  lemma AppendKeepsBound(policy: Policy, messages: seq<Message>, totalLength: int, msg: Message)
    requires |messages| <= totalLength
    requires totalLength >= (if policy == EvictOldest then 1 else 2)
    ensures Appended(policy, messages, totalLength, msg).Ok?
    ensures |Appended(policy, messages, totalLength, msg).value| <= totalLength
  {
  }

  /** A bound other than the current length never evicts: in particular the default -1, and any bound the
      history has already outgrown. */
  lemma AppendBelowBoundGrows(policy: Policy, messages: seq<Message>, totalLength: int, msg: Message)
    requires |messages| != totalLength
    ensures Appended(policy, messages, totalLength, msg) == Ok(messages + [msg])
  {
  }

  /** The list after appending each of `msgs` in turn, stopping at the first error. */
  function AppendedAll(policy: Policy, messages: seq<Message>, totalLength: int, msgs: seq<Message>): Result<seq<Message>>
    decreases |msgs|
  {
    if msgs == [] then Ok(messages)
    else match Appended(policy, messages, totalLength, msgs[0])
      case Err(e) => Err(e)
      case Ok(next) => AppendedAll(policy, next, totalLength, msgs[1..])
  }

  /** A history longer than its bound (every history, under the default bound -1) only ever grows:
      eviction fires on an exact hit of the bound, never above it. */
  lemma {:induction false} OutgrownNeverEvicts(policy: Policy, messages: seq<Message>, totalLength: int, msgs: seq<Message>)
    requires |messages| > totalLength
    ensures AppendedAll(policy, messages, totalLength, msgs) == Ok(messages + msgs)
    decreases |msgs|
  {
    if msgs == [] {
      assert messages + msgs == messages;
    } else {
      OutgrownNeverEvicts(policy, messages + [msgs[0]], totalLength, msgs[1..]);
      assert messages + [msgs[0]] + msgs[1..] == messages + msgs;
    }
  }

  /** With the plain policy and a bound of at least 1, a history that starts within the bound is a sliding
      window: the most recent `min(total, bound)` messages of everything appended. */
  lemma {:induction false} SlidingWindow(messages: seq<Message>, totalLength: int, msgs: seq<Message>)
    requires 1 <= totalLength && |messages| <= totalLength
    ensures var r := AppendedAll(EvictOldest, messages, totalLength, msgs);
      var all := messages + msgs;
      var n := if |all| < totalLength then |all| else totalLength;
      r.Ok? && r.value == all[|all| - n..]
    decreases |msgs|
  {
    if msgs != [] {
      var next := Appended(EvictOldest, messages, totalLength, msgs[0]).value;
      SlidingWindow(next, totalLength, msgs[1..]);
      var all := messages + msgs;
      var all' := next + msgs[1..];
      if |messages| == totalLength {
        assert all' == all[1..];
      } else {
        assert all' == all;
      }
    }
  }

  /** With the fixed-first policy and a bound of at least 2, a non-empty history that starts within the
      bound keeps its first message, followed by the most recent of everything else appended. */
  lemma {:induction false} FixedFirstWindow(messages: seq<Message>, totalLength: int, msgs: seq<Message>)
    requires 2 <= totalLength && 1 <= |messages| <= totalLength
    ensures var r := AppendedAll(EvictSecond, messages, totalLength, msgs);
      var rest := messages[1..] + msgs;
      var n := if |rest| < totalLength - 1 then |rest| else totalLength - 1;
      r.Ok? && r.value == [messages[0]] + rest[|rest| - n..]
    decreases |msgs|
  {
    if msgs != [] {
      var next := Appended(EvictSecond, messages, totalLength, msgs[0]).value;
      assert [msgs[0]] + msgs[1..] == msgs;
      FixedFirstStep(messages, totalLength, msgs[0], msgs[1..]);
      assert AppendedAll(EvictSecond, messages, totalLength, msgs) == AppendedAll(EvictSecond, next, totalLength, msgs[1..]);
      FixedFirstWindow(next, totalLength, msgs[1..]);
      var rest := messages[1..] + msgs;
      if |messages| == totalLength {
        TailWindow(rest, totalLength - 1);
      }
    }
  }

  /** Dropping the head of a sequence longer than `w` keeps its last `w` entries. */
  lemma TailWindow<T>(s: seq<T>, w: nat)
    requires w < |s|
    ensures var t := s[1..]; var n := if |t| < w then |t| else w; t[|t| - n..] == s[|s| - w..]
  {
  }

  /** One fixed-first append: the first message stays, and what follows it, with the messages still to come,
      is everything after the first message, less the evicted one on an exact hit of the bound. */
  lemma FixedFirstStep(messages: seq<Message>, totalLength: int, msg: Message, tail: seq<Message>)
    requires 2 <= totalLength && 1 <= |messages| <= totalLength
    ensures var r := Appended(EvictSecond, messages, totalLength, msg);
      var rest := messages[1..] + ([msg] + tail);
      && r.Ok? && 1 <= |r.value| <= totalLength && r.value[0] == messages[0]
      && r.value[1..] + tail == (if |messages| == totalLength then rest[1..] else rest)
  {
    var rest := messages[1..] + ([msg] + tail);
    if |messages| == totalLength {
      assert ([messages[0]] + messages[2..] + [msg])[1..] + tail == rest[1..];
    } else {
      assert (messages + [msg])[1..] + tail == rest;
    }
  }

  /** Capacity 3, one initial message, five appends: three messages are left, the original first. */
  lemma FixedFirstExample(first: Message, m1: Message, m2: Message, m3: Message, m4: Message, m5: Message)
    ensures AppendedAll(EvictSecond, [first], 3, [m1, m2, m3, m4, m5]) == Ok([first, m4, m5])
  {
    FixedFirstWindow([first], 3, [m1, m2, m3, m4, m5]);
    var rest := [first][1..] + [m1, m2, m3, m4, m5];
    assert rest == [m1, m2, m3, m4, m5];
    assert rest[|rest| - 2..] == [m4, m5];
    assert [first] + [m4, m5] == [first, m4, m5];
  }

  /** `ChatHistory` and `FixedFirstChatHistory`: the list of messages and its bound. */
  class ChatHistory {
    var messages: seq<Message>
    const totalLength: int
    const policy: Policy

    /** `ChatHistory(messages, total_length)`: a copy of the given messages, or none. */
    constructor (messages: Option<seq<Message>>, totalLength: int)
      ensures this.messages == (if messages.Some? then messages.value else [])
      ensures this.totalLength == totalLength && policy == EvictOldest
    {
      this.messages := if messages.Some? then messages.value else [];
      this.totalLength := totalLength;
      policy := EvictOldest;
    }

    /** `FixedFirstChatHistory(messages, total_length)`. */
    constructor FixedFirst(messages: Option<seq<Message>>, totalLength: int)
      ensures this.messages == (if messages.Some? then messages.value else [])
      ensures this.totalLength == totalLength && policy == EvictSecond
    {
      this.messages := if messages.Some? then messages.value else [];
      this.totalLength := totalLength;
      policy := EvictSecond;
    }

    /** `append(msg)`, with the eviction of the history's own kind; on an `IndexError` nothing changes. */
    method Append(msg: Message) returns (o: Outcome)
      modifies this`messages
      ensures var r := Appended(policy, old(messages), totalLength, msg);
        if r.Ok? then o == Pass && messages == r.value else o == Fail(r.error) && messages == old(messages)
    {
      if |messages| == totalLength {
        if messages == [] {
          return Fail(IndexError("pop from empty list"));
        }
        match policy
        case EvictOldest =>
          messages := messages[1..];
        case EvictSecond =>
          if |messages| == 1 {
            return Fail(IndexError("pop index out of range"));
          }
          messages := [messages[0]] + messages[2..];
      }
      messages := messages + [msg];
      return Pass;
    }
  }

  /** `update_chat_history(history, msg, role)`: one untagged message appended through the history's own
      `append`, so its eviction applies. */
  method UpdateChatHistory(history: ChatHistory, msg: string, role: string) returns (o: Outcome)
    modifies history`messages
    ensures var r := Appended(history.policy, old(history.messages), history.totalLength, Message(role, msg));
      if r.Ok? then o == Pass && history.messages == r.value else o == Fail(r.error) && history.messages == old(history.messages)
  {
    o := history.Append(BuildPromptStructure(msg, role, ""));
  }
}
