/** `extract_tag_content`: every non-overlapping, left-to-right match of `<tag>(.*?)</tag>`
    (lazy, with `.` matching newlines too), each body stripped of surrounding whitespace.
    The tag is taken literally, as a plain tag name. */
module Extraction {
  import opened Wrappers

  /** Python's `str.isspace` on one character: the ASCII whitespace and separator controls,
      U+0085, U+00A0 and the Unicode space separators. */
  predicate IsSpace(c: char) {
    || c == ' ' || ('\U{0009}' <= c <= '\U{000D}') || ('\U{001C}' <= c <= '\U{001F}')
    || c == '\U{0085}' || c == '\U{00A0}' || c == '\U{1680}'
    || ('\U{2000}' <= c <= '\U{200A}')
    || c == '\U{2028}' || c == '\U{2029}' || c == '\U{202F}' || c == '\U{205F}' || c == '\U{3000}'
  }

  /** No whitespace at either end. */
  predicate Stripped(s: string) {
    s == [] || (!IsSpace(s[0]) && !IsSpace(s[|s| - 1]))
  }

  /** The first position at or after `i` that does not hold whitespace (or the end). */
  function SkipSpace(s: string, i: nat): (j: nat)
    requires i <= |s|
    ensures i <= j <= |s| && (j == |s| || !IsSpace(s[j]))
    ensures forall d :: i <= d < j ==> IsSpace(s[d])
    decreases |s| - i
  {
    if i == |s| || !IsSpace(s[i]) then i else SkipSpace(s, i + 1)
  }

  /** The position just past the last non-whitespace character in `s[i..e]` (or `i`). */
  function SkipSpaceBack(s: string, i: nat, e: nat): (j: nat)
    requires i <= e <= |s|
    ensures i <= j <= e && (j == i || !IsSpace(s[j - 1]))
    ensures forall d :: j <= d < e ==> IsSpace(s[d])
    decreases e - i
  {
    if e == i || !IsSpace(s[e - 1]) then e else SkipSpaceBack(s, i, e - 1)
  }

  /** `str.strip()`: the result has no whitespace at its ends. */
  function Strip(s: string): (r: string)
    ensures Stripped(r)
  {
    var i := SkipSpace(s, 0);
    s[i..SkipSpaceBack(s, i, |s|)]
  }

  /** `r` is `s[i..]` cut short, with only whitespace before position `i` and after `r`. */
  ghost predicate TrimmedAt(s: string, r: string, i: nat) {
    i + |r| <= |s| && r == s[i..i + |r|]
    && (forall d :: 0 <= d < i ==> IsSpace(s[d]))
    && (forall d :: i + |r| <= d < |s| ==> IsSpace(s[d]))
  }

  /** What `str.strip()` removes is whitespace only, and only at the two ends. */
  lemma StripTrims(s: string)
    ensures exists i :: TrimmedAt(s, Strip(s), i)
  {
    var i := SkipSpace(s, 0);
    assert TrimmedAt(s, Strip(s), i);
  }

  /** A text without whitespace at its ends is left as it is. */
  lemma StripKeeps(s: string)
    requires Stripped(s)
    ensures Strip(s) == s
  {
    var i := SkipSpace(s, 0);
    assert i == 0;
    var e := SkipSpaceBack(s, i, |s|);
    assert e == |s|;
  }

  /** Stripping twice is stripping once. */
  lemma StripIdempotent(s: string)
    ensures Strip(Strip(s)) == Strip(s)
  {
    StripKeeps(Strip(s));
  }

  /** `pat` occurs in `s` starting at position `i`. */
  predicate OccursAt(s: string, pat: string, i: nat) {
    i + |pat| <= |s| && forall d :: 0 <= d < |pat| ==> s[i + d] == pat[d]
  }

  predicate Contains(s: string, pat: string) {
    exists i: nat | i <= |s| :: OccursAt(s, pat, i)
  }

  /** `str.find(pat, k)`, the way `re` scans: the first position at or after `k` where `pat` occurs. */
  function FindFrom(s: string, pat: string, k: nat): (r: Option<nat>)
    requires k <= |s|
    ensures r.Some? ==> k <= r.value && r.value + |pat| <= |s|
    decreases |s| - k
  {
    if OccursAt(s, pat, k) then Some(k)
    else if k + |pat| >= |s| then None
    else FindFrom(s, pat, k + 1)
  }

  /** `FindFrom` reports an occurrence, and there is none between `k` and it; without a report
      there is none at all from `k` on. */
  lemma {:induction false} FindFromFirst(s: string, pat: string, k: nat)
    requires k <= |s|
    ensures var r := FindFrom(s, pat, k);
      && (r.Some? ==> OccursAt(s, pat, r.value))
      && forall j: nat :: k <= j && (r.None? || j < r.value) ==> !OccursAt(s, pat, j)
    decreases |s| - k
  {
    if !OccursAt(s, pat, k) && k + |pat| < |s| {
      FindFromFirst(s, pat, k + 1);
    }
  }

  /** An occurrence at `i` with none between `k` and `i` is what `FindFrom` reports. */
  lemma FindFromIs(s: string, pat: string, k: nat, i: nat)
    requires k <= i && OccursAt(s, pat, i)
    requires forall j: nat :: k <= j < i ==> !OccursAt(s, pat, j)
    ensures FindFrom(s, pat, k) == Some(i)
  {
    FindFromFirst(s, pat, k);
    var r := FindFrom(s, pat, k);
    assert r.value <= i;
  }

  /** An occurrence inside `s[a..b]` is one in `s`, shifted by `a`. */
  lemma OccursWithin(s: string, a: nat, b: nat, pat: string, d: nat)
    requires a <= d && a <= b <= |s|
    ensures d + |pat| <= b ==> (OccursAt(s, pat, d) <==> OccursAt(s[a..b], pat, d - a))
  {
  }

  function Open(tag: string): string { "<" + tag + ">" }
  function Close(tag: string): string { "</" + tag + ">" }

  /** The bodies `re.findall(open + "(.*?)" + close, text, re.DOTALL)` reports from position `k` on:
      after the leftmost `open`, the text up to the nearest `close`; then the scan goes on after
      that `close`. Without a `close` after the leftmost `open` there is no further match. */
  function FindAllFrom(text: string, open: string, close: string, k: nat): seq<string>
    requires |open| > 0 && k <= |text|
    decreases |text| - k
  {
    match FindFrom(text, open, k)
    case None => []
    case Some(i) =>
      match FindFrom(text, close, i + |open|)
      case None => []
      case Some(j) => [text[i + |open|..j]] + FindAllFrom(text, open, close, j + |close|)
  }

  function FindAll(text: string, tag: string): (r: seq<string>)
    ensures Decomposes(text, Open(tag), Close(tag), 0, r)
  {
    FindAllDecomposes(text, Open(tag), Close(tag), 0);
    FindAllFrom(text, Open(tag), Close(tag), 0)
  }

  /** From position `k` on, `text` holds no `open` that some `close` follows. */
  ghost predicate NoMatchFrom(text: string, open: string, close: string, k: nat) {
    forall i: nat, j: nat :: k <= i && i + |open| <= j && OccursAt(text, open, i) ==> !OccursAt(text, close, j)
  }

  /** `text`, from position `k` on, reads: text without `open`, `open`, `bodies[0]` (which holds no
      `close`), `close`, and from there on the same again for `bodies[1..]`; once the bodies are
      used up, no `open` followed by a `close` is left. The matches are the leftmost, the shortest,
      non-overlapping and in the order of the text. */
  ghost predicate Decomposes(text: string, open: string, close: string, k: nat, bodies: seq<string>)
    decreases |bodies|, 1
  {
    if bodies == [] then NoMatchFrom(text, open, close, k)
    else exists i: nat, j: nat :: FirstMatch(text, open, close, k, bodies, i, j)
  }

  /** The leftmost `open` from `k` on is at `i`, the nearest `close` after it at `j`, the text between
      them is `bodies[0]`, and the text after that `close` decomposes into `bodies[1..]`. */
  ghost predicate FirstMatch(text: string, open: string, close: string, k: nat, bodies: seq<string>, i: nat, j: nat)
    requires bodies != []
    decreases |bodies|, 0
  {
    && k <= i && i + |open| <= j && j + |close| <= |text|
    && OccursAt(text, open, i) && (forall d: nat :: k <= d < i ==> !OccursAt(text, open, d))
    && text[i + |open|..j] == bodies[0]
    && OccursAt(text, close, j) && (forall d: nat :: i + |open| <= d < j ==> !OccursAt(text, close, d))
    && Decomposes(text, open, close, j + |close|, bodies[1..])
  }

  /** One step of `FindAllFrom`. */
  lemma FindAllStep(text: string, open: string, close: string, k: nat, i: nat, j: nat)
    requires |open| > 0 && k <= |text|
    requires FindFrom(text, open, k) == Some(i)
    requires FindFrom(text, close, i + |open|) == Some(j)
    ensures j + |close| <= |text|
    ensures FindAllFrom(text, open, close, k) == [text[i + |open|..j]] + FindAllFrom(text, open, close, j + |close|)
  {
  }

  /** Matches do not overlap and each one uses up text, so there are no more matches than characters
      from `k` on; and there is a match only where an `open` occurs from `k` on. */
  lemma {:induction false} FindAllBound(text: string, open: string, close: string, k: nat)
    requires |open| > 0 && k <= |text|
    ensures |FindAllFrom(text, open, close, k)| <= |text| - k
    ensures FindAllFrom(text, open, close, k) != [] ==> FindFrom(text, open, k).Some?
    decreases |text| - k
  {
    match FindFrom(text, open, k)
    case None =>
    case Some(i) =>
      match FindFrom(text, close, i + |open|)
      case None =>
      case Some(j) =>
        FindAllStep(text, open, close, k, i, j);
        FindAllBound(text, open, close, j + |close|);
  }

  /** None of `FindAllFrom`'s cases is missed: the bodies it reports are exactly the matches, in order. */
  lemma {:induction false} FindAllDecomposes(text: string, open: string, close: string, k: nat)
    requires |open| > 0 && k <= |text|
    ensures Decomposes(text, open, close, k, FindAllFrom(text, open, close, k))
    decreases |text| - k
  {
    FindFromFirst(text, open, k);
    match FindFrom(text, open, k)
    case None =>
      assert NoMatchFrom(text, open, close, k);
    case Some(i) =>
      FindFromFirst(text, close, i + |open|);
      match FindFrom(text, close, i + |open|)
      case None =>
        assert NoMatchFrom(text, open, close, k) by {
          forall i': nat, j': nat | k <= i' && i' + |open| <= j' && OccursAt(text, open, i')
            ensures !OccursAt(text, close, j')
          {
            assert i <= i';
          }
        }
      case Some(j) =>
        FindAllStep(text, open, close, k, i, j);
        FindAllDecomposes(text, open, close, j + |close|);
        var bodies := FindAllFrom(text, open, close, k);
        assert bodies[0] == text[i + |open|..j];
        assert bodies[1..] == FindAllFrom(text, open, close, j + |close|);
        assert FirstMatch(text, open, close, k, bodies, i, j);
  }

  /** A body holds no `close`: the match is the shortest. */
  lemma DecomposesNoClose(text: string, open: string, close: string, k: nat, bodies: seq<string>, m: nat)
    requires |close| > 0 && Decomposes(text, open, close, k, bodies) && m < |bodies|
    ensures !Contains(bodies[m], close)
    decreases m
  {
    var i: nat, j: nat :| FirstMatch(text, open, close, k, bodies, i, j);
    if m == 0 {
      forall e: nat | e <= |bodies[0]| ensures !OccursAt(bodies[0], close, e) {
        OccursWithin(text, i + |open|, j, close, i + |open| + e);
      }
    } else {
      DecomposesNoClose(text, open, close, j + |close|, bodies[1..], m - 1);
    }
  }

  datatype TagContentResult = TagContentResult(content: seq<string>, found: bool)

  /** `extract_tag_content(text, tag)`: the stripped bodies, and whether there was any match. */
  function ExtractTagContent(text: string, tag: string): (r: TagContentResult)
    ensures r.found <==> |r.content| > 0
    ensures |r.content| == |FindAll(text, tag)|
    ensures forall k :: 0 <= k < |r.content| ==> r.content[k] == Strip(FindAll(text, tag)[k])
    ensures forall x :: x in r.content ==> Stripped(x)
  {
    var matched := FindAll(text, tag);
    TagContentResult(seq(|matched|, k requires 0 <= k < |matched| => Strip(matched[k])), |matched| > 0)
  }

  /** Text without `<tag>` has no match. */
  lemma NoOpenNoContent(text: string, tag: string)
    requires !Contains(text, Open(tag))
    ensures ExtractTagContent(text, tag) == TagContentResult([], false)
  {
    FindFromFirst(text, Open(tag), 0);
    assert FindFrom(text, Open(tag), 0).None?;
  }

  /** A character that stands for itself in a regular expression and is no angle bracket. */
  predicate TagChar(c: char) {
    ('a' <= c <= 'z') || ('A' <= c <= 'Z') || ('0' <= c <= '9') || c == '_' || c == '-'
  }

  /** A tag name that `re` reads literally once put into the pattern: letters, digits, `_` and `-`. */
  predicate PlainTag(tag: string) {
    forall i :: 0 <= i < |tag| ==> TagChar(tag[i])
  }

  /** Past its first character, `</tag>` holds no `<`. */
  lemma CloseOneOpen(tag: string)
    requires PlainTag(tag)
    ensures forall d :: 1 <= d < |Close(tag)| ==> Close(tag)[d] != '<'
  {
    var c := Close(tag);
    forall d | 1 <= d < |c| ensures c[d] != '<' {
      if 2 <= d < |c| - 1 {
        assert c[d] == tag[d - 2] && TagChar(tag[d - 2]);
      }
    }
  }

  /** In `<tag>` + `body` + `</tag>`, the first `</tag>` after `<tag>` is the one at the end
      when `body` holds none. */
  lemma CloseAtEnd(body: string, tag: string)
    requires PlainTag(tag) && !Contains(body, Close(tag))
    ensures var text := Open(tag) + body + Close(tag);
      FindFrom(text, Close(tag), |Open(tag)|) == Some(|Open(tag)| + |body|)
  {
    var open, close := Open(tag), Close(tag);
    var text := open + body + close;
    var b := |open|;
    var e := b + |body|;
    assert OccursAt(text, close, e);
    CloseOneOpen(tag);
    forall d: nat | b <= d < e ensures !OccursAt(text, close, d) {
      if d + |close| <= e {
        assert text[b..e] == body;
        OccursWithin(text, b, e, close, d);
      } else {
        assert text[d + (e - d)] == '<' != close[e - d];
      }
    }
    FindFromIs(text, close, b, e);
  }

  /** A text that is one tagged body yields that body alone, stripped, when the body holds no `</tag>`. */
  lemma ExtractSingle(body: string, tag: string)
    requires PlainTag(tag) && !Contains(body, Close(tag))
    ensures ExtractTagContent(Open(tag) + body + Close(tag), tag) == TagContentResult([Strip(body)], true)
  {
    var open, close := Open(tag), Close(tag);
    var text := open + body + close;
    var b := |open|;
    var e := b + |body|;
    assert OccursAt(text, open, 0);
    FindFromIs(text, open, 0, 0);
    CloseAtEnd(body, tag);
    FindAllStep(text, open, close, 0, 0, e);
    assert text[b..e] == body;
    assert FindFrom(text, open, |text|).None?;
    assert FindAll(text, tag) == [body];
  }
}
