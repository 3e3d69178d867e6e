/** Counting and membership facts about sequences, used by the scheduler and
    by the wiring operations (which keep two lists of agents in step). */
module Seqs {

  /** Number of occurrences of `x` in `s`. */
  function Count<T(==)>(s: seq<T>, x: T): (n: nat)
    ensures n <= |s|
    ensures n == 0 <==> x !in s
  {
    if s == [] then 0 else (if s[0] == x then 1 else 0) + Count(s[1..], x)
  }

  lemma {:induction false} CountAppend<T>(s: seq<T>, t: seq<T>, x: T)
    ensures Count(s + t, x) == Count(s, x) + Count(t, x)
  {
    if s == [] {
      assert s + t == t;
    } else {
      assert (s + t)[1..] == s[1..] + t;
      CountAppend(s[1..], t, x);
    }
  }

  /** `n` copies of `x`. */
  function Repeat<T>(x: T, n: nat): (r: seq<T>)
    ensures |r| == n
    ensures forall i :: 0 <= i < n ==> r[i] == x
  {
    if n == 0 then [] else Repeat(x, n - 1) + [x]
  }

  /** `n` copies of `x` hold `x` `n` times and nothing else. */
  lemma {:induction false} CountRepeat<T>(x: T, n: nat, y: T)
    ensures Count(Repeat(x, n), y) == if x == y then n else 0
  {
    if n > 0 {
      CountRepeat(x, n - 1, y);
      CountAppend(Repeat(x, n - 1), [x], y);
      assert Count([x], y) == Count([x][1..], y) + (if x == y then 1 else 0);
    }
  }

  /** The string `s` written `n` times in a row. */
  function Times(s: string, n: nat): string {
    if n == 0 then "" else Times(s, n - 1) + s
  }

  /** Number of entries of `s` whose value does not occur in `done`. */
  function CountNotIn<T(==)>(s: seq<T>, done: seq<T>): (n: nat)
    ensures n <= |s|
  {
    if s == [] then 0 else (if s[0] in done then 0 else 1) + CountNotIn(s[1..], done)
  }

  lemma {:induction false} CountNotInNone<T>(s: seq<T>)
    ensures CountNotIn(s, []) == |s|
  {
    if s != [] {
      CountNotInNone(s[1..]);
    }
  }

  lemma {:induction false} CountNotInZero<T>(s: seq<T>, done: seq<T>)
    ensures CountNotIn(s, done) == 0 <==> forall y :: y in s ==> y in done
  {
    if s != [] {
      CountNotInZero(s[1..], done);
      assert forall y :: y in s <==> y == s[0] || y in s[1..];
    }
  }

  /** Marking one more value `c` as done removes exactly its occurrences from the count. */
  lemma {:induction false} CountNotInExtend<T>(s: seq<T>, done: seq<T>, c: T)
    requires c !in done
    ensures CountNotIn(s, done + [c]) + Count(s, c) == CountNotIn(s, done)
  {
    if s != [] {
      CountNotInExtend(s[1..], done, c);
      assert s[0] in done + [c] <==> s[0] in done || s[0] == c;
    }
  }

  ghost predicate Distinct<T>(s: seq<T>) {
    forall i, j :: 0 <= i < j < |s| ==> s[i] != s[j]
  }

  function Elements<T>(s: seq<T>): set<T> {
    set x | x in s
  }

  lemma {:induction false} DistinctCard<T>(s: seq<T>)
    requires Distinct(s)
    ensures |Elements(s)| == |s|
  {
    if s != [] {
      DistinctCard(s[1..]);
      assert Elements(s) == {s[0]} + Elements(s[1..]);
      forall j | 0 <= j < |s[1..]| ensures s[1..][j] != s[0] {
        assert s[1..][j] == s[j + 1];
      }
    }
  }

  lemma {:induction false} DistinctMultiset<T>(s: seq<T>)
    requires Distinct(s)
    ensures forall x {:trigger multiset(s)[x]} :: multiset(s)[x] == if x in s then 1 else 0
  {
    if s != [] {
      assert Distinct(s[1..]) by {
        forall i, j | 0 <= i < j < |s[1..]| ensures s[1..][i] != s[1..][j] {
          assert s[1..][i] == s[i + 1] && s[1..][j] == s[j + 1];
        }
      }
      DistinctMultiset(s[1..]);
      assert s == [s[0]] + s[1..];
      assert multiset(s) == multiset{s[0]} + multiset(s[1..]);
      forall j | 0 <= j < |s[1..]| ensures s[1..][j] != s[0] {
        assert s[1..][j] == s[j + 1];
      }
    }
  }

  /** A repetition-free `s` drawn from a repetition-free `t` is at most as long,
      and when it is as long it holds every element of `t`, as often: it is a
      permutation. */
  lemma DistinctSubsetLength<T>(s: seq<T>, t: seq<T>)
    requires Distinct(s) && Distinct(t)
    requires forall x :: x in s ==> x in t
    ensures |s| <= |t|
    ensures |s| == |t| ==> multiset(s) == multiset(t)
  {
    DistinctCard(s);
    DistinctCard(t);
    assert Elements(s) <= Elements(t);
    assert Elements(t) == Elements(s) + (Elements(t) - Elements(s));
    if |s| == |t| {
      assert Elements(s) == Elements(t);
      DistinctMultiset(s);
      DistinctMultiset(t);
      forall x ensures multiset(s)[x] == multiset(t)[x] {
        assert x in s <==> x in Elements(s);
        assert x in t <==> x in Elements(t);
      }
    }
  }

  /** Position of the first occurrence of `x` in `s`. */
  function IndexOf<T(==)>(s: seq<T>, x: T): (k: nat)
    requires x in s
    ensures k < |s| && s[k] == x && x !in s[..k]
  {
    if s[0] == x then 0
    else
      var k := 1 + IndexOf(s[1..], x);
      assert s[..k] == [s[0]] + s[1..][..k - 1];
      k
  }
}
