/** Sequence helpers shared by the ledger, the vote model and the protocol engine. */
module Seqs {

  /** No element occurs twice. */
  predicate NoDuplicates<T(==)>(s: seq<T>)
  {
    forall i, j :: 0 <= i < j < |s| ==> s[i] != s[j]
  }

  /** The elements of `s` without repetitions, each kept at its first occurrence
      (the `unique()` iterator adaptor of the itertools crate). */
  function Distinct<T(==, !new)>(s: seq<T>): (r: seq<T>)
    ensures NoDuplicates(r)
    ensures forall x :: x in r <==> x in s
    ensures |r| <= |s|
    decreases |s|
  {
    if s == [] then []
    else
      var r := Distinct(s[..|s| - 1]);
      if s[|s| - 1] in r then r else r + [s[|s| - 1]]
  }

  /** A sequence that already has no repetitions is left as it is. */
  lemma {:induction false} DistinctOfDistinct<T(!new)>(s: seq<T>)
    requires NoDuplicates(s)
    ensures Distinct(s) == s
  {
    if s != [] {
      var init := s[..|s| - 1];
      assert NoDuplicates(init);
      DistinctOfDistinct(init);
      assert s[|s| - 1] !in init;
      assert init + [s[|s| - 1]] == s;
    }
  }

  /** A sequence without repetitions drawn from a set is no longer than the set. */
  lemma {:induction false} NoDuplicatesBounded<T>(r: seq<T>, elements: set<T>)
    requires NoDuplicates(r)
    requires forall i | 0 <= i < |r| :: r[i] in elements
    ensures |r| <= |elements|
  {
    if r != [] {
      var init := r[..|r| - 1];
      assert forall i | 0 <= i < |init| :: init[i] != r[|r| - 1];
      NoDuplicatesBounded(init, elements - {r[|r| - 1]});
    }
  }

  /** `x` occurs in `s` before the first occurrence of `y`. */
  ghost predicate FirstSeenBefore<T>(s: seq<T>, x: T, y: T)
  {
    exists k | 0 <= k < |s| :: s[k] == x && y !in s[..k + 1]
  }

  /** The elements of `r` come in the order of their first occurrences in `s`. */
  ghost predicate InFirstOccurrenceOrder<T>(r: seq<T>, s: seq<T>)
  {
    forall i, j | 0 <= i < j < |r| :: FirstSeenBefore(s, r[i], r[j])
  }

  /** `Distinct` lists the elements in the order in which they first occur. */
  lemma {:induction false} DistinctFirstOccurrenceOrder<T(!new)>(s: seq<T>)
    ensures InFirstOccurrenceOrder(Distinct(s), s)
  {
    if s != [] {
      var init, last := s[..|s| - 1], s[|s| - 1];
      DistinctFirstOccurrenceOrder(init);
      assert s == init + [last];
      FirstOccurrenceOrderSnoc(Distinct(init), init, last, Distinct(s));
    }
  }

  /** Appending `last` to `s` keeps an order of first occurrences, whether or not
      `last` is appended to the list too, provided it is new when it is. */
  lemma FirstOccurrenceOrderSnoc<T>(r: seq<T>, s: seq<T>, last: T, extended: seq<T>)
    requires InFirstOccurrenceOrder(r, s)
    requires forall x | x in r :: x in s
    requires extended == r || (extended == r + [last] && last !in s)
    ensures InFirstOccurrenceOrder(extended, s + [last])
  {
    forall i, j | 0 <= i < j < |extended|
      ensures FirstSeenBefore(s + [last], extended[i], extended[j])
    {
      assert extended[i] == r[i];
      if j < |r| {
        var k :| 0 <= k < |s| && s[k] == r[i] && r[j] !in s[..k + 1];
        assert (s + [last])[..k + 1] == s[..k + 1];
      } else {
        assert r[i] in s;
        var k :| 0 <= k < |s| && s[k] == r[i];
        assert (s + [last])[..k + 1] == s[..k + 1];
      }
    }
  }

  /** The first element of a non-empty sequence stays first. */
  lemma {:induction false} DistinctKeepsFirst<T(!new)>(s: seq<T>)
    requires s != []
    ensures Distinct(s) != [] && Distinct(s)[0] == s[0]
  {
    if |s| > 1 {
      DistinctKeepsFirst(s[..|s| - 1]);
    }
  }

  /** `s` back to front (the `reverse()` of a Rust vector). */
  function Reverse<T>(s: seq<T>): (r: seq<T>)
    ensures |r| == |s|
    ensures forall i :: 0 <= i < |s| ==> r[i] == s[|s| - 1 - i]
  {
    if s == [] then [] else Reverse(s[1..]) + [s[0]]
  }

  lemma ReverseSnoc<T>(s: seq<T>, x: T)
    ensures Reverse(s + [x]) == [x] + Reverse(s)
  {
    assert forall i :: 0 <= i < |s| + 1 ==> Reverse(s + [x])[i] == ([x] + Reverse(s))[i];
  }

  /** The sequences of `ss` one after another. */
  function Flatten<T>(ss: seq<seq<T>>): seq<T>
  {
    if ss == [] then [] else Flatten(ss[..|ss| - 1]) + ss[|ss| - 1]
  }

  /** Joining two sequences without repetitions that share no element gives
      one without repetitions. */
  lemma NoDuplicatesAppend<T>(a: seq<T>, b: seq<T>)
    requires NoDuplicates(a) && NoDuplicates(b)
    requires forall x | x in a :: x !in b
    ensures NoDuplicates(a + b)
  {
    forall i, j | 0 <= i < j < |a + b|
      ensures (a + b)[i] != (a + b)[j]
    {
      if i < |a| && j >= |a| {
        assert (a + b)[i] in a && (a + b)[j] in b;
      }
    }
  }
}
