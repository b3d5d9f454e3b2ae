/** `drop_duplicates()` with its default `keep='first'`: a row equal to an earlier row is dropped. */
module Dedup {

  /** No two positions of `s` hold equal rows. */
  ghost predicate Distinct<T>(s: seq<T>)
  {
    forall i, j :: 0 <= i < j < |s| ==> s[i] != s[j]
  }

  /** Position `i` holds the first occurrence of its row. */
  ghost predicate IsFirstOccurrence<T>(s: seq<T>, i: nat)
    requires i < |s|
  {
    s[i] !in s[..i]
  }

  /** The rows of `s` that are not duplicates of an earlier row, in their original order. */
  function DropDuplicates<T(==)>(s: seq<T>): (r: seq<T>)
    ensures forall i :: 0 <= i < |r| ==> r[i] in s
    ensures forall i :: 0 <= i < |s| ==> s[i] in r
    ensures Distinct(r)
  {
    if s == [] then []
    else
      var init := s[..|s| - 1];
      var p := DropDuplicates(init);
      assert s == init + [s[|s| - 1]];
      if s[|s| - 1] in init then p else p + [s[|s| - 1]]
  }

  /** The positions of `s` that `DropDuplicates` keeps. */
  function KeptPositions<T(==)>(s: seq<T>): seq<nat>
  {
    if s == [] then []
    else
      var init := s[..|s| - 1];
      KeptPositions(init) + if s[|s| - 1] in init then [] else [|s| - 1]
  }

  /** The k-th kept row is the row at the k-th kept position, which is a first occurrence. */
  ghost predicate KeptRowsMatch<T>(s: seq<T>, ps: seq<nat>, r: seq<T>)
  {
    && |ps| == |r|
    && forall k :: 0 <= k < |ps| ==> ps[k] < |s| && r[k] == s[ps[k]] && IsFirstOccurrence(s, ps[k])
  }

  /** Kept positions increase, and every first occurrence is kept. */
  ghost predicate PositionsComplete<T>(s: seq<T>, ps: seq<nat>)
  {
    && (forall k, l :: 0 <= k < l < |ps| ==> ps[k] < ps[l])
    && (forall i :: 0 <= i < |s| && IsFirstOccurrence(s, i) ==> i in ps)
  }

  /** `DropDuplicates(s)` lists, in increasing position order, exactly the rows of `s` at first
      occurrences. */
  lemma KeepsFirstOccurrences<T>(s: seq<T>)
    ensures KeptRowsMatch(s, KeptPositions(s), DropDuplicates(s))
    ensures PositionsComplete(s, KeptPositions(s))
  {
    KeptRowsAreFirstOccurrences(s);
    KeptPositionsComplete(s);
  }

  /** Every kept position is a position of `s`. */
  lemma {:induction false} KeptPositionsBounded<T>(s: seq<T>)
    ensures forall k :: 0 <= k < |KeptPositions(s)| ==> KeptPositions(s)[k] < |s|
  {
    if s != [] {
      KeptPositionsBounded(s[..|s| - 1]);
    }
  }

  lemma {:induction false} KeptRowsAreFirstOccurrences<T>(s: seq<T>)
    ensures KeptRowsMatch(s, KeptPositions(s), DropDuplicates(s))
  {
    if s != [] {
      var n := |s|;
      var init := s[..n - 1];
      KeptRowsAreFirstOccurrences(init);
      KeptPositionsBounded(init);
      var ps0, r0 := KeptPositions(init), DropDuplicates(init);
      var ps, r := KeptPositions(s), DropDuplicates(s);
      if s[n - 1] in init {
        assert ps == ps0 && r == r0;
      } else {
        assert ps == ps0 + [n - 1] && r == r0 + [s[n - 1]];
      }
      forall k | 0 <= k < |ps|
        ensures ps[k] < n && r[k] == s[ps[k]] && IsFirstOccurrence(s, ps[k])
      {
        if k < |ps0| {
          assert ps[k] == ps0[k] && r[k] == r0[k];
          FirstOccurrenceExtends(s, ps0[k]);
        } else {
          assert ps[k] == n - 1 && r[k] == s[n - 1];
        }
      }
    }
  }

  lemma {:induction false} KeptPositionsComplete<T>(s: seq<T>)
    ensures PositionsComplete(s, KeptPositions(s))
  {
    if s != [] {
      var n := |s|;
      var init := s[..n - 1];
      KeptPositionsComplete(init);
      KeptPositionsBounded(init);
      var ps0, ps := KeptPositions(init), KeptPositions(s);
      if s[n - 1] in init {
        assert ps == ps0;
      } else {
        assert ps == ps0 + [n - 1];
      }
      forall i | 0 <= i < n && IsFirstOccurrence(s, i)
        ensures i in ps
      {
        if i < n - 1 {
          FirstOccurrenceExtends(s, i);
        }
      }
    }
  }

  /** A position before the last is a first occurrence in `s` iff it is one in `s` without its
      last element. */
  lemma FirstOccurrenceExtends<T>(s: seq<T>, i: nat)
    requires i < |s| - 1
    ensures s[i] == s[..|s| - 1][i] && (IsFirstOccurrence(s, i) <==> IsFirstOccurrence(s[..|s| - 1], i))
  {
    assert s[..i] == s[..|s| - 1][..i];
  }

  /** Dropping duplicates twice is the same as dropping them once. */
  lemma {:induction false} DropDuplicatesIdempotent<T>(s: seq<T>)
    requires Distinct(s)
    ensures DropDuplicates(s) == s
  {
    if s != [] {
      var init := s[..|s| - 1];
      assert Distinct(init);
      DropDuplicatesIdempotent(init);
      assert s[|s| - 1] !in init;
      assert s == init + [s[|s| - 1]];
    }
  }
}
