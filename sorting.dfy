/** Ordering rows by a numeric key (`sort_values`, and the sorted copy behind quantiles). */
module Sorting {
  import opened Seqs

  /** `s` is in ascending order of `key`. */
  ghost predicate SortedBy<T>(s: seq<T>, key: T -> real)
  {
    forall i, j :: 0 <= i < j < |s| ==> key(s[i]) <= key(s[j])
  }

  /** Places `x` before the first element of `s` whose key is not smaller. */
  function Insert<T>(x: T, s: seq<T>, key: T -> real): (r: seq<T>)
    ensures |r| == |s| + 1
    ensures multiset(r) == multiset(s) + multiset{x}
    ensures r[0] == x || (s != [] && r[0] == s[0])
    ensures SortedBy(s, key) ==> SortedBy(r, key)
  {
    if s == [] then [x]
    else if key(x) <= key(s[0]) then [x] + s
    else
      assert s == [s[0]] + s[1..];
      [s[0]] + Insert(x, s[1..], key)
  }

  /** A sorted permutation of `s`.  Among rows with equal keys the model keeps input order;
      callers may only rely on sortedness and the permutation property. */
  function SortBy<T>(s: seq<T>, key: T -> real): (r: seq<T>)
    ensures |r| == |s|
    ensures multiset(r) == multiset(s)
    ensures SortedBy(r, key)
  {
    if s == [] then []
    else
      assert s == [s[0]] + s[1..];
      Insert(s[0], SortBy(s[1..], key), key)
  }

  /** The first element of a sorted sequence has the least key and the last the greatest. */
  lemma SortedEnds<T>(s: seq<T>, key: T -> real, x: T)
    requires SortedBy(s, key) && x in s
    ensures key(s[0]) <= key(x) <= key(s[|s| - 1])
  {
    var i :| 0 <= i < |s| && s[i] == x;
    assert i == 0 || key(s[0]) <= key(s[i]);
    assert i == |s| - 1 || key(s[i]) <= key(s[|s| - 1]);
  }

  /** Selecting rows keeps them in their relative order, so a sorted input stays sorted. */
  lemma {:induction false} SelectSorted<T, A>(s: seq<T>, keep: (T, A) -> bool, arg: A, key: T -> real)
    requires SortedBy(s, key)
    ensures SortedBy(Select(s, keep, arg), key)
  {
    if s != [] {
      assert SortedBy(s[1..], key);
      SelectSorted(s[1..], keep, arg, key);
      var rest := Select(s[1..], keep, arg);
      forall x | x in rest ensures key(s[0]) <= key(x) {
        var i :| 0 <= i < |s[1..]| && s[1..][i] == x;
        assert s[i + 1] == x;
      }
    }
  }
}
