/** Sequence helpers shared by the pipeline stages: row selection, concatenation and sums. */
module Seqs {

  /** The elements of `s` for which `keep(x, arg)` holds, in their original order
      (a boolean row mask, as in `df[mask]`). */
  function Select<T, A>(s: seq<T>, keep: (T, A) -> bool, arg: A): (r: seq<T>)
    ensures |r| <= |s|
    ensures forall x :: x in r ==> x in s && keep(x, arg)
  {
    if s == [] then []
    else if keep(s[0], arg) then [s[0]] + Select(s[1..], keep, arg)
    else Select(s[1..], keep, arg)
  }

  /** Selection keeps exactly the copies of each element that pass the test. */
  lemma {:induction false} SelectCount<T, A>(s: seq<T>, keep: (T, A) -> bool, arg: A, x: T)
    ensures multiset(Select(s, keep, arg))[x] == if keep(x, arg) then multiset(s)[x] else 0
  {
    if s != [] {
      SelectCount(s[1..], keep, arg, x);
      assert s == [s[0]] + s[1..];
    }
  }

  /** An element is selected iff it occurs and passes the test. */
  lemma SelectMember<T, A>(s: seq<T>, keep: (T, A) -> bool, arg: A, x: T)
    ensures x in Select(s, keep, arg) <==> x in s && keep(x, arg)
  {
    SelectCount(s, keep, arg, x);
    assert x in Select(s, keep, arg) <==> multiset(Select(s, keep, arg))[x] > 0;
  }

  /** Selection only depends on the multiset of its input. */
  lemma SelectPermutation<T, A>(a: seq<T>, b: seq<T>, keep: (T, A) -> bool, arg: A)
    requires multiset(a) == multiset(b)
    ensures multiset(Select(a, keep, arg)) == multiset(Select(b, keep, arg))
  {
    var ma, mb := multiset(Select(a, keep, arg)), multiset(Select(b, keep, arg));
    forall x ensures ma[x] == mb[x] {
      SelectCount(a, keep, arg, x);
      SelectCount(b, keep, arg, x);
    }
    MultisetExt(ma, mb);
  }

  lemma MultisetExt<T>(ma: multiset<T>, mb: multiset<T>)
    requires forall z :: ma[z] == mb[z]
    ensures ma == mb
  {
  }

  /** Two masks that agree on every element select the same rows. */
  lemma {:induction false} SelectSameMask<T, A, B>(s: seq<T>, p: (T, A) -> bool, a: A, q: (T, B) -> bool, b: B)
    requires forall i :: 0 <= i < |s| ==> p(s[i], a) == q(s[i], b)
    ensures Select(s, p, a) == Select(s, q, b)
  {
    if s != [] {
      SelectSameMask(s[1..], p, a, q, b);
    }
  }

  /** Selection distributes over concatenation. */
  lemma {:induction false} SelectAppend<T, A>(a: seq<T>, b: seq<T>, keep: (T, A) -> bool, arg: A)
    ensures Select(a + b, keep, arg) == Select(a, keep, arg) + Select(b, keep, arg)
  {
    if a != [] {
      assert (a + b)[1..] == a[1..] + b;
      SelectAppend(a[1..], b, keep, arg);
    } else {
      assert a + b == b;
    }
  }

  /** The concatenation of a list of frames, in list order (`pd.concat(..., ignore_index=True)`). */
  function Flatten<T>(parts: seq<seq<T>>): (r: seq<T>)
  {
    if parts == [] then [] else Flatten(parts[..|parts| - 1]) + parts[|parts| - 1]
  }

  /** An element of the concatenation comes from one of the parts, and each part's elements are kept. */
  lemma {:induction false} FlattenMember<T>(parts: seq<seq<T>>, x: T)
    ensures x in Flatten(parts) <==> exists i :: 0 <= i < |parts| && x in parts[i]
  {
    if parts != [] {
      var init := parts[..|parts| - 1];
      FlattenMember(init, x);
      assert forall i :: 0 <= i < |init| ==> init[i] == parts[i];
    }
  }

  /** The length of a concatenation is the sum of the part lengths. */
  function TotalLength<T>(parts: seq<seq<T>>): nat
  {
    if parts == [] then 0 else TotalLength(parts[..|parts| - 1]) + |parts[|parts| - 1]|
  }

  lemma {:induction false} FlattenLength<T>(parts: seq<seq<T>>)
    ensures |Flatten(parts)| == TotalLength(parts)
  {
    if parts != [] {
      FlattenLength(parts[..|parts| - 1]);
    }
  }

  /** Exact sum of a sequence of reals. */
  function Sum(s: seq<real>): real
  {
    if s == [] then 0.0 else s[0] + Sum(s[1..])
  }

  lemma {:induction false} SumAppend(a: seq<real>, b: seq<real>)
    ensures Sum(a + b) == Sum(a) + Sum(b)
  {
    if a != [] {
      assert (a + b)[1..] == a[1..] + b;
      SumAppend(a[1..], b);
    } else {
      assert a + b == b;
    }
  }

  /** Two permutations of each other: the first element of `a` sits at some position `j` of `b`,
      and the rests are again permutations of each other. */
  lemma RemoveFirst<T>(a: seq<T>, b: seq<T>) returns (j: nat)
    requires a != [] && multiset(a) == multiset(b)
    ensures j < |b| && b[j] == a[0]
    ensures multiset(a[1..]) == multiset(b[..j] + b[j + 1..])
    ensures b == b[..j] + ([b[j]] + b[j + 1..])
  {
    assert a[0] in multiset(b);
    j :| 0 <= j < |b| && b[j] == a[0];
    var rest := b[..j] + b[j + 1..];
    assert b == b[..j] + [b[j]] + b[j + 1..];
    assert multiset(b) == multiset(b[..j]) + multiset{b[j]} + multiset(b[j + 1..]);
    assert multiset(b) == multiset(rest) + multiset{a[0]};
    assert a == [a[0]] + a[1..];
    assert multiset(a) == multiset{a[0]} + multiset(a[1..]);
    forall z ensures multiset(a[1..])[z] == multiset(rest)[z] {
      assert multiset(a)[z] == multiset(b)[z];
    }
    MultisetExt(multiset(a[1..]), multiset(rest));
  }

  /** Reordering does not change a sum. */
  lemma {:induction false} SumPermutation(a: seq<real>, b: seq<real>)
    requires multiset(a) == multiset(b)
    ensures Sum(a) == Sum(b)
    decreases |a|
  {
    if a == [] {
      assert |b| == |multiset(b)| == 0;
    } else {
      var j := RemoveFirst(a, b);
      SumPermutation(a[1..], b[..j] + b[j + 1..]);
      SumAppend(b[..j], [b[j]] + b[j + 1..]);
      assert ([b[j]] + b[j + 1..])[1..] == b[j + 1..];
      SumAppend(b[..j], b[j + 1..]);
    }
  }
}
