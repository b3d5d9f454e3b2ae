/** `groupby` on one key: groups in ascending key order, one per distinct key value. */
module Grouping {
  import opened Seqs
  import opened Sorting

  /** The grouping key of a (non-empty) group. */
  function KeyOf<T>(g: seq<T>, key: T -> real): real
    requires g != []
  {
    key(g[0])
  }

  /** Every group is non-empty and all its members share the group's key. */
  ghost predicate Homogeneous<T>(groups: seq<seq<T>>, key: T -> real)
  {
    forall i :: 0 <= i < |groups| ==>
      groups[i] != [] && forall k :: 0 <= k < |groups[i]| ==> key(groups[i][k]) == key(groups[i][0])
  }

  /** Group keys strictly increase, so no key labels two groups. */
  ghost predicate AscendingKeys<T>(groups: seq<seq<T>>, key: T -> real)
    requires Homogeneous(groups, key)
  {
    forall i, j :: 0 <= i < j < |groups| ==> KeyOf(groups[i], key) < KeyOf(groups[j], key)
  }

  /** Cuts `s` into maximal runs of consecutive elements with equal key. */
  function Runs<T>(s: seq<T>, key: T -> real): (r: seq<seq<T>>)
    ensures Flatten(r) == s
    ensures s == [] <==> r == []
  {
    if s == [] then []
    else
      var x := s[|s| - 1];
      var p := Runs(s[..|s| - 1], key);
      assert s == s[..|s| - 1] + [x];
      if p != [] && key(p[|p| - 1][0]) == key(x) then
        var q := p[..|p| - 1] + [p[|p| - 1] + [x]];
        assert q[..|q| - 1] == p[..|p| - 1];
        assert Flatten(p) == Flatten(p[..|p| - 1]) + p[|p| - 1];
        q
      else
        var q := p + [[x]];
        assert q[..|q| - 1] == p;
        q
  }

  /** The runs are non-empty, each of one key, and the last run ends with the last element. */
  lemma {:induction false} RunsHomogeneous<T>(s: seq<T>, key: T -> real)
    ensures Homogeneous(Runs(s, key), key)
    ensures s != [] ==> var r := Runs(s, key); r[|r| - 1][|r[|r| - 1]| - 1] == s[|s| - 1]
  {
    if s != [] {
      var x := s[|s| - 1];
      var p := Runs(s[..|s| - 1], key);
      RunsHomogeneous(s[..|s| - 1], key);
      var r := Runs(s, key);
      if p != [] && key(p[|p| - 1][0]) == key(x) {
        var last := p[|p| - 1];
        assert r == p[..|p| - 1] + [last + [x]];
        forall i | 0 <= i < |r|
          ensures r[i] != [] && forall k :: 0 <= k < |r[i]| ==> key(r[i][k]) == key(r[i][0])
        {
          if i < |p| - 1 {
            assert r[i] == p[i];
          } else {
            assert r[i] == last + [x];
          }
        }
      } else {
        assert r == p + [[x]];
        forall i | 0 <= i < |r|
          ensures r[i] != [] && forall k :: 0 <= k < |r[i]| ==> key(r[i][k]) == key(r[i][0])
        {
          if i < |p| {
            assert r[i] == p[i];
          }
        }
      }
    }
  }

  /** On key-sorted input, consecutive runs have strictly increasing keys. */
  lemma {:induction false} RunsAscending<T>(s: seq<T>, key: T -> real)
    requires SortedBy(s, key)
    ensures Homogeneous(Runs(s, key), key) && AscendingKeys(Runs(s, key), key)
  {
    RunsHomogeneous(s, key);
    if s != [] {
      var x := s[|s| - 1];
      var init := s[..|s| - 1];
      var p := Runs(init, key);
      assert SortedBy(init, key);
      RunsAscending(init, key);
      RunsHomogeneous(init, key);
      var r := Runs(s, key);
      if p != [] && key(p[|p| - 1][0]) == key(x) {
        assert r == p[..|p| - 1] + [p[|p| - 1] + [x]];
      } else {
        assert r == p + [[x]];
        if p != [] {
          var last := p[|p| - 1];
          assert last[|last| - 1] == init[|init| - 1];
          assert key(last[0]) == key(init[|init| - 1]) <= key(x);
        }
      }
    }
  }

  /** `df.groupby(key)`: groups in ascending key order, each holding the rows with its key. */
  function GroupBy<T>(s: seq<T>, key: T -> real): (r: seq<seq<T>>)
    ensures multiset(Flatten(r)) == multiset(s)
    ensures Homogeneous(r, key) && AscendingKeys(r, key)
  {
    RunsAscending(SortBy(s, key), key);
    Runs(SortBy(s, key), key)
  }

  /** The test "x has key value kk.1 under key function kk.0", as a selection mask. */
  predicate HasKey<T>(x: T, kk: (T -> real, real))
  {
    kk.0(x) == kk.1
  }

  lemma {:induction false} SelectHomogeneous<T>(g: seq<T>, key: T -> real, k: real)
    requires forall m :: 0 <= m < |g| ==> key(g[m]) == key(g[0])
    ensures g != [] && key(g[0]) == k ==> Select(g, HasKey, (key, k)) == g
    ensures g != [] && key(g[0]) != k ==> Select(g, HasKey, (key, k)) == []
  {
    if |g| > 1 {
      SelectHomogeneous(g[1..], key, k);
    }
  }

  /** Selecting one group's key from the concatenated groups gives back exactly that group. */
  lemma {:induction false} SelectOneGroup<T>(groups: seq<seq<T>>, key: T -> real, i: nat)
    requires Homogeneous(groups, key) && AscendingKeys(groups, key)
    requires i < |groups|
    ensures Select(Flatten(groups), HasKey, (key, KeyOf(groups[i], key))) == groups[i]
    decreases |groups|
  {
    var n := |groups|;
    var init := groups[..n - 1];
    var k := KeyOf(groups[i], key);
    assert forall m :: 0 <= m < |init| ==> init[m] == groups[m];
    SelectAppend(Flatten(init), groups[n - 1], HasKey, (key, k));
    SelectHomogeneous(groups[n - 1], key, k);
    if i < n - 1 {
      SelectOneGroup(init, key, i);
    } else {
      SelectNoGroup(init, key, k);
    }
  }

  lemma {:induction false} SelectNoGroup<T>(groups: seq<seq<T>>, key: T -> real, k: real)
    requires Homogeneous(groups, key)
    requires forall m :: 0 <= m < |groups| ==> KeyOf(groups[m], key) != k
    ensures Select(Flatten(groups), HasKey, (key, k)) == []
  {
    if groups != [] {
      var n := |groups|;
      var init := groups[..n - 1];
      assert forall m :: 0 <= m < |init| ==> init[m] == groups[m];
      SelectAppend(Flatten(init), groups[n - 1], HasKey, (key, k));
      SelectHomogeneous(groups[n - 1], key, k);
      SelectNoGroup(init, key, k);
    }
  }

  /** Each group holds exactly the input rows whose key is the group's key (as a multiset). */
  lemma GroupContents<T>(s: seq<T>, key: T -> real, i: nat)
    requires i < |GroupBy(s, key)|
    ensures multiset(GroupBy(s, key)[i]) == multiset(Select(s, HasKey, (key, KeyOf(GroupBy(s, key)[i], key))))
  {
    var groups := GroupBy(s, key);
    var k := KeyOf(groups[i], key);
    SelectOneGroup(groups, key, i);
    SelectPermutation(Flatten(groups), s, HasKey, (key, k));
  }

  /** `x` lies in exactly one of `groups`. */
  ghost predicate InExactlyOne<T>(groups: seq<seq<T>>, x: T)
  {
    && (exists i :: 0 <= i < |groups| && x in groups[i])
    && (forall i, j :: 0 <= i < |groups| && 0 <= j < |groups| && x in groups[i] && x in groups[j] ==> i == j)
  }

  /** Every input row lies in exactly one group: the one labelled with its key. */
  lemma ExactlyOneGroup<T>(s: seq<T>, key: T -> real, x: T)
    requires x in s
    ensures InExactlyOne(GroupBy(s, key), x)
  {
    var groups := GroupBy(s, key);
    assert x in multiset(Flatten(groups));
    FlattenMember(groups, x);
    forall i, j | 0 <= i < |groups| && 0 <= j < |groups| && x in groups[i] && x in groups[j]
      ensures i == j
    {
      var a :| 0 <= a < |groups[i]| && groups[i][a] == x;
      var b :| 0 <= b < |groups[j]| && groups[j][b] == x;
      assert KeyOf(groups[i], key) == key(x) == KeyOf(groups[j], key);
    }
  }

  /** The group sizes add up to the number of rows. */
  lemma GroupSizesSum<T>(s: seq<T>, key: T -> real)
    ensures TotalLength(GroupBy(s, key)) == |s|
  {
    var groups := GroupBy(s, key);
    FlattenLength(groups);
    assert |Flatten(groups)| == |multiset(Flatten(groups))| == |multiset(s)| == |s|;
  }
}
