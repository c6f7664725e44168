/** Python's `sorted(xs, key=k, reverse=True)` for the three-part keys the
    core sorts by: a stable sort into non-increasing key order. */
module Sorting {

  /** A sort key `(first, second, third)`, compared lexicographically as
      Python compares tuples. */
  datatype Rank = Rank(first: int, second: int, third: int)

  predicate RankLe(a: Rank, b: Rank) {
    a.first < b.first
    || (a.first == b.first && a.second < b.second)
    || (a.first == b.first && a.second == b.second && a.third <= b.third)
  }

  /** Tuple comparison is a total order: any two keys compare, ... */
  lemma RankLeTotal(a: Rank, b: Rank)
    ensures RankLe(a, b) || RankLe(b, a)
  {
  }

  /** ... it is antisymmetric ... */
  lemma RankLeAntisymmetric(a: Rank, b: Rank)
    requires RankLe(a, b) && RankLe(b, a)
    ensures a == b
  {
  }

  /** ... and transitive. */
  lemma RankLeTransitive(a: Rank, b: Rank, c: Rank)
    requires RankLe(a, b) && RankLe(b, c)
    ensures RankLe(a, c)
  {
  }

  ghost predicate SortedDesc<T>(s: seq<T>, key: T -> Rank) {
    forall i, j :: 0 <= i < j < |s| ==> RankLe(key(s[j]), key(s[i]))
  }

  /** A sorted sequence stays sorted when an element whose key is at least
      that of its head is put in front of it. */
  lemma SortedCons<T>(h: T, t: seq<T>, key: T -> Rank)
    requires SortedDesc(t, key)
    requires t != [] ==> RankLe(key(t[0]), key(h))
    ensures SortedDesc([h] + t, key)
  {
    var r := [h] + t;
    forall i, j | 0 <= i < j < |r| ensures RankLe(key(r[j]), key(r[i])) {
      if i == 0 && j > 1 {
        RankLeTransitive(key(t[j - 1]), key(t[0]), key(h));
      }
    }
  }

  /** The elements of `s` whose key is `k`, in their order in `s`. */
  function WithRank<T>(s: seq<T>, key: T -> Rank, k: Rank): seq<T>
    decreases |s|
  {
    if s == [] then [] else (if key(s[0]) == k then [s[0]] else []) + WithRank(s[1..], key, k)
  }

  /** The step of `Insert` that keeps the head of `s` in front of the
      insertion into its tail. */
  lemma InsertBehind<T>(x: T, s: seq<T>, tail: seq<T>, key: T -> Rank)
    requires s != [] && SortedDesc(s, key)
    requires |tail| == |s|
    requires multiset(tail) == multiset(s[1..]) + multiset{x}
    requires tail[0] == x || (|s| > 1 && tail[0] == s[1])
    requires RankLe(key(x), key(s[0]))
    requires SortedDesc(tail, key)
    ensures multiset([s[0]] + tail) == multiset(s) + multiset{x}
    ensures SortedDesc([s[0]] + tail, key)
  {
    assert s == [s[0]] + s[1..];
    SortedCons(s[0], tail, key);
  }

  /** Inserts `x` into a non-increasing `s` after every element whose key is
      at least `key(x)`. */
  function Insert<T>(x: T, s: seq<T>, key: T -> Rank): (r: seq<T>)
    requires SortedDesc(s, key)
    ensures |r| == |s| + 1
    ensures multiset(r) == multiset(s) + multiset{x}
    ensures r[0] == x || (s != [] && r[0] == s[0])
    ensures SortedDesc(r, key)
    decreases |s|
  {
    if s == [] then [x]
    else if RankLe(key(x), key(s[0])) then
      var tail := Insert(x, s[1..], key);
      InsertBehind(x, s, tail, key);
      [s[0]] + tail
    else
      RankLeTotal(key(x), key(s[0]));
      SortedCons(x, s, key);
      [x] + s
  }

  /** `sorted(s, key=key, reverse=True)` */
  function SortDesc<T>(s: seq<T>, key: T -> Rank): (r: seq<T>)
    ensures |r| == |s|
    ensures multiset(r) == multiset(s)
    ensures SortedDesc(r, key)
    decreases |s|
  {
    if s == [] then []
    else
      var init := s[..|s| - 1];
      assert s == init + [s[|s| - 1]];
      Insert(s[|s| - 1], SortDesc(init, key), key)
  }

  lemma {:induction false} WithRankAppend<T>(a: seq<T>, x: T, key: T -> Rank, k: Rank)
    ensures WithRank(a + [x], key, k) == WithRank(a, key, k) + (if key(x) == k then [x] else [])
    decreases |a|
  {
    if a != [] {
      assert (a + [x])[1..] == a[1..] + [x];
      WithRankAppend(a[1..], x, key, k);
    }
  }

  lemma {:induction false} WithRankNoneAbove<T>(s: seq<T>, key: T -> Rank, k: Rank)
    requires SortedDesc(s, key)
    requires s != [] && RankLe(key(s[0]), k) && key(s[0]) != k
    ensures WithRank(s, key, k) == []
    decreases |s|
  {
    if |s| > 1 {
      RankLeTransitive(key(s[1]), key(s[0]), k);
      if key(s[1]) == k {
        RankLeAntisymmetric(key(s[0]), k);
      }
      WithRankNoneAbove(s[1..], key, k);
    }
  }

  lemma {:induction false} InsertWithRank<T>(x: T, s: seq<T>, key: T -> Rank, k: Rank)
    requires SortedDesc(s, key)
    ensures WithRank(Insert(x, s, key), key, k) == WithRank(s, key, k) + (if key(x) == k then [x] else [])
    decreases |s|
  {
    if s == [] {
    } else if RankLe(key(x), key(s[0])) {
      var r := Insert(x, s, key);
      assert r[1..] == Insert(x, s[1..], key);
      InsertWithRank(x, s[1..], key, k);
    } else {
      RankLeTotal(key(x), key(s[0]));
      var r := Insert(x, s, key);
      assert r == [x] + s;
      assert r[1..] == s;
      if key(x) == k {
        WithRankNoneAbove(s, key, k);
      }
    }
  }

  /** Stability: among elements of equal key, the sorted output keeps the
      input order (and keeps all of them). */
  lemma {:induction false} SortDescStable<T>(s: seq<T>, key: T -> Rank, k: Rank)
    ensures WithRank(SortDesc(s, key), key, k) == WithRank(s, key, k)
    decreases |s|
  {
    if s != [] {
      var init := s[..|s| - 1];
      var x := s[|s| - 1];
      assert s == init + [x];
      calc {
        WithRank(SortDesc(s, key), key, k);
        WithRank(Insert(x, SortDesc(init, key), key), key, k);
        { InsertWithRank(x, SortDesc(init, key), key, k); }
        WithRank(SortDesc(init, key), key, k) + (if key(x) == k then [x] else []);
        { SortDescStable(init, key, k); }
        WithRank(init, key, k) + (if key(x) == k then [x] else []);
        { WithRankAppend(init, x, key, k); }
        WithRank(s, key, k);
      }
    }
  }

  lemma {:induction false} WithRankHead<T>(s: seq<T>, key: T -> Rank, k: Rank)
    requires WithRank(s, key, k) != []
    ensures exists i :: 0 <= i < |s| && WithRank(s, key, k)[0] == s[i] && key(s[i]) == k
              && forall j :: 0 <= j < i ==> key(s[j]) != k
    decreases |s|
  {
    if key(s[0]) != k {
      WithRankHead(s[1..], key, k);
      var i :| 0 <= i < |s| - 1 && WithRank(s[1..], key, k)[0] == s[1..][i] && key(s[1..][i]) == k
               && forall j :: 0 <= j < i ==> key(s[1..][j]) != k;
      assert WithRank(s, key, k)[0] == s[i + 1];
      forall j | 0 <= j < i + 1 ensures key(s[j]) != k {
        if j > 0 { assert s[j] == s[1..][j - 1]; }
      }
    } else {
      assert WithRank(s, key, k)[0] == s[0];
    }
  }

  /** The head of the sorted list is the earliest element of the input whose
      key is maximal: the element `sorted(..., reverse=True)[0]` picks. */
  lemma SortDescHead<T>(s: seq<T>, key: T -> Rank)
    requires s != []
    ensures exists i :: 0 <= i < |s| && SortDesc(s, key)[0] == s[i]
              && (forall j :: 0 <= j < |s| ==> RankLe(key(s[j]), key(s[i])))
              && (forall j :: 0 <= j < i ==> key(s[j]) != key(s[i]))
  {
    var r := SortDesc(s, key);
    var k := key(r[0]);
    forall j | 0 <= j < |s| ensures RankLe(key(s[j]), k) {
      assert s[j] in multiset(r);
      var m :| 0 <= m < |r| && r[m] == s[j];
      if m > 0 {
        assert RankLe(key(r[m]), key(r[0]));
      }
    }
    assert WithRank(r, key, k)[0] == r[0];
    SortDescStable(s, key, k);
    WithRankHead(s, key, k);
  }
}
