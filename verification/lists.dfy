/** Python list idioms over sequences: de-duplication (`set(s)`, taken
    here in first-occurrence order) and `discard` of several elements. */
module Lists {

  predicate NoDuplicates<T(==)>(s: seq<T>) {
    forall i, j :: 0 <= i < j < |s| ==> s[i] != s[j]
  }

  /** The distinct elements of `s` in the order of their first occurrence. */
  function Distinct<T(==)>(s: seq<T>): (r: seq<T>)
    decreases |s|
  {
    if s == [] then []
    else
      var d := Distinct(s[..|s| - 1]);
      if s[|s| - 1] in d then d else d + [s[|s| - 1]]
  }

  /** De-duplication keeps every element and repeats none. */
  lemma {:induction false} DistinctSpec<T>(s: seq<T>)
    ensures NoDuplicates(Distinct(s))
    ensures forall x :: x in Distinct(s) <==> x in s
    decreases |s|
  {
    if s != [] {
      var init := s[..|s| - 1];
      DistinctSpec(init);
      assert s == init + [s[|s| - 1]];
    }
  }

  /** A sequence without duplicates is its own de-duplication. */
  lemma {:induction false} DistinctNoop<T>(s: seq<T>)
    requires NoDuplicates(s)
    ensures Distinct(s) == s
    decreases |s|
  {
    if s != [] {
      var init := s[..|s| - 1];
      DistinctNoop(init);
      DistinctSpec(init);
      assert s[|s| - 1] !in init;
    }
  }

  /** The elements of `s` that are not in `vs`, in order: `s` after
      `discard(v)` for every `v` of `vs`. */
  function Exclude<T(==)>(s: seq<T>, vs: seq<T>): (r: seq<T>)
    decreases |s|
  {
    if s == [] then []
    else Exclude(s[..|s| - 1], vs) + (if s[|s| - 1] in vs then [] else [s[|s| - 1]])
  }

  lemma {:induction false} ExcludeMembers<T>(s: seq<T>, vs: seq<T>, x: T)
    ensures x in Exclude(s, vs) <==> x in s && x !in vs
    decreases |s|
  {
    if s != [] {
      var init := s[..|s| - 1];
      ExcludeMembers(init, vs, x);
      assert s == init + [s[|s| - 1]];
    }
  }

  /** Discarding one more element is excluding it too. */
  lemma {:induction false} ExcludeMore<T>(s: seq<T>, vs: seq<T>, v: T)
    ensures Exclude(Exclude(s, vs), [v]) == Exclude(s, vs + [v])
    decreases |s|
  {
    if s != [] {
      var init := s[..|s| - 1];
      var x := s[|s| - 1];
      ExcludeMore(init, vs, v);
      var e := Exclude(init, vs);
      assert Exclude(s, vs + [v]) == Exclude(init, vs + [v]) + (if x in vs + [v] then [] else [x]);
      assert (x in vs + [v]) <==> (x in vs || x == v);
      if x in vs {
        assert Exclude(s, vs) == e;
      } else {
        assert Exclude(s, vs) == e + [x];
        assert (e + [x])[..|e|] == e;
        assert Exclude(e + [x], [v]) == Exclude(e, [v]) + (if x in [v] then [] else [x]);
      }
    }
  }

  /** Excluding nothing keeps the sequence. */
  lemma {:induction false} ExcludeNone<T>(s: seq<T>)
    ensures Exclude(s, []) == s
    decreases |s|
  {
    if s != [] {
      ExcludeNone(s[..|s| - 1]);
      assert s == s[..|s| - 1] + [s[|s| - 1]];
    }
  }
}
