/** The array primitives the store is built from: `findIndex`, `find`, `filter`
    and `splice(i, 1)`, as functions on sequences. */
module Seqs {
  import opened Types

  /** `findIndex`: the first position whose element satisfies `f`, or -1. */
  function FindIndex<T>(s: seq<T>, f: T -> bool): (r: int)
    ensures -1 <= r < |s|
    ensures r >= 0 ==> f(s[r]) && forall j :: 0 <= j < r ==> !f(s[j])
    ensures r == -1 ==> forall j :: 0 <= j < |s| ==> !f(s[j])
  {
    if s == [] then -1
    else if f(s[0]) then 0
    else
      var k := FindIndex(s[1..], f);
      if k == -1 then -1 else k + 1
  }

  /** Appending an element does not move an existing first match. */
  lemma {:induction false} FindIndexAppend<T>(s: seq<T>, x: T, f: T -> bool)
    ensures FindIndex(s + [x], f) == if FindIndex(s, f) >= 0 then FindIndex(s, f) else if f(x) then |s| else -1
    decreases |s|
  {
    if s == [] {
      assert [] + [x] == [x];
    } else {
      assert (s + [x])[1..] == s[1..] + [x];
      FindIndexAppend(s[1..], x, f);
    }
  }

  /** An appended element that is the only match is the one a splice of the first
      match takes out again. */
  lemma RemoveAppended<T>(s: seq<T>, x: T, f: T -> bool)
    requires FindIndex(s, f) == -1 && f(x)
    ensures var t := s + [x];
      FindIndex(t, f) == |s| && t[..|s|] + t[|s| + 1..] == s
  {
    FindIndexAppend(s, x, f);
    assert (s + [x])[..|s|] == s;
  }

  /** Sequences that match `f` at the same positions have the same first match. */
  lemma {:induction false} FindIndexAgrees<T>(s: seq<T>, t: seq<T>, f: T -> bool)
    requires |s| == |t|
    requires forall j :: 0 <= j < |s| ==> f(s[j]) == f(t[j])
    ensures FindIndex(s, f) == FindIndex(t, f)
    decreases |s|
  {
    if s != [] {
      FindIndexAgrees(s[1..], t[1..], f);
    }
  }

  /** `find`: the first element satisfying `f`, if any. */
  function Find<T>(s: seq<T>, f: T -> bool): (r: Option<T>)
    ensures r.None? <==> forall j :: 0 <= j < |s| ==> !f(s[j])
    ensures r.Some? ==> r.value in s && f(r.value)
    ensures r.Some? ==> r.value == s[FindIndex(s, f)]
  {
    var k := FindIndex(s, f);
    if k == -1 then None else Some(s[k])
  }

  /** `filter`: the elements satisfying `f`, in their original order. */
  function Filter<T>(s: seq<T>, f: T -> bool): (r: seq<T>)
    ensures |r| <= |s|
    ensures forall x :: x in r ==> x in s && f(x)
    ensures forall j :: 0 <= j < |s| && f(s[j]) ==> s[j] in r
  {
    if s == [] then [] else (if f(s[0]) then [s[0]] else []) + Filter(s[1..], f)
  }

  /** `filter` keeps the order: filtering a concatenation concatenates the filtered parts. */
  lemma {:induction false} FilterAppend<T>(a: seq<T>, b: seq<T>, f: T -> bool)
    ensures Filter(a + b, f) == Filter(a, f) + Filter(b, f)
    decreases |a|
  {
    if a != [] {
      assert (a + b)[1..] == a[1..] + b;
      FilterAppend(a[1..], b, f);
    } else {
      assert a + b == b;
    }
  }

  /** `filter` keeps every occurrence of an element it accepts and none of one it rejects. */
  lemma {:induction false} FilterCount<T>(s: seq<T>, f: T -> bool, x: T)
    ensures multiset(Filter(s, f))[x] == if f(x) then multiset(s)[x] else 0
    decreases |s|
  {
    if s != [] {
      FilterCount(s[1..], f, x);
      assert s == [s[0]] + s[1..];
      assert multiset(s) == multiset{s[0]} + multiset(s[1..]);
    }
  }

  /** `filter` returns nothing exactly when no element satisfies `f`. */
  lemma FilterEmptyIff<T>(s: seq<T>, f: T -> bool)
    ensures Filter(s, f) == [] <==> forall j :: 0 <= j < |s| ==> !f(s[j])
  {
    if Filter(s, f) != [] {
      var x := Filter(s, f)[0];
      assert x in Filter(s, f);
      var j :| 0 <= j < |s| && s[j] == x;
      assert f(s[j]);
    }
    if j :| 0 <= j < |s| && f(s[j]) {
      FilterCount(s, f, s[j]);
    }
  }

  /** Splicing out the first match of `f` leaves no match exactly when `filter`
      finds only one. */
  lemma RemoveFirstMatch<T>(s: seq<T>, f: T -> bool)
    requires FindIndex(s, f) >= 0
    ensures var k := FindIndex(s, f);
      Filter(s[..k] + s[k + 1..], f) == [] <==> |Filter(s, f)| == 1
  {
    var k := FindIndex(s, f);
    var front := s[..k];
    Parts(s, k);
    assert forall j :: 0 <= j < |front| ==> !f(front[j]) by {
      forall j | 0 <= j < |front| ensures !f(front[j]) {
        assert front[j] == s[j];
      }
    }
    FilterNone(front, f);
    FilterSplice(s[..k], s[k], s[k + 1..], f);
  }

  /** A sequence is its part before `k`, its element at `k` and its part after. */
  lemma Parts<T>(s: seq<T>, k: int)
    requires 0 <= k < |s|
    ensures s == s[..k] + [s[k]] + s[k + 1..]
  {
  }

  /** Between a part with no match and the rest sits one match `x`: taking `x` out
      leaves no match exactly when `x` was the only one. */
  lemma FilterSplice<T>(front: seq<T>, x: T, tail: seq<T>, f: T -> bool)
    requires Filter(front, f) == [] && f(x)
    ensures Filter(front + tail, f) == [] <==> |Filter(front + [x] + tail, f)| == 1
  {
    FilterAppend(front + [x], tail, f);
    FilterAppend(front, [x], f);
    FilterAppend(front, tail, f);
    assert Filter([x], f) == [x];
  }

  /** A sequence with no match filters to nothing. */
  lemma {:induction false} FilterNone<T>(s: seq<T>, f: T -> bool)
    requires forall j :: 0 <= j < |s| ==> !f(s[j])
    ensures Filter(s, f) == []
    decreases |s|
  {
    if s != [] {
      FilterNone(s[1..], f);
    }
  }
}
