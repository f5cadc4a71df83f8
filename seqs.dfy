/**
  The two array primitives the storefront scripts lean on, over immutable sequences:
  `First`/`FindFirst` is the linear scan of Array.prototype.find, and `Keep` is the
  order-preserving selection of Array.prototype.filter. `KeptIndices` names the positions
  a filter keeps, so that "subsequence, in order, exactly the passing elements" can be stated.
 */
module Seqs {
  import opened Optional

  /** Position of the first element of `s` that satisfies `f`, or None when there is none. */
  function First<T>(s: seq<T>, f: T -> bool): (r: Option<nat>)
    ensures r.Some? ==> r.value < |s| && f(s[r.value])
    ensures r.Some? ==> forall j :: 0 <= j < r.value ==> !f(s[j])
    ensures r.None? ==> forall j :: 0 <= j < |s| ==> !f(s[j])
  {
    if s == [] then None
    else if f(s[0]) then Some(0)
    else match First(s[1..], f)
      case None => None
      case Some(i) => Some(i + 1)
  }

  /** The scan itself: stops at the first element `f` accepts. */
  method FindFirst<T>(s: seq<T>, f: T -> bool) returns (r: Option<nat>)
    ensures r == First(s, f)
  {
    var i := 0;
    while i < |s|
      invariant 0 <= i <= |s|
      invariant forall j :: 0 <= j < i ==> !f(s[j])
    {
      if f(s[i]) {
        return Some(i);
      }
      i := i + 1;
    }
    return None;
  }

  /** The elements of `s` that satisfy `f`, in their original order. */
  function Keep<T>(s: seq<T>, f: T -> bool): (r: seq<T>)
    ensures |r| <= |s|
    ensures forall k :: 0 <= k < |r| ==> r[k] in s && f(r[k])
    ensures forall j :: 0 <= j < |s| && f(s[j]) ==> s[j] in r
  {
    if s == [] then [] else (if f(s[0]) then [s[0]] else []) + Keep(s[1..], f)
  }

  /** The positions `i`, `i+1`, ... of `s` whose element satisfies `f`, in increasing order. */
  function KeptFrom<T>(s: seq<T>, f: T -> bool, i: nat): (idx: seq<nat>)
    requires i <= |s|
    ensures forall k :: 0 <= k < |idx| ==> i <= idx[k] < |s| && f(s[idx[k]])
    ensures forall k, l :: 0 <= k < l < |idx| ==> idx[k] < idx[l]
    ensures forall j :: i <= j < |s| && f(s[j]) ==> j in idx
    decreases |s| - i
  {
    if i == |s| then [] else (if f(s[i]) then [i] else []) + KeptFrom(s, f, i + 1)
  }

  function KeptIndices<T>(s: seq<T>, f: T -> bool): seq<nat> {
    KeptFrom(s, f, 0)
  }

  /** The elements of `s` at the positions `idx`, in the order of `idx`. */
  function Select<T>(s: seq<T>, idx: seq<nat>): (r: seq<T>)
    requires forall k :: 0 <= k < |idx| ==> idx[k] < |s|
    ensures |r| == |idx|
    ensures forall k :: 0 <= k < |idx| ==> r[k] == s[idx[k]]
  {
    if idx == [] then [] else [s[idx[0]]] + Select(s, idx[1..])
  }

  /** 0, 1, ..., n-1: the positions of a full copy. */
  function AllIndices(n: nat): (idx: seq<nat>)
    ensures |idx| == n
    ensures forall k :: 0 <= k < n ==> idx[k] == k
  {
    if n == 0 then [] else AllIndices(n - 1) + [n - 1]
  }

  lemma SelectAll<T>(s: seq<T>)
    ensures Select(s, AllIndices(|s|)) == s
  {
  }

  lemma {:induction false} KeepFromAt<T>(s: seq<T>, f: T -> bool, i: nat)
    requires i <= |s|
    ensures Keep(s[i..], f) == Select(s, KeptFrom(s, f, i))
    decreases |s| - i
  {
    if i < |s| {
      KeepFromAt(s, f, i + 1);
      var t, idx, rest := s[i..], KeptFrom(s, f, i), KeptFrom(s, f, i + 1);
      assert t[0] == s[i] && t[1..] == s[i + 1..];
      if f(s[i]) {
        assert idx == [i] + rest;
        assert idx[1..] == rest;
        assert Keep(t, f) == [s[i]] + Keep(s[i + 1..], f);
      } else {
        assert idx == rest;
        assert Keep(t, f) == Keep(s[i + 1..], f);
      }
    }
  }

  /**
    A filter keeps exactly the passing elements, in order: its result is `s` read at
    strictly increasing positions, and a position is among them if and only if its
    element satisfies `f`.
   */
  lemma KeepIsSelection<T>(s: seq<T>, f: T -> bool)
    ensures Keep(s, f) == Select(s, KeptIndices(s, f))
    ensures forall k, l :: 0 <= k < l < |KeptIndices(s, f)| ==> KeptIndices(s, f)[k] < KeptIndices(s, f)[l]
    ensures forall i :: 0 <= i < |s| ==> (i in KeptIndices(s, f) <==> f(s[i]))
  {
    KeepFromAt(s, f, 0);
    assert s[0..] == s;
  }

  /** A filter that every element passes returns its input unchanged. */
  lemma {:induction false} KeepAll<T>(s: seq<T>, f: T -> bool)
    requires forall j :: 0 <= j < |s| ==> f(s[j])
    ensures Keep(s, f) == s
  {
    if s != [] {
      KeepAll(s[1..], f);
    }
  }

  /** Filtering twice with the same test is filtering once. */
  lemma KeepIdempotent<T>(s: seq<T>, f: T -> bool)
    ensures Keep(Keep(s, f), f) == Keep(s, f)
  {
    KeepAll(Keep(s, f), f);
  }

  /**
    Two tests that agree position by position on two equally long sequences keep the same
    positions: a filter's choice depends only on what its test looks at.
   */
  lemma {:induction false} KeptFromCongruent<T>(s: seq<T>, t: seq<T>, f: T -> bool, g: T -> bool, i: nat)
    requires |s| == |t| && i <= |s|
    requires forall j :: 0 <= j < |s| ==> f(s[j]) == g(t[j])
    ensures KeptFrom(s, f, i) == KeptFrom(t, g, i)
    decreases |s| - i
  {
    if i < |s| {
      KeptFromCongruent(s, t, f, g, i + 1);
      var head := if f(s[i]) then [i] else [];
      assert f(s[i]) == g(t[i]);
      assert KeptFrom(s, f, i) == head + KeptFrom(s, f, i + 1);
      assert KeptFrom(t, g, i) == head + KeptFrom(t, g, i + 1);
    }
  }

  /** Two tests that agree on every element of `s` select the same elements. */
  lemma {:induction false} KeepCongruent<T>(s: seq<T>, f: T -> bool, g: T -> bool)
    requires forall j :: 0 <= j < |s| ==> f(s[j]) == g(s[j])
    ensures Keep(s, f) == Keep(s, g)
  {
    if s != [] {
      KeepCongruent(s[1..], f, g);
    }
  }

  /** A search only sees what its test sees: tests that agree position by position find the same position. */
  lemma {:induction false} FirstCongruent<T>(s: seq<T>, t: seq<T>, f: T -> bool, g: T -> bool)
    requires |s| == |t|
    requires forall j :: 0 <= j < |s| ==> f(s[j]) == g(t[j])
    ensures First(s, f) == First(t, g)
  {
    if s != [] && !f(s[0]) {
      FirstCongruent(s[1..], t[1..], f, g);
    }
  }
}
