/** Sequences without repetition, and how their lengths compare with sets. */
module Sequences {

  ghost predicate NoRepeat<T(!new)>(s: seq<T>) {
    forall i, j :: 0 <= i < j < |s| ==> s[i] != s[j]
  }

  lemma SubsetSize<T>(a: set<T>, b: set<T>)
    requires a <= b
    ensures |a| <= |b|
    ensures |a| == |b| ==> a == b
  {
    assert b == a + (b - a);
    assert |b| == |a| + |b - a|;
  }

  /** A sequence without repetition is no longer than any set that covers it. */
  lemma {:induction false} Pigeonhole<T(!new)>(s: seq<T>, elements: set<T>)
    requires NoRepeat(s) && forall x :: x in s ==> x in elements
    ensures |s| <= |elements|
  {
    if |s| > 0 {
      var last := s[|s| - 1];
      Pigeonhole(s[..|s| - 1], elements - {last});
      assert |elements - {last}| == |elements| - 1;
    }
  }

  /** A set whose elements all occur in a sequence is no larger than it. */
  lemma {:induction false} ElementsFit<T>(s: seq<T>, elements: set<T>)
    requires forall x :: x in elements ==> x in s
    ensures |elements| <= |s|
  {
    if s == [] {
      assert elements == {};
    } else {
      var last := s[|s| - 1];
      ElementsFit(s[..|s| - 1], elements - {last});
    }
  }

  // ---- Counting and summing ----

  /** The positions of the elements that satisfy `p`. */
  ghost function Where<T>(s: seq<T>, p: T -> bool): set<nat> {
    set i: nat | i < |s| && p(s[i])
  }

  lemma WhereNext<T>(s: seq<T>, p: T -> bool)
    requires s != []
    ensures |Where(s, p)| == |Where(s[..|s| - 1], p)| + if p(s[|s| - 1]) then 1 else 0
  {
    var n := |s| - 1;
    assert Where(s, p) == Where(s[..n], p) + if p(s[n]) then {n} else {};
    assert n !in Where(s[..n], p);
  }

  ghost function Sum<T>(s: seq<T>, f: T -> nat): nat {
    if s == [] then 0 else Sum(s[..|s| - 1], f) + f(s[|s| - 1])
  }
}
