/** The stable sort that the batch queue, the memory store and the code graph
    all rely on: equal keys keep their relative order. */
module StableSort {

  /** Puts `x` in front of the first element whose key is not below its own. */
  function Insert<T>(key: T -> real, x: T, s: seq<T>): seq<T> {
    if s == [] then [x]
    else if key(x) <= key(s[0]) then [x] + s
    else [s[0]] + Insert(key, x, s[1..])
  }

  /** `s` in ascending key order, ties in their original order. */
  function Sort<T>(key: T -> real, s: seq<T>): seq<T> {
    if s == [] then [] else Insert(key, s[0], Sort(key, s[1..]))
  }

  function Map<T, U>(f: T -> U, s: seq<T>): seq<U> {
    seq(|s|, i requires 0 <= i < |s| => f(s[i]))
  }

  lemma {:induction false} InsertPermutes<T>(key: T -> real, x: T, s: seq<T>)
    ensures multiset(Insert(key, x, s)) == multiset(s) + multiset{x}
  {
    if s != [] {
      assert s == [s[0]] + s[1..];
      if key(x) > key(s[0]) {
        InsertPermutes(key, x, s[1..]);
      }
    }
  }

  /** Sorting loses nothing and invents nothing. */
  lemma {:induction false} SortPermutes<T>(key: T -> real, s: seq<T>)
    ensures multiset(Sort(key, s)) == multiset(s)
    ensures |Sort(key, s)| == |s|
    ensures forall x :: x in Sort(key, s) <==> x in s
  {
    if s != [] {
      assert s == [s[0]] + s[1..];
      SortPermutes(key, s[1..]);
      InsertPermutes(key, s[0], Sort(key, s[1..]));
    }
    assert |multiset(Sort(key, s))| == |multiset(s)|;
    forall x ensures x in Sort(key, s) <==> x in s {
      assert x in multiset(Sort(key, s)) <==> x in multiset(s);
    }
  }

  /** `a` may stand before `b`: a smaller key, or the same key and `earlier`. */
  predicate Precedes<T>(key: T -> real, earlier: (T, T) -> bool, a: T, b: T) {
    key(a) < key(b) || (key(a) == key(b) && earlier(a, b))
  }

  ghost predicate Ordered<T>(key: T -> real, earlier: (T, T) -> bool, s: seq<T>) {
    forall i, j :: 0 <= i < j < |s| ==> Precedes(key, earlier, s[i], s[j])
  }

  /** Elements with the same key appear in the order `earlier`. */
  ghost predicate TiesOrdered<T>(key: T -> real, earlier: (T, T) -> bool, s: seq<T>) {
    forall i, j :: 0 <= i < j < |s| && key(s[i]) == key(s[j]) ==> earlier(s[i], s[j])
  }

  lemma {:induction false} InsertOrdered<T>(key: T -> real, earlier: (T, T) -> bool, x: T, s: seq<T>)
    requires Ordered(key, earlier, s)
    requires forall y :: y in s && key(x) == key(y) ==> earlier(x, y)
    ensures Ordered(key, earlier, Insert(key, x, s))
  {
    if s != [] && key(x) > key(s[0]) {
      var rest := Insert(key, x, s[1..]);
      InsertOrdered(key, earlier, x, s[1..]);
      InsertPermutes(key, x, s[1..]);
      forall y | y in rest ensures Precedes(key, earlier, s[0], y) {
        assert y in multiset(rest);
        assert y == x || y in s[1..];
      }
    }
  }

  /** Sorting orders the keys and leaves any order that ties had in place. */
  lemma {:induction false} SortStable<T>(key: T -> real, earlier: (T, T) -> bool, s: seq<T>)
    requires TiesOrdered(key, earlier, s)
    ensures Ordered(key, earlier, Sort(key, s))
  {
    if s != [] {
      SortStable(key, earlier, s[1..]);
      SortPermutes(key, s[1..]);
      var rest := Sort(key, s[1..]);
      forall y | y in rest && key(s[0]) == key(y) ensures earlier(s[0], y) {
        assert y in multiset(rest);
        assert y in s[1..];
      }
      InsertOrdered(key, earlier, s[0], rest);
    }
  }

  lemma SortAscending<T>(key: T -> real, s: seq<T>)
    ensures forall i, j :: 0 <= i < j < |s| ==> |Sort(key, s)| == |s| && key(Sort(key, s)[i]) <= key(Sort(key, s)[j])
  {
    SortPermutes(key, s);
    SortStable(key, (a: T, b: T) => true, s);
    var t := Sort(key, s);
    forall i, j | 0 <= i < j < |s| ensures key(t[i]) <= key(t[j]) {
      assert Precedes(key, (a: T, b: T) => true, t[i], t[j]);
    }
  }

  lemma {:induction false} InsertCommutesWithMap<T, U>(f: T -> U, key: T -> real, key': U -> real, x: T, s: seq<T>)
    requires forall y :: y in s || y == x ==> key(y) == key'(f(y))
    ensures Map(f, Insert(key, x, s)) == Insert(key', f(x), Map(f, s))
  {
    if s != [] {
      assert Map(f, s)[1..] == Map(f, s[1..]);
      if key(x) > key(s[0]) {
        InsertCommutesWithMap(f, key, key', x, s[1..]);
      }
    }
  }

  /** Sorting labels by the key of what they label is sorting the labelled values. */
  lemma {:induction false} SortCommutesWithMap<T, U>(f: T -> U, key: T -> real, key': U -> real, s: seq<T>)
    requires forall y :: y in s ==> key(y) == key'(f(y))
    ensures Map(f, Sort(key, s)) == Sort(key', Map(f, s))
  {
    if s != [] {
      assert Map(f, s)[1..] == Map(f, s[1..]);
      SortCommutesWithMap(f, key, key', s[1..]);
      SortPermutes(key, s[1..]);
      InsertCommutesWithMap(f, key, key', s[0], Sort(key, s[1..]));
    }
  }
}
