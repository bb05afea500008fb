/** Insertion sort by a given order: what list.sort and sorted leave, ties in their old order. */
module Sorting {

  ghost predicate TotalOrder<T(!new)>(leq: (T, T) -> bool) {
    && (forall a, b :: leq(a, b) || leq(b, a))
    && (forall a, b, c :: leq(a, b) && leq(b, c) ==> leq(a, c))
  }

  ghost predicate Ascending<T>(s: seq<T>, leq: (T, T) -> bool) {
    forall i, j :: 0 <= i < j < |s| ==> leq(s[i], s[j])
  }

  function Insert<T>(x: T, s: seq<T>, leq: (T, T) -> bool): seq<T> {
    if s == [] || leq(x, s[0]) then [x] + s else [s[0]] + Insert(x, s[1..], leq)
  }

  function Sort<T>(s: seq<T>, leq: (T, T) -> bool): seq<T> {
    if s == [] then [] else Insert(s[0], Sort(s[1..], leq), leq)
  }

  lemma {:induction false} InsertElements<T>(x: T, s: seq<T>, leq: (T, T) -> bool)
    ensures multiset(Insert(x, s, leq)) == multiset{x} + multiset(s)
    ensures forall y :: y in Insert(x, s, leq) <==> y == x || y in s
  {
    if s != [] && !leq(x, s[0]) {
      InsertElements(x, s[1..], leq);
      assert s == [s[0]] + s[1..];
    }
  }

  lemma {:induction false} InsertAscends<T(!new)>(x: T, s: seq<T>, leq: (T, T) -> bool)
    requires TotalOrder(leq) && Ascending(s, leq)
    ensures Ascending(Insert(x, s, leq), leq)
  {
    if s == [] {
    } else if leq(x, s[0]) {
      forall j | 0 <= j < |s| ensures leq(x, s[j]) {
        assert j == 0 || leq(s[0], s[j]);
      }
    } else {
      InsertAscends(x, s[1..], leq);
      InsertElements(x, s[1..], leq);
      forall y | y in Insert(x, s[1..], leq) ensures leq(s[0], y) {
      }
    }
  }

  lemma {:induction false} SortElements<T>(s: seq<T>, leq: (T, T) -> bool)
    ensures multiset(Sort(s, leq)) == multiset(s) && |Sort(s, leq)| == |s|
    ensures forall x :: x in Sort(s, leq) <==> x in s
  {
    if s != [] {
      SortElements(s[1..], leq);
      InsertElements(s[0], Sort(s[1..], leq), leq);
      assert s == [s[0]] + s[1..];
      assert |multiset(Sort(s, leq))| == |multiset(s)|;
    }
  }

  lemma {:induction false} SortAscends<T(!new)>(s: seq<T>, leq: (T, T) -> bool)
    requires TotalOrder(leq)
    ensures Ascending(Sort(s, leq), leq)
  {
    if s != [] {
      SortAscends(s[1..], leq);
      InsertAscends(s[0], Sort(s[1..], leq), leq);
    }
  }

  /** What is in order already stays as it is. */
  lemma {:induction false} SortFixed<T(!new)>(s: seq<T>, leq: (T, T) -> bool)
    requires Ascending(s, leq)
    ensures Sort(s, leq) == s
  {
    if s != [] {
      SortFixed(s[1..], leq);
      assert s == [s[0]] + s[1..];
    }
  }

  // ---- lists without a repeated key -------------------------------------------------------

  ghost predicate Symmetric<T(!new)>(same: (T, T) -> bool) {
    forall a, b :: same(a, b) == same(b, a)
  }

  ghost predicate Apart<T>(s: seq<T>, same: (T, T) -> bool) {
    forall i, j :: 0 <= i < j < |s| ==> !same(s[i], s[j])
  }

  ghost predicate NoneLike<T(!new)>(x: T, s: seq<T>, same: (T, T) -> bool) {
    forall y :: y in s ==> !same(x, y)
  }

  lemma ApartCons<T(!new)>(x: T, s: seq<T>, same: (T, T) -> bool)
    ensures Apart([x] + s, same) <==> Apart(s, same) && NoneLike(x, s, same)
  {
    var t := [x] + s;
    if Apart(t, same) {
      forall i, j | 0 <= i < j < |s| ensures !same(s[i], s[j]) {
        assert s[i] == t[i + 1] && s[j] == t[j + 1];
      }
      forall y | y in s ensures !same(x, y) {
        var i :| 0 <= i < |s| && s[i] == y;
        assert t[0] == x && t[i + 1] == y;
      }
    }
  }

  lemma {:induction false} InsertApart<T(!new)>(x: T, s: seq<T>, leq: (T, T) -> bool, same: (T, T) -> bool)
    requires Symmetric(same)
    ensures Apart(Insert(x, s, leq), same) <==> Apart(s, same) && NoneLike(x, s, same)
  {
    ApartCons(x, s, same);
    if s != [] && !leq(x, s[0]) {
      var first, rest := s[0], s[1..];
      var t := Insert(x, rest, leq);
      InsertApart(x, rest, leq, same);
      ApartCons(first, t, same);
      ApartCons(first, rest, same);
      assert s == [first] + rest;
      NoneLikeInsert(first, x, rest, leq, same);
      NoneLikeCons(x, first, rest, same);
    }
  }

  lemma NoneLikeInsert<T(!new)>(first: T, x: T, rest: seq<T>, leq: (T, T) -> bool, same: (T, T) -> bool)
    ensures NoneLike(first, Insert(x, rest, leq), same) <==> !same(first, x) && NoneLike(first, rest, same)
  {
    InsertElements(x, rest, leq);
  }

  lemma NoneLikeCons<T(!new)>(x: T, first: T, rest: seq<T>, same: (T, T) -> bool)
    ensures NoneLike(x, [first] + rest, same) <==> !same(x, first) && NoneLike(x, rest, same)
  {
    var s := [first] + rest;
    assert forall y :: y in s <==> y == first || y in rest;
  }

  /** Sorting neither hides nor creates a repeated key. */
  lemma {:induction false} SortApart<T(!new)>(s: seq<T>, leq: (T, T) -> bool, same: (T, T) -> bool)
    requires Symmetric(same)
    ensures Apart(Sort(s, leq), same) <==> Apart(s, same)
  {
    if s != [] {
      SortApart(s[1..], leq, same);
      SortElements(s[1..], leq);
      InsertApart(s[0], Sort(s[1..], leq), leq, same);
      ApartCons(s[0], s[1..], same);
      assert s == [s[0]] + s[1..];
    }
  }
}
