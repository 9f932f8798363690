/** `sorted(set(...))`: the strictly ascending sequence of a collection's elements,
    for any strict total order. It is determined by the set of the elements alone. */
module Sorting {

  ghost predicate StrictTotalOrder<T(!new)>(less: (T, T) -> bool) {
    && (forall x :: !less(x, x))
    && (forall x, y :: less(x, y) || less(y, x) || x == y)
    && (forall x, y, z :: less(x, y) && less(y, z) ==> less(x, z))
  }

  ghost predicate Ascending<T>(less: (T, T) -> bool, xs: seq<T>) {
    forall i, j :: 0 <= i < j < |xs| ==> less(xs[i], xs[j])
  }

  function Insert<T(==)>(less: (T, T) -> bool, x: T, xs: seq<T>): seq<T> {
    if xs == [] then [x]
    else if x == xs[0] then xs
    else if less(x, xs[0]) then [x] + xs
    else [xs[0]] + Insert(less, x, xs[1..])
  }

  function SortUnique<T(==)>(less: (T, T) -> bool, xs: seq<T>): seq<T> {
    if xs == [] then [] else Insert(less, xs[0], SortUnique(less, xs[1..]))
  }

  lemma {:induction false} InsertCorrect<T(!new)>(less: (T, T) -> bool, x: T, xs: seq<T>)
    requires StrictTotalOrder(less) && Ascending(less, xs)
    ensures Ascending(less, Insert(less, x, xs))
    ensures forall y :: y in Insert(less, x, xs) <==> y == x || y in xs
  {
    if xs != [] && x != xs[0] && !less(x, xs[0]) {
      InsertCorrect(less, x, xs[1..]);
      assert forall y :: y in xs <==> y == xs[0] || y in xs[1..];
      forall y | y in Insert(less, x, xs[1..]) ensures less(xs[0], y) {
        if y != x {
          assert y in xs[1..];
        }
      }
    }
  }

  lemma {:induction false} SortUniqueCorrect<T(!new)>(less: (T, T) -> bool, xs: seq<T>)
    requires StrictTotalOrder(less)
    ensures Ascending(less, SortUnique(less, xs))
    ensures forall y :: y in SortUnique(less, xs) <==> y in xs
  {
    if xs != [] {
      SortUniqueCorrect(less, xs[1..]);
      InsertCorrect(less, xs[0], SortUnique(less, xs[1..]));
      assert forall y :: y in xs <==> y == xs[0] || y in xs[1..];
    }
  }

  /** Two ascending sequences with the same elements are the same sequence. */
  lemma {:induction false} AscendingUnique<T(!new)>(less: (T, T) -> bool, xs: seq<T>, ys: seq<T>)
    requires StrictTotalOrder(less)
    requires Ascending(less, xs) && Ascending(less, ys)
    requires forall y :: y in xs <==> y in ys
    ensures xs == ys
  {
    assert |xs| > 0 ==> xs[0] in ys;
    assert |ys| > 0 ==> ys[0] in xs;
    if xs != [] {
      assert xs[0] == ys[0];
      forall y ensures y in xs[1..] <==> y in ys[1..] {
        TailMembership(less, xs, y);
        TailMembership(less, ys, y);
      }
      AscendingUnique(less, xs[1..], ys[1..]);
      assert xs == [xs[0]] + xs[1..] && ys == [ys[0]] + ys[1..];
    }
  }

  lemma TailMembership<T(!new)>(less: (T, T) -> bool, xs: seq<T>, y: T)
    requires StrictTotalOrder(less) && Ascending(less, xs) && xs != []
    ensures y in xs[1..] <==> y in xs && y != xs[0]
  {
    assert xs == [xs[0]] + xs[1..];
    if y in xs[1..] {
      var k :| 0 <= k < |xs[1..]| && xs[1..][k] == y;
      assert less(xs[0], xs[k + 1]);
    }
  }
}
