/**
 * Ascending, duplicate-free listings of the keys the program sorts:
 * month keys and quarter keys in the aggregation engine and manufacturer
 * names in the dashboard. Every listing is built by inserting elements one
 * at a time into an already strictly ascending sequence.
 */
module Sorting {

  /** `lt` is a strict total order: irreflexive, transitive and total. */
  ghost predicate StrictTotalOrder<T(!new)>(lt: (T, T) -> bool) {
    && (forall x :: !lt(x, x))
    && (forall x, y, z :: lt(x, y) && lt(y, z) ==> lt(x, z))
    && (forall x, y :: x != y ==> lt(x, y) || lt(y, x))
  }

  /** Every element is strictly below every later one. */
  ghost predicate SortedBy<T>(xs: seq<T>, lt: (T, T) -> bool) {
    forall i, j :: 0 <= i < j < |xs| ==> lt(xs[i], xs[j])
  }

  /** Adds `x` to a strictly ascending sequence unless it is already there. */
  function Insert<T(==,!new)>(xs: seq<T>, x: T, lt: (T, T) -> bool): (r: seq<T>)
    requires StrictTotalOrder(lt)
    requires SortedBy(xs, lt)
    ensures SortedBy(r, lt)
    ensures forall y :: y in r <==> y in xs || y == x
    decreases |xs|
  {
    if |xs| == 0 then [x]
    else if x == xs[0] then xs
    else if lt(x, xs[0]) then
      assert forall j :: 0 <= j < |xs| ==> lt(x, xs[j]);
      [x] + xs
    else
      var rest := Insert(xs[1..], x, lt);
      assert SortedBy(xs[1..], lt);
      assert lt(xs[0], x);
      assert forall y :: y in rest ==> lt(xs[0], y) by {
        forall y | y in rest ensures lt(xs[0], y) {
          if y != x {
            var j :| 0 <= j < |xs[1..]| && xs[1..][j] == y;
            assert xs[j + 1] == y;
          }
        }
      }
      assert forall j :: 0 <= j < |rest| ==> rest[j] in rest;
      [xs[0]] + rest
  }

  /** The distinct elements of `xs` in ascending order, like Python's `sorted(set(xs))`. */
  function SortDistinct<T(==,!new)>(xs: seq<T>, lt: (T, T) -> bool): (r: seq<T>)
    requires StrictTotalOrder(lt)
    ensures SortedBy(r, lt)
    ensures forall y :: y in r <==> y in xs
  {
    if |xs| == 0 then []
    else
      var init := xs[..|xs| - 1];
      assert xs == init + [xs[|xs| - 1]];
      Insert(SortDistinct(init, lt), xs[|xs| - 1], lt)
  }

  /** A strictly ascending sequence repeats no element. */
  lemma SortedIsDistinct<T(!new)>(xs: seq<T>, lt: (T, T) -> bool)
    requires StrictTotalOrder(lt)
    requires SortedBy(xs, lt)
    ensures forall i, j :: 0 <= i < j < |xs| ==> xs[i] != xs[j]
  {
    forall i, j | 0 <= i < j < |xs| ensures xs[i] != xs[j] {
      assert lt(xs[i], xs[j]);
    }
  }

  /** A non-empty sequence contains its first element. */
  lemma HeadIn<T>(s: seq<T>)
    ensures |s| > 0 ==> s[0] in s
  {
  }

  /**
   * There is only one strictly ascending listing of a set: two of them with
   * the same elements are equal. So `SortDistinct` depends only on which
   * elements occur, not on their order or repetition in the input.
   */
  lemma {:induction false} SortedUnique<T(!new)>(xs: seq<T>, ys: seq<T>, lt: (T, T) -> bool)
    requires StrictTotalOrder(lt)
    requires SortedBy(xs, lt) && SortedBy(ys, lt)
    requires forall y :: y in xs <==> y in ys
    ensures xs == ys
    decreases |xs|
  {
    if |xs| == 0 {
      HeadIn(ys);
      assert |ys| == 0;
    } else {
      assert xs[0] in ys;
      assert ys[0] in xs;
      assert forall j :: 0 < j < |ys| ==> lt(ys[0], ys[j]);
      assert forall i :: 0 < i < |xs| ==> lt(xs[0], xs[i]);
      assert xs[0] == ys[0];
      forall y ensures y in xs[1..] <==> y in ys[1..] {
        if y in xs[1..] {
          var i :| 0 <= i < |xs[1..]| && xs[1..][i] == y;
          assert lt(xs[0], xs[i + 1]);
          assert y in ys && y != ys[0];
          var j :| 0 <= j < |ys| && ys[j] == y;
          assert ys[1..][j - 1] == y;
        }
        if y in ys[1..] {
          var j :| 0 <= j < |ys[1..]| && ys[1..][j] == y;
          assert lt(ys[0], ys[j + 1]);
          assert y in xs && y != xs[0];
          var i :| 0 <= i < |xs| && xs[i] == y;
          assert xs[1..][i - 1] == y;
        }
      }
      SortedUnique(xs[1..], ys[1..], lt);
      assert xs == [xs[0]] + xs[1..];
      assert ys == [ys[0]] + ys[1..];
    }
  }

  /** In a strictly ascending sequence, an element nothing is above is the last one. */
  lemma SortedGreatestIsLast<T>(xs: seq<T>, lt: (T, T) -> bool, x: T)
    requires SortedBy(xs, lt) && x in xs
    requires forall y :: y in xs ==> !lt(x, y)
    ensures xs[|xs| - 1] == x
  {
    var i :| 0 <= i < |xs| && xs[i] == x;
    var n := |xs| - 1;
    assert !lt(xs[i], xs[n]);
    assert i == n;
  }
}
