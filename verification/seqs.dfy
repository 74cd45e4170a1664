/** Generic facts about sequences used as database tables: filtering rows
    (a queryset `filter`, or the rows a `delete` leaves behind) and
    properties that hold between every earlier and every later row. */
module Seqs {

  /** The elements of `xs` that satisfy `keep`, in their original order. */
  function Filter<T(!new)>(xs: seq<T>, keep: T -> bool): (r: seq<T>)
    ensures |r| <= |xs|
    ensures forall x :: x in r <==> x in xs && keep(x)
    decreases |xs|
  {
    if |xs| == 0 then []
    else if keep(xs[0]) then [xs[0]] + Filter(xs[1..], keep)
    else Filter(xs[1..], keep)
  }

  /** `rel` holds of every pair of elements taken in sequence order. */
  ghost predicate Pairwise<T>(xs: seq<T>, rel: (T, T) -> bool) {
    forall i, j :: 0 <= i < j < |xs| ==> rel(xs[i], xs[j])
  }

  /** Inequality as a function value, so that `Pairwise(xs, Differ)`
      says that `xs` has no duplicates. */
  predicate Differ<T(==)>(a: T, b: T) {
    a != b
  }

  /** Filtering keeps the relative order of the surviving elements, so
      whatever held between earlier and later elements still holds. */
  lemma {:induction false} FilterKeepsPairwise<T(!new)>(xs: seq<T>, keep: T -> bool, rel: (T, T) -> bool)
    requires Pairwise(xs, rel)
    ensures Pairwise(Filter(xs, keep), rel)
    decreases |xs|
  {
    if |xs| > 0 {
      var tail := xs[1..];
      assert Pairwise(tail, rel) by {
        forall i, j | 0 <= i < j < |tail| ensures rel(tail[i], tail[j]) {
          assert tail[i] == xs[i + 1] && tail[j] == xs[j + 1];
        }
      }
      FilterKeepsPairwise(tail, keep, rel);
      var rest := Filter(tail, keep);
      if keep(xs[0]) {
        var r := [xs[0]] + rest;
        assert r == Filter(xs, keep);
        forall i, j | 0 <= i < j < |r| ensures rel(r[i], r[j]) {
          if i == 0 {
            assert r[j] in rest;
            var k :| 0 <= k < |tail| && tail[k] == r[j];
            assert xs[k + 1] == r[j];
          } else {
            assert r[i] == rest[i - 1] && r[j] == rest[j - 1];
          }
        }
      }
    }
  }

  /** Filtering keeps every surviving element as many times as it occurs. */
  lemma {:induction false} FilterCounts<T(!new)>(xs: seq<T>, keep: T -> bool)
    ensures forall x :: multiset(Filter(xs, keep))[x] == if keep(x) then multiset(xs)[x] else 0
    decreases |xs|
  {
    if |xs| > 0 {
      FilterCounts(xs[1..], keep);
      assert xs == [xs[0]] + xs[1..];
    }
  }

  /** Filtering with a test every element passes changes nothing. */
  lemma {:induction false} FilterKeepsAll<T(!new)>(xs: seq<T>, keep: T -> bool)
    ensures (forall x :: x in xs ==> keep(x)) ==> Filter(xs, keep) == xs
    decreases |xs|
  {
    if |xs| > 0 {
      assert xs == [xs[0]] + xs[1..];
      FilterKeepsAll(xs[1..], keep);
    }
  }

  /** Filtering with a test no element passes leaves nothing. */
  lemma {:induction false} FilterKeepsNone<T(!new)>(xs: seq<T>, keep: T -> bool)
    requires forall x :: x in xs ==> !keep(x)
    ensures Filter(xs, keep) == []
    decreases |xs|
  {
    if |xs| > 0 {
      FilterKeepsNone(xs[1..], keep);
    }
  }

  /** Filtering distributes over concatenation. */
  lemma {:induction false} FilterAppend<T(!new)>(xs: seq<T>, ys: seq<T>, keep: T -> bool)
    ensures Filter(xs + ys, keep) == Filter(xs, keep) + Filter(ys, keep)
    decreases |xs|
  {
    if |xs| > 0 {
      assert (xs + ys)[1..] == xs[1..] + ys;
      FilterAppend(xs[1..], ys, keep);
    } else {
      assert xs + ys == ys;
    }
  }

  /** Putting `x` anywhere into `xs` keeps a relation that holds between
      `x` and every element, in both orders. */
  lemma SpliceKeepsPairwise<T>(xs: seq<T>, k: nat, x: T, rel: (T, T) -> bool)
    requires k <= |xs|
    requires Pairwise(xs, rel)
    requires forall i :: 0 <= i < |xs| ==> rel(xs[i], x) && rel(x, xs[i])
    ensures Pairwise(xs[..k] + [x] + xs[k..], rel)
  {
    var r := xs[..k] + [x] + xs[k..];
    forall i, j | 0 <= i < j < |r| ensures rel(r[i], r[j]) {
      if j < k {
        assert r[i] == xs[i] && r[j] == xs[j];
      } else if j == k {
        assert r[i] == xs[i];
      } else if i == k {
        assert r[j] == xs[j - 1];
      } else if i < k {
        assert r[i] == xs[i] && r[j] == xs[j - 1];
      } else {
        assert r[i] == xs[i - 1] && r[j] == xs[j - 1];
      }
    }
  }

  /** `Min` for slice bounds. */
  function Min(a: int, b: int): int {
    if a <= b then a else b
  }
}
