/** Splitting an ordered listing into pages of ten, as every listing view
    does before rendering. The helper the views call lives in a file that
    is not part of this model; the page size and the empty-first-page rule
    are those of Django's `Paginator` with ten items per page. */
module Pagination {
  import opened Seqs

  const PageSize: nat := 10

  /** The number of pages for `n` items; an empty listing still has one,
      empty, first page. */
  function PageCount(n: nat): (c: nat)
    ensures c >= 1
    ensures n == 0 ==> c == 1
    ensures n > 0 ==> (c - 1) * PageSize < n <= c * PageSize
  {
    if n == 0 then 1 else (n + PageSize - 1) / PageSize
  }

  /** The items shown on page `number` (counted from one). */
  function PageOf<T>(items: seq<T>, number: nat): (r: seq<T>)
    requires 1 <= number <= PageCount(|items|)
    ensures |r| <= PageSize
    ensures number < PageCount(|items|) ==> |r| == PageSize
    ensures number == PageCount(|items|) ==> |r| == |items| - (number - 1) * PageSize
    ensures (number - 1) * PageSize + |r| <= |items|
    ensures r == items[(number - 1) * PageSize .. (number - 1) * PageSize + |r|]
  {
    var lo := (number - 1) * PageSize;
    items[lo .. Min(lo + PageSize, |items|)]
  }

  /** Pages `number`, `number + 1`, ... up to the last, one after another. */
  function PagesFrom<T>(items: seq<T>, number: nat): seq<T>
    requires 1 <= number
    decreases PageCount(|items|) + 1 - number
  {
    if number > PageCount(|items|) then [] else PageOf(items, number) + PagesFrom(items, number + 1)
  }

  /** From page `number` on, the pages hold exactly the listing from that
      page's first item on: no item is skipped or shown twice. */
  lemma {:induction false} PagesFromAreSuffix<T>(items: seq<T>, number: nat)
    requires 1 <= number
    ensures PagesFrom(items, number) == items[Min((number - 1) * PageSize, |items|)..]
    decreases PageCount(|items|) + 1 - number
  {
    if number <= PageCount(|items|) {
      var lo := (number - 1) * PageSize;
      var hi := number * PageSize;
      assert hi == lo + PageSize;
      var r := PageOf(items, number);
      assert lo <= |items| && Min(lo, |items|) == lo;
      PagesFromAreSuffix(items, number + 1);
      assert PagesFrom(items, number) == r + items[Min(hi, |items|)..];
      if number < PageCount(|items|) {
        assert |r| == PageSize && Min(hi, |items|) == hi;
        assert items[lo..] == items[lo..hi] + items[hi..];
      } else {
        assert lo + |r| == |items| && Min(hi, |items|) == |items|;
        assert items[lo..] == items[lo..|items|] + items[|items|..];
      }
    }
  }

  /** All pages together are the whole listing, in order. */
  lemma PagesCoverListing<T>(items: seq<T>)
    ensures PagesFrom(items, 1) == items
  {
    PagesFromAreSuffix(items, 1);
  }

  /** Thirteen items make two pages: ten on the first, three on the second. */
  lemma ThirteenItemsSplitTenAndThree<T>(items: seq<T>)
    requires |items| == 13
    ensures PageCount(|items|) == 2
    ensures PageOf(items, 1) == items[..10] && PageOf(items, 2) == items[10..]
  {
  }
}
