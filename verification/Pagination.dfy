/** Page clamping, skip arithmetic, and walking a result list page by page. */
module Pagination {
  import opened Common

  datatype Meta = Meta(
    totalItems: nat, totalPages: nat, currentPage: int, limit: int,
    hasNextPage: bool, hasPreviousPage: bool, nextPage: Option<int>, previousPage: Option<int>)

  function CeilDiv(a: nat, b: nat): nat
    requires b > 0
  {
    (a + b - 1) / b
  }

  function BuildPaginationMeta(totalItems: nat, page: int, limit: int): Meta {
    var totalPages := if limit > 0 then CeilDiv(totalItems, limit) else 0;
    var hasNext := page < totalPages;
    var hasPrevious := page > 1 && totalItems > 0;
    Meta(totalItems, totalPages, page, limit, hasNext, hasPrevious,
         if hasNext then Some(page + 1) else None, if hasPrevious then Some(page - 1) else None)
  }

  /** The page of a frozen result list: `limit` items after the skipped ones. */
  function PageOf<T>(items: seq<T>, page: nat, limit: nat): seq<T>
    requires page >= 1
  {
    var skip := (page - 1) * limit;
    var from := if skip < |items| then skip else |items|;
    var to := if skip + limit < |items| then skip + limit else |items|;
    items[from..to]
  }

  /** The pages a client visits from `page` on by following nextPage. */
  function Follow(totalItems: nat, page: nat, limit: nat): seq<nat>
    requires limit > 0
    decreases BuildPaginationMeta(totalItems, page, limit).totalPages - page
  {
    match BuildPaginationMeta(totalItems, page, limit).nextPage
    case None => [page]
    case Some(next) => [page] + Follow(totalItems, next, limit)
  }

  function Concat<T>(items: seq<T>, pages: seq<nat>, limit: nat): seq<T>
    requires forall i :: 0 <= i < |pages| ==> pages[i] >= 1
  {
    if pages == [] then [] else PageOf(items, pages[0], limit) + Concat(items, pages[1..], limit)
  }

  /** The number of pages is the least that has room for every item. */
  lemma CeilDivFits(a: nat, b: nat)
    requires b > 0
    ensures CeilDiv(a, b) * b >= a
    ensures CeilDiv(a, b) > 0 ==> (CeilDiv(a, b) - 1) * b < a
    ensures CeilDiv(a, b) == 0 <==> a == 0
  {
    var q, r := (a + b - 1) / b, (a + b - 1) % b;
    assert q * b + r == a + b - 1;
    assert (q - 1) * b == q * b - b;
  }

  lemma SmallerMultiple(a: int, b: int, c: nat)
    requires a <= b
    ensures a * c <= b * c
  {
    assert (b - a) * c >= 0;
  }

  /** A page that is not the last is full; the last one ends with the list. */
  lemma PageBounds(n: nat, page: nat, limit: nat)
    requires limit > 0 && 1 <= page && (page == 1 || page <= CeilDiv(n, limit))
    ensures 0 <= (page - 1) * limit <= n && page * limit == (page - 1) * limit + limit
    ensures if page < CeilDiv(n, limit) then page * limit <= n else n <= page * limit
  {
    var total := CeilDiv(n, limit);
    CeilDivFits(n, limit);
    assert page * limit == (page - 1) * limit + limit;
    SmallerMultiple(0, page - 1, limit);
    if page < total {
      SmallerMultiple(page, total - 1, limit);
    } else {
      SmallerMultiple(total, page, limit);
      if page > 1 { SmallerMultiple(page - 1, total - 1, limit); }
    }
  }

  lemma PageOfRest<T>(items: seq<T>, page: nat, limit: nat)
    requires limit > 0 && 1 <= page && (page == 1 || page <= CeilDiv(|items|, limit))
    ensures 0 <= (page - 1) * limit <= |items|
    ensures if page < CeilDiv(|items|, limit)
            then
              && page * limit <= |items|
              && PageOf(items, page, limit) + items[page * limit..] == items[(page - 1) * limit..]
            else PageOf(items, page, limit) == items[(page - 1) * limit..]
  {
    PageBounds(|items|, page, limit);
    var skip := (page - 1) * limit;
    if page < CeilDiv(|items|, limit) {
      assert items[skip..skip + limit] + items[skip + limit..] == items[skip..];
    }
  }

  /** The page `Follow` ends on. */
  function LastPage(totalItems: nat, limit: nat): nat
    requires limit > 0
  {
    if totalItems == 0 then 1 else CeilDiv(totalItems, limit)
  }

  /** Following nextPage visits the remaining pages in turn and ends on the last. */
  lemma {:induction false} FollowCounts(totalItems: nat, page: nat, limit: nat)
    requires limit > 0 && 1 <= page && (page == 1 || page <= CeilDiv(totalItems, limit))
    ensures |Follow(totalItems, page, limit)| == LastPage(totalItems, limit) - page + 1
    ensures forall i :: 0 <= i < |Follow(totalItems, page, limit)| ==> Follow(totalItems, page, limit)[i] == page + i
    decreases CeilDiv(totalItems, limit) - page
  {
    CeilDivFits(totalItems, limit);
    if page < CeilDiv(totalItems, limit) { FollowCounts(totalItems, page + 1, limit); }
  }

  /** The slices visited from a page on are the rest of the list. */
  lemma {:induction false} FollowCoversRest<T>(items: seq<T>, page: nat, limit: nat)
    requires limit > 0 && 1 <= page && (page == 1 || page <= CeilDiv(|items|, limit))
    ensures 0 <= (page - 1) * limit <= |items|
    ensures forall i :: 0 <= i < |Follow(|items|, page, limit)| ==> Follow(|items|, page, limit)[i] >= 1
    ensures Concat(items, Follow(|items|, page, limit), limit) == items[(page - 1) * limit..]
    decreases CeilDiv(|items|, limit) - page
  {
    FollowCounts(|items|, page, limit);
    PageOfRest(items, page, limit);
    if page < CeilDiv(|items|, limit) {
      FollowCoversRest(items, page + 1, limit);
      var rest := Follow(|items|, page + 1, limit);
      assert ([page] + rest)[1..] == rest;
    } else {
      assert Follow(|items|, page, limit) == [page];
      assert Concat(items, [page], limit) == PageOf(items, page, limit) + [];
    }
  }

  /**
   * Starting at page 1 the walk takes max(1, totalPages) pages and yields the whole list,
   * each item once and in order.
   */
  lemma WalkYieldsList<T>(items: seq<T>, limit: nat)
    requires limit > 0
    ensures var visited := Follow(|items|, 1, limit);
            && |visited| == (if items == [] then 1 else BuildPaginationMeta(|items|, 1, limit).totalPages)
            && (forall i :: 0 <= i < |visited| ==> visited[i] == i + 1)
            && Concat(items, visited, limit) == items
  {
    FollowCounts(|items|, 1, limit);
    FollowCoversRest(items, 1, limit);
    assert items[0..] == items;
  }

  /** Going forward and then back leads to the same page. */
  lemma PreviousUndoesNext(totalItems: nat, page: nat, limit: int)
    requires page >= 1 && BuildPaginationMeta(totalItems, page, limit).nextPage.Some?
    ensures var next := BuildPaginationMeta(totalItems, page, limit).nextPage.value;
            BuildPaginationMeta(totalItems, next, limit).previousPage == Some(page)
  {
    if totalItems == 0 && limit > 0 { CeilDivFits(0, limit); }
  }

  /** And back and then forward, from a page that exists. */
  lemma NextUndoesPrevious(totalItems: nat, page: nat, limit: int)
    requires page <= BuildPaginationMeta(totalItems, page, limit).totalPages
    requires BuildPaginationMeta(totalItems, page, limit).previousPage.Some?
    ensures var previous := BuildPaginationMeta(totalItems, page, limit).previousPage.value;
            BuildPaginationMeta(totalItems, previous, limit).nextPage == Some(page)
  {
  }

  // ------------------------------------------------------------------------- clamping

  /** A numeric argument, which may be NaN. */
  datatype Number = NaN | Finite(value: real)

  /** `Math.floor(x) || fallback`: NaN and zero fall back. */
  function FloorOr(x: Number, fallback: int): int {
    match x
    case NaN => fallback
    case Finite(r) => if r.Floor == 0 then fallback else r.Floor
  }

  datatype Page<T> = Page(data: seq<T>, total: nat, page: nat, limit: nat, totalPages: nat)

  function SafePage(page: Number): int {
    Max(1, FloorOr(page, 1))
  }

  function SafeLimit(limit: Number): int {
    Min(Max(1, FloorOr(limit, 10)), 100)
  }

  /**
   * Whatever it is asked, `paginate` skips no negative amount, returns at most a hundred
   * items, and answers with the page it reports: the whole part of each argument, unless that
   * is out of bounds or zero.
   */
  method Paginate<T>(items: seq<T>, page: Number, limit: Number) returns (result: Page<T>)
    ensures result.page >= 1 && 1 <= result.limit <= 100 && result.total == |items|
    ensures result.data == PageOf(items, result.page, result.limit) && |result.data| <= result.limit
    ensures result.totalPages == BuildPaginationMeta(|items|, result.page, result.limit).totalPages
    ensures result.page == if page.Finite? && page.value >= 1.0 then page.value.Floor else 1
    ensures result.limit == if limit == NaN || (0.0 <= limit.value < 1.0) then 10
                            else if limit.value < 0.0 then 1
                            else if limit.value >= 100.0 then 100
                            else limit.value.Floor
  {
    var safePage := SafePage(page);
    var safeLimit := SafeLimit(limit);
    var skip := (safePage - 1) * safeLimit;
    SmallerMultiple(0, safePage - 1, safeLimit);
    var from := Min(skip, |items|);
    var to := Min(skip + safeLimit, |items|);
    return Page(items[from..to], |items|, safePage, safeLimit, CeilDiv(|items|, safeLimit));
  }
}
