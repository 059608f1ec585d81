/** The paginator component (`PaginatorComponent`): page-count arithmetic, the
    page-number list with `-1` ellipsis sentinels, the navigation guard and
    the page-size change. The component mirrors the store's pagination
    record, so each operation is stated over the store's `SearchState`. */
module Paginator {
  import opened Wrappers
  import opened Models
  import opened Js
  import Store

  /** The sentinel standing for an ellipsis button. */
  const Ellipsis: int := -1

  /** At most this many pages are listed without ellipses. */
  const MaxVisiblePages: int := 7

  /** `Math.ceil(totalItems / itemsPerPage)`: the least page count whose
      pages hold every item. */
  function TotalPages(config: PaginationConfig): (n: int)
    requires config.itemsPerPage > 0
    ensures (n - 1) * config.itemsPerPage < config.totalItems <= n * config.itemsPerPage
  {
    CeilDiv(config.totalItems, config.itemsPerPage)
  }

  /** An empty list has no pages; a non-empty one has at least one. */
  lemma TotalPagesSign(config: PaginationConfig)
    requires config.itemsPerPage > 0
    ensures config.totalItems == 0 ==> TotalPages(config) == 0
    ensures config.totalItems > 0 ==> TotalPages(config) >= 1
  {
    var n := TotalPages(config);
    if config.totalItems == 0 {
      MulCancel(n - 1, 0, config.itemsPerPage);
      MulCancel(-1, n, config.itemsPerPage);
    } else if config.totalItems > 0 {
      MulCancel(0, n, config.itemsPerPage);
    }
  }

  /** The guard of `goToPage`: the sentinel, pages outside `1..totalPages`
      and the current page are refused. */
  predicate PageRefused(config: PaginationConfig, page: int)
    requires config.itemsPerPage > 0
  {
    page == Ellipsis || page < 1 || page > TotalPages(config) || page == config.currentPage
  }

  /** The `setPagination` request `goToPage(page)` sends, if any. */
  function PageRequest(config: PaginationConfig, page: int): (r: Option<PaginationPatch>)
    requires config.itemsPerPage > 0
    ensures r.None? <==> PageRefused(config, page)
  {
    if PageRefused(config, page) then None else Some(PaginationPatch(Some(page), None, None))
  }

  /** `goToPage(page)` as seen in the store: a refused page changes nothing;
      otherwise only the current page changes, to `page`. */
  function GoToPage(s: SearchState, page: int): (r: SearchState)
    requires s.pagination.itemsPerPage > 0
    ensures PageRefused(s.pagination, page) ==> r == s
    ensures !PageRefused(s.pagination, page) ==> r == s.(pagination := s.pagination.(currentPage := page))
  {
    match PageRequest(s.pagination, page)
    case None => s
    case Some(patch) => Store.SetPagination(s, patch)
  }

  /** A page accepted by `goToPage` lies within `1..totalPages`. */
  lemma GoToPageStaysInRange(s: SearchState, page: int)
    requires s.pagination.itemsPerPage > 0
    requires 1 <= s.pagination.currentPage <= Max(1, TotalPages(s.pagination))
    ensures 1 <= GoToPage(s, page).pagination.currentPage <= Max(1, TotalPages(GoToPage(s, page).pagination))
  {
  }

  /** Asking for the same page twice is the same as asking once. */
  lemma GoToPageIdempotent(s: SearchState, page: int)
    requires s.pagination.itemsPerPage > 0
    ensures GoToPage(GoToPage(s, page), page) == GoToPage(s, page)
  {
  }

  /** The page sizes the selector offers. */
  predicate IsPageSizeOption(n: int) {
    n == 5 || n == 10 || n == 20 || n == 50
  }

  /** The 1-based number of the first item on the current page (`getStartItem`):
      one past the index the store's page starts at, so at least 1 on a page
      of at least 1. */
  function StartItem(config: PaginationConfig): (r: int)
    ensures r == Store.PageStart(config) + 1
    ensures config.currentPage >= 1 && config.itemsPerPage >= 0 ==> r >= 1
  {
    (config.currentPage - 1) * config.itemsPerPage + 1
  }

  /** The page `changeItemsPerPage` moves to: the one holding the item that
      was first on screen, and never below 1. */
  function PageAfterResize(config: PaginationConfig, newItemsPerPage: int): int
    requires newItemsPerPage > 0
  {
    Max(1, CeilDiv(StartItem(config), newItemsPerPage))
  }

  /** `changeItemsPerPage`: the new page size and the page that keeps the
      first visible item on screen; nothing else changes. */
  function ChangeItemsPerPage(s: SearchState, newItemsPerPage: int): (r: SearchState)
    requires IsPageSizeOption(newItemsPerPage)
    ensures r.pagination.itemsPerPage == newItemsPerPage
    ensures r.pagination.currentPage >= 1
    ensures r.pagination.totalItems == s.pagination.totalItems
    ensures r.(pagination := s.pagination) == s
  {
    var patch := PaginationPatch(Some(PageAfterResize(s.pagination, newItemsPerPage)), Some(newItemsPerPage), None);
    Store.SetPagination(s, patch)
  }

  /** Changing the page size keeps the item that was first on screen on the
      new page: its 1-based number lies within the new page's range. */
  lemma ResizeKeepsFirstItem(s: SearchState, newItemsPerPage: int)
    requires IsPageSizeOption(newItemsPerPage)
    requires s.pagination.currentPage >= 1 && s.pagination.itemsPerPage >= 1
    ensures var p := ChangeItemsPerPage(s, newItemsPerPage).pagination;
            StartItem(p) <= StartItem(s.pagination) <= p.currentPage * newItemsPerPage
  {
    var first := StartItem(s.pagination);
    var q := CeilDiv(first, newItemsPerPage);
    CeilDivOfPositive(first, newItemsPerPage);
    var p := ChangeItemsPerPage(s, newItemsPerPage).pagination;
    assert p == PaginationConfig(q, newItemsPerPage, s.pagination.totalItems);
  }

  /** The ceiling of a positive quotient is at least 1. */
  lemma CeilDivOfPositive(a: int, n: int)
    requires a >= 1 && n > 0
    ensures CeilDiv(a, n) >= 1
  {
    var q := CeilDiv(a, n);
    if q < 1 { MulCancel(0, q, n); }
  }

  /** `getEndItem`: the last item on the current page, capped by the total:
      the item number where the store's page of `itemsPerPage` items from
      `PageStart` would end, or the total when that comes first. */
  function EndItem(config: PaginationConfig): (r: int)
    ensures r == Min(Store.PageStart(config) + config.itemsPerPage, config.totalItems)
    ensures r <= config.totalItems
  {
    Min(config.currentPage * config.itemsPerPage, config.totalItems)
  }

  /** `pages[lo..hi]` inclusive, empty when `lo > hi` (the source's counting loops). */
  function Range(lo: int, hi: int): (r: seq<int>)
    ensures |r| == if lo <= hi then hi - lo + 1 else 0
    ensures forall i :: 0 <= i < |r| ==> r[i] == lo + i
    decreases hi - lo
  {
    if lo > hi then [] else [lo] + Range(lo + 1, hi)
  }

  /** The first page of the window around the current page. */
  function WindowStart(currentPage: int): int {
    Max(2, currentPage - 2)
  }

  /** The last page of the window around the current page. */
  function WindowEnd(totalPages: int, currentPage: int): int {
    Min(totalPages - 1, currentPage + 2)
  }

  /** `getVisiblePages`: every page when there are at most seven; otherwise
      page 1, an optional ellipsis, the window around the current page, an
      optional ellipsis and the last page. */
  function VisiblePages(totalPages: int, currentPage: int): (pages: seq<int>)
    ensures totalPages <= MaxVisiblePages ==>
      && |pages| == Max(0, totalPages)
      && forall i :: 0 <= i < |pages| ==> pages[i] == i + 1
  {
    if totalPages <= MaxVisiblePages then Range(1, totalPages)
    else
      var start := WindowStart(currentPage);
      var end := WindowEnd(totalPages, currentPage);
      [1]
      + (if start > 2 then [Ellipsis] else [])
      + Range(start, end)
      + (if end < totalPages - 1 then [Ellipsis] else [])
      + (if totalPages > 1 then [totalPages] else [])
  }

  /** What a list of page buttons must look like for `totalPages` pages:
      it starts at page 1 and ends at the last page; every entry is a page
      or the sentinel; listed pages strictly increase; two listed pages side
      by side are consecutive; and a sentinel sits between two listed pages
      with at least one page hidden between them. */
  ghost predicate WellFormedPageList(pages: seq<int>, totalPages: int) {
    && |pages| >= 2
    && pages[0] == 1
    && pages[|pages| - 1] == totalPages
    && (forall i :: 0 <= i < |pages| ==> pages[i] == Ellipsis || 1 <= pages[i] <= totalPages)
    && (forall i, j :: 0 <= i < j < |pages| && pages[i] != Ellipsis && pages[j] != Ellipsis ==> pages[i] < pages[j])
    && (forall i :: 0 <= i < |pages| - 1 && pages[i] != Ellipsis && pages[i + 1] != Ellipsis ==> pages[i + 1] == pages[i] + 1)
    && (forall i :: 0 < i < |pages| - 1 && pages[i] == Ellipsis ==>
          pages[i - 1] != Ellipsis && pages[i + 1] != Ellipsis && pages[i + 1] - pages[i - 1] >= 2)
  }

  /** Two sentinels are never adjacent in a well-formed list. */
  lemma WellFormedNoAdjacentEllipses(pages: seq<int>, totalPages: int, i: int)
    requires WellFormedPageList(pages, totalPages)
    requires 0 <= i < |pages| - 1
    ensures !(pages[i] == Ellipsis && pages[i + 1] == Ellipsis)
  {
    if pages[i] == Ellipsis {
      assert i > 0;
    }
  }

  /** The number of entries before the window: page 1 and maybe a sentinel. */
  function HeadLength(currentPage: int): int {
    if WindowStart(currentPage) > 2 then 2 else 1
  }

  /** The number of pages in the window. */
  function WindowLength(totalPages: int, currentPage: int): int {
    var start := WindowStart(currentPage);
    var end := WindowEnd(totalPages, currentPage);
    if start <= end then end - start + 1 else 0
  }

  /** The number of entries after the window: maybe a sentinel, and the last page. */
  function TailLength(totalPages: int, currentPage: int): int {
    if WindowEnd(totalPages, currentPage) < totalPages - 1 then 2 else 1
  }

  /** Entry `i` of the list for more than seven pages, by position. */
  lemma VisiblePagesAt(totalPages: int, currentPage: int, i: int)
    requires totalPages > MaxVisiblePages
    ensures |VisiblePages(totalPages, currentPage)|
            == HeadLength(currentPage) + WindowLength(totalPages, currentPage) + TailLength(totalPages, currentPage)
    ensures 0 <= i < |VisiblePages(totalPages, currentPage)| ==>
      var h := HeadLength(currentPage);
      var w := WindowLength(totalPages, currentPage);
      VisiblePages(totalPages, currentPage)[i] ==
        if i == 0 then 1
        else if i < h then Ellipsis
        else if i < h + w then WindowStart(currentPage) + (i - h)
        else if i < |VisiblePages(totalPages, currentPage)| - 1 then Ellipsis
        else totalPages
  {
    var start := WindowStart(currentPage);
    var end := WindowEnd(totalPages, currentPage);
    var head := [1] + (if start > 2 then [Ellipsis] else []);
    var window := Range(start, end);
    var tail := (if end < totalPages - 1 then [Ellipsis] else []) + [totalPages];
    var pages := VisiblePages(totalPages, currentPage);
    assert pages == head + window + tail;
    if 0 <= i < |pages| {
      if i < |head| {
        assert pages[i] == head[i];
      } else if i < |head| + |window| {
        assert pages[i] == window[i - |head|];
      } else {
        assert pages[i] == tail[i - |head| - |window|];
      }
    }
  }

  /** For more than seven pages the list is well formed, whatever the current page. */
  lemma VisiblePagesWellFormed(totalPages: int, currentPage: int)
    requires totalPages > MaxVisiblePages
    ensures WellFormedPageList(VisiblePages(totalPages, currentPage), totalPages)
  {
    var pages := VisiblePages(totalPages, currentPage);
    VisiblePagesAt(totalPages, currentPage, 0);
    VisiblePagesAt(totalPages, currentPage, |pages| - 1);
    VisiblePagesBounded(totalPages, currentPage);
    VisiblePagesIncreasing(totalPages, currentPage);
    VisiblePagesConsecutive(totalPages, currentPage);
    VisiblePagesGaps(totalPages, currentPage);
  }

  /** Every entry is a page or the sentinel. */
  lemma VisiblePagesBounded(totalPages: int, currentPage: int)
    requires totalPages > MaxVisiblePages
    ensures var pages := VisiblePages(totalPages, currentPage);
      forall i :: 0 <= i < |pages| ==> pages[i] == Ellipsis || 1 <= pages[i] <= totalPages
  {
    var pages := VisiblePages(totalPages, currentPage);
    forall i | 0 <= i < |pages|
      ensures pages[i] == Ellipsis || 1 <= pages[i] <= totalPages
    {
      VisiblePagesAt(totalPages, currentPage, i);
    }
  }

  /** Listed pages strictly increase. */
  lemma VisiblePagesIncreasing(totalPages: int, currentPage: int)
    requires totalPages > MaxVisiblePages
    ensures var pages := VisiblePages(totalPages, currentPage);
      forall i, j :: 0 <= i < j < |pages| && pages[i] != Ellipsis && pages[j] != Ellipsis ==> pages[i] < pages[j]
  {
    var pages := VisiblePages(totalPages, currentPage);
    forall i, j | 0 <= i < j < |pages| && pages[i] != Ellipsis && pages[j] != Ellipsis
      ensures pages[i] < pages[j]
    {
      VisiblePagesAt(totalPages, currentPage, i);
      VisiblePagesAt(totalPages, currentPage, j);
    }
  }

  /** Two listed pages side by side are consecutive. */
  lemma VisiblePagesConsecutive(totalPages: int, currentPage: int)
    requires totalPages > MaxVisiblePages
    ensures var pages := VisiblePages(totalPages, currentPage);
      forall i :: 0 <= i < |pages| - 1 && pages[i] != Ellipsis && pages[i + 1] != Ellipsis ==> pages[i + 1] == pages[i] + 1
  {
    var pages := VisiblePages(totalPages, currentPage);
    forall i | 0 <= i < |pages| - 1 && pages[i] != Ellipsis && pages[i + 1] != Ellipsis
      ensures pages[i + 1] == pages[i] + 1
    {
      VisiblePagesAt(totalPages, currentPage, i);
      VisiblePagesAt(totalPages, currentPage, i + 1);
    }
  }

  /** A sentinel sits between two listed pages and hides at least one page. */
  lemma VisiblePagesGaps(totalPages: int, currentPage: int)
    requires totalPages > MaxVisiblePages
    ensures var pages := VisiblePages(totalPages, currentPage);
      forall i :: 0 < i < |pages| - 1 && pages[i] == Ellipsis ==>
        pages[i - 1] != Ellipsis && pages[i + 1] != Ellipsis && pages[i + 1] - pages[i - 1] >= 2
  {
    var pages := VisiblePages(totalPages, currentPage);
    forall i | 0 < i < |pages| - 1 && pages[i] == Ellipsis
      ensures pages[i - 1] != Ellipsis && pages[i + 1] != Ellipsis && pages[i + 1] - pages[i - 1] >= 2
    {
      VisiblePagesAt(totalPages, currentPage, i - 1);
      VisiblePagesAt(totalPages, currentPage, i);
      VisiblePagesAt(totalPages, currentPage, i + 1);
    }
  }

  /** For more than seven pages: at most nine buttons; the window pages lie in
      `2..totalPages-1`; a current page in range is always listed; and, when
      it is in range, a sentinel follows page 1 exactly when the window
      starts after page 2 and precedes the last page exactly when the window
      ends before the second-to-last page. */
  lemma VisiblePagesWindow(totalPages: int, currentPage: int)
    requires totalPages > MaxVisiblePages
    ensures var pages := VisiblePages(totalPages, currentPage);
      && |pages| <= 9
      && (forall i :: 0 < i < |pages| - 1 && pages[i] != Ellipsis ==> 2 <= pages[i] <= totalPages - 1)
      && (1 <= currentPage <= totalPages ==>
            && currentPage in pages
            && (pages[1] == Ellipsis <==> WindowStart(currentPage) > 2)
            && (pages[|pages| - 2] == Ellipsis <==> WindowEnd(totalPages, currentPage) < totalPages - 1))
  {
    var pages := VisiblePages(totalPages, currentPage);
    var h := HeadLength(currentPage);
    var w := WindowLength(totalPages, currentPage);
    VisiblePagesAt(totalPages, currentPage, 0);
    forall i | 0 < i < |pages| - 1 && pages[i] != Ellipsis
      ensures 2 <= pages[i] <= totalPages - 1
    {
      VisiblePagesAt(totalPages, currentPage, i);
    }
    if 1 <= currentPage <= totalPages {
      VisiblePagesAt(totalPages, currentPage, 1);
      VisiblePagesAt(totalPages, currentPage, |pages| - 2);
      VisiblePagesAt(totalPages, currentPage, |pages| - 1);
      if 1 < currentPage < totalPages {
        var k := h + (currentPage - WindowStart(currentPage));
        VisiblePagesAt(totalPages, currentPage, k);
        assert pages[k] == currentPage;
      } else if currentPage == totalPages {
        assert pages[|pages| - 1] == currentPage;
      }
    }
  }

  /** With at least one item and a current page in `1..totalPages`, the
      "Showing X-Y" range is non-empty, and its item numbers are exactly the
      encounters `getPaginatedEncounters` serves. */
  lemma ShownRangeMatchesPage(s: SearchState)
    requires s.pagination.itemsPerPage > 0
    requires s.pagination.totalItems == |s.encounters|
    requires 1 <= s.pagination.currentPage <= TotalPages(s.pagination)
    ensures StartItem(s.pagination) <= EndItem(s.pagination)
    ensures Store.GetPaginatedEncounters(s) == s.encounters[StartItem(s.pagination) - 1..EndItem(s.pagination)]
  {
    var c := s.pagination;
    var n := TotalPages(c);
    MulCancel(0, n, c.itemsPerPage);
    assert (c.currentPage - 1) * c.itemsPerPage <= (n - 1) * c.itemsPerPage by {
      MulMonotone(c.currentPage - 1, n - 1, c.itemsPerPage);
    }
    assert (c.currentPage - 1) * c.itemsPerPage >= 0 by {
      MulMonotone(0, c.currentPage - 1, c.itemsPerPage);
    }
    assert c.currentPage * c.itemsPerPage == (c.currentPage - 1) * c.itemsPerPage + c.itemsPerPage;
  }

  lemma MulMonotone(x: int, y: int, b: int)
    requires x <= y && b >= 0
    ensures x * b <= y * b
  {
    assert y * b - x * b == (y - x) * b;
  }
}
