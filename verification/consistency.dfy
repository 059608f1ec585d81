/** The agreement between the store's pagination record and its encounter
    list that the paginator and the results view rely on: a positive page
    size, a total that counts the list, and a current page that exists (page
    1 when there are no pages). Every mutator the application calls keeps it;
    `setPagination` with an arbitrary patch does not, but the two paginator
    operations that call it do. */
module Consistency {
  import opened Wrappers
  import opened Models
  import opened Js
  import Store
  import Paginator

  ghost predicate Consistent(s: SearchState) {
    && s.pagination.itemsPerPage > 0
    && s.pagination.totalItems == |s.encounters|
    && 1 <= s.pagination.currentPage <= Max(1, Paginator.TotalPages(s.pagination))
  }

  /** The defaults are consistent. */
  lemma InitialConsistent()
    ensures Consistent(Store.InitialState)
  {
  }

  /** Every named mutator other than `setPagination` keeps the agreement. */
  lemma ActionsKeepConsistent(s: SearchState, a: Store.Action)
    requires Consistent(s)
    requires !a.SetPaginationAction?
    ensures Consistent(Store.Next(s, a))
  {
    var r := Store.Next(s, a);
    if r.pagination.currentPage == 1 {
      assert 1 <= Max(1, Paginator.TotalPages(r.pagination));
    }
  }

  /** A `setPagination` patch that moves to another page breaks it. */
  lemma SetPaginationCanBreak(s: SearchState)
    requires Consistent(s)
    ensures !Consistent(Store.SetPagination(s, PaginationPatch(Some(0), None, None)))
  {
  }

  /** `goToPage` keeps it. */
  lemma GoToPageKeepsConsistent(s: SearchState, page: int)
    requires Consistent(s)
    ensures Consistent(Paginator.GoToPage(s, page))
  {
  }

  /** `changeItemsPerPage` keeps it: the page holding the old first item
      exists under the new page size. */
  lemma ChangeItemsPerPageKeepsConsistent(s: SearchState, n: int)
    requires Consistent(s)
    requires Paginator.IsPageSizeOption(n)
    ensures Consistent(Paginator.ChangeItemsPerPage(s, n))
  {
    var c := s.pagination;
    var r := Paginator.ChangeItemsPerPage(s, n).pagination;
    var first := Paginator.StartItem(c);
    var q := CeilDiv(first, n);
    assert r.currentPage == Max(1, q);
    if c.totalItems == 0 {
      Paginator.TotalPagesSign(c);
      assert first == 1;
      CeilDivUnique(1, n, 1);
    } else {
      var tp := Paginator.TotalPages(c);
      Paginator.TotalPagesSign(c);
      assert (c.currentPage - 1) * c.itemsPerPage <= (tp - 1) * c.itemsPerPage by {
        Paginator.MulMonotone(c.currentPage - 1, tp - 1, c.itemsPerPage);
      }
      assert first <= c.totalItems;
      CeilDivMonotone(first, c.totalItems, n);
    }
  }

  /** `Math.ceil(a / n)` grows with `a`. */
  lemma CeilDivMonotone(a: int, b: int, n: int)
    requires n > 0 && a <= b
    ensures CeilDiv(a, n) <= CeilDiv(b, n)
  {
    var qa := CeilDiv(a, n);
    var qb := CeilDiv(b, n);
    MulCancel(qa - 1, qb, n);
  }

  /** A page reload from the saved snapshot starts consistent again. */
  lemma ReloadKeepsConsistent(s: SearchState)
    requires Consistent(s)
    ensures Consistent(Store.Create(Some(Store.Snapshot(s))).state)
  {
    Store.LoadSnapshot(s);
  }
}
