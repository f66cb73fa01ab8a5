/** The selection model of the lazy list: a select by a numeric index beyond the records
    already loaded moves the store ahead to the look-ahead page, reads the missing pages
    in one request and retries the same select once that load completes. Every other
    select is left to the base selection model. */
module LazySelection {
  import opened PageMath
  import opened PagedStore

  /** A call of the base selection model's `doSelect`, whose behaviour is not modelled. */
  datatype SelectCall = SelectCall(records: Selector, keepExisting: bool, suppressEvent: bool)

  /** A select goes through the look-ahead branch when it names an index that the records
      held do not reach yet; such an index is never negative, since no store holds fewer
      than zero records. */
  predicate LooksAhead(records: Selector, count: nat): (b: bool)
    ensures b ==> records.Index? && 0 <= count <= records.index
  {
    records.Index? && count < records.index + 1
  }

  /** The read issued by the look-ahead branch for index `i` with page size `p`, when the
      store was at page `oldPage`: it asks for the pages after `oldPage` up to the
      look-ahead page in one request. */
  function LookAheadRead(i: int, p: int, oldPage: int, clearOnPageLoad: bool): (r: Request)
    requires i >= 0 && p > 0
    ensures r.Read? && r.page == LookAheadPage(i, p) && r.addRecords == !clearOnPageLoad
    ensures r.start == oldPage * p && r.start + r.limit == r.page * p
    ensures r.limit > 0 <==> oldPage < r.page
    ensures oldPage * p <= i ==> r.start <= i < r.start + r.limit
  {
    var page := LookAheadPage(i, p);
    LookAheadReachesIndex(i, p);
    MulMono(p, oldPage, page);
    MulMono(p, page, oldPage);
    assert (page - oldPage) * p == page * p - oldPage * p;
    Read(page, oldPage * p, (page - oldPage) * p, !clearOnPageLoad)
  }

  /** The worked example: 10 records a page, 10 held, store at page 1, select index 25. */
  lemma LookAheadReadExample()
    ensures LookAheadRead(25, 10, 1, false) == Read(4, 10, 30, true)
  {
  }

  class LazyDataViewSelectionModel {
    var locked: bool
    /** The selection model's own flag, which the look-ahead read consults; the toolkit
        never sets it, so it is false unless a client sets it. */
    var clearOnPageLoad: bool
    const store: Store
    var delegated: seq<SelectCall>   // calls passed on to the base selection model

    constructor (store: Store)
      ensures !locked && !clearOnPageLoad && this.store == store && delegated == []
    {
      locked := false;
      clearOnPageLoad := false;
      this.store := store;
      delegated := [];
    }

    /** `doSelect`: nothing while locked; the look-ahead branch for an index beyond the
        held records; the base selection model otherwise. */
    method DoSelect(records: Selector, keepExisting: bool, suppressEvent: bool)
      requires !locked && LooksAhead(records, store.count) ==> store.pageSize > 0
      modifies this`delegated, store`currentPage, store`requests, store`loading, store`pending
      ensures locked ==> unchanged(store) && delegated == old(delegated)
      ensures !locked && LooksAhead(records, store.count) ==>
                store.currentPage == LookAheadPage(records.index, store.pageSize)
                && store.requests == old(store.requests)
                   + [LookAheadRead(records.index, store.pageSize, old(store.currentPage), clearOnPageLoad)]
                && store.pending == old(store.pending)
                   + [RetrySelect(records, keepExisting, suppressEvent)]
                && store.loading
                && delegated == old(delegated)
      ensures !locked && !LooksAhead(records, store.count) ==>
                unchanged(store)
                && delegated == old(delegated) + [SelectCall(records, keepExisting, suppressEvent)]
    {
      if locked {
        return;
      }
      if records.Index? {
        var count := store.count;
        if count < records.index + 1 {
          var i, p := records.index, store.pageSize;
          var pageIndex := i / p + (if i % p != 0 then 1 else 0) + 1;
          var currentPage := store.currentPage;
          store.currentPage := pageIndex;
          store.Once(RetrySelect(records, keepExisting, suppressEvent));
          store.Send(Read(pageIndex, currentPage * p, (pageIndex - currentPage) * p, !clearOnPageLoad));
          return;
        }
      }
      delegated := delegated + [SelectCall(records, keepExisting, suppressEvent)];
    }

    /** The one-shot listener registered by the look-ahead branch, run when the store's
        load event fires: the same select again. */
    method Resume(l: Listener)
      requires l.RetrySelect?
      requires !locked && LooksAhead(l.records, store.count) ==> store.pageSize > 0
      modifies this`delegated, store`currentPage, store`requests, store`loading, store`pending
      ensures !locked && LooksAhead(l.records, store.count) ==>
                store.currentPage == LookAheadPage(l.records.index, store.pageSize)
                && store.requests == old(store.requests)
                   + [LookAheadRead(l.records.index, store.pageSize, old(store.currentPage), clearOnPageLoad)]
                && store.pending == old(store.pending) + [l]
                && store.loading
                && delegated == old(delegated)
      ensures !locked && !LooksAhead(l.records, store.count) ==>
                unchanged(store)
                && delegated == old(delegated) + [SelectCall(l.records, l.keepExisting, l.suppressEvent)]
      ensures locked ==> unchanged(store) && delegated == old(delegated)
    {
      DoSelect(l.records, l.keepExisting, l.suppressEvent);
    }
  }

  /** Selecting index 25 with 10 records a page while only page 1 (10 records) is held:
      the store jumps to page 4, records 10..39 are read, and once that load brings
      40 records the retried select reaches the base selection model. */
  method SelectBeyondLoaded(sel: LazyDataViewSelectionModel)
    requires !sel.locked && !sel.clearOnPageLoad
    requires sel.store.pageSize == 10 && sel.store.currentPage == 1 && sel.store.count == 10
    requires sel.store.pending == []
    modifies sel`delegated, sel.store
    ensures sel.store.currentPage == 4 && sel.store.pending == []
    ensures sel.store.requests == old(sel.store.requests) + [Read(4, 10, 30, true)]
    ensures sel.delegated == old(sel.delegated) + [SelectCall(Index(25), false, false)]
  {
    sel.DoSelect(Index(25), false, false);
    assert LookAheadPage(25, 10) == 4;
    var fired := sel.store.FireLoad(40);
    assert fired == [RetrySelect(Index(25), false, false)];
    sel.Resume(fired[0]);
  }
}
