/** The paged data store as the lazy list sees it. The store itself belongs to the
    toolkit; only the part of its interface the list uses is modelled: the fields it
    reads and writes, the requests it is asked to make (kept in a log) and the one-shot
    listeners waiting for its next `load` event. */
module PagedStore {

  /** The `records` argument of a select: a numeric index, or the records themselves
      (opaque references). */
  datatype Selector = Index(index: int) | Records(refs: seq<nat>)

  /** A request issued to the store. */
  datatype Request =
    | Load
    | LoadPage(page: int)
    | NextPage
    | Read(page: int, start: int, limit: int, addRecords: bool)

  /** A one-shot `load` listener: the view's eager load of a page once the first load
      completes, or the selection model's retry of a select. */
  datatype Listener =
    | PreloadPage(page: int)
    | RetrySelect(records: Selector, keepExisting: bool, suppressEvent: bool)

  class Store {
    var currentPage: int
    var pageSize: int
    var clearOnPageLoad: bool
    var loading: bool
    var count: nat                // records held locally (`getCount()`)
    var requests: seq<Request>    // every request issued, oldest first
    var pending: seq<Listener>    // one-shot listeners for the next `load` event

    constructor (currentPage: int, pageSize: int)
      ensures this.currentPage == currentPage && this.pageSize == pageSize
      ensures clearOnPageLoad && !loading && count == 0
      ensures requests == [] && pending == []
    {
      this.currentPage := currentPage;
      this.pageSize := pageSize;
      clearOnPageLoad := true;
      loading := false;
      count := 0;
      requests := [];
      pending := [];
    }

    /** `load()`, `loadPage(n)`, `nextPage()` or `read(...)`: the request is logged and
        the store is loading until the next `load` event. */
    method Send(r: Request)
      modifies this`requests, this`loading
      ensures requests == old(requests) + [r] && loading
    {
      requests := requests + [r];
      loading := true;
    }

    /** `on('load', ..., {single: true})`. */
    method Once(l: Listener)
      modifies this`pending
      ensures pending == old(pending) + [l]
    {
      pending := pending + [l];
    }

    /** A load completes with `newCount` records held: the store is idle again and every
        pending one-shot listener fires, in registration order, and is removed. */
    method FireLoad(newCount: nat) returns (fired: seq<Listener>)
      modifies this`pending, this`loading, this`count
      ensures fired == old(pending) && pending == []
      ensures !loading && count == newCount
    {
      fired := pending;
      pending := [];
      loading := false;
      count := newCount;
    }
  }
}
