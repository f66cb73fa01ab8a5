/** The lazy list view: it turns the viewport height into a page size, (re)initialises
    its store whenever that page size changes, and asks the store for the next page
    when the scroll position passes the load barrier near the end of the loaded data. */
module LazyView {
  import opened PageMath
  import opened PagedStore

  /** The "not measured yet" value of `itemHeight` and `pageSize`. */
  const Unset := -1

  /** The page loaded eagerly once the first load completes. */
  const PreloadedPage := 2

  /** Why mounting fails: measuring the item height needs the store's model, and the
      scroll handler needs a persistent scroller. */
  datatype MountError = NoStore | ScrollerNotPersistent

  datatype Mount = Mounted | Failed(error: MountError)

  /** What `initStore` does to a store, between the state before and after the call:
      keep loaded pages, take the view's page size, issue one `load()` and register one
      one-shot listener that loads page 2; nothing else changes. */
  twostate predicate StoreInitialised(s: Store, p: int)
    reads s
  {
    !s.clearOnPageLoad && s.pageSize == p && s.loading
    && s.requests == old(s.requests) + [Load]
    && s.pending == old(s.pending) + [PreloadPage(PreloadedPage)]
    && s.currentPage == old(s.currentPage) && s.count == old(s.count)
  }

  class LazyDataView {
    var itemHeight: int       // pixel height of one rendered item
    var pageSize: int         // items visible at a time
    var loadBarrier: Rat      // fraction of a page scrolled past before the next load
    const store: Store?
    const hasScroller: bool
    var scrollListeners: nat  // subscriptions of `onScroll` to the scroller
    var baseLayouts: nat      // calls of the base class's layout

    /** A new view: nothing measured yet, barrier one half. */
    constructor (store: Store?, hasScroller: bool)
      ensures itemHeight == Unset && pageSize == Unset && loadBarrier == Rat(1, 2)
      ensures this.store == store && this.hasScroller == hasScroller
      ensures scrollListeners == 0 && baseLayouts == 0
    {
      itemHeight := Unset;
      pageSize := Unset;
      loadBarrier := Rat(1, 2);
      this.store := store;
      this.hasScroller := hasScroller;
      scrollListeners := 0;
      baseLayouts := 0;
    }

    /** `initStore`: set up the store for paging by the current page size and load
        the first page, then page 2 once that load completes. */
    method InitStore()
      requires store != null
      modifies store`clearOnPageLoad, store`pageSize, store`requests, store`loading,
               store`pending
      ensures StoreInitialised(store, pageSize)
    {
      store.clearOnPageLoad := false;
      store.pageSize := pageSize;
      store.Send(Load);
      store.Once(PreloadPage(PreloadedPage));
    }

    /** `calcPageSize`: the page size is the viewport height over the item height,
        rounded; each time it changes a bound store is initialised again. */
    method CalcPageSize(width: int, height: int)
      requires itemHeight != 0
      modifies this`pageSize, store
      ensures pageSize == Round(height, itemHeight)
      ensures pageSize == old(pageSize) ==> store == null || unchanged(store)
      ensures pageSize != old(pageSize) && store != null ==> StoreInitialised(store, pageSize)
    {
      var size := Round(height, itemHeight);
      if size != pageSize {
        pageSize := size;
        if store != null {
          InitStore();
        }
      }
    }

    /** `doComponentLayout`: recompute the page size, then lay out as the base class does. */
    method DoComponentLayout(width: int, height: int)
      requires itemHeight != 0
      modifies this`pageSize, this`baseLayouts, store
      ensures pageSize == Round(height, itemHeight) && baseLayouts == old(baseLayouts) + 1
      ensures pageSize == old(pageSize) ==> store == null || unchanged(store)
      ensures pageSize != old(pageSize) && store != null ==> StoreInitialised(store, pageSize)
    {
      CalcPageSize(width, height);
      baseLayouts := baseLayouts + 1;
    }

    /** `onRender`: measure the item height, which needs the store's model, then fail when
        there is no persistent scroller, otherwise listen to its scroll events. A view
        without a store fails before anything changes; the height is kept when only the
        scroller is missing. */
    method OnRender(measuredHeight: int) returns (outcome: Mount)
      modifies this`itemHeight, this`scrollListeners
      ensures store == null ==> outcome == Failed(NoStore) && itemHeight == old(itemHeight)
                                && scrollListeners == old(scrollListeners)
      ensures store != null ==> itemHeight == measuredHeight
      ensures store != null && hasScroller ==>
                outcome == Mounted && scrollListeners == old(scrollListeners) + 1
      ensures store != null && !hasScroller ==>
                outcome == Failed(ScrollerNotPersistent) && scrollListeners == old(scrollListeners)
      ensures outcome == Mounted <==> store != null && hasScroller
    {
      if store == null {
        return Failed(NoStore);
      }
      itemHeight := measuredHeight;
      if !hasScroller {
        return Failed(ScrollerNotPersistent);
      }
      scrollListeners := scrollListeners + 1;
      outcome := Mounted;
    }

    /** `onScroll`: ask the store for the next page exactly when the scroll rule holds;
        nothing else on the view or the store changes. */
    method OnScroll(offsetY: Rat)
      requires store != null && itemHeight > 0 && pageSize > 0
      modifies store`requests, store`loading
      ensures var fire := ShouldLoadNext(offsetY, itemHeight, pageSize, loadBarrier,
                                         store.currentPage, old(store.loading));
              store.requests == old(store.requests) + (if fire then [NextPage] else [])
              && store.loading == (old(store.loading) || fire)
    {
      if ShouldLoadNext(offsetY, itemHeight, pageSize, loadBarrier, store.currentPage, store.loading) {
        store.Send(NextPage);
      }
    }

    /** The one-shot listener registered by `initStore`, run when the store's load
        event fires: load the eager page. */
    method RunPreload(l: Listener)
      requires store != null && l.PreloadPage?
      modifies store`requests, store`loading
      ensures store.requests == old(store.requests) + [LoadPage(l.page)] && store.loading
    {
      store.Send(LoadPage(l.page));
    }
  }

  /** The requests a run of scroll events issues, one event after another, while no load
      completes: each event asks for the next page when the scroll rule holds, and a
      request leaves the store loading. Only `nextPage()` is ever asked for. */
  function ScrollRun(offsets: seq<Rat>, itemHeight: Positive, pageSize: Positive, barrier: Rat,
                     currentPage: int, loading: bool): (rs: seq<Request>)
    ensures forall k :: 0 <= k < |rs| ==> rs[k] == NextPage
    ensures loading ==> rs == []
  {
    if offsets == [] then []
    else
      var fire := ShouldLoadNext(offsets[0], itemHeight, pageSize, barrier, currentPage, loading);
      (if fire then [NextPage] else [])
      + ScrollRun(offsets[1..], itemHeight, pageSize, barrier, currentPage, loading || fire)
  }

  /** The `isLoading()` guard keeps one page request in flight at a time: a run of scroll
      events on an idle store issues exactly one `nextPage()` if some event satisfies the
      scroll rule, and none otherwise. */
  lemma {:induction false} OneNextPagePerLoad(offsets: seq<Rat>, itemHeight: Positive,
                                              pageSize: Positive, barrier: Rat, currentPage: int)
    ensures var rs := ScrollRun(offsets, itemHeight, pageSize, barrier, currentPage, false);
            (rs == [NextPage] <==>
               exists k :: 0 <= k < |offsets|
                 && ShouldLoadNext(offsets[k], itemHeight, pageSize, barrier, currentPage, false))
            && (rs == [] || rs == [NextPage])
  {
    if offsets != [] {
      var rest := offsets[1..];
      OneNextPagePerLoad(rest, itemHeight, pageSize, barrier, currentPage);
      if ShouldLoadNext(offsets[0], itemHeight, pageSize, barrier, currentPage, false) {
        assert ScrollRun(rest, itemHeight, pageSize, barrier, currentPage, true) == [];
      } else {
        forall k | 1 <= k < |offsets|
          ensures ShouldLoadNext(offsets[k], itemHeight, pageSize, barrier, currentPage, false)
                  == ShouldLoadNext(rest[k - 1], itemHeight, pageSize, barrier, currentPage, false)
        {
        }
      }
    }
  }

  /** Mounting a new view on a bound store and laying it out for a non-negative height
      initialises the store: `pageSize` starts at -1, which no such rounding yields. */
  method MountAndLayout(store: Store, measuredHeight: int, height: int) returns (view: LazyDataView)
    requires measuredHeight > 0 && height >= 0
    modifies store
    ensures fresh(view) && view.store == store && view.itemHeight == measuredHeight
    ensures view.pageSize == Round(height, measuredHeight) && view.scrollListeners == 1
    ensures StoreInitialised(store, view.pageSize)
  {
    view := new LazyDataView(store, true);
    var outcome := view.OnRender(measuredHeight);
    RoundOfNonNegativeIsNotSentinel(height, measuredHeight);
    view.DoComponentLayout(0, height);
  }

  /** A run of scroll events, handled one after another with no load completing in
      between, issues exactly the requests of ScrollRun; by OneNextPagePerLoad that is at
      most one `nextPage()` on an idle store. */
  method ScrollEvents(view: LazyDataView, offsets: seq<Rat>)
    requires view.store != null && view.itemHeight > 0 && view.pageSize > 0
    modifies view.store`requests, view.store`loading
    ensures view.store.requests == old(view.store.requests)
            + ScrollRun(offsets, view.itemHeight, view.pageSize, view.loadBarrier,
                        view.store.currentPage, old(view.store.loading))
    decreases |offsets|
  {
    if offsets != [] {
      ghost var before := view.store.requests;
      view.OnScroll(offsets[0]);
      ghost var issued := view.store.requests[|before|..];
      ScrollEvents(view, offsets[1..]);
      assert view.store.requests == before + (issued + ScrollRun(offsets[1..], view.itemHeight,
        view.pageSize, view.loadBarrier, view.store.currentPage, old(view.store.loading) || issued != []));
    }
  }

  /** A layout that does not change the page size does nothing; a later layout with a
      different page size initialises the store a second time. */
  method Relayout(view: LazyDataView, height: int, rotatedHeight: int)
    requires view.store != null && view.itemHeight > 0
    requires Round(height, view.itemHeight) != Round(rotatedHeight, view.itemHeight)
    modifies view`pageSize, view`baseLayouts, view.store
    ensures view.store.requests == old(view.store.requests)
            + (if old(view.pageSize) == Round(height, view.itemHeight) then [Load] else [Load, Load])
  {
    view.DoComponentLayout(0, height);
    view.DoComponentLayout(0, height);
    view.DoComponentLayout(0, rotatedHeight);
  }
}
