# LazyDataView paging core, in Dafny

This project models the paging logic of the Sencha Touch plugin `Ext.ux.touch.LazyDataView`:
a list view that loads a remote store page by page as the user scrolls, and its selection
model, which can select a record by index before that record has been loaded.

- `page_math.dfy` (module `PageMath`) holds the arithmetic. It covers `Math.round(height / itemHeight)`,
  the scroll handler's rule (JavaScript's truncating `%`, the load barrier and the "last page"
  test) and the look-ahead page `floor(i/p) + (i % p ? 1 : 0) + 1`. JavaScript numbers in the
  scroll handler are exact rationals (`Rat`, an integer pair). Heights, indices and page sizes are integers.
- `paged_store.dfy` (module `PagedStore`) is the store as the view sees it. It has the fields
  `currentPage`, `pageSize`, `clearOnPageLoad`, `loading` and `count`. It also keeps a log of the
  requests issued (`Load`, `LoadPage(n)`, `NextPage`, `Read(page, start, limit, addRecords)`) and a
  list of pending one-shot `load` listeners. `FireLoad` is the "load completed" step: it returns
  those listeners and removes them.
- `lazy_data_view.dfy` (module `LazyView`) is the view class, with `initStore`, `calcPageSize`,
  `doComponentLayout`, `onRender` and `onScroll` as methods that change the view and the store.
- `lazy_selection.dfy` (module `LazySelection`) is the selection model's `doSelect`.

Three behaviours of the code are easy to misread, and the model keeps them as written:

- `calcPageSize` has no first-time guard. Every change of the page size re-initialises a bound
  store: another `load()` and another one-shot `loadPage(2)` (`CalcPageSize`, `Relayout`).
- The look-ahead read's `addRecords` is the negation of the selection model's own
  `clearOnPageLoad`, not the store's. The toolkit never sets that field, so `addRecords` is `true`
  whatever the store's setting is.
- On a page boundary (`i % p == 0`) the look-ahead page is the page that holds index `i`, not
  the page after it. The comment "load always one page ahead" holds only off a boundary.

## Model

| member | source | states |
|---|---|---|
| PageMath.Round | src/Ext.ux.touch.LazyDataView.js:86 | the page size is the integer nearest to height / itemHeight, halves rounded up, for a positive or a negative item height |
| PageMath.RoundUnique | src/Ext.ux.touch.LazyDataView.js:86 | any integer within half a unit of height / itemHeight in that sense is the rounded page size, so Round is exactly `Math.round` on the quotient |
| PageMath.RoundOfNonNegativeIsNotSentinel | src/Ext.ux.touch.LazyDataView.js:34-36 | a non-negative height over a positive item height never rounds to the initial -1, so the first layout always sees a changed page size |
| PageMath.TruncDiv | src/Ext.ux.touch.LazyDataView.js:126 | the quotient truncated towards zero: below or equal to the exact quotient for a non-negative dividend, above or equal for a negative one, by less than one |
| PageMath.JsRem | src/Ext.ux.touch.LazyDataView.js:126 | JavaScript's `%`: the dividend minus the remainder is a whole multiple of the modulus, the remainder has the sign of the dividend and is smaller than the modulus in magnitude, which together fix it |
| PageMath.DivBy | src/Ext.ux.touch.LazyDataView.js:124 | `x / k` for a positive integer k: the result multiplied by k is x again |
| PageMath.DivByKeepsOrder | src/Ext.ux.touch.LazyDataView.js:124-127 | dividing both sides of a comparison by the same positive integer keeps its outcome, in both directions |
| PageMath.ItemsScrolled | src/Ext.ux.touch.LazyDataView.js:124 | `offset.y / itemHeight`: that many items of `itemHeight` pixels make up the offset |
| PageMath.ScrollRuleInPixels | src/Ext.ux.touch.LazyDataView.js:123-129 | for a whole non-negative offset: the barrier passes iff `(offset mod (itemHeight*pageSize)) / (itemHeight*pageSize) >= loadBarrier`, and the last-page test passes iff `offset >= (currentPage-2)*itemHeight*pageSize` |
| PageMath.PastBarrier | src/Ext.ux.touch.LazyDataView.js:126-128 | the barrier test `(items % pageSize) / pageSize >= loadBarrier`; a negative offset (overscroll above the top) never passes a positive barrier |
| PageMath.BarrierRepeatsEveryPage | src/Ext.ux.touch.LazyDataView.js:126-128 | the barrier test gives the same answer one page of pixels further down |
| PageMath.NearEnd | src/Ext.ux.touch.LazyDataView.js:127 | the last-page test `items / pageSize >= currentPage - 2`; while the store's current page is at most 2 it passes for every non-negative offset |
| PageMath.ShouldLoadNext | src/Ext.ux.touch.LazyDataView.js:128-129 | the decision of `onScroll`: barrier, idle store and last-page test together; a loading store or an overscroll above the top never asks for a page |
| PageMath.ScrollExamplePasses | src/Ext.ux.touch.LazyDataView.js:123-131 | with 20 items a page, 50 px an item and barrier 1/2, at page 1 with an idle store, an offset of 750 px loads the next page |
| PageMath.ScrollExampleBelowBarrier | src/Ext.ux.touch.LazyDataView.js:124-128 | with the same sizes, an offset of 250 px (a quarter of a page) does not pass the barrier |
| PageMath.LookAheadPage | src/Ext.ux.touch.LazyDataViewSelectionModel.js:17 | the look-ahead page k satisfies `(k-2)*p < i <= (k-1)*p`, so k is `ceil(i/p) + 1` |
| PageMath.LookAheadReachesIndex | src/Ext.ux.touch.LazyDataViewSelectionModel.js:16-17 | pages 1..k cover index i (`k*p > i`), and k is never before the page that holds i |
| PageMath.LookAheadIsOnePageAheadOnlyOffBoundary | src/Ext.ux.touch.LazyDataViewSelectionModel.js:16-17 | k is the page after the one holding i iff `i mod p != 0`; it is that very page iff `i mod p == 0` |
| PageMath.LookAheadExamples | src/Ext.ux.touch.LazyDataViewSelectionModel.js:17 | with p = 10, index 25 gives page 4 and index 20 gives page 3 |
| PagedStore.Store.Send | src/Ext.ux.touch.LazyDataView.js:52 | a `load`, `loadPage`, `nextPage` or `read` call appends exactly that request to the log and leaves the store loading |
| PagedStore.Store.Once | src/Ext.ux.touch.LazyDataView.js:53-59 | `on('load', ..., {single: true})` adds one pending listener at the end |
| PagedStore.Store.FireLoad | src/Ext.ux.touch.LazyDataView.js:53-59 | a completed load fires every pending one-shot listener in order, removes them all, and leaves the store idle |
| LazyView.LazyDataView.constructor | src/Ext.ux.touch.LazyDataView.js:33-36 | a new view has `itemHeight = -1`, `pageSize = -1` and `loadBarrier = 1/2` |
| LazyView.LazyDataView.InitStore | src/Ext.ux.touch.LazyDataView.js:46-60 | the store keeps earlier pages, takes the view's page size, gets exactly one `load()` and exactly one one-shot listener for `loadPage(2)`; nothing else changes |
| LazyView.LazyDataView.CalcPageSize | src/Ext.ux.touch.LazyDataView.js:85-96 | the page size becomes Round(height, itemHeight); if it did not change, the store is untouched (a second identical call does nothing); every change re-initialises a bound store |
| LazyView.LazyDataView.DoComponentLayout | src/Ext.ux.touch.LazyDataView.js:137-140 | a layout is CalcPageSize followed by one base-class layout |
| LazyView.LazyDataView.OnRender | src/Ext.ux.touch.LazyDataView.js:101-112 | mounting succeeds iff the view has a store and a scroller. Without a store, measuring the item height (line 69) fails before anything changes. With a store the measured height is stored; without a scroller the mount then fails with no subscription, otherwise `onScroll` is subscribed once |
| LazyView.LazyDataView.OnScroll | src/Ext.ux.touch.LazyDataView.js:120-132 | exactly one `nextPage()` is issued iff barrier, idle store and last-page test all hold; nothing else on the view or the store changes |
| LazyView.LazyDataView.RunPreload | src/Ext.ux.touch.LazyDataView.js:53-56 | the one-shot listener of `initStore` issues `loadPage(2)` |
| LazyView.MountAndLayout | src/Ext.ux.touch.LazyDataView.js:33-36 | mounting a new view and laying it out at a non-negative height always initialises its store |
| LazyView.ScrollRun | src/Ext.ux.touch.LazyDataView.js:120-132 | a run of scroll events with no load completing issues only `nextPage()` requests, and none at all once the store is loading |
| LazyView.OneNextPagePerLoad | src/Ext.ux.touch.LazyDataView.js:128-130 | on an idle store, a run of scroll events issues exactly one `nextPage()` if some event satisfies the scroll rule and none otherwise, never two |
| LazyView.ScrollEvents | src/Ext.ux.touch.LazyDataView.js:120-132 | any run of OnScroll calls with no load completing issues exactly the requests of ScrollRun for those offsets, so OneNextPagePerLoad holds of the handler itself |
| LazyView.Relayout | src/Ext.ux.touch.LazyDataView.js:85-96 | repeating a layout adds nothing; a layout with a different page size (a rotation) loads the store again |
| LazySelection.LooksAhead | src/Ext.ux.touch.LazyDataViewSelectionModel.js:12-14 | the look-ahead branch is taken for a numeric index the held records do not reach; such an index is at least the record count, so never negative |
| LazySelection.LookAheadRead | src/Ext.ux.touch.LazyDataViewSelectionModel.js:22-27 | the read asks for page k from `oldPage*p` with `start + limit = k*p`; `addRecords` is the negation of the flag it is given; the limit is positive iff the store was before page k; the range holds index i whenever the pages before it do not |
| LazySelection.LookAheadReadExample | src/Ext.ux.touch.LazyDataViewSelectionModel.js:22-27 | p = 10, store at page 1, index 25: the read is page 4, start 10, limit 30, adding records |
| LazySelection.LazyDataViewSelectionModel.constructor | src/Ext.ux.touch.LazyDataViewSelectionModel.js:26 | a new selection model is unlocked and its own `clearOnPageLoad` is unset (false) |
| LazySelection.LazyDataViewSelectionModel.DoSelect | src/Ext.ux.touch.LazyDataViewSelectionModel.js:8-32 | locked: nothing at all. An index the held records do not reach: `currentPage` becomes the look-ahead page, one retry listener with the same arguments, one read as LookAheadRead using the model's own flag, no delegation, no other store field changed. Otherwise: the store is untouched and the base select gets the same arguments |
| LazySelection.LazyDataViewSelectionModel.Resume | src/Ext.ux.touch.LazyDataViewSelectionModel.js:20-21 | the retry listener runs the same select again, with DoSelect's outcomes: locked does nothing; look-ahead moves the page, reads, re-registers the same listener and leaves the store loading; otherwise the base select gets the same arguments |
| LazySelection.SelectBeyondLoaded | src/Ext.ux.touch.LazyDataViewSelectionModel.js:12-28 | selecting index 25 with 10 of 10-a-page records held: page 4, read(10, 30); after a load of 40 records the retried select reaches the base model |

## Left out

- `getItemHeight` (DOM rendering and `offsetHeight` measurement): the measured height is a parameter of `OnRender`.
- The superclass behaviour: `onRender`, `initComponent`, `doComponentLayout` and the base `doSelect`. The base layout is a counter. The base select is a log entry carrying its arguments.
- The store's own behaviour. The model leaves out how `loadPage`/`nextPage` advance `currentPage`, how records arrive, and the proxy and network. Requests are logged. A request makes the store loading. `FireLoad` takes the record count the load delivered.
- Event dispatch. The listeners returned by `FireLoad` are run by the caller, one at a time, through `RunPreload` or `Resume`. The listener does not record which view or selection model registered it.
- `console.log` in `calcPageSize`.
- JavaScript floating point: NaN and Infinity are excluded by requiring `itemHeight != 0` in `CalcPageSize`, and `itemHeight > 0` and `pageSize > 0` in `OnScroll`. The look-ahead branch of `DoSelect` requires the store's `pageSize > 0`. Heights are integer pixels. Scroll offsets and the load barrier are exact rationals.
- DoSelect: a numeric selector is an integer index. A fractional index is not modelled.
- `LazyDataView.store` is fixed at construction. Binding another store later is not modelled.
- Concurrency between a scroll-triggered `nextPage()` and the selection model's `read`, which has no `isLoading()` check: only sequential calls are modelled.
- Rendering, refresh, empty text and item-selector bookkeeping are not part of the shown code.
- `example/index.js` is application set-up with no paging logic.
