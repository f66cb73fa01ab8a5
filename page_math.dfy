/** The arithmetic of the lazy list: page size from a measured item height,
    the scroll-triggered prefetch rule and the look-ahead page of a select by index.
    JavaScript numbers are modelled as integers or as exact rationals. */
module PageMath {

  /** `Math.round(n / d)` on the exact quotient: the nearest integer, halves rounded up
      (towards positive infinity, as JavaScript does). */
  function Round(n: int, d: int): (r: int)
    requires d != 0
    ensures d > 0 ==> d * (2 * r - 1) <= 2 * n < d * (2 * r + 1)
    ensures d < 0 ==> d * (2 * r - 1) >= 2 * n > d * (2 * r + 1)
  {
    if d > 0 then
      var q := (2 * n + d) / (2 * d);
      assert 2 * d * q <= 2 * n + d < 2 * d * q + 2 * d;
      q
    else
      var q := (-2 * n - d) / (-2 * d);
      assert -2 * d * q <= -2 * n - d < -2 * d * q - 2 * d;
      q
  }

  /** The contract of Round pins the result down: no other integer is within half a unit
      of n / d in the same way. */
  lemma RoundUnique(n: int, d: int, r: int)
    requires d > 0 && d * (2 * r - 1) <= 2 * n < d * (2 * r + 1)
    ensures r == Round(n, d)
  {
    var q := Round(n, d);
    if r < q {
      MulMono(d, 2 * r + 1, 2 * q - 1);
    } else if r > q {
      MulMono(d, 2 * q + 1, 2 * r - 1);
    }
  }

  /** Rounding a non-negative height by a positive item height never yields the
      "not measured yet" sentinel -1: the first layout always sees a new page size. */
  lemma RoundOfNonNegativeIsNotSentinel(n: int, d: int)
    requires n >= 0 && d > 0
    ensures Round(n, d) >= 0
  {
  }

  lemma MulMono(d: int, a: int, b: int)
    requires d > 0
    ensures a <= b ==> d * a <= d * b
    ensures a < b ==> d * a < d * b
  {
  }

  lemma DivModUnique(a: int, m: int, q: int, r: int)
    requires m > 0 && a == m * q + r && 0 <= r < m
    ensures a % m == r && a / m == q
  {
    var q', r' := a / m, a % m;
    assert a == m * q' + r';
    MulMono(m, q' + 1, q);
    MulMono(m, q + 1, q');
  }

  type Positive = k: int | k > 0 witness 1

  /** An exact rational number, standing for a JavaScript number in the scroll handler. */
  datatype Rat = Rat(num: int, den: Positive)

  function FromInt(k: int): Rat { Rat(k, 1) }

  /** `x <= y` on rationals. */
  predicate AtMost(x: Rat, y: Rat)
  {
    x.num * y.den <= y.num * x.den
  }

  /** `x / k` for a positive integer `k`: multiplying the result by `k` gives `x` back. */
  function DivBy(x: Rat, k: Positive): (r: Rat)
    ensures r.num * k * x.den == x.num * r.den
  {
    Rat(x.num, x.den * k)
  }

  /** Dividing both sides by the same positive integer keeps their order, in both
      directions: the scroll handler's tests may compare items or pages alike. */
  lemma DivByKeepsOrder(x: Rat, y: Rat, k: Positive)
    ensures AtMost(x, y) <==> AtMost(DivBy(x, k), DivBy(y, k))
  {
    assert x.num * (y.den * k) == k * (x.num * y.den);
    assert y.num * (x.den * k) == k * (y.num * x.den);
    MulMono(k, x.num * y.den, y.num * x.den);
    MulMono(k, y.num * x.den, x.num * y.den);
  }

  /** The quotient `a / b` truncated towards zero, as JavaScript's `%` uses it. */
  function TruncDiv(a: int, b: Positive): (t: int)
    ensures a >= 0 ==> b * t <= a < b * t + b
    ensures a < 0 ==> b * t - b < a <= b * t
  {
    if a >= 0 then a / b else -((-a) / b)
  }

  /** JavaScript's `x % m` for a positive integer modulus: `x - m * trunc(x / m)`.
      It keeps the sign of the dividend and stays below the modulus in magnitude. */
  function JsRem(x: Rat, m: Positive): (r: Rat)
    ensures r.den == x.den
    ensures x.num >= 0 ==> 0 <= r.num < m * x.den
    ensures x.num < 0 ==> -(m * x.den) < r.num <= 0
    ensures (x.num - r.num) % (m * x.den) == 0
  {
    var md: Positive := x.den * m;
    var t := TruncDiv(x.num, md);
    assert md == m * x.den;
    DivModUnique(md * t, md, t, 0);
    Rat(x.num - md * t, x.den)
  }

  /** Items scrolled past the top: `offset.y / itemHeight`, so that that many items of
      `itemHeight` pixels make up the offset. */
  function ItemsScrolled(offsetY: Rat, itemHeight: Positive): (items: Rat)
    ensures items.num * itemHeight * offsetY.den == offsetY.num * items.den
  {
    DivBy(offsetY, itemHeight)
  }

  /** The load barrier test of the scroll handler:
      `(itemsScrolled % pageSize) / pageSize >= loadBarrier`. Overscrolling above the top
      (a negative offset) never passes a positive barrier, because JavaScript's `%` keeps
      the sign of the negative item count. */
  predicate PastBarrier(offsetY: Rat, itemHeight: Positive, pageSize: Positive, barrier: Rat): (b: bool)
    ensures offsetY.num < 0 && barrier.num > 0 ==> !b
  {
    var f := DivBy(JsRem(ItemsScrolled(offsetY, itemHeight), pageSize), pageSize);
    MulMono(barrier.den, f.num, 0);
    MulMono(f.den, 0, barrier.num);
    AtMost(barrier, f)
  }

  /** The "last page" test of the scroll handler:
      `itemsScrolled / pageSize >= currentPage - 2`. While the store's current page is
      at most 2 it passes for every non-negative offset. */
  predicate NearEnd(offsetY: Rat, itemHeight: Positive, pageSize: Positive, currentPage: int): (b: bool)
    ensures currentPage <= 2 && offsetY.num >= 0 ==> b
  {
    var pages := DivBy(ItemsScrolled(offsetY, itemHeight), pageSize);
    MulMono(pages.den, currentPage - 2, 0);
    AtMost(FromInt(currentPage - 2), pages)
  }

  /** The full decision of the scroll handler: request the next page iff the barrier is
      passed, the store is idle and the offset is near the end. A loading store or an
      overscroll above the top never asks for a page. */
  predicate ShouldLoadNext(offsetY: Rat, itemHeight: Positive, pageSize: Positive, barrier: Rat,
                           currentPage: int, loading: bool): (b: bool)
    ensures loading ==> !b
    ensures offsetY.num < 0 && barrier.num > 0 ==> !b
  {
    PastBarrier(offsetY, itemHeight, pageSize, barrier) && !loading
    && NearEnd(offsetY, itemHeight, pageSize, currentPage)
  }

  /** For a whole, non-negative pixel offset the scroll rule is plain integer arithmetic:
      the barrier compares the offset modulo one page of pixels with the barrier's share
      of a page, and the end test compares the offset with `currentPage - 2` pages. */
  lemma {:induction false} ScrollRuleInPixels(offsetY: int, itemHeight: Positive, pageSize: Positive,
                                              barrier: Rat, currentPage: int)
    requires offsetY >= 0
    ensures PastBarrier(FromInt(offsetY), itemHeight, pageSize, barrier)
            <==> barrier.num * (itemHeight * pageSize) <= (offsetY % (itemHeight * pageSize)) * barrier.den
    ensures NearEnd(FromInt(offsetY), itemHeight, pageSize, currentPage)
            <==> (currentPage - 2) * (itemHeight * pageSize) <= offsetY
  {
    var hp: Positive := itemHeight * pageSize;
    var items := ItemsScrolled(FromInt(offsetY), itemHeight);
    assert items == Rat(offsetY, itemHeight);
    var c := JsRem(items, pageSize);
    assert itemHeight * pageSize == hp;
    assert TruncDiv(offsetY, hp) == offsetY / hp;
    assert c.num == offsetY % hp by {
      DivModUnique(offsetY, hp, offsetY / hp, offsetY % hp);
    }
    assert DivBy(c, pageSize) == Rat(offsetY % hp, hp);
    assert DivBy(items, pageSize) == Rat(offsetY, hp);
  }

  /** The barrier test repeats with a period of one page of pixels. */
  lemma BarrierRepeatsEveryPage(offsetY: int, itemHeight: Positive, pageSize: Positive, barrier: Rat)
    requires offsetY >= 0
    ensures PastBarrier(FromInt(offsetY + itemHeight * pageSize), itemHeight, pageSize, barrier)
            == PastBarrier(FromInt(offsetY), itemHeight, pageSize, barrier)
  {
    var hp := itemHeight * pageSize;
    ScrollRuleInPixels(offsetY, itemHeight, pageSize, barrier, 0);
    ScrollRuleInPixels(offsetY + hp, itemHeight, pageSize, barrier, 0);
    DivModUnique(offsetY + hp, hp, offsetY / hp + 1, offsetY % hp);
  }

  /** The worked example: 20 items a page, 50 pixels an item, barrier 1/2, current page 1.
      At 750 pixels (15 items, 3/4 of a page) an idle store loads the next page. */
  lemma ScrollExamplePasses()
    ensures ShouldLoadNext(FromInt(750), 50, 20, Rat(1, 2), 1, false)
  {
    ScrollRuleInPixels(750, 50, 20, Rat(1, 2), 1);
  }

  /** At 250 pixels (5 items, 1/4 of a page) the barrier is not passed. */
  lemma ScrollExampleBelowBarrier()
    ensures !PastBarrier(FromInt(250), 50, 20, Rat(1, 2))
  {
    ScrollRuleInPixels(250, 50, 20, Rat(1, 2), 1);
  }

  /** The 1-based page that holds the 0-based record index `i`. */
  function PageOf(i: int, p: int): (k: int)
    requires i >= 0 && p > 0
    ensures (k - 1) * p <= i < k * p
  {
    i / p + 1
  }

  /** The page a select by index beyond the loaded records moves to:
      `floor(i / p) + (i % p != 0 ? 1 : 0) + 1`, which is `ceil(i / p) + 1`. */
  function LookAheadPage(i: int, p: int): (k: int)
    requires i >= 0 && p > 0
    ensures (k - 2) * p < i <= (k - 1) * p
  {
    i / p + (if i % p != 0 then 1 else 0) + 1
  }

  /** Pages 1..LookAheadPage(i, p) always reach past index `i`. */
  lemma LookAheadReachesIndex(i: int, p: int)
    requires i >= 0 && p > 0
    ensures LookAheadPage(i, p) * p > i
    ensures LookAheadPage(i, p) >= PageOf(i, p)
  {
    var k := LookAheadPage(i, p);
    assert k * p == (k - 1) * p + p;
  }

  /** "One page ahead" holds only when `i` is not a multiple of the page size; on a page
      boundary the look-ahead page is the very page that holds `i`. */
  lemma LookAheadIsOnePageAheadOnlyOffBoundary(i: int, p: int)
    requires i >= 0 && p > 0
    ensures LookAheadPage(i, p) == PageOf(i, p) + 1 <==> i % p != 0
    ensures LookAheadPage(i, p) == PageOf(i, p) <==> i % p == 0
  {
  }

  /** With 10 records a page, index 25 looks ahead to page 4 and index 20 only to page 3. */
  lemma LookAheadExamples()
    ensures LookAheadPage(25, 10) == 4 && PageOf(25, 10) == 3
    ensures LookAheadPage(20, 10) == 3 && PageOf(20, 10) == 3
  {
  }
}
