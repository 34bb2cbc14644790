/**
 * The viewport arithmetic of components/TradingChart.tsx: which slice of the
 * candles the chart shows for a zoom level (`visibleCount`) and a scroll
 * position (`rightOffset`, bars back from the newest), the padded price
 * range, and the wheel, drag and auto-follow handlers that move the view.
 */
module TradingChart {
  import opened Wrappers
  import opened PriceFeed

  /** The drawing area: 800 pixels wide with 40 pixels of padding on each side. */
  const CHART_WIDTH: int := 800
  const PADDING: int := 40
  /** The view shows at least this many bars. */
  const MIN_VISIBLE: int := 10
  /** The initial zoom and scroll position. */
  const INITIAL_VISIBLE: int := 40

  /** Math.round: the nearest integer, halves rounded up. */
  function Round(x: real): (r: int)
    ensures r as real - 0.5 <= x < r as real + 0.5
  {
    (x + 0.5).Floor
  }

  function MinInt(a: int, b: int): int { if a <= b then a else b }
  function MaxInt(a: int, b: int): int { if a >= b then a else b }

  /** max(0, min(hi, x)): the clamp every scroll handler applies. */
  function Clamp(x: int, hi: int): (r: int)
    requires hi >= 0
    ensures 0 <= r <= hi
    ensures 0 <= x <= hi ==> r == x
  {
    MaxInt(0, MinInt(hi, x))
  }

  // ---------------------------------------------------------------------
  // The visible window
  // ---------------------------------------------------------------------

  /** The slice [start, end) of `total` bars shown at zoom `visibleCount` and scroll `rightOffset`. */
  function Window(total: nat, visibleCount: int, rightOffset: int): (int, int)
  {
    var count := MinInt(visibleCount, total);
    var end := MaxInt(count, total - rightOffset);
    var start := MaxInt(0, end - count);
    (start, end)
  }

  /**
   * The window lies inside the candles and holds min(visibleCount, total)
   * bars; it ends at the newest bar when the view is not scrolled, and
   * otherwise `rightOffset` bars earlier unless that would run past the oldest.
   */
  lemma WindowBounds(total: nat, visibleCount: int, rightOffset: int)
    requires visibleCount >= 0 && rightOffset >= 0
    ensures var (start, end) := Window(total, visibleCount, rightOffset);
      0 <= start <= end <= total && end - start == MinInt(visibleCount, total) &&
      (rightOffset == 0 ==> end == total) &&
      (total - rightOffset >= MinInt(visibleCount, total) ==> end == total - rightOffset)
  {
  }

  /** The candles the chart draws: none when there are none, otherwise the window's slice. */
  function Displayed(candles: seq<Candle>, visibleCount: int, rightOffset: int): (r: seq<Candle>)
    requires visibleCount >= 0 && rightOffset >= 0
    ensures |candles| == 0 ==> r == []
    ensures |r| == MinInt(visibleCount, |candles|)
    ensures var (start, end) := Window(|candles|, visibleCount, rightOffset);
      forall i :: 0 <= i < |r| ==> r[i] == candles[start + i]
  {
    if |candles| == 0 then []
    else
      var (start, end) := Window(|candles|, visibleCount, rightOffset);
      candles[start..end]
  }

  // ---------------------------------------------------------------------
  // The price range
  // ---------------------------------------------------------------------

  /** The high and the low of every bar, in order. */
  function HighsAndLows(cs: seq<Candle>): (r: seq<real>)
    ensures |r| == 2 * |cs|
    ensures forall i :: 0 <= i < |cs| ==> r[2 * i] == cs[i].high && r[2 * i + 1] == cs[i].low
  {
    if |cs| == 0 then [] else [cs[0].high, cs[0].low] + HighsAndLows(cs[1..])
  }

  /** The prices the range must cover: the displayed highs and lows and the entry of an open position. */
  function RangePrices(shown: seq<Candle>, entry: Option<real>): (r: seq<real>)
    ensures |r| == 2 * |shown| + (if entry.Some? then 1 else 0)
    ensures forall i :: 0 <= i < |shown| ==> r[2 * i] == shown[i].high && r[2 * i + 1] == shown[i].low
    ensures entry.Some? ==> r[|r| - 1] == entry.value
  {
    HighsAndLows(shown) + (if entry.Some? then [entry.value] else [])
  }

  /** Math.min over a non-empty list. */
  function SeqMin(s: seq<real>): (r: real)
    requires |s| > 0
    ensures r in s && forall i :: 0 <= i < |s| ==> r <= s[i]
  {
    if |s| == 1 then s[0]
    else
      var m := SeqMin(s[1..]);
      assert forall i :: 1 <= i < |s| ==> s[i] == s[1..][i - 1];
      if s[0] <= m then s[0] else m
  }

  /** Math.max over a non-empty list. */
  function SeqMax(s: seq<real>): (r: real)
    requires |s| > 0
    ensures r in s && forall i :: 0 <= i < |s| ==> s[i] <= r
  {
    if |s| == 1 then s[0]
    else
      var m := SeqMax(s[1..]);
      assert forall i :: 1 <= i < |s| ==> s[i] == s[1..][i - 1];
      if s[0] >= m then s[0] else m
  }

  /** The vertical range: 0.05% below the lowest and above the highest price to cover. */
  function PriceRange(prices: seq<real>): (real, real)
    requires |prices| > 0
  {
    (SeqMin(prices) * 0.9995, SeqMax(prices) * 1.0005)
  }

  /**
   * With positive prices the padded range covers every price strictly, and
   * its bounds are within 0.05% of the extreme prices.
   */
  lemma PriceRangeCovers(prices: seq<real>)
    requires |prices| > 0 && forall i :: 0 <= i < |prices| ==> prices[i] > 0.0
    ensures var (lo, hi) := PriceRange(prices);
      (forall i :: 0 <= i < |prices| ==> lo < prices[i] < hi) &&
      lo == SeqMin(prices) * 0.9995 && hi == SeqMax(prices) * 1.0005 &&
      SeqMin(prices) in prices && SeqMax(prices) in prices
  {
  }

  /** Bars with positive lows, each well shaped, have positive highs and lows. */
  lemma HighsAndLowsPositive(cs: seq<Candle>)
    requires forall i :: 0 <= i < |cs| ==> 0.0 < cs[i].low <= cs[i].high
    ensures forall j :: 0 <= j < |HighsAndLows(cs)| ==> HighsAndLows(cs)[j] > 0.0
  {
    var hl := HighsAndLows(cs);
    forall j | 0 <= j < |hl| ensures hl[j] > 0.0 {
      var i := j / 2;
      if j % 2 == 0 {
        assert hl[2 * i] == cs[i].high;
      } else {
        assert hl[2 * i + 1] == cs[i].low;
      }
    }
  }

  /** The prices to cover are positive when the bars' lows and the entry are. */
  lemma RangePricesPositive(shown: seq<Candle>, entry: Option<real>)
    requires forall i :: 0 <= i < |shown| ==> 0.0 < shown[i].low <= shown[i].high
    requires entry.Some? ==> entry.value > 0.0
    ensures forall j :: 0 <= j < |RangePrices(shown, entry)| ==> RangePrices(shown, entry)[j] > 0.0
  {
    HighsAndLowsPositive(shown);
    var hl := HighsAndLows(shown);
    var prices := RangePrices(shown, entry);
    forall j | 0 <= j < |prices| ensures prices[j] > 0.0 {
      if j < |hl| {
        assert prices[j] == hl[j];
      }
    }
  }

  /** The range covers the highs and lows of the bars and the entry, when those are positive. */
  lemma RangeCoversBars(shown: seq<Candle>, entry: Option<real>)
    requires |shown| > 0
    requires forall i :: 0 <= i < |shown| ==> 0.0 < shown[i].low <= shown[i].high
    requires entry.Some? ==> entry.value > 0.0
    ensures var (lo, hi) := PriceRange(RangePrices(shown, entry));
      (forall i :: 0 <= i < |shown| ==> lo < shown[i].low && shown[i].high < hi) &&
      (entry.Some? ==> lo < entry.value < hi)
  {
    var prices := RangePrices(shown, entry);
    RangePricesPositive(shown, entry);
    PriceRangeCovers(prices);
    var hl := HighsAndLows(shown);
    forall i | 0 <= i < |shown| ensures prices[2 * i] == shown[i].high && prices[2 * i + 1] == shown[i].low {
      assert prices[2 * i] == hl[2 * i] && prices[2 * i + 1] == hl[2 * i + 1];
    }
    if entry.Some? {
      assert prices[|prices| - 1] == entry.value;
    }
  }

  /**
   * For a series, the range of a non-empty view
   * covers every displayed high and low and the entry price of an open position.
   */
  lemma ViewRangeCovers(candles: seq<Candle>, visibleCount: int, rightOffset: int, entry: Option<real>)
    requires Series(candles) && |candles| > 0 && visibleCount >= 1 && rightOffset >= 0
    requires entry.Some? ==> entry.value > 0.0
    ensures var shown := Displayed(candles, visibleCount, rightOffset);
      |RangePrices(shown, entry)| > 0 &&
      var (lo, hi) := PriceRange(RangePrices(shown, entry));
      (forall i :: 0 <= i < |shown| ==> lo < shown[i].low && shown[i].high < hi) &&
      (entry.Some? ==> lo < entry.value < hi)
  {
    var shown := Displayed(candles, visibleCount, rightOffset);
    var (start, end) := Window(|candles|, visibleCount, rightOffset);
    forall i | 0 <= i < |shown| ensures 0.0 < shown[i].low <= shown[i].high {
      var c := candles[start + i];
      assert shown[i] == c;
      assert c.low > 0.0 && WellShaped(c);
    }
    RangeCoversBars(shown, entry);
  }

  // ---------------------------------------------------------------------
  // Zoom, pan, drag and follow
  // ---------------------------------------------------------------------

  /** maxOffset: how far back the view can scroll. */
  function MaxOffset(total: nat, visibleCount: int): (r: int)
    ensures r >= 0 && r >= total - visibleCount
  {
    MaxInt(0, total - visibleCount)
  }

  /** The wheel's zoom: 5% more bars when scrolling down, 5% fewer when up, kept between 10 and the candle count. */
  function ZoomedCount(total: nat, visibleCount: int, deltaY: real): (r: int)
  {
    var zoomFactor := if deltaY > 0.0 then 1.0 + 0.05 else 1.0 - 0.05;
    MaxInt(MIN_VISIBLE, MinInt(total, Round(visibleCount as real * zoomFactor)))
  }

  /**
   * Zooming never shows fewer than 10 bars nor more than there are (once
   * there are at least 10); within those bounds it scales by 1.05 or 0.95, rounded.
   */
  lemma ZoomedCountBounds(total: nat, visibleCount: int, deltaY: real)
    ensures var r := ZoomedCount(total, visibleCount, deltaY);
      r >= MIN_VISIBLE && (total >= MIN_VISIBLE ==> r <= total) &&
      var scaled := Round(visibleCount as real * (if deltaY > 0.0 then 1.05 else 0.95));
      (MIN_VISIBLE <= scaled <= total ==> r == scaled)
  {
  }

  /** The wheel's pan: a fifth of the horizontal delta, rounded, clamped into [0, maxOffset]. */
  function PanOffset(total: nat, visibleCount: int, rightOffset: int, deltaX: real): (r: int)
    ensures 0 <= r <= MaxOffset(total, visibleCount)
  {
    Clamp(rightOffset + Round(deltaX * 0.2), MaxOffset(total, visibleCount))
  }

  /** The bars a drag of `deltaX` pixels moves: the delta over the pixels per bar, rounded. */
  function DragMove(visibleCount: int, deltaX: real): int
    requires visibleCount > 0
  {
    var pixelsPerCandle := (CHART_WIDTH - 2 * PADDING) as real / visibleCount as real;
    Round(deltaX / pixelsPerCandle)
  }

  /** A drag sets the offset to the offset at pointer-down plus the bars moved, clamped into [0, maxOffset]. */
  function DragOffset(total: nat, visibleCount: int, startOffset: int, deltaX: real): (r: int)
    requires visibleCount > 0
    ensures 0 <= r <= MaxOffset(total, visibleCount)
  {
    Clamp(startOffset + DragMove(visibleCount, deltaX), MaxOffset(total, visibleCount))
  }

  /** Auto-follow: a pinned view stays pinned, a scrolled one moves back by the number of new bars. */
  function FollowOffset(prevTotal: nat, total: nat, rightOffset: int): (r: int)
    ensures total <= prevTotal || rightOffset == 0 ==> r == rightOffset
    ensures total > prevTotal && rightOffset != 0 ==> r == rightOffset + (total - prevTotal)
  {
    if total > prevTotal && rightOffset != 0 then rightOffset + (total - prevTotal) else rightOffset
  }

  /**
   * When bars are appended, following keeps the view where it was: a pinned
   * view shows the newest bars, and a scrolled view whose zoom fits the
   * older candles shows exactly the bars it showed before.
   */
  lemma FollowKeepsView(candles: seq<Candle>, added: seq<Candle>, visibleCount: int, rightOffset: int)
    requires visibleCount >= 0 && rightOffset >= 0 && |added| > 0
    ensures var total := |candles| + |added|;
      var offset := FollowOffset(|candles|, total, rightOffset);
      var shown := Displayed(candles + added, visibleCount, offset);
      (rightOffset == 0 ==> Window(total, visibleCount, offset).1 == total) &&
      (rightOffset > 0 && visibleCount <= |candles| ==> shown == Displayed(candles, visibleCount, rightOffset))
  {
    var all := candles + added;
    var total := |all|;
    var offset := FollowOffset(|candles|, total, rightOffset);
    if rightOffset > 0 && visibleCount <= |candles| {
      var (s0, e0) := Window(|candles|, visibleCount, rightOffset);
      var (s1, e1) := Window(total, visibleCount, offset);
      assert s0 == s1 && e0 == e1;
      assert all[s1..e1] == candles[s0..e0];
    }
  }

  // ---------------------------------------------------------------------
  // The chart's view state
  // ---------------------------------------------------------------------

  /** The pointer-down record: where the drag started and the offset at that moment. */
  datatype DragStart = DragStart(x: real, offset: int)

  class ChartView {
    var visibleCount: int
    var rightOffset: int
    var isDragging: bool
    var dragStart: Option<DragStart>
    /** The candle count the follow effect saw last. */
    var prevCandlesLength: nat

    /** At least 10 bars shown, never scrolled past the newest, and a recorded drag start is a valid offset. */
    predicate Valid()
      reads this
    {
      visibleCount >= MIN_VISIBLE && rightOffset >= 0 &&
      (dragStart.Some? ==> dragStart.value.offset >= 0)
    }

    /** The view at mount: 40 bars, pinned to the newest, not dragging. */
    constructor (initialLength: nat)
      ensures visibleCount == INITIAL_VISIBLE && rightOffset == 0
      ensures !isDragging && dragStart == None && prevCandlesLength == initialLength
      ensures Valid()
    {
      visibleCount := INITIAL_VISIBLE;
      rightOffset := 0;
      isDragging := false;
      dragStart := None;
      prevCandlesLength := initialLength;
    }

    /** handleWheel: a mostly vertical wheel zooms, otherwise it pans. */
    method Wheel(total: nat, deltaX: real, deltaY: real)
      modifies this
      requires Valid()
      ensures var vertical := (if deltaY >= 0.0 then deltaY else -deltaY) > (if deltaX >= 0.0 then deltaX else -deltaX);
        (vertical ==> visibleCount == ZoomedCount(total, old(visibleCount), deltaY) && rightOffset == old(rightOffset)) &&
        (!vertical ==> visibleCount == old(visibleCount) &&
                       rightOffset == PanOffset(total, old(visibleCount), old(rightOffset), deltaX))
      ensures isDragging == old(isDragging) && dragStart == old(dragStart) && prevCandlesLength == old(prevCandlesLength)
      ensures Valid()
    {
      var absY := if deltaY >= 0.0 then deltaY else -deltaY;
      var absX := if deltaX >= 0.0 then deltaX else -deltaX;
      if absY > absX {
        ZoomedCountBounds(total, visibleCount, deltaY);
        visibleCount := ZoomedCount(total, visibleCount, deltaY);
      } else {
        rightOffset := PanOffset(total, visibleCount, rightOffset, deltaX);
      }
    }

    /** handlePointerDown: start dragging from `x`, remembering the current offset. */
    method PointerDown(x: real)
      modifies this
      requires Valid()
      ensures isDragging && dragStart == Some(DragStart(x, old(rightOffset)))
      ensures visibleCount == old(visibleCount) && rightOffset == old(rightOffset)
      ensures prevCandlesLength == old(prevCandlesLength)
      ensures Valid()
    {
      isDragging := true;
      dragStart := Some(DragStart(x, rightOffset));
    }

    /** handlePointerMove: while dragging, scroll by the bars the pointer has moved since pointer-down. */
    method PointerMove(total: nat, x: real)
      modifies this
      requires Valid()
      ensures !(old(isDragging) && old(dragStart).Some?) ==> rightOffset == old(rightOffset)
      ensures old(isDragging) && old(dragStart).Some? ==>
        rightOffset == DragOffset(total, old(visibleCount), old(dragStart).value.offset, x - old(dragStart).value.x)
      ensures visibleCount == old(visibleCount) && isDragging == old(isDragging) && dragStart == old(dragStart)
      ensures prevCandlesLength == old(prevCandlesLength)
      ensures Valid()
    {
      if !isDragging || dragStart.None? {
        return;
      }
      var start := dragStart.value;
      rightOffset := DragOffset(total, visibleCount, start.offset, x - start.x);
    }

    /** handlePointerUp: stop dragging. */
    method PointerUp()
      modifies this
      requires Valid()
      ensures !isDragging && dragStart == None
      ensures visibleCount == old(visibleCount) && rightOffset == old(rightOffset)
      ensures prevCandlesLength == old(prevCandlesLength)
      ensures Valid()
    {
      isDragging := false;
      dragStart := None;
    }

    /** The auto-follow effect when the candle count becomes `total`. */
    method Follow(total: nat)
      modifies this
      requires Valid()
      ensures rightOffset == FollowOffset(old(prevCandlesLength), total, old(rightOffset))
      ensures prevCandlesLength == total
      ensures visibleCount == old(visibleCount) && isDragging == old(isDragging) && dragStart == old(dragStart)
      ensures Valid()
    {
      if total > prevCandlesLength {
        if rightOffset != 0 {
          rightOffset := rightOffset + (total - prevCandlesLength);
        }
      }
      prevCandlesLength := total;
    }
  }
}
