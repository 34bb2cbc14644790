/**
 * The synthetic price feed of services/mockData.ts: a random-walk series of
 * one-minute OHLC candles. Every `Math.random()` draw is a parameter in [0, 1),
 * and the wall clock `now` (whole unix seconds) is a parameter too.
 */
module PriceFeed {

  /** One OHLC bar; `time` is in unix seconds. */
  datatype Candle = Candle(time: int, open: real, high: real, low: real, close: real, volume: real)

  /** The four random draws one candle consumes, in the order the source makes them. */
  datatype Draws = Draws(change: real, high: real, low: real, volume: real)

  /** One bar per minute. */
  const CANDLE_SECONDS: int := 60
  /** The default `startPrice` of generateHistoricalData. */
  const DEFAULT_START_PRICE: real := 50000.0

  function Max(a: real, b: real): real { if a >= b then a else b }
  function Min(a: real, b: real): real { if a <= b then a else b }

  predicate InUnit(x: real) { 0.0 <= x < 1.0 }

  /**
   * `amount * u`, the product the generators form with each draw `u`; kept as
   * one term so that the bounds below apply to it wherever it occurs.
   */
  function Scale(amount: real, u: real): real { amount * u }

  /** A draw in [0, 1) scales a positive amount into [0, amount). */
  lemma ScaledDraw(amount: real, u: real)
    requires amount > 0.0 && InUnit(u)
    ensures 0.0 <= Scale(amount, u) < amount
  {
    assert amount * u < amount * 1.0;
  }

  /** A history change draw moves the close by less than 0.1% of the price either way. */
  lemma HistoryChange(price: real, u: real)
    requires price > 0.0 && InUnit(u)
    ensures -(price * 0.001) <= Scale(price * 0.002, u - 0.5) < price * 0.001
  {
    var k := price * 0.002;
    ScaledDraw(k, u);
    assert k * (u - 0.5) == k * u - k * 0.5;
  }

  /** A tick change draw moves the close by -0.48 to 0.52 times 0.15% of the open. */
  lemma TickChange(open: real, u: real)
    requires open > 0.0 && InUnit(u)
    ensures -(open * 0.0015 * 0.48) <= Scale(open * 0.0015, u - 0.48) < open * 0.0015 * 0.52
  {
    var k := open * 0.0015;
    ScaledDraw(k, u);
    assert k * (u - 0.48) == k * u - k * 0.48;
  }

  /** The volume draw scales into [0, 100). */
  lemma VolumeBound(u: real)
    requires InUnit(u)
    ensures 0.0 <= u * 100.0 < 100.0
  {
  }

  predicate ValidDraws(d: Draws) {
    InUnit(d.change) && InUnit(d.high) && InUnit(d.low) && InUnit(d.volume)
  }

  /** The OHLC invariant of a candle: the wicks enclose the body. */
  predicate WellShaped(c: Candle) {
    c.low <= Min(c.open, c.close) && Max(c.open, c.close) <= c.high
  }

  /**
   * A series the terminal can trade on: positive prices, well-shaped bars,
   * each bar opening at the previous close, one minute apart.
   */
  predicate Series(cs: seq<Candle>) {
    (forall i :: 0 <= i < |cs| ==> cs[i].close > 0.0 && cs[i].open > 0.0 && cs[i].low > 0.0 && WellShaped(cs[i])) &&
    (forall i :: 0 < i < |cs| ==> cs[i].open == cs[i - 1].close && cs[i].time == cs[i - 1].time + CANDLE_SECONDS)
  }

  /**
   * The bar both generators build: it opens at `open`, closes `change` away,
   * and its wicks stick out `up` above and `down` below the body.
   */
  function Bar(time: int, open: real, change: real, up: real, down: real, volume: real): (c: Candle)
    ensures c.open == open && c.close - c.open == change && c.time == time && c.volume == volume
    ensures c.high - Max(c.open, c.close) == up && Min(c.open, c.close) - c.low == down
  {
    var close := open + change;
    Candle(time, open, Max(open, close) + up, Min(open, close) - down, close, volume)
  }

  /** One bar of the historical backfill, opened at `price` (the body of the loop in generateHistoricalData). */
  function HistoryCandle(price: real, d: Draws, time: int): (c: Candle)
    ensures c.open == price && c.time == time
  {
    Bar(time, price, Scale(price * 0.002, d.change - 0.5),
        Scale(price * 0.001, d.high), Scale(price * 0.001, d.low), d.volume * 100.0)
  }

  /**
   * With a positive price and draws in [0, 1), a history bar is well shaped,
   * its close stays within 0.1% of its open, each wick is under 0.1% of the
   * price, and so its low stays positive.
   */
  lemma HistoryCandleBounds(price: real, d: Draws, time: int)
    requires price > 0.0 && ValidDraws(d)
    ensures var c := HistoryCandle(price, d, time);
      WellShaped(c) && c.close > 0.0 && c.low > 0.0 &&
      c.high - Max(c.open, c.close) < price * 0.001 &&
      Min(c.open, c.close) - c.low < price * 0.001 &&
      -(price * 0.001) <= c.close - c.open < price * 0.001 &&
      0.0 <= c.volume < 100.0
  {
    HistoryChange(price, d.change);
    ScaledDraw(price * 0.001, d.high);
    ScaledDraw(price * 0.001, d.low);
    VolumeBound(d.volume);
  }

  /** Appending the next history bar at the last close, one minute later, keeps a series a series. */
  lemma HistoryStepKeepsSeries(cs: seq<Candle>, price: real, d: Draws, time: int)
    requires Series(cs) && price > 0.0 && ValidDraws(d)
    requires |cs| > 0 ==> price == cs[|cs| - 1].close && time == cs[|cs| - 1].time + CANDLE_SECONDS
    ensures Series(cs + [HistoryCandle(price, d, time)])
  {
    var c := HistoryCandle(price, d, time);
    HistoryCandleBounds(price, d, time);
    var r := cs + [c];
    forall i | 0 <= i < |r| ensures r[i].close > 0.0 && r[i].open > 0.0 && r[i].low > 0.0 && WellShaped(r[i]) {
      if i < |cs| { assert r[i] == cs[i]; }
    }
    forall i | 0 < i < |r| ensures r[i].open == r[i - 1].close && r[i].time == r[i - 1].time + CANDLE_SECONDS {
      if i < |cs| { assert r[i] == cs[i] && r[i - 1] == cs[i - 1]; }
    }
  }

  /**
   * The first `n` bars generateHistoricalData(count, startPrice) builds when
   * the clock reads `now`: bar i opens at the previous close (the first at
   * `startPrice`) and is stamped `now - (count - i) * 60`.
   */
  function History(n: nat, count: int, startPrice: real, now: int, draws: seq<Draws>): (r: seq<Candle>)
    requires n <= |draws|
    ensures |r| == n
  {
    if n == 0 then []
    else
      var prev := History(n - 1, count, startPrice, now, draws);
      var price := if n == 1 then startPrice else prev[n - 2].close;
      prev + [HistoryCandle(price, draws[n - 1], now - (count - (n - 1)) * CANDLE_SECONDS)]
  }

  /** Every bar of the backfill: the first opens at `startPrice`, each later one at the previous close. */
  lemma {:induction false} HistoryBars(n: nat, count: int, startPrice: real, now: int, draws: seq<Draws>)
    requires n <= |draws|
    ensures var r := History(n, count, startPrice, now, draws);
      (n > 0 ==> r[0] == HistoryCandle(startPrice, draws[0], now - count * CANDLE_SECONDS)) &&
      forall i :: 0 < i < n ==> r[i] == HistoryCandle(r[i - 1].close, draws[i], now - (count - i) * CANDLE_SECONDS)
  {
    if n > 0 {
      HistoryBars(n - 1, count, startPrice, now, draws);
      var r := History(n, count, startPrice, now, draws);
      var prev := History(n - 1, count, startPrice, now, draws);
      assert r == prev + [r[n - 1]];
      forall i | 0 <= i < n - 1 ensures r[i] == prev[i] { }
    }
  }

  /** The backfill is one bar a minute, each opening at the previous close, the last stamped a minute before `now`. */
  lemma {:induction false} HistoryTimes(n: nat, count: int, startPrice: real, now: int, draws: seq<Draws>)
    requires n <= |draws|
    ensures var r := History(n, count, startPrice, now, draws);
      (n > 0 ==> r[0].open == startPrice && r[n - 1].time == now - (count - (n - 1)) * CANDLE_SECONDS) &&
      forall i :: 0 < i < n ==> r[i].open == r[i - 1].close && r[i].time == r[i - 1].time + CANDLE_SECONDS
  {
    if n > 0 {
      HistoryTimes(n - 1, count, startPrice, now, draws);
      var r := History(n, count, startPrice, now, draws);
      var prev := History(n - 1, count, startPrice, now, draws);
      forall i | 0 <= i < n - 1 ensures r[i] == prev[i] { }
    }
  }

  /** The last of the first `n` bars is stamped `now - (count - (n - 1)) * 60`. */
  lemma HistoryLastTime(n: nat, count: int, startPrice: real, now: int, draws: seq<Draws>)
    requires 0 < n <= |draws|
    ensures History(n, count, startPrice, now, draws)[n - 1].time == now - (count - (n - 1)) * CANDLE_SECONDS
  {
  }

  /** With a positive start price and every draw in [0, 1), the backfill is a series. */
  lemma {:induction false} HistorySeries(n: nat, count: int, startPrice: real, now: int, draws: seq<Draws>)
    requires n <= |draws| && startPrice > 0.0
    requires forall i :: 0 <= i < |draws| ==> ValidDraws(draws[i])
    ensures Series(History(n, count, startPrice, now, draws))
  {
    if n > 0 {
      var prev := History(n - 1, count, startPrice, now, draws);
      var price := if n == 1 then startPrice else prev[n - 2].close;
      var time := now - (count - (n - 1)) * CANDLE_SECONDS;
      HistorySeries(n - 1, count, startPrice, now, draws);
      if n > 1 {
        HistoryLastTime(n - 1, count, startPrice, now, draws);
      }
      HistoryStepKeepsSeries(prev, price, draws[n - 1], time);
      assert History(n, count, startPrice, now, draws) == prev + [HistoryCandle(price, draws[n - 1], time)];
    }
  }

  /**
   * generateHistoricalData: `count` bars (none when `count` is not positive)
   * ending one minute before `now`.
   */
  method GenerateHistoricalData(count: int, startPrice: real, now: int, draws: seq<Draws>)
    returns (candles: seq<Candle>)
    requires |draws| >= count
    ensures |candles| == if count > 0 then count else 0
    ensures candles == History(|candles|, count, startPrice, now, draws)
  {
    candles := [];
    var currentPrice := startPrice;
    var i := 0;
    while i < count
      invariant 0 <= i <= (if count > 0 then count else 0)
      invariant candles == History(i, count, startPrice, now, draws)
      invariant currentPrice == if i == 0 then startPrice else candles[i - 1].close
    {
      var c := HistoryCandle(currentPrice, draws[i], now - (count - i) * CANDLE_SECONDS);
      candles := candles + [c];
      currentPrice := c.close;
      i := i + 1;
    }
  }

  /** A full backfill of `count > 0` bars ends with the bar stamped one minute before `now`. */
  lemma HistoryEndsBeforeNow(count: int, startPrice: real, now: int, draws: seq<Draws>)
    requires 0 < count <= |draws|
    ensures History(count, count, startPrice, now, draws)[count - 1].time == now - CANDLE_SECONDS
  {
    HistoryTimes(count, count, startPrice, now, draws);
  }

  /** getNextTick: the bar that follows `last`, with a slight upward bias. */
  function NextTick(last: Candle, d: Draws): (c: Candle)
    ensures c.open == last.close && c.time == last.time + CANDLE_SECONDS
  {
    Bar(last.time + CANDLE_SECONDS, last.close, Scale(last.close * 0.0015, d.change - 0.48),
        Scale(last.close * 0.0005, d.high), Scale(last.close * 0.0005, d.low), d.volume * 100.0)
  }

  /**
   * With a positive last close and draws in [0, 1), the next bar is well
   * shaped, its change lies in [-0.48, 0.52) times 0.15% of its open, each
   * wick is under 0.05% of its open, and so its low stays positive.
   */
  lemma NextTickBounds(last: Candle, d: Draws)
    requires last.close > 0.0 && ValidDraws(d)
    ensures var c := NextTick(last, d);
      WellShaped(c) && c.close > 0.0 && c.low > 0.0 &&
      c.high - Max(c.open, c.close) < c.open * 0.0005 &&
      Min(c.open, c.close) - c.low < c.open * 0.0005 &&
      -(c.open * 0.0015 * 0.48) <= c.close - c.open < c.open * 0.0015 * 0.52 &&
      0.0 <= c.volume < 100.0
  {
    TickChange(last.close, d.change);
    ScaledDraw(last.close * 0.0005, d.high);
    ScaledDraw(last.close * 0.0005, d.low);
    VolumeBound(d.volume);
  }

  /** The terminal's tick append (prev.length === 0 leaves the series alone). */
  function AppendTick(cs: seq<Candle>, d: Draws): (r: seq<Candle>)
    ensures |cs| == 0 ==> r == []
    ensures |cs| > 0 ==> |r| == |cs| + 1 && r[..|cs|] == cs && r[|cs|].open == cs[|cs| - 1].close
  {
    if |cs| == 0 then cs else cs + [NextTick(cs[|cs| - 1], d)]
  }

  /** Appending a tick keeps a series a series. */
  lemma AppendTickKeepsSeries(cs: seq<Candle>, d: Draws)
    requires Series(cs) && ValidDraws(d)
    ensures Series(AppendTick(cs, d))
  {
    if |cs| > 0 {
      var r := AppendTick(cs, d);
      var n := |cs|;
      assert r[n] == NextTick(cs[n - 1], d);
      NextTickBounds(cs[n - 1], d);
      assert r[n].close > 0.0 && r[n].open > 0.0 && r[n].low > 0.0 && WellShaped(r[n]);
      forall i | 0 <= i < |r| ensures r[i].close > 0.0 && r[i].open > 0.0 && r[i].low > 0.0 && WellShaped(r[i]) {
        if i < n { assert r[i] == cs[i]; }
      }
      forall i | 0 < i < |r| ensures r[i].open == r[i - 1].close && r[i].time == r[i - 1].time + CANDLE_SECONDS {
        if i < n { assert r[i] == cs[i] && r[i - 1] == cs[i - 1]; }
      }
    }
  }
}
