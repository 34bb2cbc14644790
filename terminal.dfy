/**
 * The trading terminal of pages/TerminalPage.tsx: the page's React state as
 * the fields of a class, each event handler as one atomic method, and the
 * liquidation effect run after every change of the candles or the position.
 */
module Terminal {
  import opened Wrappers
  import opened PriceFeed
  import opened PositionEngine

  /** The terminal backfills this many one-minute bars when it mounts. */
  const HISTORY_BARS: int := 40

  class TerminalPage {
    var candles: seq<Candle>
    var virtualBalance: real
    var realizedPnL: real
    var position: Option<Position>
    var isLiquidated: bool

    /** The engine's view of the page state. */
    function State(): Account
      reads this
    {
      Account(virtualBalance, realizedPnL, position, isLiquidated)
    }

    /** The close of the last bar, the price every trade and check uses. */
    function LastPrice(): real
      reads this
      requires |candles| > 0
    {
      candles[|candles| - 1].close
    }

    /**
     * The page invariant: the account invariant holds, the chart is a series
     * of positive prices, a position exists only once there are candles, and
     * (since the check runs after every change) no open position is past its
     * liquidation price at the last close.
     */
    predicate Valid()
      reads this
    {
      Invariant(State()) && Series(candles) &&
      (position.Some? ==> |candles| > 0) &&
      (|candles| > 0 ==> Settled(State(), LastPrice()))
    }

    /** currentUnrealizedPnL: 0 without a position or without candles. */
    function CurrentUnrealizedPnL(): (r: real)
      reads this
      requires Valid()
      ensures position.None? || |candles| == 0 ==> r == 0.0
      ensures |candles| > 0 ==> r == UnrealizedPnL(State(), LastPrice())
    {
      if |candles| == 0 then 0.0 else UnrealizedPnL(State(), LastPrice())
    }

    /** currentEquity: free funds, committed margin and floating PnL. */
    function CurrentEquity(): (r: real)
      reads this
      requires Valid()
      ensures |candles| == 0 ==> r == virtualBalance
      ensures |candles| > 0 ==> r == Equity(State(), LastPrice())
    {
      virtualBalance + Margin(State()) + CurrentUnrealizedPnL()
    }

    /** totalRoundPnL: realized plus floating PnL. */
    function CurrentTotalRoundPnL(): (r: real)
      reads this
      requires Valid()
      ensures |candles| == 0 ==> r == realizedPnL
      ensures |candles| > 0 ==> r == TotalRoundPnL(State(), LastPrice())
    {
      realizedPnL + CurrentUnrealizedPnL()
    }

    /** The initial state of the page: the round's starting account and no candles yet. */
    constructor ()
      ensures State() == InitialAccount() && candles == []
      ensures Valid()
    {
      candles := [];
      virtualBalance := INITIAL_VIRTUAL_BALANCE;
      realizedPnL := 0.0;
      position := None;
      isLiquidated := false;
    }

    /** The effect that runs whenever the candles, the position or the flag change. */
    method RunLiquidationCheck()
      modifies this
      requires Invariant(State()) && Series(candles) && (position.Some? ==> |candles| > 0)
      ensures candles == old(candles)
      ensures State() == if |candles| == 0 then old(State()) else CheckLiquidation(old(State()), LastPrice())
      ensures Valid()
    {
      if position.None? || isLiquidated || |candles| == 0 {
        return;
      }
      var lastPrice := candles[|candles| - 1].close;
      var p := position.value;
      if (p.kind == Long && lastPrice <= p.liquidationPrice) || (p.kind == Short && lastPrice >= p.liquidationPrice) {
        isLiquidated := true;
        realizedPnL := -INITIAL_VIRTUAL_BALANCE;
        position := None;
        virtualBalance := 0.0;
      }
      CheckSettles(old(State()), lastPrice);
      assert State() == CheckLiquidation(old(State()), lastPrice);
    }

    /** The mount effect: backfill the chart with 40 bars ending a minute before `now`. */
    method LoadHistory(now: int, draws: seq<Draws>)
      modifies this
      requires Valid() && candles == [] && position.None?
      requires |draws| >= HISTORY_BARS && forall i :: 0 <= i < |draws| ==> ValidDraws(draws[i])
      ensures candles == History(HISTORY_BARS, HISTORY_BARS, DEFAULT_START_PRICE, now, draws)
      ensures State() == old(State())
      ensures Valid()
    {
      var generated := GenerateHistoricalData(HISTORY_BARS, DEFAULT_START_PRICE, now, draws);
      HistorySeries(HISTORY_BARS, HISTORY_BARS, DEFAULT_START_PRICE, now, draws);
      candles := generated;
    }

    /** One tick of the interval: append the next bar (none while the chart is empty), then run the check. */
    method PushTick(d: Draws)
      modifies this
      requires Valid() && ValidDraws(d)
      ensures candles == AppendTick(old(candles), d)
      ensures State() == if |candles| == 0 then old(State()) else CheckLiquidation(old(State()), LastPrice())
      ensures Valid()
    {
      AppendTickKeepsSeries(candles, d);
      candles := AppendTick(candles, d);
      RunLiquidationCheck();
    }

    /**
     * handleTrade with the parsed margin input (`None` for NaN): the trade
     * at the last close, then the check. With no candles the handler fails
     * on the missing last bar before changing anything.
     */
    method HandleTrade(kind: PositionType, input: Option<real>)
      modifies this
      requires Valid()
      ensures candles == old(candles)
      ensures State() == if |candles| == 0 then old(State())
                         else CheckLiquidation(Trade(old(State()), kind, input, LastPrice()), LastPrice())
      ensures old(virtualBalance) >= 0.0 ==> virtualBalance >= 0.0
      ensures Valid()
    {
      if isLiquidated {
        return;
      }
      if input.None? || input.value <= 0.0 {
        return;
      }
      if |candles| == 0 {
        return;
      }
      var price := candles[|candles| - 1].close;
      var a := State();
      TradeThenCheck(a, kind, input, price);
      var r := CheckLiquidation(Trade(a, kind, input, price), price);
      virtualBalance, realizedPnL, position, isLiquidated := r.balance, r.realizedPnL, r.position, r.liquidated;
    }

    /**
     * closeTrade: realize the floating PnL at the last close and return the
     * margin; the wallet receives exactly the equity shown before the close.
     */
    method CloseTrade()
      modifies this
      requires Valid()
      ensures candles == old(candles)
      ensures old(position).None? ==> State() == old(State())
      ensures old(position).Some? ==>
        State() == Close(old(State()), LastPrice()) &&
        virtualBalance == old(CurrentEquity()) && realizedPnL == old(CurrentTotalRoundPnL())
      ensures old(virtualBalance) >= 0.0 ==> virtualBalance >= 0.0
      ensures Valid()
    {
      if position.None? {
        return;
      }
      var price := candles[|candles| - 1].close;
      var a := State();
      CloseFromSettled(a, price);
      var p := position.value;
      var profit := PositionPnL(p, price);
      realizedPnL, virtualBalance, position := realizedPnL + profit, virtualBalance + p.amount + profit, None;
      assert State() == Close(a, price);
    }
  }

  // ---------------------------------------------------------------------
  // The countdown label
  // ---------------------------------------------------------------------

  function DigitChar(d: nat): char
    requires d < 10
  {
    "0123456789"[d]
  }

  /** The decimal digits of `n`, as Number.prototype.toString prints a non-negative integer. */
  function NatToString(n: nat): (s: string)
    ensures n < 10 ==> |s| == 1
    ensures n >= 10 ==> |s| == |NatToString(n / 10)| + 1
    ensures forall i :: 0 <= i < |s| ==> '0' <= s[i] <= '9'
    decreases n
  {
    if n < 10 then [DigitChar(n)] else NatToString(n / 10) + [DigitChar(n % 10)]
  }

  /** padStart(2, '0'): pad a shorter string on the left with zeros to length 2. */
  function PadStart2(s: string): (r: string)
    ensures |r| == if |s| >= 2 then |s| else 2
  {
    if |s| >= 2 then s else seq(2 - |s|, _ => '0') + s
  }

  /** formatTime: whole minutes and remaining seconds of `s`, each padded to two digits, as mm:ss. */
  function FormatTime(s: nat): (r: string)
    ensures s < 6000 ==> |r| == 5 && r[2] == ':'
  {
    PadStart2(NatToString(s / 60)) + ":" + PadStart2(NatToString(s % 60))
  }

  /** The value of a two-digit decimal string. */
  function TwoDigits(s: string): int
    requires |s| == 2
  {
    (s[0] as int - '0' as int) * 10 + (s[1] as int - '0' as int)
  }

  /** Reading an mm:ss label back. */
  function ParseTime(r: string): int
    requires |r| == 5
  {
    TwoDigits(r[..2]) * 60 + TwoDigits(r[3..])
  }

  /** A number below 100, printed and padded to two digits, reads back as itself. */
  lemma PaddedTwoDigits(n: nat)
    requires n < 100
    ensures |PadStart2(NatToString(n))| == 2 && TwoDigits(PadStart2(NatToString(n))) == n
  {
    if n >= 10 {
      assert NatToString(n) == [DigitChar(n / 10)] + [DigitChar(n % 10)];
    }
  }

  /** Below 100 minutes the label is mm:ss and reads back as the same number of seconds. */
  lemma FormatTimeRoundTrip(s: nat)
    requires s < 6000
    ensures ParseTime(FormatTime(s)) == s
  {
    var r := FormatTime(s);
    PaddedTwoDigits(s / 60);
    PaddedTwoDigits(s % 60);
    assert r[..2] == PadStart2(NatToString(s / 60));
    assert r[3..] == PadStart2(NatToString(s % 60));
  }
}
