# TradeTourney trading core in Dafny

TradeTourney is a browser game in which players pay a virtual buy-in, trade
a synthetic price series with 20x leverage for a ten-minute round, and are
ranked by their profit and loss. This project models the parts of it that
compute something and proves what they promise:

- `price_feed.dfy` (module `PriceFeed`): the mock price feed of
  `services/mockData.ts`. It backfills the one-minute bars of the chart and
  makes each new bar from the last close. The random draws and the clock
  are parameters.
- `position_engine.dfy` (module `PositionEngine`): the leveraged position
  engine of `pages/TerminalPage.tsx`, as pure functions on an `Account`. It
  covers the liquidation price, the floating PnL, every branch of a trade,
  closing, the liquidation check, and the derived equity and risk figures.
- `terminal.dfy` (module `Terminal`): the terminal page itself. Its React
  state becomes the fields of `TerminalPage`. Each handler becomes a method
  that updates those fields and is proved against the engine functions. The
  module also holds the `mm:ss` countdown label.
- `trading_chart.dfy` (module `TradingChart`): the viewport arithmetic of
  `components/TradingChart.tsx`. It covers the visible window, the padded
  price range, and zoom, pan, drag and auto-follow on the `ChartView` class.
- `lobby.dfy` (module `Lobby`): the buy-in filter, the estimated pot and the
  create-table guard of `pages/LobbyPage.tsx`, plus the wallet of `App.tsx`.
- `wrappers.dfy` (module `Wrappers`): `Option`.
- `arith.dfy` (module `Arith`): a fact of real arithmetic the engine and the lobby share.

The engine's facts, in plain terms:

- `LEVERAGE * MM_RATE` is 1, so the maintenance margin equals the margin.
- The liquidation prices reduce to `entry * (1 - wallet / size)` for a long
  and `entry * (1 + wallet / size)` for a short.
- A position is due for liquidation exactly when its equity has fallen to
  the maintenance margin. For a live position that means equity at or below
  the margin, i.e. the floating loss has eaten the free balance.
- Every trade except an add to the same side moves value between wallet,
  margin and realized PnL without changing equity. An add is the exception
  because it re-prices the whole position at the margin-weighted entry
  (`pages/TerminalPage.tsx:100-106`) while the floating PnL stays
  proportional to `(price - entry) / entry`; `AddRescalesPnL` states what is
  kept instead (PnL times entry). `BlendExample` gives the numbers: a round
  that opens a long of 1000 at 100 and adds 1000 more at 200 moves the entry
  to 150, and the equity at 200 falls from 30000 to 70000 / 3 (about
  23333.33) with no price move.
- Closing puts exactly the displayed equity into the wallet.

The handlers are atomic. The liquidation check runs after every change of
the candles or the position, as the source's effect does. Under those two
assumptions the page keeps three facts:

- the engine invariant holds;
- the candles form a well-shaped series;
- no open position is past its liquidation price at the last close.

From these it follows that a non-negative balance stays non-negative.
`PositionEngine.UncheckedReduceCanOverdraw` shows the guarantee really
depends on the check having run: without it, a losing partial close leaves
a negative balance.

Two behaviours of the code are worth stating outright, since a reader
might expect otherwise:

- Trading does not stop when the round ends. When the countdown reaches 0
  (`pages/TerminalPage.tsx:53-57`) the timer is cleared and a `showResults`
  flag is set, but nothing reads that flag: `handleTrade`
  (`pages/TerminalPage.tsx:94-98`) has no round-over guard, the price ticks
  go on, and the only overlay the page renders is the liquidation one
  (`pages/TerminalPage.tsx:158`). The model has no round-over flag.
- The free balance is not clamped. An opposite-side trade credits margin
  plus realized PnL with no floor (`pages/TerminalPage.tsx:121`). The model
  proves non-negativity only for states the liquidation check has settled,
  as described above.

## Model

| member | source | states |
|---|---|---|
| PriceFeed.Scale | services/mockData.ts:10-23 | a random draw scaled by a constant factor, `Math.random() * k`, as every draw of the generators is formed |
| PriceFeed.ScaledDraw | services/mockData.ts:10-23 | a draw in [0, 1) scales a positive amount into [0, amount) |
| PriceFeed.HistoryChange | services/mockData.ts:10-11 | a history bar's body moves at most 0.1% of the previous close either way |
| PriceFeed.TickChange | services/mockData.ts:33-34 | a tick's body move lies in [-0.48, 0.52) times 0.15% of the last close |
| PriceFeed.VolumeBound | services/mockData.ts:23 | the volume of a bar lies in [0, 100) |
| PriceFeed.Bar | services/mockData.ts:12-15 | a bar opens at its open, closes `change` away, and its wicks stick out exactly `up` above and `down` below the body |
| PriceFeed.HistoryCandle | services/mockData.ts:10-24 | a history bar opens at the current price and carries the given time |
| PriceFeed.HistoryCandleBounds | services/mockData.ts:10-23 | for a positive price and draws in [0,1): high ≥ max(open, close), low ≤ min(open, close), the close and the low are positive, each wick is under 0.1% of the price, the body within ±0.1%, and the volume in [0,100) |
| PriceFeed.HistoryStepKeepsSeries | services/mockData.ts:12-26 | appending the next history bar, opened at the last close and stamped 60 s later, keeps a series a series |
| PriceFeed.History | services/mockData.ts:9-27 | the first n loop iterations produce exactly n bars |
| PriceFeed.HistoryBars | services/mockData.ts:9-27 | the first bar is built from the start price at `now - count·60`; every later bar is built from the previous bar's close |
| PriceFeed.HistoryTimes | services/mockData.ts:12-26 | the first bar opens at the start price, the last of n bars is stamped `now - (count - (n - 1))·60`, each bar opens at the previous close, and times rise by 60 |
| PriceFeed.HistoryLastTime | services/mockData.ts:18 | the last of n bars is stamped `now - (count - (n - 1))·60` |
| PriceFeed.HistorySeries | services/mockData.ts:9-27 | for a positive start price and valid draws the generated bars form a series |
| PriceFeed.GenerateHistoricalData | services/mockData.ts:4-30 | the loop returns exactly `count` bars (none for a non-positive count), equal to the recursive history |
| PriceFeed.HistoryEndsBeforeNow | services/mockData.ts:18 | with a positive count the last bar is stamped a minute before `now` |
| PriceFeed.NextTick | services/mockData.ts:32-48 | the next bar opens at the last close and is stamped 60 s after the last bar |
| PriceFeed.NextTickBounds | services/mockData.ts:33-46 | for a positive last close and valid draws the tick is well shaped with a positive close and low, each wick is under 0.05% of the open, and the body lies in [-0.48·0.15%, 0.52·0.15%) of the open |
| PriceFeed.AppendTick | pages/TerminalPage.tsx:68-71 | an empty chart stays empty; otherwise the earlier bars are kept and exactly one bar is appended, opening at the last close |
| PriceFeed.AppendTickKeepsSeries | pages/TerminalPage.tsx:68-71 | appending a tick keeps a series a series |
| PositionEngine.InitialAccount | pages/TerminalPage.tsx:24-29 | a round starts with a balance of 10000, no realized PnL, no position and no liquidation |
| PositionEngine.Move | pages/TerminalPage.tsx:108 | the relative price move (price − entry) / entry that the PnL formulas of `:108`, `:137` and `:144` share; DollarMove and PnLSign state what it gives |
| PositionEngine.LiquidationPrice | pages/TerminalPage.tsx:40-49 | the liquidation price is never negative and is 0 when the margin is ≤ 0 |
| PositionEngine.PositionPnL | pages/TerminalPage.tsx:108 | the leveraged floating PnL of a position, the formula `pages/TerminalPage.tsx:137` and `:144` repeat; its meaning is stated by PnLSign, DollarMove and PnLAtEntry |
| PositionEngine.PnLSign | pages/TerminalPage.tsx:144 | for a live position at a positive entry the PnL is a profit exactly when the price moved its way (up for a long, down for a short) and a loss exactly when it moved against it |
| PositionEngine.LiquidationPriceClosedForm | pages/TerminalPage.tsx:40-49 | with size = margin·20 and maintenance = size·0.05, the long price is max(0, E·(1 − w/size)) and the short price is max(0, E·(1 + w/size)) |
| PositionEngine.LiquidationPriceSide | pages/TerminalPage.tsx:40-49 | with free funds beside it, a long liquidates strictly below its entry and a short strictly above |
| PositionEngine.Triggered | pages/TerminalPage.tsx:85-86 | the check's condition: a long at or below, a short at or above its liquidation price; TriggeredIffLoss and TriggeredIffEquityAtMaintenance state what it means |
| PositionEngine.LongThreshold | pages/TerminalPage.tsx:85 | a long's price at or below its liquidation price is the same as its leveraged loss reaching the free balance |
| PositionEngine.ShortThreshold | pages/TerminalPage.tsx:86 | a short's price at or above its liquidation price is the same as its leveraged loss reaching the free balance |
| PositionEngine.TriggeredIffLoss | pages/TerminalPage.tsx:82-92 | a position whose liquidation price matches the free balance triggers exactly when its floating loss reaches that balance |
| PositionEngine.LongTriggeredIffLoss | pages/TerminalPage.tsx:85 | the long side of that equivalence, from the closed-form liquidation price |
| PositionEngine.ShortTriggeredIffLoss | pages/TerminalPage.tsx:86 | the short side of that equivalence, from the closed-form liquidation price |
| PositionEngine.TriggeredIffEquityAtMaintenance | pages/TerminalPage.tsx:82-92 | the tick check fires exactly when equity has fallen to the maintenance margin |
| PositionEngine.UnrealizedPnL | pages/TerminalPage.tsx:143-145 | the floating PnL is 0 without a position |
| PositionEngine.Margin | pages/TerminalPage.tsx:147 | the margin committed to the open position, 0 when flat |
| PositionEngine.MaintenanceMargin | pages/TerminalPage.tsx:148 | margin × 20 × 0.05, which is the margin itself; TriggeredIffEquityAtMaintenance and RiskPercentAtLimit compare the equity with it |
| PositionEngine.TotalRoundPnL | pages/TerminalPage.tsx:146 | realized plus floating PnL; Close realizes it exactly (CloseRealizesEquity) and trades other than an add keep it (TradeConservesEquity) |
| PositionEngine.Equity | pages/TerminalPage.tsx:147 | free funds, margin and floating PnL; the check fires exactly when it reaches the maintenance margin (TriggeredIffEquityAtMaintenance) |
| PositionEngine.RiskPercent | pages/TerminalPage.tsx:148 | the maintenance margin over the equity (over 1 when the equity is 0) in percent; RiskPercentAtLimit states when it reaches 100 |
| PositionEngine.PnLPerMargin | pages/TerminalPage.tsx:108 | the floating PnL is proportional to the margin |
| PositionEngine.PnLAtEntry | pages/TerminalPage.tsx:108 | a position has no floating PnL at its own entry price |
| PositionEngine.BlendBetween | pages/TerminalPage.tsx:103 | the margin-weighted entry lies between the old entry and the current price |
| PositionEngine.RatioAtLeastOne | pages/TerminalPage.tsx:109-110 | the close ratio reaches 1 exactly when the requested margin covers the position's margin |
| PositionEngine.Open | pages/TerminalPage.tsx:128-132 | opening never sets the liquidation flag and, at a positive price, gives a well-formed account |
| PositionEngine.BlendedEntry | pages/TerminalPage.tsx:102-103 | the blended entry times the new margin is the margin-weighted sum of the old entry and the price, and lies between the two |
| PositionEngine.AddTo | pages/TerminalPage.tsx:100-106 | adding never sets the liquidation flag and, at a positive price, gives a well-formed account |
| PositionEngine.Reduce | pages/TerminalPage.tsx:107-127 | reducing never sets the liquidation flag and, at a positive price, gives a well-formed account |
| PositionEngine.Trade | pages/TerminalPage.tsx:94-133 | a trade never changes the liquidation flag; a liquidated account, a NaN input or an input ≤ 0 leaves the account unchanged; at a positive price the result is well formed |
| PositionEngine.TradePreservesInvariant | pages/TerminalPage.tsx:94-133 | every trade at a positive price keeps the liquidation price in step with the margin, entry and free balance |
| PositionEngine.OpenPosition | pages/TerminalPage.tsx:128-132 | opening from flat is refused when the margin exceeds the balance; otherwise the balance drops by exactly the margin (staying ≥ 0), the entry is the current price and the position's margin is the input |
| PositionEngine.AddToPosition | pages/TerminalPage.tsx:100-106 | a same-side add is refused when the margin exceeds the balance; otherwise the margins add up, the entry becomes the margin-weighted average and lies between the old entry and the price, the balance drops by the added margin, and the liquidation price is recomputed |
| PositionEngine.AddRescalesPnL | pages/TerminalPage.tsx:102-103 | after an add, floating PnL times entry equals the old floating PnL times the old entry |
| PositionEngine.DollarMove | pages/TerminalPage.tsx:108 | floating PnL times entry is (price − entry) · margin · 20, signed by the side |
| PositionEngine.BlendKeepsMove | pages/TerminalPage.tsx:102-103 | the blended entry keeps (price − entry) · margin |
| PositionEngine.BlendedMove | pages/TerminalPage.tsx:102-105 | a same-side position of the summed margin at the blended entry has the old position's PnL times entry |
| PositionEngine.ShrunkPnL | pages/TerminalPage.tsx:120-124 | shrinking the margin by m removes the share m / margin of the floating PnL |
| PositionEngine.ReduceBelowMargin | pages/TerminalPage.tsx:119-126 | a reduce by less than the margin credits the margin plus the realized share of the PnL and keeps the position with the margin shrunk and the liquidation price recomputed |
| PositionEngine.PartialClose | pages/TerminalPage.tsx:119-126 | a reduce with ratio < 1 realizes pnl·ratio, credits margin plus realized, shrinks the margin by the input, keeps side and entry, recomputes the liquidation price, and leaves the rest of the PnL floating |
| PositionEngine.FullCloseAndFlip | pages/TerminalPage.tsx:110-118 | a reduce with ratio ≥ 1 realizes the whole PnL; it opens the excess on the new side at the current price only if the excess is positive and covered by the funds after the close; otherwise the account is left flat with those funds |
| PositionEngine.TradeConservesEquity | pages/TerminalPage.tsx:108-132 | opening, reducing, closing and flipping keep equity and round PnL at the current price |
| PositionEngine.Close | pages/TerminalPage.tsx:135-141 | closing leaves no position and does not change the liquidation flag |
| PositionEngine.CloseRealizesEquity | pages/TerminalPage.tsx:135-147 | closing puts exactly the equity into the wallet and the round PnL into the realized PnL |
| PositionEngine.CheckLiquidation | pages/TerminalPage.tsx:82-92 | a check that leaves a position open changes nothing |
| PositionEngine.CheckLiquidationEffect | pages/TerminalPage.tsx:82-92 | the check fires exactly for a live position past its side's threshold (long at or below, short at or above); it then sets balance 0, realized PnL -10000, no position, liquidated; otherwise it changes nothing |
| PositionEngine.LiquidatedIsTerminal | pages/TerminalPage.tsx:83-95 | a liquidated account ignores every trade, close and further check |
| PositionEngine.CheckPreservesInvariant | pages/TerminalPage.tsx:82-92 | the check keeps the account invariant |
| PositionEngine.CheckSettles | pages/TerminalPage.tsx:82-92 | after the check at a price, no open position is past its liquidation price at that price |
| PositionEngine.AllInOpenIsLiquidated | pages/TerminalPage.tsx:128-132 | opening with the whole free balance puts the liquidation price at the entry, so the next check at that price wipes the account out |
| PositionEngine.RiskPercentAtLimit | pages/TerminalPage.tsx:148 | with positive equity the risk figure reaches 100% exactly when the position is due for liquidation |
| PositionEngine.SettledTradeKeepsBalance | pages/TerminalPage.tsx:119-126 | from a settled account with a non-negative balance, every trade at the settled price keeps the balance non-negative |
| PositionEngine.SettledCloseKeepsBalance | pages/TerminalPage.tsx:135-140 | from a settled account with a non-negative balance, closing at the settled price keeps the balance non-negative |
| PositionEngine.ReduceKeepsBalance | pages/TerminalPage.tsx:110-126 | a reduce whose floating loss is smaller than the free balance leaves a non-negative balance |
| PositionEngine.ShareOfLoss | pages/TerminalPage.tsx:120-121 | a share below one of a PnL above −b stays above −b |
| PositionEngine.CloseFromSettled | pages/TerminalPage.tsx:135-141 | a close from a settled account is flat and invariant, holds the equity in the wallet and the round PnL as realized, and keeps a non-negative balance non-negative |
| PositionEngine.TradeThenCheck | pages/TerminalPage.tsx:82-133 | a trade followed by the check keeps the invariant, leaves the account settled and keeps a non-negative balance non-negative |
| PositionEngine.UncheckedReduceCanOverdraw | pages/TerminalPage.tsx:119-121 | a long of 1000 at 100 with no free funds, reduced by 500 at 50 without the check, leaves a balance of -4500 |
| PositionEngine.BlendExample | pages/TerminalPage.tsx:100-106 | adding 1000 at 200 to a long of 1000 at 100 gives a margin of 2000 at entry 150 and a balance of 8000 |
| PositionEngine.PartialCloseExample | pages/TerminalPage.tsx:119-126 | reducing a long of 1000 at 100 by 500 at 110 realizes 1000, credits 1500 and keeps 500 at entry 100 |
| PositionEngine.FlipExample | pages/TerminalPage.tsx:110-118 | selling 1500 against a long of 1000 at its entry opens a short of 500 at 100 with a balance of 9500 |
| Terminal.TerminalPage.constructor | pages/TerminalPage.tsx:20-29 | the page starts with no candles and the initial account |
| Terminal.TerminalPage.CurrentUnrealizedPnL | pages/TerminalPage.tsx:143-145 | the displayed floating PnL is 0 without a position or candles, and otherwise the engine's PnL at the last close |
| Terminal.TerminalPage.CurrentTotalRoundPnL | pages/TerminalPage.tsx:146 | the displayed round PnL is the realized PnL on an empty chart and otherwise the engine's round PnL at the last close |
| Terminal.TerminalPage.CurrentEquity | pages/TerminalPage.tsx:147 | the displayed equity is the free balance on an empty chart and otherwise the engine's equity at the last close |
| Terminal.TerminalPage.RunLiquidationCheck | pages/TerminalPage.tsx:82-92 | the effect applies the engine's check at the last close (nothing without candles) and leaves the page valid |
| Terminal.TerminalPage.LoadHistory | pages/TerminalPage.tsx:65-66 | mounting fills the chart with the 40-bar history from 50000 and leaves the account as it was |
| Terminal.TerminalPage.PushTick | pages/TerminalPage.tsx:67-71 | a tick appends the next bar (none on an empty chart), then applies the check at the new close |
| Terminal.TerminalPage.HandleTrade | pages/TerminalPage.tsx:94-133 | the new state is the engine's trade at the last close followed by the check; the candles, the page invariant and a non-negative balance are kept |
| Terminal.TerminalPage.CloseTrade | pages/TerminalPage.tsx:135-141 | closing with a position applies the engine's close at the last close; the wallet then holds the equity shown before and the realized PnL the round PnL shown before; without a position nothing changes |
| Terminal.NatToString | pages/TerminalPage.tsx:149 | the decimal digits of a natural number: one digit below 10, one more digit per factor of 10, every character a digit |
| Terminal.PadStart2 | pages/TerminalPage.tsx:149 | left-padding with zeros gives length 2 for a shorter string and leaves a longer one alone |
| Terminal.FormatTime | pages/TerminalPage.tsx:149 | below 100 minutes the label has five characters with ':' in the middle |
| Terminal.PaddedTwoDigits | pages/TerminalPage.tsx:149 | a number below 100, printed and zero-padded, is two digits that read back as the number |
| Terminal.FormatTimeRoundTrip | pages/TerminalPage.tsx:149 | below 100 minutes the `mm:ss` label reads back as the same number of seconds |
| TradingChart.Round | components/TradingChart.tsx:79 | rounding gives the integer within half a unit, halves going up |
| TradingChart.Clamp | components/TradingChart.tsx:80 | the clamp lies in [0, hi] and leaves values already in range alone |
| TradingChart.Window | components/TradingChart.tsx:45-48 | the start and end of the visible slice; WindowBounds states where they lie |
| TradingChart.WindowBounds | components/TradingChart.tsx:45-50 | for non-negative zoom and offset: 0 ≤ start ≤ end ≤ total, end − start = min(visibleCount, total), an unscrolled view ends at the newest bar, and otherwise it ends `rightOffset` bars back unless that runs past the oldest |
| TradingChart.Displayed | components/TradingChart.tsx:36-50 | no candles give no displayed bars; otherwise min(visibleCount, total) bars, the window's slice in order |
| TradingChart.HighsAndLows | components/TradingChart.tsx:51 | the price list holds each bar's high then its low |
| TradingChart.RangePrices | components/TradingChart.tsx:51-52 | the prices to cover are each displayed bar's high then low, in order, followed by the entry when a position is open |
| TradingChart.SeqMin | components/TradingChart.tsx:54 | the minimum is one of the prices and at most every price |
| TradingChart.SeqMax | components/TradingChart.tsx:55 | the maximum is one of the prices and at least every price |
| TradingChart.PriceRange | components/TradingChart.tsx:54-58 | the lowest price less 0.05% and the highest plus 0.05%; PriceRangeCovers states that it covers every price |
| TradingChart.PriceRangeCovers | components/TradingChart.tsx:54-58 | for positive prices the padded range strictly covers every price, and its bounds are the extreme prices scaled by 0.9995 and 1.0005 |
| TradingChart.HighsAndLowsPositive | components/TradingChart.tsx:51 | bars with 0 < low ≤ high give only positive prices |
| TradingChart.RangePricesPositive | components/TradingChart.tsx:51-52 | with a positive entry as well, every price the range is taken over is positive |
| TradingChart.RangeCoversBars | components/TradingChart.tsx:51-58 | for non-empty bars of positive prices the padded range strictly covers every high and low and a positive entry |
| TradingChart.ViewRangeCovers | components/TradingChart.tsx:50-58 | for a non-empty view of a series (positive, well-shaped bars), the range covers every displayed high and low and the entry of an open position |
| TradingChart.MaxOffset | components/TradingChart.tsx:68 | the scroll limit is ≥ 0 and ≥ total − visibleCount |
| TradingChart.ZoomedCount | components/TradingChart.tsx:72-74 | the zoomed bar count, scaled by 1.05 or 0.95 and clamped; ZoomedCountBounds states its bounds |
| TradingChart.ZoomedCountBounds | components/TradingChart.tsx:71-75 | zoom shows at least 10 bars, at most the candle count once there are 10, and otherwise the count scaled by 1.05 or 0.95, rounded |
| TradingChart.PanOffset | components/TradingChart.tsx:77-81 | panning keeps the offset within [0, maxOffset] |
| TradingChart.DragMove | components/TradingChart.tsx:93-94 | the bars a drag moves: the pixel delta over the 720 pixels shared by the visible bars, rounded; DragOffset states where the offset ends up |
| TradingChart.DragOffset | components/TradingChart.tsx:90-96 | dragging keeps the offset within [0, maxOffset] |
| TradingChart.FollowOffset | components/TradingChart.tsx:25-34 | an offset of 0 stays 0; a non-zero offset grows by the number of new candles; nothing changes when the candles did not grow |
| TradingChart.FollowKeepsView | components/TradingChart.tsx:23-34 | after new candles a pinned view still ends at the newest bar, and a scrolled view whose zoom fits the older candles shows exactly the same bars as before |
| TradingChart.ChartView.constructor | components/TradingChart.tsx:13-24 | the chart starts at 40 bars, unscrolled, not dragging, remembering the initial candle count |
| TradingChart.ChartView.Wheel | components/TradingChart.tsx:70-82 | a mostly vertical wheel sets the zoom and leaves the offset; otherwise it pans and leaves the zoom; at least 10 bars and a non-negative offset are kept |
| TradingChart.ChartView.PointerDown | components/TradingChart.tsx:84-88 | pointer-down starts a drag that records the pointer position and the current offset |
| TradingChart.ChartView.PointerMove | components/TradingChart.tsx:90-96 | while dragging, the offset becomes the clamped start offset plus the bars moved; otherwise nothing changes |
| TradingChart.ChartView.PointerUp | components/TradingChart.tsx:98-102 | pointer-up ends the drag and forgets its start |
| TradingChart.ChartView.Follow | components/TradingChart.tsx:25-34 | the follow effect sets the offset to the followed offset and remembers the new candle count |
| Lobby.BucketOf | pages/LobbyPage.tsx:22-26 | the buy-in bucket each filter button selects, none for 'ALL' or any other value; FilteredTournaments dispatches on it |
| Lobby.InBucket | pages/LobbyPage.tsx:23-25 | the three buy-in ranges: below 10, from 10 to below 100, from 100 up; BucketsAreExclusive states that every buy-in is in exactly one |
| Lobby.Select | pages/LobbyPage.tsx:23-25 | a bucket's result is never longer than the list |
| Lobby.SelectMembership | pages/LobbyPage.tsx:23-25 | a table is in a bucket's result exactly when it is listed and its buy-in is in the bucket's range |
| Lobby.FilteredTournaments | pages/LobbyPage.tsx:21-28 | the list the selected filter shows; FilterMembership, OtherFilterKeepsAll and FilterIsSubsequence state what it holds |
| Lobby.FilterMembership | pages/LobbyPage.tsx:23-25 | 'MICRO' keeps exactly the tables below 10, 'LOW' those in [10, 100), 'HIGHROLLERS' those at 100 and above |
| Lobby.OtherFilterKeepsAll | pages/LobbyPage.tsx:26 | any other filter value returns the list unchanged |
| Lobby.SelectIsSubsequence | pages/LobbyPage.tsx:23-25 | a bucket's tables keep their list order |
| Lobby.FilterIsSubsequence | pages/LobbyPage.tsx:21-28 | every filter result is an order-preserving sub-list of the tables |
| Lobby.BucketsAreExclusive | pages/LobbyPage.tsx:23-25 | every buy-in falls in exactly one bucket |
| Lobby.SelectHead | pages/LobbyPage.tsx:23-25 | a bucket counts a table once more than its rest of the list exactly when that table heads the list and lies in the bucket |
| Lobby.CountHead | pages/LobbyPage.tsx:22-27 | a list counts a table once more than its tail exactly when that table heads the list |
| Lobby.BucketsCount | pages/LobbyPage.tsx:22-27 | for each table, its counts in the three buckets add up to its count in the list |
| Lobby.BucketsPartition | pages/LobbyPage.tsx:22-27 | the three buckets together hold every table exactly as often as the list does |
| Lobby.MockBuckets | constants.tsx:7-12 | of the four listed tables, 'Micro Grind' is micro, 'Fast Game #322' and 'Sunday Major' are low, 'Whale Battle' is high roller, and 'ALL' shows all four |
| Lobby.EstimatedPot | pages/LobbyPage.tsx:140 | buy-in times players less the 5% platform fee; PotSplitsStakes and PotOnSlider state its bounds |
| Lobby.PotSplitsStakes | pages/LobbyPage.tsx:140 | pot plus the 5% platform fee equals the players' stakes, and for a non-negative buy-in the pot lies between 0 and the stakes |
| Lobby.PotOnSlider | pages/LobbyPage.tsx:134-140 | on the 2 to 6 players slider the pot of a non-negative buy-in is between 1.9 and 5.7 buy-ins |
| Lobby.MockPrizePools | constants.tsx:7-12 | every listed table's prize pool is the estimated pot of a full table |
| Lobby.CreateTableAsWritten | pages/LobbyPage.tsx:30-32 | as written, the guard refuses exactly a buy-in above the balance, and otherwise charges exactly the buy-in |
| Lobby.NegativeBuyInCredits | pages/LobbyPage.tsx:31-32 | as written, a buy-in of -50 against 1240.5 passes the guard and raises the balance to 1290.5 |
| Lobby.CreateTable | pages/LobbyPage.tsx:30-32 | the corrected guard refuses exactly a buy-in ≤ 0 or above the balance, and otherwise charges exactly the buy-in |
| Lobby.CreateTableCharges | pages/LobbyPage.tsx:30-32 | a created table never raises the balance nor takes it below 0, and for positive buy-ins agrees with the guard as written |
| Lobby.Wallet.constructor | App.tsx:11 | the wallet starts at 1240.5 |
| Lobby.Wallet.UpdateBalance | App.tsx:16-18 | the balance grows by the given amount |
| Lobby.Wallet.CreateTournament | pages/LobbyPage.tsx:30-35 | a table is created exactly when the corrected guard allows it, and then the balance drops by the buy-in; otherwise it is unchanged; a non-negative balance stays within [0, old balance] |

## Left out

- Rendering, SVG layout, CSS and pointer capture (`components/TradingChart.tsx:87`, `:101`) are presentational. So are the chart's `scaleX`, `scaleY` and candle width (`components/TradingChart.tsx:60-63`).
- The `setInterval` timers and the round countdown (`pages/TerminalPage.tsx:51-63`, `:67-78`) are event-loop plumbing. The `showResults` flag set when the timer ends (`pages/TerminalPage.tsx:56`) is never read, so it has no effect to model. A tick is the explicit `PushTick` call, and the countdown is only its label `FormatTime`.
- The rivals leaderboard (`pages/TerminalPage.tsx:31-35`, `:72-77`) is random cosmetic data.
- `Math.random` and `Date.now` are not modelled. Their values are parameters: the `Draws` of each bar and `now` in seconds. The random table id in the lobby's navigation (`pages/LobbyPage.tsx:34`) and the navigation itself are left out.
- IEEE double arithmetic, `NaN`, `Infinity`, `parseFloat`, `Number(...)`, `toFixed` and `toLocaleString` are left out. Prices and balances are exact reals. A margin input that does not parse is `None`. The percentage buttons (`pages/TerminalPage.tsx:206`) that fill the input with a rounded share of the balance are not modelled. `AllInOpenIsLiquidated` states what the 100% choice does when the balance is whole.
- Routing and authentication in `App.tsx`, plus `components/Header.tsx`, `pages/WalletPage.tsx` and `pages/LandingPage.tsx`, are static UI and not part of this model.
- The unused `PositionType.NONE` variant (`types.ts:11`) is not modelled. An absent position is `Option.None`.
- Balance non-negativity is not claimed unconditionally: a partial close in a state the check has not settled can overdraw (`UncheckedReduceCanOverdraw`). It is proved only for states the check has settled.
- Handlers on an empty chart: `handleTrade` and `closeTrade` throw on the missing last bar before changing any state. They are modelled as no-ops.
- React's batching of state updates is not modelled. Each handler is one atomic transition, and the liquidation effect runs right after it (`HandleTrade`, `PushTick`).
- TradingChart.ChartView.Follow: the growth is computed when the effect runs. The source's updater reads the length reference and may be evaluated later, which this model does not capture.
- TradingChart.Displayed: requires a non-negative zoom and offset, which every reachable view state has (`ChartView.Valid`). JavaScript's `slice` with negative indices is not modelled.
- The chart's range for an empty price list (`Math.min()` of nothing) cannot occur with at least 10 visible bars and a non-empty chart, and is not modelled.

## Findings

| source | as written | input that shows it | evidently intended | confidence | as-written member | corrected member |
|---|---|---|---|---|---|---|
| pages/LobbyPage.tsx:31 | the create-table guard refuses only a buy-in above the balance, so any buy-in ≤ 0 passes and `onUpdateBalance(-createBuyIn)` credits the wallet | buy-in -50 with the starting balance 1240.5 gives 1290.5 (`Lobby.NegativeBuyInCredits`) | a table costs a positive buy-in the balance covers, so creating one never raises the balance | not executed | Lobby.CreateTableAsWritten | Lobby.CreateTable |
