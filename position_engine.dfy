/**
 * The leveraged position engine of pages/TerminalPage.tsx, as pure functions
 * over the trader's account: the liquidation price, the floating PnL of a
 * position, the trade handler's five branches, the full close and the
 * liquidation check, and the figures the terminal derives from them.
 */
module PositionEngine {
  import opened Wrappers
  import opened Arith

  /** 5% maintenance margin rate on the position size. */
  const MM_RATE: real := 0.05
  /** 20x leverage: the position size is twenty times its margin. */
  const LEVERAGE: real := 20.0
  /** The virtual balance every round starts with. */
  const INITIAL_VIRTUAL_BALANCE: real := 10000.0

  datatype PositionType = Long | Short

  /** An open position; `amount` is the margin committed to it. */
  datatype Position = Position(kind: PositionType, entryPrice: real, amount: real, liquidationPrice: real)

  /** The trader's round state: free wallet funds, realized PnL, the position if any, the liquidated flag. */
  datatype Account = Account(balance: real, realizedPnL: real, position: Option<Position>, liquidated: bool)

  function Max0(x: real): real { if x >= 0.0 then x else 0.0 }

  function Direction(kind: PositionType): real { if kind == Long then 1.0 else -1.0 }

  function Opposite(kind: PositionType): PositionType { if kind == Long then Short else Long }

  /** The round's starting account. */
  function InitialAccount(): (a: Account)
    ensures a.balance == INITIAL_VIRTUAL_BALANCE && a.realizedPnL == 0.0
    ensures a.position == None && !a.liquidated
  {
    Account(INITIAL_VIRTUAL_BALANCE, 0.0, None, false)
  }

  // ---------------------------------------------------------------------
  // Liquidation price and PnL
  // ---------------------------------------------------------------------

  /**
   * calculateLiquidationPrice: the price at which the equity would fall to
   * the maintenance margin, with `walletBalance` the free funds beside the position.
   */
  function LiquidationPrice(kind: PositionType, entryPrice: real, margin: real, walletBalance: real): (r: real)
    ensures r >= 0.0
    ensures margin <= 0.0 ==> r == 0.0
  {
    if margin <= 0.0 then 0.0
    else
      var positionSize := margin * LEVERAGE;
      var maintenanceMargin := positionSize * MM_RATE;
      if kind == Long then
        Max0(((maintenanceMargin - walletBalance - margin + positionSize) * entryPrice) / positionSize)
      else
        Max0(entryPrice * (1.0 - (maintenanceMargin - walletBalance - margin) / positionSize))
  }

  /** The relative price move from `entry` to `price`. */
  function Move(entry: real, price: real): real
    requires entry != 0.0
  {
    (price - entry) / entry
  }

  /** The floating PnL of `p` at `price`: the relative move times the position size, signed by side. */
  function PositionPnL(p: Position, price: real): real
    requires p.entryPrice != 0.0
  {
    Move(p.entryPrice, price) * (p.amount * LEVERAGE) * Direction(p.kind)
  }

  /** The liquidation trigger of the tick check: a long at or below, a short at or above its liquidation price. */
  predicate Triggered(p: Position, price: real) {
    (p.kind == Long && price <= p.liquidationPrice) || (p.kind == Short && price >= p.liquidationPrice)
  }

  /** An open position has a positive entry price and a positive margin. */
  predicate WellFormed(a: Account) {
    a.position.Some? ==> a.position.value.entryPrice > 0.0 && a.position.value.amount > 0.0
  }

  /**
   * The invariant every account the terminal reaches satisfies: an open
   * position is well formed and its liquidation price matches the current
   * free balance; a liquidated account is flat, empty and carries the
   * full-loss sentinel.
   */
  predicate Invariant(a: Account) {
    WellFormed(a) &&
    (a.position.Some? ==>
      var p := a.position.value;
      p.liquidationPrice == LiquidationPrice(p.kind, p.entryPrice, p.amount, a.balance)) &&
    (a.liquidated ==> a.position.None? && a.balance == 0.0 && a.realizedPnL == -INITIAL_VIRTUAL_BALANCE)
  }

  // ---------------------------------------------------------------------
  // Derived figures
  // ---------------------------------------------------------------------

  /** currentUnrealizedPnL: the floating PnL at `price`, 0 when flat. */
  function UnrealizedPnL(a: Account, price: real): (r: real)
    requires WellFormed(a)
    ensures a.position.None? ==> r == 0.0
  {
    match a.position
    case None => 0.0
    case Some(p) => PositionPnL(p, price)
  }

  /** totalRoundPnL: realized plus floating PnL. */
  function TotalRoundPnL(a: Account, price: real): real
    requires WellFormed(a)
  {
    a.realizedPnL + UnrealizedPnL(a, price)
  }

  /** The margin committed to the open position, 0 when flat. */
  function Margin(a: Account): real {
    match a.position
    case None => 0.0
    case Some(p) => p.amount
  }

  /** currentEquity: free funds, committed margin and floating PnL. */
  function Equity(a: Account, price: real): real
    requires WellFormed(a)
  {
    a.balance + Margin(a) + UnrealizedPnL(a, price)
  }

  /** The maintenance margin the open position requires, 0 when flat. */
  function MaintenanceMargin(a: Account): real {
    Margin(a) * LEVERAGE * MM_RATE
  }

  /** mmRatePercent: the maintenance margin as a percentage of equity (a zero equity counts as 1), 0 when flat. */
  function RiskPercent(a: Account, price: real): real
    requires WellFormed(a)
  {
    if a.position.None? then 0.0
    else
      var equity := Equity(a, price);
      MaintenanceMargin(a) / (if equity == 0.0 then 1.0 else equity) * 100.0
  }

  // ---------------------------------------------------------------------
  // Operations
  // ---------------------------------------------------------------------

  /** Opening from flat (lines 129-131): refused when the margin exceeds the free balance. */
  function Open(a: Account, kind: PositionType, marginAmount: real, price: real): (r: Account)
    requires a.position.None? && !a.liquidated && marginAmount > 0.0
    ensures !r.liquidated
    ensures price > 0.0 ==> WellFormed(r)
  {
    if marginAmount > a.balance then a
    else
      var wallet := a.balance - marginAmount;
      Account(wallet, a.realizedPnL,
              Some(Position(kind, price, marginAmount, LiquidationPrice(kind, price, marginAmount, wallet))), false)
  }

  /** The margin-weighted entry of a position of `margin` at `entry` grown by `delta` at `price`. */
  function BlendedEntry(entry: real, margin: real, price: real, delta: real): (e: real)
    requires margin > 0.0 && delta > 0.0
    ensures e * (margin + delta) == entry * margin + price * delta
    ensures entry <= price ==> entry <= e <= price
    ensures price <= entry ==> price <= e <= entry
  {
    BlendBetween(entry, margin, price, delta);
    (entry * margin + price * delta) / (margin + delta)
  }

  /** Adding to the same side (lines 101-106): refused when the margin exceeds the free balance. */
  function AddTo(a: Account, marginAmount: real, price: real): (r: Account)
    requires WellFormed(a) && a.position.Some? && !a.liquidated && marginAmount > 0.0
    ensures !r.liquidated
    ensures price > 0.0 ==> WellFormed(r)
  {
    var p := a.position.value;
    if marginAmount > a.balance then a
    else
      var newTotalMargin := p.amount + marginAmount;
      var newEntryPrice := BlendedEntry(p.entryPrice, p.amount, price, marginAmount);
      var wallet := a.balance - marginAmount;
      Account(wallet, a.realizedPnL,
              Some(Position(p.kind, newEntryPrice, newTotalMargin,
                            LiquidationPrice(p.kind, newEntryPrice, newTotalMargin, wallet))), false)
  }

  /**
   * Trading against the position (lines 108-126): a ratio of at least 1
   * closes it and opens the excess on `kind` when the funds cover it; a
   * smaller ratio realizes that share of the PnL and shrinks the margin.
   */
  function Reduce(a: Account, kind: PositionType, marginAmount: real, price: real): (r: Account)
    requires WellFormed(a) && a.position.Some? && !a.liquidated && marginAmount > 0.0
    ensures !r.liquidated
    ensures price > 0.0 ==> WellFormed(r)
  {
    var p := a.position.value;
    var pnl := PositionPnL(p, price);
    var ratio := marginAmount / p.amount;
    RatioAtLeastOne(marginAmount, p.amount);
    if ratio >= 1.0 then
      var excess := marginAmount - p.amount;
      var afterClose := a.balance + p.amount + pnl;
      if excess > 0.0 && afterClose >= excess then
        Account(afterClose - excess, a.realizedPnL + pnl,
                Some(Position(kind, price, excess, LiquidationPrice(kind, price, excess, afterClose - excess))), false)
      else
        Account(afterClose, a.realizedPnL + pnl, None, false)
    else
      var realized := pnl * ratio;
      var nextBal := a.balance + marginAmount + realized;
      var nextMargin := p.amount - marginAmount;
      Account(nextBal, a.realizedPnL + realized,
              Some(p.(amount := nextMargin,
                      liquidationPrice := LiquidationPrice(p.kind, p.entryPrice, nextMargin, nextBal))), false)
  }

  /**
   * handleTrade(kind) with the parsed margin input (`None` for NaN) at the
   * current price: open, add to the same side, partially close, or close
   * fully and possibly flip with the excess.
   */
  function Trade(a: Account, kind: PositionType, input: Option<real>, price: real): (r: Account)
    requires WellFormed(a)
    ensures r.liquidated == a.liquidated
    ensures a.liquidated || input.None? || input.value <= 0.0 ==> r == a
    ensures price > 0.0 ==> WellFormed(r)
  {
    if a.liquidated then a
    else if input.None? || input.value <= 0.0 then a
    else if a.position.None? then Open(a, kind, input.value, price)
    else if a.position.value.kind == kind then AddTo(a, input.value, price)
    else Reduce(a, kind, input.value, price)
  }

  /** closeTrade at `price`: realize the floating PnL and return the margin to the wallet. */
  function Close(a: Account, price: real): (r: Account)
    requires WellFormed(a)
    ensures r.position == None && r.liquidated == a.liquidated
  {
    match a.position
    case None => a
    case Some(p) =>
      var profit := PositionPnL(p, price);
      Account(a.balance + p.amount + profit, a.realizedPnL + profit, None, a.liquidated)
  }

  /** The liquidation check at the last price: a triggered position wipes the account out for the round. */
  function CheckLiquidation(a: Account, lastPrice: real): (r: Account)
    ensures r.position.Some? ==> r == a
  {
    if a.position.None? || a.liquidated then a
    else if Triggered(a.position.value, lastPrice) then
      Account(0.0, -INITIAL_VIRTUAL_BALANCE, None, true)
    else a
  }

  // ---------------------------------------------------------------------
  // Real-arithmetic helpers
  // ---------------------------------------------------------------------

  /** Multiplying by a non-zero factor is injective. */
  lemma CancelFactor(x: real, y: real, s: real)
    requires s != 0.0 && x * s == y * s
    ensures x == y
  {
    assert (x - y) * s == 0.0;
  }

  /** For a positive `s`, `x <= y / s` exactly when `x * s <= y`. */
  lemma LeDivIff(x: real, y: real, s: real)
    requires s > 0.0
    ensures x <= y / s <==> x * s <= y
  {
    var q := y / s;
    assert q * s == y;
    if x <= q { assert x * s <= q * s; } else { assert x * s > q * s; }
  }

  // ---------------------------------------------------------------------
  // Properties of the liquidation price
  // ---------------------------------------------------------------------

  /**
   * With LEVERAGE * MM_RATE == 1 the maintenance margin equals the margin,
   * and the two closed forms reduce to entry * (1 - wallet / size) for a
   * long and entry * (1 + wallet / size) for a short.
   */
  lemma LiquidationPriceClosedForm(kind: PositionType, entryPrice: real, margin: real, walletBalance: real)
    requires margin > 0.0
    ensures var size := margin * LEVERAGE;
      LiquidationPrice(kind, entryPrice, margin, walletBalance) ==
        if kind == Long then Max0(entryPrice * (1.0 - walletBalance / size))
        else Max0(entryPrice * (1.0 + walletBalance / size))
  {
    var size := margin * LEVERAGE;
    var mm := size * MM_RATE;
    assert mm == margin;
    var q := walletBalance / size;
    assert q * size == walletBalance;
    if kind == Long {
      var l := ((mm - walletBalance - margin + size) * entryPrice) / size;
      var r := entryPrice * (1.0 - q);
      assert l * size == (size - walletBalance) * entryPrice;
      assert r * size == entryPrice * size - entryPrice * (q * size);
      CancelFactor(l, r, size);
    } else {
      var l := (mm - walletBalance - margin) / size;
      assert l * size == -walletBalance;
      CancelFactor(l, -q, size);
    }
  }

  /** Multiplying by a positive factor preserves order both ways. */
  lemma MulLeIff(x: real, y: real, s: real)
    requires s > 0.0
    ensures x <= y <==> x * s <= y * s
  {
    assert y * s - x * s == (y - x) * s;
    if x <= y { assert (y - x) * s >= 0.0; } else { assert (x - y) * s > 0.0; }
  }

  /** The floating PnL of a position past its entry: the relative move scaled by the size. */
  lemma MoveTimesEntry(entry: real, price: real)
    requires entry > 0.0
    ensures Move(entry, price) * entry == price - entry
  {
  }

  // ---------------------------------------------------------------------
  // The liquidation trigger
  // ---------------------------------------------------------------------

  /** A long at a positive price is at or below entry * (1 - w / size) exactly when its floating PnL is at most -w. */
  lemma LongThreshold(entry: real, price: real, size: real, w: real)
    requires entry > 0.0 && size > 0.0 && price > 0.0
    ensures price <= Max0(entry * (1.0 - w / size)) <==> Move(entry, price) * size <= -w
  {
    var q := w / size;
    var mv := Move(entry, price);
    MoveTimesEntry(entry, price);
    assert q * size == w;
    MulLeIff(mv, -q, entry);
    assert price <= entry * (1.0 - q) <==> mv * entry <= -q * entry;
    MulLeIff(mv, -q, size);
  }

  /** A short at a positive price is at or above entry * (1 + w / size) exactly when its floating PnL is at most -w. */
  lemma ShortThreshold(entry: real, price: real, size: real, w: real)
    requires entry > 0.0 && size > 0.0 && price > 0.0
    ensures price >= Max0(entry * (1.0 + w / size)) <==> -(Move(entry, price) * size) <= -w
  {
    var q := w / size;
    var mv := Move(entry, price);
    MoveTimesEntry(entry, price);
    assert q * size == w;
    MulLeIff(q, mv, entry);
    assert price >= entry * (1.0 + q) <==> q * entry <= mv * entry;
    MulLeIff(q, mv, size);
  }

  /**
   * At a positive price, the tick check fires exactly when the equity has
   * fallen to the maintenance margin (equivalently, the floating loss has
   * eaten all the free balance): the liquidation price is that threshold.
   */
  lemma TriggeredIffEquityAtMaintenance(a: Account, price: real)
    requires Invariant(a) && a.position.Some? && price > 0.0
    ensures Triggered(a.position.value, price) <==> Equity(a, price) <= MaintenanceMargin(a)
  {
    var p := a.position.value;
    TriggeredIffLoss(p, a.balance, price);
    assert Equity(a, price) == a.balance + p.amount + PositionPnL(p, price);
    assert MaintenanceMargin(a) == p.amount;
  }

  /** A position whose liquidation price matches the free balance `w` triggers exactly when its floating loss reaches `w`. */
  lemma TriggeredIffLoss(p: Position, w: real, price: real)
    requires p.entryPrice > 0.0 && p.amount > 0.0 && price > 0.0
    requires p.liquidationPrice == LiquidationPrice(p.kind, p.entryPrice, p.amount, w)
    ensures Triggered(p, price) <==> PositionPnL(p, price) <= -w
  {
    LiquidationPriceClosedForm(p.kind, p.entryPrice, p.amount, w);
    if p.kind == Long {
      LongTriggeredIffLoss(p, w, price);
    } else {
      ShortTriggeredIffLoss(p, w, price);
    }
  }

  /** The long side of TriggeredIffLoss, from the closed-form liquidation price. */
  lemma LongTriggeredIffLoss(p: Position, w: real, price: real)
    requires p.kind == Long && p.entryPrice > 0.0 && p.amount > 0.0 && price > 0.0
    requires p.liquidationPrice == Max0(p.entryPrice * (1.0 - w / (p.amount * LEVERAGE)))
    ensures Triggered(p, price) <==> PositionPnL(p, price) <= -w
  {
    var size := p.amount * LEVERAGE;
    assert PositionPnL(p, price) == Move(p.entryPrice, price) * size;
    LongThreshold(p.entryPrice, price, size, w);
  }

  /** The short side of TriggeredIffLoss, from the closed-form liquidation price. */
  lemma ShortTriggeredIffLoss(p: Position, w: real, price: real)
    requires p.kind == Short && p.entryPrice > 0.0 && p.amount > 0.0 && price > 0.0
    requires p.liquidationPrice == Max0(p.entryPrice * (1.0 + w / (p.amount * LEVERAGE)))
    ensures Triggered(p, price) <==> PositionPnL(p, price) <= -w
  {
    var size := p.amount * LEVERAGE;
    assert PositionPnL(p, price) == -(Move(p.entryPrice, price) * size);
    ShortThreshold(p.entryPrice, price, size, w);
  }

  // ---------------------------------------------------------------------
  // The floating PnL per unit of margin
  // ---------------------------------------------------------------------

  /** The floating PnL one unit of margin earns on a `kind` position opened at `entry`, at `price`. */
  function UnitPnL(kind: PositionType, entry: real, price: real): real
    requires entry != 0.0
  {
    Move(entry, price) * LEVERAGE * Direction(kind)
  }

  /** The floating PnL is linear in the margin. */
  lemma PnLPerMargin(p: Position, price: real)
    requires p.entryPrice != 0.0
    ensures PositionPnL(p, price) == UnitPnL(p.kind, p.entryPrice, price) * p.amount
  {
  }

  /** A position opened at the current price has no floating PnL. */
  lemma PnLAtEntry(p: Position)
    requires p.entryPrice != 0.0
    ensures PositionPnL(p, p.entryPrice) == 0.0
  {
  }

  /**
   * For a live position at a positive entry, the floating PnL is a profit
   * exactly when the price has moved the position's way (up for a long,
   * down for a short), and a loss exactly when it has moved against it.
   */
  lemma PnLSign(p: Position, price: real)
    requires p.entryPrice > 0.0 && p.amount > 0.0
    ensures PositionPnL(p, price) > 0.0 <==>
      (p.kind == Long && price > p.entryPrice) || (p.kind == Short && price < p.entryPrice)
    ensures PositionPnL(p, price) < 0.0 <==>
      (p.kind == Long && price < p.entryPrice) || (p.kind == Short && price > p.entryPrice)
  {
    var m := Move(p.entryPrice, price);
    var size := p.amount * LEVERAGE;
    assert size > 0.0;
    assert m * p.entryPrice == price - p.entryPrice;
    assert m > 0.0 <==> price > p.entryPrice;
    assert m < 0.0 <==> price < p.entryPrice;
    assert m * size > 0.0 <==> m > 0.0;
    assert m * size < 0.0 <==> m < 0.0;
  }

  /** Realizing the fraction `part / whole` of a PnL linear in the margin realizes the PnL of `part`. */
  lemma FractionOfPnL(unit: real, whole: real, part: real)
    requires whole != 0.0
    ensures (unit * whole) * (part / whole) == unit * part
  {
    var f := part / whole;
    assert f * whole == part;
    assert (unit * whole) * f == unit * (f * whole);
  }

  /** The margin-weighted average of two prices lies between them. */
  lemma BlendBetween(entry: real, margin: real, price: real, delta: real)
    requires margin > 0.0 && delta > 0.0
    ensures var e := (entry * margin + price * delta) / (margin + delta);
      e * (margin + delta) == entry * margin + price * delta &&
      (entry <= price ==> entry <= e <= price) && (price <= entry ==> price <= e <= entry)
  {
    var total := margin + delta;
    var e := (entry * margin + price * delta) / total;
    assert e * total == entry * margin + price * delta;
    if entry <= price {
      assert entry * total <= entry * margin + price * delta by { NonNegProduct(price - entry, delta); }
      assert entry * margin + price * delta <= price * total by { NonNegProduct(price - entry, margin); }
      MulLeIff(entry, e, total);
      MulLeIff(e, price, total);
    }
    if price <= entry {
      assert price * total <= entry * margin + price * delta by { NonNegProduct(entry - price, margin); }
      assert entry * margin + price * delta <= entry * total by { NonNegProduct(entry - price, delta); }
      MulLeIff(price, e, total);
      MulLeIff(e, entry, total);
    }
  }

  /** For a positive margin, the close ratio reaches 1 exactly when the requested margin covers it. */
  lemma RatioAtLeastOne(marginAmount: real, amount: real)
    requires amount > 0.0
    ensures marginAmount / amount >= 1.0 <==> marginAmount >= amount
  {
    LeDivIff(1.0, marginAmount, amount);
  }

  // ---------------------------------------------------------------------
  // What a trade does
  // ---------------------------------------------------------------------

  /** At a positive price every trade keeps the account invariant. */
  lemma TradePreservesInvariant(a: Account, kind: PositionType, input: Option<real>, price: real)
    requires Invariant(a) && price > 0.0
    ensures Invariant(Trade(a, kind, input, price))
  {
  }

  /**
   * Opening from flat: rejected when the margin exceeds the free balance;
   * otherwise the margin leaves the wallet and a position of that margin
   * opens at the current price.
   */
  lemma OpenPosition(a: Account, kind: PositionType, marginAmount: real, price: real)
    requires WellFormed(a) && !a.liquidated && a.position.None? && marginAmount > 0.0
    ensures var r := Trade(a, kind, Some(marginAmount), price);
      (marginAmount > a.balance ==> r == a) &&
      (marginAmount <= a.balance ==>
        r.balance == a.balance - marginAmount && r.balance >= 0.0 && r.realizedPnL == a.realizedPnL &&
        r.position == Some(Position(kind, price, marginAmount,
                                    LiquidationPrice(kind, price, marginAmount, a.balance - marginAmount))))
  {
  }

  /**
   * Adding to the same side: rejected when the margin exceeds the free
   * balance; otherwise the margins add up, the new entry is the
   * margin-weighted average and so lies between the old entry and the
   * current price, and the wallet pays the added margin.
   */
  lemma AddToPosition(a: Account, marginAmount: real, price: real)
    requires WellFormed(a) && !a.liquidated && a.position.Some? && marginAmount > 0.0
    ensures var p := a.position.value;
      var r := Trade(a, p.kind, Some(marginAmount), price);
      (marginAmount > a.balance ==> r == a) &&
      (marginAmount <= a.balance ==>
        r.balance == a.balance - marginAmount && r.realizedPnL == a.realizedPnL && r.position.Some? &&
        var q := r.position.value;
        q.kind == p.kind && q.amount == p.amount + marginAmount &&
        q.entryPrice * q.amount == p.entryPrice * p.amount + price * marginAmount &&
        (p.entryPrice <= price ==> p.entryPrice <= q.entryPrice <= price) &&
        (price <= p.entryPrice ==> price <= q.entryPrice <= p.entryPrice) &&
        q.liquidationPrice == LiquidationPrice(p.kind, q.entryPrice, q.amount, r.balance))
  {
    BlendBetween(a.position.value.entryPrice, a.position.value.amount, price, marginAmount);
  }

  /**
   * An add keeps the dollar move of the combined position: its floating PnL
   * times its entry equals the old position's floating PnL times the old
   * entry, so the floating PnL is rescaled by old entry / new entry.
   */
  lemma AddRescalesPnL(a: Account, marginAmount: real, price: real)
    requires WellFormed(a) && !a.liquidated && a.position.Some? && 0.0 < marginAmount <= a.balance && price > 0.0
    ensures var p := a.position.value;
      var q := Trade(a, p.kind, Some(marginAmount), price).position.value;
      PositionPnL(q, price) * q.entryPrice == PositionPnL(p, price) * p.entryPrice
  {
    var p := a.position.value;
    var r := AddTo(a, marginAmount, price);
    assert Trade(a, p.kind, Some(marginAmount), price) == r;
    var e := BlendedEntry(p.entryPrice, p.amount, price, marginAmount);
    var q := r.position.value;
    assert q.kind == p.kind && q.entryPrice == e && q.amount == p.amount + marginAmount;
    BlendedMove(p, q, marginAmount, price);
  }

  /** A same-side position of margin + delta at the blended entry has the dollar move of the old one. */
  lemma BlendedMove(p: Position, q: Position, delta: real, price: real)
    requires p.entryPrice > 0.0 && q.entryPrice > 0.0 && q.kind == p.kind && q.amount == p.amount + delta
    requires q.entryPrice * q.amount == p.entryPrice * p.amount + price * delta
    ensures PositionPnL(q, price) * q.entryPrice == PositionPnL(p, price) * p.entryPrice
  {
    DollarMove(p, price);
    DollarMove(q, price);
    BlendKeepsMove(p.entryPrice, p.amount, q.entryPrice, q.amount, delta, price);
  }

  /** A blended entry keeps (price - entry) * margin: the added margin has no move at `price`. */
  lemma BlendKeepsMove(entry: real, margin: real, blended: real, total: real, delta: real, price: real)
    requires total == margin + delta && blended * total == entry * margin + price * delta
    ensures (price - blended) * total == (price - entry) * margin
  {
    assert price * total == price * margin + price * delta;
  }

  /** The floating PnL times the entry is the leveraged dollar move of the margin. */
  lemma DollarMove(p: Position, price: real)
    requires p.entryPrice > 0.0
    ensures PositionPnL(p, price) * p.entryPrice == (price - p.entryPrice) * p.amount * (LEVERAGE * Direction(p.kind))
  {
    var d := LEVERAGE * Direction(p.kind);
    PnLPerMargin(p, price);
    MoveTimesEntry(p.entryPrice, price);
    var mv := Move(p.entryPrice, price);
    assert PositionPnL(p, price) == mv * d * p.amount;
    assert (mv * d * p.amount) * p.entryPrice == (mv * p.entryPrice) * p.amount * d;
  }

  /**
   * Reducing with the opposite side by less than the margin (ratio < 1):
   * the fraction `ratio` of the floating PnL is realized and credited with
   * the returned margin, the position keeps its side and entry and shrinks
   * by the margin, and what stays floating is the rest of the PnL.
   */
  lemma PartialClose(a: Account, marginAmount: real, price: real)
    requires WellFormed(a) && !a.liquidated && a.position.Some? && marginAmount > 0.0
    requires marginAmount < a.position.value.amount
    ensures var p := a.position.value;
      var r := Trade(a, Opposite(p.kind), Some(marginAmount), price);
      var realized := PositionPnL(p, price) * (marginAmount / p.amount);
      r.realizedPnL == a.realizedPnL + realized &&
      r.balance == a.balance + marginAmount + realized &&
      r.position.Some? &&
      var q := r.position.value;
      q.kind == p.kind && q.entryPrice == p.entryPrice && q.amount == p.amount - marginAmount &&
      q.liquidationPrice == LiquidationPrice(p.kind, p.entryPrice, q.amount, r.balance) &&
      PositionPnL(q, price) == PositionPnL(p, price) - realized
  {
    var p := a.position.value;
    var m := marginAmount;
    var realized := PositionPnL(p, price) * (m / p.amount);
    var nextBal := a.balance + m + realized;
    var liq := LiquidationPrice(p.kind, p.entryPrice, p.amount - m, nextBal);
    ReduceBelowMargin(a, Opposite(p.kind), m, price);
    assert Trade(a, Opposite(p.kind), Some(m), price) == Reduce(a, Opposite(p.kind), m, price);
    ShrunkPnL(p, m, liq, price);
  }

  /** A reduce by less than the margin realizes that share of the PnL and keeps the rest of the position. */
  lemma ReduceBelowMargin(a: Account, kind: PositionType, m: real, price: real)
    requires WellFormed(a) && a.position.Some? && !a.liquidated && 0.0 < m < a.position.value.amount
    ensures var p := a.position.value;
      var realized := PositionPnL(p, price) * (m / p.amount);
      var nextBal := a.balance + m + realized;
      Reduce(a, kind, m, price) ==
        Account(nextBal, a.realizedPnL + realized,
                Some(p.(amount := p.amount - m,
                        liquidationPrice := LiquidationPrice(p.kind, p.entryPrice, p.amount - m, nextBal))), false)
  {
    RatioAtLeastOne(m, a.position.value.amount);
  }

  /** Shrinking the margin by `m` takes away the share m / amount of the floating PnL. */
  lemma ShrunkPnL(p: Position, m: real, liq: real, price: real)
    requires p.entryPrice != 0.0 && p.amount > 0.0
    ensures var q := p.(amount := p.amount - m, liquidationPrice := liq);
      PositionPnL(q, price) == PositionPnL(p, price) - PositionPnL(p, price) * (m / p.amount)
  {
    var q := p.(amount := p.amount - m, liquidationPrice := liq);
    var u := UnitPnL(p.kind, p.entryPrice, price);
    PnLPerMargin(p, price);
    PnLPerMargin(q, price);
    FractionOfPnL(u, p.amount, m);
    assert u * (p.amount - m) == u * p.amount - u * m;
  }

  /**
   * Reducing with the opposite side by at least the margin (ratio >= 1):
   * the whole floating PnL is realized; the excess opens a position on the
   * new side at the current price only if it is positive and the funds after
   * the close cover it, and otherwise the account is left flat with them.
   */
  lemma FullCloseAndFlip(a: Account, marginAmount: real, price: real)
    requires WellFormed(a) && !a.liquidated && a.position.Some? && marginAmount >= a.position.value.amount
    ensures var p := a.position.value;
      var kind := Opposite(p.kind);
      var r := Trade(a, kind, Some(marginAmount), price);
      var pnl := PositionPnL(p, price);
      var excess := marginAmount - p.amount;
      var afterClose := a.balance + p.amount + pnl;
      r.realizedPnL == a.realizedPnL + pnl &&
      (excess > 0.0 && afterClose >= excess ==>
        r.balance == afterClose - excess &&
        r.position == Some(Position(kind, price, excess, LiquidationPrice(kind, price, excess, afterClose - excess)))) &&
      (!(excess > 0.0 && afterClose >= excess) ==> r.balance == afterClose && r.position.None?)
  {
    RatioAtLeastOne(marginAmount, a.position.value.amount);
  }

  /**
   * Every trade other than an add to the same side keeps the equity and the
   * round PnL at the current price: opening, closing, flipping and reducing
   * only move value between the wallet, the margin and the realized PnL.
   */
  lemma TradeConservesEquity(a: Account, kind: PositionType, input: Option<real>, price: real)
    requires WellFormed(a) && price > 0.0
    requires a.position.None? || a.position.value.kind != kind
    ensures var r := Trade(a, kind, input, price);
      Equity(r, price) == Equity(a, price) && TotalRoundPnL(r, price) == TotalRoundPnL(a, price)
  {
    var r := Trade(a, kind, input, price);
    if !a.liquidated && input.Some? && input.value > 0.0 {
      var m := input.value;
      if a.position.None? {
        if m <= a.balance {
          PnLAtEntry(r.position.value);
        }
      } else {
        var p := a.position.value;
        assert kind == Opposite(p.kind);
        if m < p.amount {
          PartialClose(a, m, price);
        } else {
          FullCloseAndFlip(a, m, price);
          if r.position.Some? {
            PnLAtEntry(r.position.value);
          }
        }
      }
    }
  }

  /** closeTrade realizes exactly the equity into the wallet and the round PnL into the realized PnL. */
  lemma CloseRealizesEquity(a: Account, price: real)
    requires WellFormed(a)
    ensures var r := Close(a, price);
      r.balance == Equity(a, price) && r.realizedPnL == TotalRoundPnL(a, price) &&
      Equity(r, price) == Equity(a, price) && TotalRoundPnL(r, price) == TotalRoundPnL(a, price)
  {
  }

  // ---------------------------------------------------------------------
  // The liquidation check and the terminal state
  // ---------------------------------------------------------------------

  /**
   * The check liquidates exactly a live account whose position is past its
   * liquidation price, and then leaves it flat, empty, at the full-loss
   * sentinel and liquidated; otherwise it changes nothing.
   */
  lemma CheckLiquidationEffect(a: Account, lastPrice: real)
    ensures var r := CheckLiquidation(a, lastPrice);
      var fires := a.position.Some? && !a.liquidated && Triggered(a.position.value, lastPrice);
      (fires ==> r == Account(0.0, -INITIAL_VIRTUAL_BALANCE, None, true)) &&
      (!fires ==> r == a)
  {
  }

  /** Liquidation is one-way, and a liquidated account ignores every trade, close and further check. */
  lemma LiquidatedIsTerminal(a: Account, kind: PositionType, input: Option<real>, price: real)
    requires Invariant(a) && a.liquidated
    ensures Trade(a, kind, input, price) == a
    ensures Close(a, price) == a
    ensures CheckLiquidation(a, price) == a
  {
  }

  /** The check keeps the account invariant. */
  lemma CheckPreservesInvariant(a: Account, lastPrice: real)
    requires Invariant(a)
    ensures Invariant(CheckLiquidation(a, lastPrice))
  {
  }

  /** A live position that survives the check at `price` is not past its liquidation price there. */
  predicate Settled(a: Account, price: real) {
    a.position.Some? ==> !Triggered(a.position.value, price)
  }

  /** After the check at `price` the account is settled at that price. */
  lemma CheckSettles(a: Account, lastPrice: real)
    requires Invariant(a)
    ensures Settled(CheckLiquidation(a, lastPrice), lastPrice)
  {
  }

  /**
   * A position opened with the whole free balance is liquidated by the very
   * next check at the opening price: its liquidation price is the entry itself.
   */
  lemma AllInOpenIsLiquidated(a: Account, kind: PositionType, price: real)
    requires WellFormed(a) && !a.liquidated && a.position.None? && a.balance > 0.0 && price > 0.0
    ensures var r := Trade(a, kind, Some(a.balance), price);
      r.position.Some? && r.position.value.liquidationPrice == price &&
      CheckLiquidation(r, price) == Account(0.0, -INITIAL_VIRTUAL_BALANCE, None, true)
  {
    LiquidationPriceClosedForm(kind, price, a.balance, 0.0);
  }

  /** With free funds beside it, a long liquidates below its entry and a short above it. */
  lemma LiquidationPriceSide(kind: PositionType, entryPrice: real, margin: real, walletBalance: real)
    requires entryPrice > 0.0 && margin > 0.0 && walletBalance > 0.0
    ensures kind == Long ==> LiquidationPrice(kind, entryPrice, margin, walletBalance) < entryPrice
    ensures kind == Short ==> LiquidationPrice(kind, entryPrice, margin, walletBalance) > entryPrice
  {
    LiquidationPriceClosedForm(kind, entryPrice, margin, walletBalance);
    var size := margin * LEVERAGE;
    var q := walletBalance / size;
    assert q > 0.0 by { LeDivIff(0.0, walletBalance, size); assert q != 0.0 by { assert q * size == walletBalance; } }
    assert entryPrice * q > 0.0;
  }

  /**
   * The risk figure reads 100% or more exactly when the position is due for
   * liquidation, as long as the equity is positive.
   */
  lemma RiskPercentAtLimit(a: Account, price: real)
    requires Invariant(a) && a.position.Some? && price > 0.0 && Equity(a, price) > 0.0
    ensures RiskPercent(a, price) >= 100.0 <==> Triggered(a.position.value, price)
  {
    TriggeredIffEquityAtMaintenance(a, price);
    var e := Equity(a, price);
    var mm := MaintenanceMargin(a);
    assert RiskPercent(a, price) == mm / e * 100.0;
    LeDivIff(1.0, mm, e);
  }

  // ---------------------------------------------------------------------
  // Solvency
  // ---------------------------------------------------------------------

  /**
   * A settled account keeps a non-negative balance through any trade at the
   * settled price: a reduce can only lose what the free balance covers
   * before the check would have fired.
   */
  lemma SettledTradeKeepsBalance(a: Account, kind: PositionType, input: Option<real>, price: real)
    requires Invariant(a) && price > 0.0 && a.balance >= 0.0 && Settled(a, price)
    ensures Trade(a, kind, input, price).balance >= 0.0
  {
    if a.position.Some? {
      var p := a.position.value;
      TriggeredIffEquityAtMaintenance(a, price);
      assert PositionPnL(p, price) > -a.balance;
      if !a.liquidated && input.Some? && input.value > 0.0 && p.kind != kind {
        ReduceKeepsBalance(a, kind, input.value, price);
      }
    }
  }

  /** Closing a settled account at the settled price leaves a non-negative balance. */
  lemma SettledCloseKeepsBalance(a: Account, price: real)
    requires Invariant(a) && price > 0.0 && a.balance >= 0.0 && Settled(a, price)
    ensures Close(a, price).balance >= 0.0
  {
    if a.position.Some? {
      TriggeredIffEquityAtMaintenance(a, price);
    }
  }

  /** A reduce whose floating loss is smaller than the free balance leaves a non-negative balance. */
  lemma ReduceKeepsBalance(a: Account, kind: PositionType, m: real, price: real)
    requires WellFormed(a) && !a.liquidated && a.position.Some? && m > 0.0 && a.position.value.kind != kind
    requires a.balance >= 0.0 && PositionPnL(a.position.value, price) > -a.balance
    ensures Reduce(a, kind, m, price).balance >= 0.0
  {
    var p := a.position.value;
    assert kind == Opposite(p.kind);
    if m < p.amount {
      ReduceBelowMargin(a, kind, m, price);
      ShareOfLoss(PositionPnL(p, price), m, p.amount, a.balance);
    } else {
      FullCloseAndFlip(a, m, price);
      assert Trade(a, kind, Some(m), price) == Reduce(a, kind, m, price);
    }
  }

  /** A share below one of a PnL above -b is itself above -b, for b >= 0. */
  lemma ShareOfLoss(pnl: real, m: real, amount: real, b: real)
    requires 0.0 < m < amount && b >= 0.0 && pnl > -b
    ensures pnl * (m / amount) > -b
  {
    var f := m / amount;
    assert 0.0 < f < 1.0 by { LeDivIff(0.0, m, amount); RatioAtLeastOne(m, amount); assert f * amount == m; }
    if pnl < 0.0 {
      assert pnl * f >= pnl by { NonNegProduct(-pnl, 1.0 - f); }
    } else {
      NonNegProduct(pnl, f);
    }
  }

  /**
   * A trade followed by the check, from a settled account: the result is
   * again invariant and settled, and a non-negative balance stays so.
   */
  lemma TradeThenCheck(a: Account, kind: PositionType, input: Option<real>, price: real)
    requires Invariant(a) && price > 0.0 && Settled(a, price)
    ensures var r := CheckLiquidation(Trade(a, kind, input, price), price);
      Invariant(r) && Settled(r, price) && (a.balance >= 0.0 ==> r.balance >= 0.0)
  {
    TradePreservesInvariant(a, kind, input, price);
    if a.balance >= 0.0 {
      SettledTradeKeepsBalance(a, kind, input, price);
    }
  }

  /**
   * A close from a settled account: the result is invariant and flat, holds
   * the equity in its wallet and the round PnL as realized, and keeps a
   * non-negative balance non-negative.
   */
  lemma CloseFromSettled(a: Account, price: real)
    requires Invariant(a) && price > 0.0 && Settled(a, price)
    ensures var r := Close(a, price);
      Invariant(r) && r.position.None? && r.liquidated == a.liquidated &&
      r.balance == Equity(a, price) && r.realizedPnL == TotalRoundPnL(a, price) &&
      (a.balance >= 0.0 ==> r.balance >= 0.0)
  {
    CloseRealizesEquity(a, price);
    if a.balance >= 0.0 {
      SettledCloseKeepsBalance(a, price);
    }
  }

  /**
   * Without the check the balance can go negative: a long of margin 1000 at
   * 100 with no free funds, reduced by half at 50 (far past its liquidation
   * price of 100), leaves a balance of -4500.
   */
  lemma UncheckedReduceCanOverdraw()
    ensures var p := Position(Long, 100.0, 1000.0, LiquidationPrice(Long, 100.0, 1000.0, 0.0));
      var a := Account(0.0, 0.0, Some(p), false);
      Invariant(a) && !Settled(a, 50.0) &&
      Trade(a, Short, Some(500.0), 50.0).balance == -4500.0
  {
    var p := Position(Long, 100.0, 1000.0, LiquidationPrice(Long, 100.0, 1000.0, 0.0));
    LiquidationPriceClosedForm(Long, 100.0, 1000.0, 0.0);
    assert p.liquidationPrice == 100.0;
    assert PositionPnL(p, 50.0) == -10000.0;
  }

  // ---------------------------------------------------------------------
  // Worked rounds
  // ---------------------------------------------------------------------

  /** A fresh round that opens a long of margin 1000 at 100. */
  function LongAt100(): Account {
    Trade(InitialAccount(), Long, Some(1000.0), 100.0)
  }

  /**
   * Adding 1000 of margin at 200 to a long of 1000 at 100 blends the entry
   * to 150. The add re-prices the old margin at the new entry, so the equity
   * at 200 falls from 30000 to 70000 / 3 although the price has not moved.
   */
  lemma BlendExample()
    ensures var r := Trade(LongAt100(), Long, Some(1000.0), 200.0);
      r.position.Some? && r.position.value.entryPrice == 150.0 && r.position.value.amount == 2000.0 &&
      r.balance == 8000.0 &&
      Equity(LongAt100(), 200.0) == 30000.0 && Equity(r, 200.0) * 3.0 == 70000.0
  {
    var a := LongAt100();
    assert a.balance == 9000.0 && a.position.value.entryPrice == 100.0 && a.position.value.amount == 1000.0;
    assert PositionPnL(a.position.value, 200.0) == 20000.0;
    AddToPosition(a, 1000.0, 200.0);
    var r := Trade(a, Long, Some(1000.0), 200.0);
    assert r.position.value.entryPrice == 150.0 && r.position.value.amount == 2000.0;
    assert Move(150.0, 200.0) * 3.0 == 1.0;
    assert PositionPnL(r.position.value, 200.0) * 3.0 == 40000.0;
  }

  /**
   * Reducing a long of 1000 at 100 by 500 at 110 realizes 1000, credits the
   * wallet with 1500 and leaves 500 of margin at the entry of 100.
   */
  lemma PartialCloseExample()
    ensures var r := Trade(LongAt100(), Short, Some(500.0), 110.0);
      r.realizedPnL == 1000.0 && r.balance == 9000.0 + 1500.0 &&
      r.position.Some? && r.position.value.amount == 500.0 && r.position.value.entryPrice == 100.0
  {
    var a := LongAt100();
    assert a.balance == 9000.0 && a.position.value.entryPrice == 100.0 && a.position.value.amount == 1000.0;
    PartialClose(a, 500.0, 110.0);
    assert PositionPnL(a.position.value, 110.0) == 2000.0;
    assert 500.0 / 1000.0 == 0.5;
  }

  /**
   * Selling 1500 against a long of 1000 at 100, at 100, realizes nothing,
   * returns the 1000 of margin and opens a short of the 500 excess at 100.
   */
  lemma FlipExample()
    ensures var r := Trade(LongAt100(), Short, Some(1500.0), 100.0);
      r.realizedPnL == 0.0 && r.balance == 9000.0 + 1000.0 - 500.0 &&
      r.position.Some? && r.position.value.kind == Short &&
      r.position.value.amount == 500.0 && r.position.value.entryPrice == 100.0
  {
    var a := LongAt100();
    assert a.balance == 9000.0 && a.position.value.entryPrice == 100.0 && a.position.value.amount == 1000.0;
    FullCloseAndFlip(a, 1500.0, 100.0);
    PnLAtEntry(a.position.value);
  }
}
