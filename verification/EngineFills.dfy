/** Every trade of a run, told from the frame, the signals and the quoted costs alone: where it was
    opened and why, where it was closed and why, at which bar's price, and what it earned. */
module EngineFills {
  import opened Wrappers
  import opened Calendar
  import opened Costs
  import opened Intraday
  import opened Engine
  import opened EngineDelay
  import EngineCash

  // ---- Fills ------------------------------------------------------------------------------------------

  /** Bought or sold half the quoted spread worse than the reference. Outside 09:30 to 16:00 New York time
      an intraday run is quoted the wider spread; `regular` fills never are. */
  ghost predicate FilledAt(c: Config, ny: NewYork, reference: real, time: int, regular: bool, buys: bool, price: real) {
    var minute := ny(time) % 1440;
    var wide := !regular && c.barsPerYear > 252 && (minute < 570 || minute >= 960);
    var bps := if wide then c.costs.extendedHoursSpreadBps else c.costs.spreadBps;
    reference > 0.0 && price == reference * (1.0 + (if buys then bps else -bps) / 20_000.0)
  }

  lemma ExitIsFilledAt(c: Config, ny: NewYork, reference: real, time: int, regular: bool, side: Side)
    ensures var fill := c.costs.ExitFillPrice(reference, side, !regular && IsExtended(c, ny, time));
            fill.Ok? ==> FilledAt(c, ny, reference, time, regular, side.Short?, fill.value)
  {}

  lemma EntryIsFilledAt(c: Config, ny: NewYork, reference: real, time: int, side: Side)
    ensures var fill := c.costs.EntryFillPrice(reference, side, IsExtended(c, ny, time));
            fill.Ok? ==> FilledAt(c, ny, reference, time, false, side.Long?, fill.value)
  {}

  // ---- How a trade is opened -----------------------------------------------------------------------------

  /** The plan's numbers are positive and in order for its side, those of them there are. */
  ghost predicate PlanInOrder(sig: Signal) {
    && (sig.price.Some? ==> sig.price.value > 0.0)
    && (sig.stopLoss.Some? ==> sig.stopLoss.value > 0.0)
    && (sig.takeProfit.Some? ==> sig.takeProfit.value > 0.0)
    && (sig.price.Some? && sig.stopLoss.Some? && sig.takeProfit.Some? ==>
          if sig.action.Sell? then sig.takeProfit.value < sig.price.value < sig.stopLoss.value
          else sig.stopLoss.value < sig.price.value < sig.takeProfit.value)
  }

  /** The signal may open a trade of the run's side: a buy in a long run; in a short one a sell that
      was marked as a short entry and has both levels. */
  ghost predicate MayOpen(sig: Signal, short: bool) {
    && (if short then sig.action.Sell? && sig.entryShort && sig.stopLoss.Some? && sig.takeProfit.Some?
        else sig.action.Buy?)
    && PlanInOrder(sig)
  }

  /** The trade's levels are the signal's, or a long stop is widened to the floor below the fill and the
      target moved with it in the signal's own proportion. */
  ghost predicate LevelsFrom(o: OpenTrade, sig: Signal, floor: real) {
    if floor <= 0.0 || o.side.Short? || sig.stopLoss.None? then o.stopLoss == sig.stopLoss
       && o.takeProfit == sig.takeProfit
    else
      var price := if sig.price.Some? then sig.price.value else o.entryPrice;
      && o.stopLoss.Some? && o.stopLoss.value <= sig.stopLoss.value && o.entryPrice - o.stopLoss.value >= floor
      && (o.stopLoss == sig.stopLoss ==> o.takeProfit == sig.takeProfit)
      && (o.stopLoss != sig.stopLoss ==> o.entryPrice - o.stopLoss.value == floor)
      && (o.stopLoss != sig.stopLoss && sig.takeProfit.Some? && price > sig.stopLoss.value ==>
            o.takeProfit.Some? && (o.takeProfit.value - o.entryPrice) * (price - sig.stopLoss.value) ==
                                  (sig.takeProfit.value - price) * (o.entryPrice - o.stopLoss.value))
  }

  /** The distance no long stop may be closer than: a multiple of the session average true range, for an
      intraday run that sets one and has seen sessions enough. */
  ghost function FloorAt(env: Env, i: nat): real
    requires i < |env.frame|
  {
    var atr, multiple := SessionAtr(env.frame, env.ny, i), env.config.minStopSessionAtrMultiple;
    if env.config.barsPerYear > 252 && multiple > 0.0 && atr.Some? then atr.value * multiple else 0.0
  }

  /** What the quantity was bought with: all the cash, or with a risk budget and a stop, either the loss at
      the stop is the budget or the notional is the leveraged cash, whichever binds first. */
  ghost predicate Sized(c: Config, cash: real, o: OpenTrade) {
    if c.riskPerTradePct.None? || o.stopLoss.None? || o.stopLoss.value <= 0.0 then o.entryNotional == cash
    else
      var stop := o.stopLoss.value;
      var apart := if o.entryPrice < stop then stop - o.entryPrice else o.entryPrice - stop;
      var budget := cash * (c.riskPerTradePct.value / 100.0);
      var cap := cash * (if c.leverage > 1 then c.leverage else 1) as real;
      Binds(o.quantity, apart, o.entryPrice, budget, cap, o.entryNotional)
  }

  ghost predicate Binds(quantity: real, apart: real, price: real, budget: real, cap: real, notional: real) {
    || (quantity * apart == budget && notional <= cap)
    || (notional == cap && apart > 0.0 && budget / apart * price > cap)
  }

  /** The recorded entry spread is the quantity times the gap from the open to the fill; a long filled below
      the open has none. */
  ghost predicate SpreadPaid(o: OpenTrade, open: real) {
    var gap := if o.side.Long? then o.entryPrice - open
               else if o.entryPrice < open then open - o.entryPrice else o.entryPrice - open;
    o.entrySpreadUsd == if gap > 0.0 then o.quantity * gap else 0.0
  }

  lemma SpreadOfFill(o: OpenTrade, open: real)
    requires o.quantity > 0.0
    requires var spread := o.quantity * o.entryPrice - o.quantity * open;
             o.entrySpreadUsd == if o.side.Long? then Max(spread, 0.0) else Abs(spread)
    ensures SpreadPaid(o, open)
  {
    Distribute(o.quantity, o.entryPrice, -open);
    Distribute(o.quantity, open, -o.entryPrice);
    var gap := o.entryPrice - open;
    assert o.quantity * gap == o.quantity * o.entryPrice - o.quantity * open;
    assert gap > 0.0 <==> o.quantity * gap > 0.0;
  }

  /** The spread recorded at a regular exit is the quantity times the gap from the reference to the fill. */
  lemma ExitSpreadIsTheGap(o: OpenTrade, reference: real, time: int, m: CostModel)
    requires reference > 0.0 && o.quantity > 0.0 && 0.0 <= m.spreadBps < 19_999.0
    ensures var price := m.ExitFillPrice(reference, o.side, false).value;
            CostsOf(o, price, time, m).spread ==
            o.entrySpreadUsd + o.quantity * (if price < reference then reference - price else price - reference)
  {
    var price := m.ExitFillPrice(reference, o.side, false).value;
    var factor := FactorOfExit(o.side, reference, m);
    Undone(reference, factor);
    SpreadOfExit(o, price, time, m, factor);
    hide CostsOf, CostModel.ExitFillPrice, Abs;
    GapIsTimes(o.quantity, price, reference);
  }

  lemma FactorOfExit(side: Side, reference: real, m: CostModel) returns (factor: real)
    requires reference > 0.0 && 0.0 <= m.spreadBps < 19_999.0
    ensures factor == if side.Long? then 1.0 - m.HalfSpreadFraction(false) else 1.0 + m.HalfSpreadFraction(false)
    ensures factor > 0.000000001 && m.ExitFillPrice(reference, side, false).value == reference * factor
  {
    DragIsSmall(m);
    if side.Long? {
      factor := 1.0 - m.HalfSpreadFraction(false);
    } else {
      factor := 1.0 + m.HalfSpreadFraction(false);
    }
  }

  lemma DragIsSmall(m: CostModel)
    requires 0.0 <= m.spreadBps < 19_999.0
    ensures 0.0 <= m.HalfSpreadFraction(false) < 0.99995
  {}

  lemma Undone(reference: real, factor: real)
    requires factor > 0.0
    ensures reference * factor / factor == reference
  {}

  lemma GapIsTimes(quantity: real, price: real, reference: real)
    requires quantity > 0.0
    ensures Abs(quantity * price - quantity * reference) ==
            quantity * (if price < reference then reference - price else price - reference)
  {
    Distribute(quantity, price, -reference);
    Distribute(quantity, reference, -price);
    assert price < reference <==> quantity * (price - reference) < 0.0;
  }

  lemma SpreadOfExit(o: OpenTrade, price: real, time: int, m: CostModel, factor: real)
    requires factor == (if o.side.Long? then 1.0 - m.HalfSpreadFraction(false) else 1.0 + m.HalfSpreadFraction(false))
    requires factor > 0.000000001
    ensures CostsOf(o, price, time, m).spread ==
            o.entrySpreadUsd + Abs(o.quantity * price - o.quantity * (price / factor))
  {
    hide CostModel.HalfSpreadFraction;
  }

  /** The trade was opened at bar e's open, on the signal of the bar before it, or of `entryDelayBars`
      bars further back. */
  ghost predicate OpenedOn(env: Env, o: OpenTrade, e: nat, sig: Signal) {
    var delay := if env.config.entryDelayBars > 0 then env.config.entryDelayBars else 0;
    && delay < e < |env.frame| && (env.strategy)(env.frame[..e - delay]) == Some(sig)
    && MayOpen(sig, env.config.shortEntries)
    && o.entryBarIndex == e && o.entryTime == env.frame[e].time
    && o.side == (if env.config.shortEntries then Short else Long)
    && FilledAt(env.config, env.ny, env.frame[e].open, o.entryTime, false, o.side.Long?, o.entryPrice)
    && o.quantity > 0.0 && o.entryNotional == o.quantity * o.entryPrice >= env.config.costs.minPositionUsd
    && SpreadPaid(o, env.frame[e].open)
    && o.maxHoldBars == (if sig.maxHoldBars.Some? && sig.maxHoldBars.value > 0 then sig.maxHoldBars else None)
    && LevelsFrom(o, sig, FloorAt(env, e - 1))
  }

  lemma PlanMayOpen(sig: Signal, short: bool)
    ensures ValidTradePlan(sig) <==> PlanInOrder(sig)
    ensures ValidTradePlan(sig) && OpensPosition(sig, short) <==> MayOpen(sig, short)
  {}

  lemma FillTakesTheLevels(sig: Signal, open: real, time: int, cash: real, c: Config, e: nat, floor: real, ny: NewYork)
    requires FillAt(sig, open, time, cash, c, e, floor, ny).Ok?
             && FillAt(sig, open, time, cash, c, e, floor, ny).value.Some?
    ensures LevelsFrom(FillAt(sig, open, time, cash, c, e, floor, ny).value.value, sig, floor)
  {
    hide SizePosition, ValidTradePlan, IsExtendedHours, CostModel.EntryFillPrice, FlooredStopAndTarget, LevelsFrom,
         CostModel.AcceptsPosition;
    var o := FillAt(sig, open, time, cash, c, e, floor, ny).value.value;
    if floor > 0.0 && sig.stopLoss.Some? && !c.shortEntries {
      var price := if sig.price.Some? then sig.price.value else o.entryPrice;
      assert (o.stopLoss, o.takeProfit) ==
             (Some(FlooredStopAndTarget(o.entryPrice, price, sig.stopLoss.value, sig.takeProfit, floor).0),
              FlooredStopAndTarget(o.entryPrice, price, sig.stopLoss.value, sig.takeProfit, floor).1);
      FlooredLevels(o, sig, floor);
    } else {
      UnflooredLevels(o, sig, floor);
    }
  }

  lemma FlooredLevels(o: OpenTrade, sig: Signal, floor: real)
    requires floor > 0.0 && sig.stopLoss.Some? && o.side.Long?
    requires var (s, t) := FlooredStopAndTarget(o.entryPrice, if sig.price.Some? then sig.price.value else o.entryPrice,
                                                sig.stopLoss.value, sig.takeProfit, floor);
             o.stopLoss == Some(s) && o.takeProfit == t
    ensures LevelsFrom(o, sig, floor)
  {
    var price := if sig.price.Some? then sig.price.value else o.entryPrice;
    FloorKeepsRewardToRisk(o.entryPrice, price, sig.stopLoss.value, sig.takeProfit, floor);
    FloorIsTheDistance(o.entryPrice, price, sig.stopLoss.value, sig.takeProfit, floor);
    hide FlooredStopAndTarget;
  }

  lemma UnflooredLevels(o: OpenTrade, sig: Signal, floor: real)
    requires floor <= 0.0 || sig.stopLoss.None? || o.side.Short?
    requires o.stopLoss == sig.stopLoss && o.takeProfit == sig.takeProfit
    ensures LevelsFrom(o, sig, floor)
  {}

  lemma FillTakesItsTerms(sig: Signal, open: real, time: int, cash: real, c: Config, e: nat, floor: real, ny: NewYork)
    requires FillAt(sig, open, time, cash, c, e, floor, ny).Ok?
             && FillAt(sig, open, time, cash, c, e, floor, ny).value.Some?
    ensures var o := FillAt(sig, open, time, cash, c, e, floor, ny).value.value;
            && ValidTradePlan(sig) && o.quantity > 0.0
            && o.entryBarIndex == e && o.entryTime == time && o.side == (if c.shortEntries then Short else Long)
            && c.costs.EntryFillPrice(open, o.side, IsExtended(c, ny, time)) == Ok(o.entryPrice)
            && o.entryNotional == o.quantity * o.entryPrice >= c.costs.minPositionUsd
            && SpreadPaid(o, open)
            && o.maxHoldBars == (if sig.maxHoldBars.Some? && sig.maxHoldBars.value > 0 then sig.maxHoldBars else None)
  {
    hide SizePosition, ValidTradePlan, IsExtendedHours, CostModel.EntryFillPrice, FlooredStopAndTarget;
    SpreadOfFill(FillAt(sig, open, time, cash, c, e, floor, ny).value.value, open);
  }

  lemma FloorIsTheDistance(fill: real, price: real, stop: real, target: Option<real>, floor: real)
    requires floor > 0.0
    ensures var (s, t) := FlooredStopAndTarget(fill, price, stop, target, floor);
            && (s != stop ==> fill - s == floor)
            && (target.Some? ==> t.Some?)
  {}

  ghost predicate Opened(env: Env, o: OpenTrade, e: nat) {
    exists sig :: OpenedOn(env, o, e, sig)
  }

  lemma EntryIsExplained(env: Env, i: nat)
    requires Sorted(env.frame) && i < |env.frame| && OpenedAt(env, i)
    ensures Opened(env, RunTo(env, i + 1).value.open.value, i + 1)
  {
    hide EvaluateExit, PlannedExit, AtSessionEnd, EntrySignal, OpensPosition, FillAt, Exits, Push, MarkToMarket, RunTo,
         FilledAt, LevelsFrom, MayOpen, FloorAt, MinStopDistance;
    assert RunTo(env, i + 1).Ok? && FlatAt(env, i);
    DelayRule(env, i);
    var flat := Exits(env, RunTo(env, i).value, i).value;
    StepOpens(env, i);
    OpenedThroughEntry(env, flat, i);
    var k := Delay(env.config);
    var sig := SignalAt(env, i - k).value;
    assert DirectRule(env, i);
    SomethingQueued(env, flat, i);
    assert EntrySignal(env, Queued(env, flat, i), i) == Some(sig);
    var next := env.frame[i + 1];
    EntryFills(env, flat, i, sig);
    FillTakesTheLevels(sig, next.open, next.time, flat.cash, env.config, i + 1, MinStopDistance(env, i), env.ny);
    FillTakesItsTerms(sig, next.open, next.time, flat.cash, env.config, i + 1, MinStopDistance(env, i), env.ny);
    var o := RunTo(env, i + 1).value.open.value;
    EntryIsFilledAt(env.config, env.ny, next.open, next.time, o.side);
    PlanMayOpen(sig, env.config.shortEntries);
    FloorIsTheMultiple(env, i);
    assert OpenedOn(env, o, i + 1, sig);
  }

  lemma FloorIsTheMultiple(env: Env, i: nat)
    requires i < |env.frame|
    ensures MinStopDistance(env, i) == FloorAt(env, i)
  {
    hide SessionAtr;
  }

  lemma OrderIsSized(sig: Signal, open: real, time: int, cash: real, c: Config, e: nat, floor: real, ny: NewYork)
    requires FillAt(sig, open, time, cash, c, e, floor, ny).Ok?
             && FillAt(sig, open, time, cash, c, e, floor, ny).value.Some?
    ensures Sized(c, cash, FillAt(sig, open, time, cash, c, e, floor, ny).value.value)
  {
    hide ValidTradePlan, IsExtendedHours, CostModel.EntryFillPrice, FlooredStopAndTarget, SizePosition, Sized;
    var o := FillAt(sig, open, time, cash, c, e, floor, ny).value.value;
    assert SizePosition(o.stopLoss, o.entryPrice, cash, c) == Ok(o.quantity) && o.quantity > 0.0;
    SizeMeansSized(o, cash, c);
  }

  lemma SizeMeansSized(o: OpenTrade, cash: real, c: Config)
    requires SizePosition(o.stopLoss, o.entryPrice, cash, c) == Ok(o.quantity) && o.quantity > 0.0
    requires o.entryNotional == o.quantity * o.entryPrice
    ensures Sized(c, cash, o)
  {
    hide SizePosition, Sized, RiskBudget, NotionalCap, Binds;
    if c.riskPerTradePct.None? || o.stopLoss.None? || o.stopLoss.value <= 0.0 {
      SizedByCash(o, cash, c);
    } else {
      BudgetOrCap(o.stopLoss.value, o.entryPrice, cash, c);
      OneOfThemBinds(o.quantity, Abs(o.entryPrice - o.stopLoss.value), o.entryPrice, RiskBudget(c, cash),
                     NotionalCap(c, cash));
      SizedByBudget(o, cash, c);
    }
  }

  lemma SizedByCash(o: OpenTrade, cash: real, c: Config)
    requires SizePosition(o.stopLoss, o.entryPrice, cash, c) == Ok(o.quantity) && o.quantity > 0.0
    requires o.entryNotional == o.quantity * o.entryPrice
    requires c.riskPerTradePct.None? || o.stopLoss.None? || o.stopLoss.value <= 0.0
    ensures Sized(c, cash, o)
  {
    Quotient(cash, o.entryPrice);
  }

  lemma SizedByBudget(o: OpenTrade, cash: real, c: Config)
    requires c.riskPerTradePct.Some? && o.stopLoss.Some? && o.stopLoss.value > 0.0
    requires Binds(o.quantity, Abs(o.entryPrice - o.stopLoss.value), o.entryPrice, RiskBudget(c, cash),
                   NotionalCap(c, cash), o.entryNotional)
    ensures Sized(c, cash, o)
  {}

  lemma OneOfThemBinds(q: real, apart: real, fill: real, budget: real, cap: real)
    requires || (apart > 0.0 && q == budget / apart && q * fill <= cap)
             || (apart > 0.0 && fill != 0.0 && q == cap / fill && budget / apart * fill > cap)
    ensures Binds(q, apart, fill, budget, cap, q * fill)
  {
    Quotient(budget, apart);
    Quotient(cap, fill);
  }

  lemma BudgetOrCap(stop: real, fill: real, cash: real, c: Config)
    requires c.riskPerTradePct.Some? && stop > 0.0 && SizePosition(Some(stop), fill, cash, c).Ok?
    ensures var q, apart := SizePosition(Some(stop), fill, cash, c).value, Abs(fill - stop);
            var budget, cap := RiskBudget(c, cash), NotionalCap(c, cash);
            || (q == 0.0 && apart <= 0.0)
            || (apart > 0.0 && q == budget / apart && q * fill <= cap)
            || (apart > 0.0 && fill != 0.0 && q == cap / fill && budget / apart * fill > cap)
  {
    hide RiskBudget, NotionalCap;
  }

  lemma Quotient(total: real, unit: real)
    ensures unit != 0.0 ==> total / unit * unit == total
  {}

  /** A fresh trade was bought with what the run held: the initial cash and all it has earned since. */
  lemma EntrySpendsWhatWasEarned(env: Env, i: nat)
    requires Sorted(env.frame) && i < |env.frame| && OpenedAt(env, i)
    ensures var s := RunTo(env, i + 1).value;
            Sized(env.config, env.config.initialCash + EngineCash.SumPnl(s.trades), s.open.value)
  {
    hide EvaluateExit, PlannedExit, AtSessionEnd, EntrySignal, OpensPosition, FillAt, Exits, Push, MarkToMarket, RunTo,
         MinStopDistance, Sized, Enter, EngineCash.SumPnl;
    assert RunTo(env, i + 1).Ok? && FlatAt(env, i);
    DelayRule(env, i);
    var flat := Exits(env, RunTo(env, i).value, i).value;
    StepOpens(env, i);
    OpenedThroughEntry(env, flat, i);
    var sig := SignalAt(env, i - Delay(env.config)).value;
    assert DirectRule(env, i);
    SomethingQueued(env, flat, i);
    assert EntrySignal(env, Queued(env, flat, i), i) == Some(sig);
    var next := env.frame[i + 1];
    EntryFills(env, flat, i, sig);
    OrderIsSized(sig, next.open, next.time, flat.cash, env.config, i + 1, MinStopDistance(env, i), env.ny);
    EnterKeepsTrades(env, flat, i);
    EngineCash.CashConserved(env, i);
    EngineCash.ExitsKeepBalance(env, RunTo(env, i).value, i);
  }

  /** An order is refused exactly when its plan is broken, there is no price to buy at, it would fill in
      extended hours that are not allowed, or its size comes to nothing or to less than the broker takes. */
  lemma OrderIsRefusedExactly(sig: Signal, open: real, time: int, cash: real, c: Config, e: nat, floor: real,
                              ny: NewYork)
    requires FillAt(sig, open, time, cash, c, e, floor, ny).Ok?
    ensures FillAt(sig, open, time, cash, c, e, floor, ny).value.None? <==>
            || !PlanInOrder(sig) || open <= 0.0
            || (c.barsPerYear > 252 && !(570 <= ny(time) % 1440 < 960) && !c.allowExtendedHours)
            || TooSmall(sig, open, time, cash, c, floor, ny)
  {
    PlanMayOpen(sig, c.shortEntries);
    hide ValidTradePlan, PlanInOrder, MayOpen, OpensPosition, SizePosition, TooSmall, CostModel.EntryFillPrice;
    var side, extended := if c.shortEntries then Short else Long, IsExtended(c, ny, time);
    var price := c.costs.EntryFillPrice(open, side, extended);
    if ValidTradePlan(sig) && open > 0.0 && (extended ==> c.allowExtendedHours) {
      EntryIsFilledAt(c, ny, open, time, side);
      var stop := FlooredStop(c, sig, price.value, floor);
      assert FillAt(sig, open, time, cash, c, e, floor, ny).value.None? <==>
             var size := SizePosition(stop, price.value, cash, c).value;
             size <= 0.0 || size * price.value < c.costs.minPositionUsd;
      SmallOrNot(sig, open, time, cash, c, floor, ny, price.value);
    } 
  }

  ghost function FlooredStop(c: Config, sig: Signal, price: real, floor: real): Option<real> {
    if c.shortEntries || sig.stopLoss.None? || floor <= 0.0 then sig.stopLoss
    else Some(Min(sig.stopLoss.value, price - floor))
  }

  lemma SmallOrNot(sig: Signal, open: real, time: int, cash: real, c: Config, floor: real, ny: NewYork, price: real)
    requires FilledAt(c, ny, open, time, false, !c.shortEntries, price)
    ensures TooSmall(sig, open, time, cash, c, floor, ny) <==> SmallAt(sig, cash, c, floor, price)
  {
    hide SmallAt;
    if TooSmall(sig, open, time, cash, c, floor, ny) {
      var p :| FilledAt(c, ny, open, time, false, !c.shortEntries, p) && SmallAt(sig, cash, c, floor, p);
      assert p == price;
    }
  }

  ghost predicate SmallAt(sig: Signal, cash: real, c: Config, floor: real, price: real) {
    var size := SizePosition(FlooredStop(c, sig, price, floor), price, cash, c);
    size.Ok? && (size.value <= 0.0 || size.value * price < c.costs.minPositionUsd)
  }

  /** The order's fill, its stop held off the fill by the floor, and the size they give. */
  ghost predicate TooSmall(sig: Signal, open: real, time: int, cash: real, c: Config, floor: real, ny: NewYork) {
    exists price :: FilledAt(c, ny, open, time, false, !c.shortEntries, price) && SmallAt(sig, cash, c, floor, price)
  }

  /** The order bar i's signal of the delay before it would place: it may open a trade, and it is not refused
      with the cash the run has. */
  ghost predicate Places(env: Env, i: nat, sig: Signal, cash: real)
    requires i + 1 < |env.frame|
  {
    var c, next := env.config, env.frame[i + 1];
    && MayOpen(sig, c.shortEntries) && next.open > 0.0
    && (c.barsPerYear > 252 && !(570 <= env.ny(next.time) % 1440 < 960) ==> c.allowExtendedHours)
    && !TooSmall(sig, next.open, next.time, cash, c, FloorAt(env, i), env.ny)
  }

  /** A trade is opened after bar i if and only if bars i - k to i were flat and unbroken by an entry or a
      session's end, there is a next bar, and the signal of bar i - k places an order with the initial cash and
      all the run has earned. */
  lemma OpensExactly(env: Env, i: nat)
    requires Sorted(env.frame) && i < |env.frame| && Evaluated(env, i) && RunTo(env, i + 1).Ok?
    ensures RunTo(env, i).Ok? && Exits(env, RunTo(env, i).value, i).Ok?
    ensures var k := Delay(env.config);
            var flat := Exits(env, RunTo(env, i).value, i).value;
            OpenedAt(env, i) <==>
              && FlatAt(env, i) && !AtSessionEnd(env, i) && i >= k && FlatAt(env, i - k)
              && (forall j | i - k <= j < i :: !OpenedAt(env, j) && !AtSessionEnd(env, j))
              && i + 1 < |env.frame|
              && SignalAt(env, i - k).Some?
              && Places(env, i, SignalAt(env, i - k).value, env.config.initialCash + EngineCash.SumPnl(flat.trades))
  {
    hide EvaluateExit, PlannedExit, AtSessionEnd, EntrySignal, OpensPosition, FillAt, Exits, Push, MarkToMarket, RunTo,
         MinStopDistance, Enter, EngineCash.SumPnl, Places, Evaluated;
    PrefixOk(env, i, i + 1);
    DelayRule(env, i);
    var flat, k := Exits(env, RunTo(env, i).value, i).value, Delay(env.config);
    NextIsEntered(env, i);
    EngineCash.CashConserved(env, i);
    EngineCash.ExitsKeepBalance(env, RunTo(env, i).value, i);
    if flat.open.None? {
      FlatCash(env, flat);
    }
    if DirectRule(env, i) && i + 1 < |env.frame| {
      var sig := SignalAt(env, i - k).value;
      SomethingQueued(env, flat, i);
      EntersOrNot(env, flat, i, sig);
      PlacesOrNot(env, flat, i, sig);
    } else {
      if flat.open.None? {
        NoTryNoTrade(env, flat, i);
      }
      if i + 1 < |env.frame| && i >= k && SignalAt(env, i - k).Some? {
        PlacedMayOpen(env, i, SignalAt(env, i - k).value, env.config.initialCash + EngineCash.SumPnl(flat.trades));
      }
    }
  }

  lemma PlacedMayOpen(env: Env, i: nat, sig: Signal, cash: real)
    requires i + 1 < |env.frame|
    ensures Places(env, i, sig, cash) ==> OpensPosition(sig, env.config.shortEntries)
  {
    PlanMayOpen(sig, env.config.shortEntries);
    hide TooSmall, FloorAt;
  }

  lemma FlatCash(env: Env, flat: State)
    requires flat.open.None? && EngineCash.Balanced(env, flat)
    ensures flat.cash == env.config.initialCash + EngineCash.SumPnl(flat.trades)
  {
    hide EngineCash.SumPnl;
  }

  lemma NextIsEntered(env: Env, i: nat)
    requires i < |env.frame| && Evaluated(env, i) && RunTo(env, i).Ok? && RunTo(env, i + 1).Ok?
    ensures Exits(env, RunTo(env, i).value, i).Ok?
    ensures Enter(env, Exits(env, RunTo(env, i).value, i).value, i) == RunTo(env, i + 1)
  {
    hide Exits, Enter;
  }

  /** Bar i tries to open on this signal and there is a next bar: it ends in a trade unless the order is refused. */
  lemma EntersOrNot(env: Env, flat: State, i: nat, sig: Signal)
    requires i + 1 < |env.frame| && Enter(env, flat, i).Ok? && TriesToOpen(env, flat, i)
    requires EntrySignal(env, Queued(env, flat, i), i) == Some(sig)
    ensures var next := env.frame[i + 1];
            var fill := FillAt(sig, next.open, next.time, flat.cash, env.config, i + 1, MinStopDistance(env, i),
                               env.ny);
            fill.Ok? && fill.value.Some? == Enter(env, flat, i).value.open.Some?
  {
    hide FillAt, EntrySignal, OpensPosition, AtSessionEnd, MarkToMarket, MinStopDistance, Push;
  }

  lemma PlacesOrNot(env: Env, flat: State, i: nat, sig: Signal)
    requires i + 1 < |env.frame| && OpensPosition(sig, env.config.shortEntries)
    requires var next := env.frame[i + 1];
             FillAt(sig, next.open, next.time, flat.cash, env.config, i + 1, MinStopDistance(env, i), env.ny).Ok?
    ensures var next := env.frame[i + 1];
            Places(env, i, sig, flat.cash) <==>
            FillAt(sig, next.open, next.time, flat.cash, env.config, i + 1, MinStopDistance(env, i), env.ny).value.Some?
  {
    hide FillAt, OpensPosition, MayOpen, PlanInOrder, MinStopDistance, TooSmall, FloorAt;
    var next := env.frame[i + 1];
    FloorIsTheMultiple(env, i);
    PlanMayOpen(sig, env.config.shortEntries);
    OrderIsRefusedExactly(sig, next.open, next.time, flat.cash, env.config, i + 1, MinStopDistance(env, i), env.ny);
  }

  lemma NoTryNoTrade(env: Env, flat: State, i: nat)
    requires i < |env.frame| && flat.open.None? && Enter(env, flat, i).Ok?
    requires !TriesToOpen(env, flat, i) || i + 1 == |env.frame|
    ensures Enter(env, flat, i).value.open.None?
  {
    hide FillAt, EntrySignal, OpensPosition, AtSessionEnd, MarkToMarket, MinStopDistance, Push;
  }

  lemma SomethingQueued(env: Env, flat: State, i: nat)
    requires i < |env.frame|
    ensures |Queued(env, flat, i)| > 0
  {}

  lemma StepOpens(env: Env, i: nat)
    requires i < |env.frame| && OpenedAt(env, i)
    ensures var flat := Exits(env, RunTo(env, i).value, i).value;
            Enter(env, flat, i).Ok? && Enter(env, flat, i).value == RunTo(env, i + 1).value
  {
    hide Exits, Enter;
  }

  lemma EntryFills(env: Env, flat: State, i: nat, sig: Signal)
    requires i + 1 < |env.frame| && flat.open.None? && Enter(env, flat, i).Ok? && Enter(env, flat, i).value.open.Some?
    requires EntrySignal(env, Queued(env, flat, i), i) == Some(sig)
    ensures var next := env.frame[i + 1];
            FillAt(sig, next.open, next.time, flat.cash, env.config, i + 1, MinStopDistance(env, i), env.ny) ==
            Ok(Enter(env, flat, i).value.open)
  {
    hide FillAt, EntrySignal, OpensPosition, AtSessionEnd, MarkToMarket, MinStopDistance, Push;
  }

  // ---- How it is closed ------------------------------------------------------------------------------------

  /** Bar x touched the stop or the target. */
  ghost predicate StopTouched(o: OpenTrade, bar: Bar) {
    o.stopLoss.Some? && if o.side.Long? then bar.low <= o.stopLoss.value else bar.high >= o.stopLoss.value
  }

  ghost predicate TargetTouched(o: OpenTrade, bar: Bar) {
    o.takeProfit.Some? && if o.side.Long? then bar.high >= o.takeProfit.value else bar.low <= o.takeProfit.value
  }

  ghost predicate TimeIsUp(o: OpenTrade, x: nat) {
    o.maxHoldBars.Some? && o.entryBarIndex >= 0 && x - o.entryBarIndex >= o.maxHoldBars.value
  }

  /** The strategy's signal on bar x's window is against the trade. */
  ghost predicate Opposed(env: Env, o: OpenTrade, x: nat)
    requires x < |env.frame|
  {
    var signal := (env.strategy)(env.frame[..x + 1]);
    signal.Some? && if o.side.Long? then signal.value.action.Sell? else signal.value.action.Buy?
  }

  /** On bar x the trade closes for this reason, at this bar's price. */
  ghost predicate ClosedFor(env: Env, o: OpenTrade, x: nat, reason: Reason, time: int, price: real)
    requires x < |env.frame|
  {
    var bar, c, buys := env.frame[x], env.config, o.side.Short?;
    match reason
    case TimeStop => TimeIsUp(o, x) && time == bar.time && FilledAt(c, env.ny, bar.open, time, false, buys, price)
    case StopLoss =>
      && !TimeIsUp(o, x) && StopTouched(o, bar) && time == bar.time
      && (if (if buys then bar.open > o.stopLoss.value else bar.open < o.stopLoss.value)
          then FilledAt(c, env.ny, bar.open, time, false, buys, price)
          else FilledAt(c, env.ny, o.stopLoss.value, time, false, buys, price))
    case TakeProfit =>
      && !TimeIsUp(o, x) && !StopTouched(o, bar) && TargetTouched(o, bar) && time == bar.time
      && FilledAt(c, env.ny, o.takeProfit.value, time, false, buys, price)
    case StrategyExit =>
      && !TimeIsUp(o, x) && !StopTouched(o, bar) && !TargetTouched(o, bar) && Opposed(env, o, x)
      && x + 1 < |env.frame| && time == env.frame[x + 1].time
      && FilledAt(c, env.ny, env.frame[x + 1].open, time, false, buys, price)
    case SessionClose =>
      && c.barsPerYear > 252 && c.flattenAtSessionEnd
      && (x + 1 == |env.frame| || env.ny(bar.time) / 1440 != env.ny(env.frame[x + 1].time) / 1440)
      && time == bar.time && FilledAt(c, env.ny, bar.close, time, true, buys, price)
    case EndOfData =>
      x + 1 == |env.frame| && time == bar.time && FilledAt(c, env.ny, bar.close, time, true, buys, price)
  }

  lemma PlannedExitIsExplained(env: Env, s: State, x: nat)
    requires x < |env.frame| && s.open.Some? && PlannedExit(env, s, x).Ok? && PlannedExit(env, s, x).value.Some?
    ensures var a := PlannedExit(env, s, x).value.value; ClosedFor(env, s.open.value, x, a.reason, a.time, a.price)
  {
    hide CostModel.ExitFillPrice, IsExtended, FilledAt;
    var o, bar, c := s.open.value, env.frame[x], env.config;
    forall reference: real ensures FillsTo(c, env.ny, reference, bar.time, o.side) {
      ExitIsFilledAt(c, env.ny, reference, bar.time, false, o.side);
    }
    if x + 1 < |env.frame| {
      ExitIsFilledAt(c, env.ny, env.frame[x + 1].open, env.frame[x + 1].time, false, o.side);
    }
    var worse := if o.stopLoss.None? then bar.open
                 else if o.side.Long? then Min(o.stopLoss.value, bar.open) else Max(o.stopLoss.value, bar.open);
    assert FillsTo(c, env.ny, bar.open, bar.time, o.side) && FillsTo(c, env.ny, worse, bar.time, o.side);
    if o.takeProfit.Some? {
      assert FillsTo(c, env.ny, o.takeProfit.value, bar.time, o.side);
    }
  }

  ghost predicate FillsTo(c: Config, ny: NewYork, reference: real, time: int, side: Side) {
    var fill := c.costs.ExitFillPrice(reference, side, IsExtended(c, ny, time));
    fill.Ok? ==> FilledAt(c, ny, reference, time, false, side.Short?, fill.value)
  }

  // ---- What it earned -----------------------------------------------------------------------------------------

  /** The charges of both legs: financing over the time held, currency on the entry's notional, commission
      and slippage on the notionals `held` in and `out`, regulatory fees on the one that was sold. */
  ghost predicate Charges(m: CostModel, e: CostEvent, side: Side, held: real, out: real, quantity: real, entry: int,
                          exit: int) {
    && e.financing == (if side.Long? then m.HoldingCostUsd(held, entry, exit)
                       else m.ShortHoldingCostUsd(held, entry, exit))
    && e.fx == m.FxRoundTripCostUsd(held)
    && e.commission == m.CommissionUsd(quantity) + m.CommissionUsd(quantity) + m.LegFeeUsd(held) + m.LegFeeUsd(out)
    && e.slippage == m.SlippageUsd(held) + m.SlippageUsd(out)
    && e.regulatory == m.RegulatorySellFeeUsd(if side.Long? then out else held, quantity)
  }

  /** The record of trade o closed at this price: its own terms, the charges, and the price move in its
      direction less those charges. */
  ghost predicate Earned(m: CostModel, o: OpenTrade, t: Trade) {
    && Pays(o, t)
    && Charges(m, t.costs, t.side, t.notional, t.quantity * t.exitPrice, t.quantity, t.entryTime, t.exitTime)
  }

  ghost predicate Pays(o: OpenTrade, t: Trade) {
    && t.entryTime == o.entryTime && t.entryPrice == o.entryPrice && t.quantity == o.quantity && t.side == o.side
    && t.notional == t.quantity * t.entryPrice
    && t.pnl == (if t.side.Long? then t.quantity * t.exitPrice - t.notional else t.notional - t.quantity * t.exitPrice)
                - t.costs.financing - t.costs.fx - t.costs.commission - t.costs.slippage - t.costs.regulatory
    && (t.suspicious <==> t.notional != 0.0 && t.pnl / t.notional > 0.75 && !t.reason.TakeProfit?)
  }

  lemma ChargesOfBothLegs(o: OpenTrade, price: real, time: int, m: CostModel)
    ensures Charges(m, CostsOf(o, price, time, m), o.side, o.entryNotional, o.quantity * price, o.quantity, o.entryTime,
                    time)
  {
    hide CostsOf;
    FinancingOfATrade(o, price, time, m);
    CommissionOfATrade(o, price, time, m);
    FeesOfATrade(o, price, time, m);
  }

  lemma FinancingOfATrade(o: OpenTrade, price: real, time: int, m: CostModel)
    ensures CostsOf(o, price, time, m).financing ==
            if o.side.Long? then m.HoldingCostUsd(o.entryNotional, o.entryTime, time)
            else m.ShortHoldingCostUsd(o.entryNotional, o.entryTime, time)
  {}

  lemma CommissionOfATrade(o: OpenTrade, price: real, time: int, m: CostModel)
    ensures CostsOf(o, price, time, m).commission ==
            m.CommissionUsd(o.quantity) + m.CommissionUsd(o.quantity) + m.LegFeeUsd(o.entryNotional) +
            m.LegFeeUsd(o.quantity * price)
  {}

  lemma FeesOfATrade(o: OpenTrade, price: real, time: int, m: CostModel)
    ensures var e, out := CostsOf(o, price, time, m), o.quantity * price;
            && e.fx == m.FxRoundTripCostUsd(o.entryNotional)
            && e.slippage == m.SlippageUsd(o.entryNotional) + m.SlippageUsd(out)
            && e.regulatory == m.RegulatorySellFeeUsd(if o.side.Long? then out else o.entryNotional, o.quantity)
  {}

  lemma RecordIsEarned(m: CostModel, o: OpenTrade, price: real, time: int, reason: Reason)
    requires o.entryNotional == o.quantity * o.entryPrice
    ensures var t := TradeRecord(o, price, time, reason, m);
            Earned(m, o, t) && t.exitPrice == price && t.exitTime == time && t.reason == reason
  {
    hide TradeRecord;
    RecordIsCharged(m, o, price, time, reason);
    RecordPays(m, o, price, time, reason);
    hide Pays, Charges;
  }

  lemma RecordIsCharged(m: CostModel, o: OpenTrade, price: real, time: int, reason: Reason)
    ensures var t := TradeRecord(o, price, time, reason, m);
            Charges(m, t.costs, t.side, t.notional, t.quantity * t.exitPrice, t.quantity, t.entryTime, t.exitTime)
  {
    hide FridayCloses, DateOf, CostModel.EffectiveDays, Charged, Realized, CostsOf;
    ChargesOfBothLegs(o, price, time, m);
  }

  lemma RecordPays(m: CostModel, o: OpenTrade, price: real, time: int, reason: Reason)
    requires o.entryNotional == o.quantity * o.entryPrice
    ensures var t := TradeRecord(o, price, time, reason, m);
            Pays(o, t) && t.exitPrice == price && t.exitTime == time && t.reason == reason
  {
    hide CostsOf;
    var t := TradeRecord(o, price, time, reason, m);
    PercentAbove(t.pnl, t.notional);
  }

  /** A profit in percent above 75 is one above three quarters of the notional. */
  lemma PercentAbove(pnl: real, notional: real)
    ensures (if notional != 0.0 then pnl / notional * 100.0 else 0.0) > 75.0 <==>
            notional != 0.0 && pnl / notional > 0.75
  {}

  // ---- Every trade of a run ------------------------------------------------------------------------------------

  ghost predicate ToldBy(env: Env, t: Trade, o: OpenTrade, e: nat, x: nat, sig: Signal) {
    && e <= x < |env.frame| && (env.windowStart.Some? ==> env.frame[x].time >= env.windowStart.value)
    && OpenedOn(env, o, e, sig)
    && ClosedFor(env, o, x, t.reason, t.exitTime, t.exitPrice) && Earned(env.config.costs, o, t)
  }

  ghost predicate Told(env: Env, t: Trade) {
    exists o, e, x, sig :: ToldBy(env, t, o, e, x, sig)
  }

  ghost predicate AllTold(env: Env, s: State, n: nat) {
    && (s.open.Some? ==> exists e: nat :: e <= n && Opened(env, s.open.value, e))
    && (forall t | t in s.trades :: Told(env, t))
  }

  lemma CloseIsTold(env: Env, s: State, x: nat, price: real, time: int, reason: Reason)
    requires AllTold(env, s, x) && s.open.Some? && x < |env.frame| && Evaluated(env, x)
    requires ClosedFor(env, s.open.value, x, reason, time, price)
    ensures AllTold(env, Close(s, price, time, reason, env.config.costs), x)
  {
    hide ClosedFor, TradeRecord, Realized, SpreadPaid, Earned, FilledAt, LevelsFrom, MayOpen, MinStopDistance;
    var o := s.open.value;
    var e: nat :| e <= x && Opened(env, o, e);
    var sig :| OpenedOn(env, o, e, sig);
    RecordIsEarned(env.config.costs, o, price, time, reason);
    hide OpenedOn;
    assert ToldBy(env, TradeRecord(o, price, time, reason, env.config.costs), o, e, x, sig);
    hide ToldBy;
  }

  lemma ExitsAreTold(env: Env, s: State, x: nat)
    requires x < |env.frame| && Evaluated(env, x) && AllTold(env, s, x) && Exits(env, s, x).Ok?
    ensures AllTold(env, Exits(env, s, x).value, x)
  {
    hide EvaluateExit, PlannedExit, Close, AllTold, FilledAt, Evaluated, CostModel.ExitFillPrice, TimeIsUp, StopTouched,
         TargetTouched, Opposed;
    var planned := PlannedExit(env, s, x).value;
    if s.open.None? {
      NothingPlanned(env, s, x);
    }
    var s1 := s;
    if planned.Some? {
      PlannedExitIsExplained(env, s, x);
      CloseIsTold(env, s, x, planned.value.price, planned.value.time, planned.value.reason);
      s1 := Close(s, planned.value.price, planned.value.time, planned.value.reason, env.config.costs);
    }
    if s1.open.Some? && AtSessionEnd(env, x) {
      var bar, side := env.frame[x], s1.open.value.side;
      ExitIsFilledAt(env.config, env.ny, bar.close, bar.time, true, side);
      var price := env.config.costs.ExitFillPrice(bar.close, side, false).value;
      assert ClosedFor(env, s1.open.value, x, SessionClose, bar.time, price);
      CloseIsTold(env, s1, x, price, bar.time, SessionClose);
    }
  }

  lemma NothingPlanned(env: Env, s: State, x: nat)
    requires x < |env.frame| && s.open.None?
    ensures PlannedExit(env, s, x) == Ok(None)
  {}

  lemma LaterIsTold(env: Env, s: State, n: nat)
    requires AllTold(env, s, n)
    ensures AllTold(env, s, n + 1)
  {
    hide Opened, Told;
  }

  lemma EnterKeepsTrades(env: Env, flat: State, i: nat)
    requires i < |env.frame| && Enter(env, flat, i).Ok?
    ensures var r := Enter(env, flat, i).value; r.trades == flat.trades && (r.open == flat.open || flat.open.None?)
  {
    hide AttemptEntry, EntrySignal, OpensPosition, AtSessionEnd, MarkToMarket, Push;
  }

  lemma {:induction false} RunIsTold(env: Env, n: nat)
    requires Sorted(env.frame) && n <= |env.frame| && RunTo(env, n).Ok?
    ensures AllTold(env, RunTo(env, n).value, n)
  {
    hide Exits, Enter, Opened, Told, Evaluated;
    if n > 0 {
      var i := n - 1;
      RunIsTold(env, i);
      var s, r := RunTo(env, i).value, RunTo(env, n).value;
      if Evaluated(env, i) {
        ExitsAreTold(env, s, i);
        var flat := Exits(env, s, i).value;
        LaterIsTold(env, flat, i);
        EnterKeepsTrades(env, flat, i);
        if r.open != flat.open && r.open.Some? {
          assert OpenedAt(env, i);
          EntryIsExplained(env, i);
        }
      } else {
        LaterIsTold(env, s, i);
      }
    }
  }

  /** Every trade of a finished run was opened on a signal that may open one, at the open of the bar the
      delay after it, closed for the first reason that held, at the price of the bar its exit time names,
      the open of the next bar for a strategy exit, and earned the move less the charges. */
  lemma EveryTradeIsTold(env: Env)
    requires Sorted(env.frame) && RunAll(env).Ok?
    ensures forall t | t in RunAll(env).value.trades :: Told(env, t)
  {
    hide Told, RunTo, Close, ClosedFor, Opened, AllTold, Evaluated, CostModel.ExitFillPrice;
    var n := |env.frame|;
    RunIsTold(env, n);
    var s := RunTo(env, n).value;
    if s.open.Some? && n > 0 {
      LastBarCloses(env, s);
    }
    TradesAtTheEnd(env, s, n);
  }

  lemma TradesAtTheEnd(env: Env, s: State, n: nat)
    requires AllTold(env, s, n)
    ensures forall t | t in s.trades :: Told(env, t)
  {
    hide Told, Opened;
  }

  lemma LastBarCloses(env: Env, s: State)
    requires |env.frame| > 0 && s.open.Some? && AllTold(env, s, |env.frame|) && RunTo(env, |env.frame|) == Ok(s)
             && Sorted(env.frame) && Finish(env, s).Ok?
    ensures forall t | t in Finish(env, s).value.trades :: Told(env, t)
  {
    var x := |env.frame| - 1;
    hide RunTo, AllTold, Close, ClosedFor, CostModel.ExitFillPrice, Evaluated;
    var price := env.config.costs.ExitFillPrice(env.frame[x].close, s.open.value.side, false).value;
    OpenIsEvaluated(env, |env.frame|);
    EndIsClosedFor(env, s.open.value, x);
    OpenBefore(env, s);
    CloseIsTold(env, s, x, price, env.frame[x].time, EndOfData);
    TradesAtTheEnd(env, Close(s, price, env.frame[x].time, EndOfData, env.config.costs), x);
  }

  lemma EndIsClosedFor(env: Env, o: OpenTrade, x: nat)
    requires x + 1 == |env.frame|
    ensures var fill := env.config.costs.ExitFillPrice(env.frame[x].close, o.side, false);
            fill.Ok? ==> ClosedFor(env, o, x, EndOfData, env.frame[x].time, fill.value)
  {
    ExitIsFilledAt(env.config, env.ny, env.frame[x].close, env.frame[x].time, true, o.side);
    hide CostModel.ExitFillPrice, FilledAt;
  }

  /** A trade is opened on a bar of the frame. */
  lemma OpenBefore(env: Env, s: State)
    requires |env.frame| > 0 && AllTold(env, s, |env.frame|)
    ensures AllTold(env, s, |env.frame| - 1)
  {
    hide FilledAt, LevelsFrom, MayOpen, FloorAt, Told;
    if s.open.Some? {
      var e: nat :| e <= |env.frame| && Opened(env, s.open.value, e);
      assert e < |env.frame|;
    }
  }

  /** A trade is open only after an evaluated bar, so the last bar was one. */
  lemma {:induction false} OpenIsEvaluated(env: Env, n: nat)
    requires Sorted(env.frame) && 0 < n <= |env.frame| && RunTo(env, n).Ok? && RunTo(env, n).value.open.Some?
    ensures Evaluated(env, n - 1)
  {
    hide Step, Evaluated;
    UnevaluatedKeeps(env, n - 1);
    if n > 1 && RunTo(env, n - 1).value.open.Some? {
      OpenIsEvaluated(env, n - 1);
      EvaluatedFromOn(env, n - 2, n - 1);
    }
  }

  lemma UnevaluatedKeeps(env: Env, i: nat)
    requires i < |env.frame| && RunTo(env, i + 1).Ok?
    ensures RunTo(env, i).Ok? && (i == 0 ==> RunTo(env, i).value.open.None?)
    ensures Evaluated(env, i) || RunTo(env, i) == RunTo(env, i + 1)
  {
    hide Exits, Enter;
  }
}
