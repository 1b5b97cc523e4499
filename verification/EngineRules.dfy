/** What one exit and one entry of the engine promise the trader's side of the ledger. */
module EngineRules {
  import opened Wrappers
  import opened Costs
  import opened Intraday
  import opened Engine

  ghost predicate WellFormed(bar: Bar) {
    bar.low <= bar.open <= bar.high && bar.low <= bar.close <= bar.high && bar.low > 0.0
  }

  /** The price the half-spread is applied to. */
  ghost predicate FillsAt(a: ExitAction, reference: real, t: OpenTrade, c: Config, ny: NewYork, time: int) {
    c.costs.ExitFillPrice(reference, t.side, IsExtended(c, ny, time)) == Ok(a.price)
  }

  /** The trade has been held for its longest. */
  predicate Due(t: OpenTrade, i: nat) {
    t.maxHoldBars.Some? && t.entryBarIndex >= 0 && i - t.entryBarIndex >= t.maxHoldBars.value
  }

  /** On a bar that touches the stop the trade always closes, at a price the bar traded: at the open if
      its time is up, else by the stop, at its level or, when the bar gaps through it, at the worse open.
      The stop wins over a target touched on the same bar. */
  lemma StopsAreConservative(t: OpenTrade, bar: Bar, signal: Option<Signal>, i: nat, next: Option<Bar>, c: Config,
                             ny: NewYork)
    requires WellFormed(bar) && t.stopLoss.Some?
    requires if t.side.Long? then bar.low <= t.stopLoss.value else bar.high >= t.stopLoss.value
    ensures var r := EvaluateExit(t, bar, signal, i, next, c, ny);
            && r.Ok? && r.value.Some? && r.value.value.time == bar.time
            && r.value.value.reason == (if Due(t, i) then TimeStop else StopLoss)
            && exists reference ::
                 && FillsAt(r.value.value, reference, t, c, ny, bar.time)
                 && bar.low <= reference <= bar.high
                 && (if Due(t, i) then reference == bar.open
                     else
                       && (if t.side.Long? then reference <= t.stopLoss.value && reference <= bar.open
                           else reference >= t.stopLoss.value && reference >= bar.open)
                       && (reference == t.stopLoss.value || reference == bar.open))
  {
    var reference :=
      if Due(t, i) then bar.open
      else if t.side.Long? then Min(t.stopLoss.value, bar.open)
      else Max(t.stopLoss.value, bar.open);
    var a := EvaluateExit(t, bar, signal, i, next, c, ny).value.value;
    assert FillsAt(a, reference, t, c, ny, bar.time);
  }

  /** A target fills at exactly its level: a gap beyond it is not paid out, whatever the open. */
  lemma TargetsFillAtTheirLevel(t: OpenTrade, bar: Bar, signal: Option<Signal>, i: nat, next: Option<Bar>, c: Config,
                                ny: NewYork)
    requires var r := EvaluateExit(t, bar, signal, i, next, c, ny);
             r.Ok? && r.value.Some? && r.value.value.reason == TakeProfit
    ensures t.takeProfit.Some?
    ensures FillsAt(EvaluateExit(t, bar, signal, i, next, c, ny).value.value, t.takeProfit.value, t, c, ny, bar.time)
    ensures if t.side.Long? then bar.high >= t.takeProfit.value else bar.low <= t.takeProfit.value
    ensures t.stopLoss.Some? ==> if t.side.Long? then bar.low > t.stopLoss.value else bar.high < t.stopLoss.value
  {}

  /** A trade that survives a bar touched neither level, was not due and saw no opposite signal it
      could still act on; so no exit is ever missed. */
  lemma NoExitIsMissed(t: OpenTrade, bar: Bar, signal: Option<Signal>, i: nat, next: Option<Bar>, c: Config,
                       ny: NewYork)
    ensures EvaluateExit(t, bar, signal, i, next, c, ny) == Ok(None) <==>
            && (t.stopLoss.Some? ==> if t.side.Long? then bar.low > t.stopLoss.value else bar.high < t.stopLoss.value)
            && (t.takeProfit.Some? ==> if t.side.Long? then bar.high < t.takeProfit.value
                else bar.low > t.takeProfit.value)
            && !Due(t, i)
            && (signal.Some? && next.Some? ==> signal.value.action == if t.side.Long? then Buy else Sell)
  {
    hide CostModel.ExitFillPrice, IsExtendedHours;
  }

  // ---- Sizing ----------------------------------------------------------------------------------

  /** Risk-sized quantity: the loss at the stop stays within the risk budget and the notional
      within the leveraged cash, and no larger quantity meets both. */
  lemma SizeIsLargestWithinBudget(stop: Option<real>, fill: real, cash: real, c: Config, larger: real)
    requires c.riskPerTradePct.Some? && c.riskPerTradePct.value > 0.0 && stop.Some? && stop.value > 0.0
    requires fill > 0.0 && cash > 0.0 && stop.value != fill
    ensures SizePosition(stop, fill, cash, c).Ok?
    ensures var q := SizePosition(stop, fill, cash, c).value;
            var loss, cap := cash * (c.riskPerTradePct.value / 100.0),
                cash * (if c.leverage > 1 then c.leverage else 1) as real;
            && q > 0.0
            && q * (if fill < stop.value then stop.value - fill else fill - stop.value) <= loss
            && q * fill <= cap
            && (larger > q ==>
                  || larger * (if fill < stop.value then stop.value - fill else fill - stop.value) > loss
                  || larger * fill > cap)
  {
    BudgetsArePositive(c, cash);
    var distance := if fill < stop.value then stop.value - fill else fill - stop.value;
    SizeMeetsBoth(stop.value, fill, cash, c, distance, cash * (c.riskPerTradePct.value / 100.0),
                  cash * (if c.leverage > 1 then c.leverage else 1) as real, larger);
    hide SizePosition;
  }

  lemma SizeMeetsBoth(stop: real, fill: real, cash: real, c: Config, distance: real, budget: real, cap: real,
                      larger: real)
    requires c.riskPerTradePct.Some? && stop > 0.0 && fill > 0.0 && distance > 0.0 && budget > 0.0 && cap > 0.0
    requires distance == if fill < stop then stop - fill else fill - stop
    requires budget == RiskBudget(c, cash) && cap == NotionalCap(c, cash)
    ensures SizePosition(Some(stop), fill, cash, c).Ok?
    ensures var q := SizePosition(Some(stop), fill, cash, c).value;
            && q > 0.0 && q * distance <= budget && q * fill <= cap
            && (larger > q ==> larger * distance > budget || larger * fill > cap)
  {
    hide RiskBudget, NotionalCap, SizePosition;
    SizeByBudgets(stop, fill, cash, c, distance);
    LargestMeetingBoth(budget, distance, cap, fill, larger);
  }

  lemma SizeByBudgets(stop: real, fill: real, cash: real, c: Config, distance: real)
    requires c.riskPerTradePct.Some? && stop > 0.0 && fill > 0.0 && distance > 0.0
    requires distance == if fill < stop then stop - fill else fill - stop
    ensures var raw := RiskBudget(c, cash) / distance;
            SizePosition(Some(stop), fill, cash, c) ==
            Ok(if raw * fill <= NotionalCap(c, cash) then raw else NotionalCap(c, cash) / fill)
  {
    assert Abs(fill - stop) == distance;
    hide RiskBudget, NotionalCap, Abs;
  }

  /** Without a risk budget or a stop to size by, the order spends the whole cash, or nothing without a price. */
  lemma UnbudgetedSizeSpendsTheCash(stop: Option<real>, fill: real, cash: real, c: Config)
    requires c.riskPerTradePct.None? || stop.None? || stop.value <= 0.0
    ensures SizePosition(stop, fill, cash, c).Ok?
    ensures var q := SizePosition(stop, fill, cash, c).value; if fill > 0.0 then q * fill == cash else q == 0.0
  {}

  lemma BudgetsArePositive(c: Config, cash: real)
    requires c.riskPerTradePct.Some? && c.riskPerTradePct.value > 0.0 && cash > 0.0
    ensures RiskBudget(c, cash) > 0.0 && NotionalCap(c, cash) > 0.0
  {
    ScaleStrict(0.0, cash, c.riskPerTradePct.value / 100.0);
    ScaleStrict(0.0, cash, (if c.leverage > 1 then c.leverage else 1) as real);
  }

  lemma LargestMeetingBoth(budget: real, distance: real, cap: real, fill: real, larger: real)
    requires budget > 0.0 && distance > 0.0 && cap > 0.0 && fill > 0.0
    ensures var q := if budget / distance * fill <= cap then budget / distance else cap / fill;
            && q > 0.0 && q * distance <= budget && q * fill <= cap
            && (larger > q ==> larger * distance > budget || larger * fill > cap)
  {
    QuotientBounds(budget, distance, larger);
    QuotientBounds(cap, fill, larger);
    var raw := budget / distance;
    if raw * fill > cap {
      SmallerQuotient(cap, fill, raw);
      Scale(cap / fill, raw, distance);
    }
  }

  lemma QuotientBounds(total: real, unit: real, larger: real)
    requires total > 0.0 && unit > 0.0
    ensures total / unit > 0.0
    ensures total / unit * unit == total
    ensures larger > total / unit ==> larger * unit > total
  {
    if larger > total / unit { ScaleStrict(total / unit, larger, unit); }
  }

  lemma SmallerQuotient(total: real, unit: real, q: real)
    requires unit > 0.0 && q * unit > total
    ensures total / unit <= q
  {
    if total / unit > q { ScaleStrict(q, total / unit, unit); }
  }

  lemma Scale(x: real, y: real, k: real)
    requires x <= y && k >= 0.0
    ensures x * k <= y * k
  {}

  lemma ScaleStrict(x: real, y: real, k: real)
    requires x < y && k > 0.0
    ensures x * k < y * k
  {}
}
