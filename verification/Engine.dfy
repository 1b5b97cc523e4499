/** The bar-by-bar backtest engine. `Run` is the loop over a normalised frame; `RunTo` and
    `Finish` are the functions it is proved against, one call of `Step` per bar. */
module Engine {
  import opened Wrappers
  import opened Costs
  import opened Intraday

  const DAILY_BARS_PER_YEAR := 252

  datatype Action = Buy | Sell

  datatype Signal = Signal(
    action: Action,
    price: Option<real>,
    stopLoss: Option<real>,
    takeProfit: Option<real>,
    entryShort: bool,             // metadata signal_role == "entry_short"
    maxHoldBars: Option<int>      // metadata max_hold_bars, when it is an integer
  )

  datatype Config = Config(
    initialCash: real,
    riskPerTradePct: Option<real>,
    leverage: int,
    barsPerYear: int,
    costs: CostModel,
    allowExtendedHours: bool,
    flattenAtSessionEnd: bool,
    minStopSessionAtrMultiple: real,
    shortEntries: bool,
    entryDelayBars: int
  )

  datatype Reason = TimeStop | StopLoss | TakeProfit | StrategyExit | SessionClose | EndOfData

  datatype OpenTrade = OpenTrade(
    entryTime: int,
    entryPrice: real,
    quantity: real,
    side: Side,
    stopLoss: Option<real>,
    takeProfit: Option<real>,
    entryNotional: real,
    entrySpreadUsd: real,
    entryBarIndex: int,
    maxHoldBars: Option<int>
  )

  datatype CostEvent = CostEvent(spread: real, financing: real, fx: real, commission: real, slippage: real,
                                 regulatory: real)

  datatype Trade = Trade(
    entryTime: int,
    exitTime: int,
    entryPrice: real,
    exitPrice: real,
    quantity: real,
    side: Side,
    notional: real,
    pnl: real,
    reason: Reason,
    costs: CostEvent,
    suspicious: bool
  )

  datatype ExitAction = ExitAction(price: real, time: int, reason: Reason)

  /** A bar's index with the signal it may still act on, None when a trade was open. */
  datatype Pending = Pending(index: nat, signal: Option<Signal>)

  datatype State = State(
    cash: real,
    open: Option<OpenTrade>,
    trades: seq<Trade>,
    equity: seq<real>,
    recent: seq<Pending>
  )

  type Strategy = seq<Bar> -> Option<Signal>

  /** One run: a frame in time order, the strategy as a function of the window it is shown, the
      configuration, the optional start of the trade window and the New York clock. */
  datatype Env = Env(frame: seq<Bar>, strategy: Strategy, config: Config, windowStart: Option<int>, ny: NewYork)

  datatype Outcome = Outcome(cash: real, endingCash: real, trades: seq<Trade>, equity: seq<real>)

  // ---- Pure helpers ---------------------------------------------------------------------------

  predicate IsIntraday(c: Config) {
    c.barsPerYear > DAILY_BARS_PER_YEAR
  }

  function Delay(c: Config): nat {
    if c.entryDelayBars > 0 then c.entryDelayBars else 0
  }

  predicate Flattens(c: Config) {
    IsIntraday(c) && c.flattenAtSessionEnd
  }

  predicate AtSessionEnd(env: Env, i: nat)
    requires i < |env.frame|
  {
    Flattens(env.config) && LastBarOfSession(env.frame, env.ny, i)
  }

  predicate Evaluated(env: Env, i: nat)
    requires i < |env.frame|
  {
    env.windowStart.Some? ==> env.frame[i].time >= env.windowStart.value
  }

  function SignalAt(env: Env, i: nat): Option<Signal>
    requires i < |env.frame|
  {
    (env.strategy)(env.frame[..i + 1])
  }

  function NextBar(frame: seq<Bar>, i: nat): Option<Bar> {
    if i + 1 < |frame| then Some(frame[i + 1]) else None
  }

  predicate IsExtended(c: Config, ny: NewYork, time: int) {
    IsIntraday(c) && IsExtendedHours(ny, time)
  }

  predicate PositiveIfPresent(x: Option<real>) {
    x.Some? ==> x.value > 0.0
  }

  predicate ValidTradePlan(s: Signal) {
    && PositiveIfPresent(s.price) && PositiveIfPresent(s.stopLoss) && PositiveIfPresent(s.takeProfit)
    && (s.price.Some? && s.stopLoss.Some? && s.takeProfit.Some? ==>
          if s.action.Buy? then s.stopLoss.value < s.price.value < s.takeProfit.value
          else s.takeProfit.value < s.price.value < s.stopLoss.value)
  }

  /** A BUY opens a long run; only a bracketed `entry_short` SELL opens a short run. */
  predicate OpensPosition(s: Signal, short: bool) {
    if !short then s.action.Buy?
    else s.action.Sell? && s.entryShort && s.stopLoss.Some? && s.takeProfit.Some?
  }

  function PositiveHold(raw: Option<int>): Option<int> {
    if raw.Some? && raw.value > 0 then raw else None
  }

  function RiskBudget(c: Config, cash: real): real
    requires c.riskPerTradePct.Some?
  {
    cash * (c.riskPerTradePct.value / 100.0)
  }

  function NotionalCap(c: Config, cash: real): real {
    cash * (if c.leverage > 1 then c.leverage else 1) as real
  }

  function SizePosition(stop: Option<real>, fill: real, cash: real, c: Config): Result<real> {
    if c.riskPerTradePct.None? || stop.None? || stop.value <= 0.0 then
      if fill <= 0.0 then Ok(0.0) else Ok(cash / fill)
    else
      var distance := Abs(fill - stop.value);
      if distance <= 0.0 then Ok(0.0)
      else
        var cap := NotionalCap(c, cash);
        var raw := RiskBudget(c, cash) / distance;
        if raw * fill <= cap then Ok(raw)
        else if fill == 0.0 then Err("float division by zero")
        else Ok(cap / fill)
  }

  /** Whether the open trade closes on this bar, and at what price. The order of the tests is the
      priority of the exits: time stop, stop, target, opposite signal at the next open. */
  function EvaluateExit(t: OpenTrade, bar: Bar, signal: Option<Signal>, i: nat, next: Option<Bar>, c: Config,
                        ny: NewYork)
    : Result<Option<ExitAction>>
  {
    var extended := IsExtended(c, ny, bar.time);
    if t.maxHoldBars.Some? && t.entryBarIndex >= 0 && i - t.entryBarIndex >= t.maxHoldBars.value then
      var fill :- c.costs.ExitFillPrice(bar.open, t.side, extended);
      Ok(Some(ExitAction(fill, bar.time, TimeStop)))
    else if t.side.Long? && t.stopLoss.Some? && bar.low <= t.stopLoss.value then
      var fill :- c.costs.ExitFillPrice(Min(t.stopLoss.value, bar.open), Long, extended);
      Ok(Some(ExitAction(fill, bar.time, StopLoss)))
    else if t.side.Long? && t.takeProfit.Some? && bar.high >= t.takeProfit.value then
      var fill :- c.costs.ExitFillPrice(Min(t.takeProfit.value, bar.high), Long, extended);
      Ok(Some(ExitAction(fill, bar.time, TakeProfit)))
    else if t.side.Short? && t.stopLoss.Some? && bar.high >= t.stopLoss.value then
      var fill :- c.costs.ExitFillPrice(Max(t.stopLoss.value, bar.open), Short, extended);
      Ok(Some(ExitAction(fill, bar.time, StopLoss)))
    else if t.side.Short? && t.takeProfit.Some? && bar.low <= t.takeProfit.value then
      var fill :- c.costs.ExitFillPrice(Max(t.takeProfit.value, bar.low), Short, extended);
      Ok(Some(ExitAction(fill, bar.time, TakeProfit)))
    else if signal.Some? && signal.value.action == (if t.side.Short? then Buy else Sell) && next.Some? then
      var fill :- c.costs.ExitFillPrice(next.value.open, t.side, IsExtended(c, ny, next.value.time));
      Ok(Some(ExitAction(fill, next.value.time, StrategyExit)))
    else Ok(None)
  }

  function CostsOf(t: OpenTrade, exitPrice: real, exitTime: int, m: CostModel): CostEvent {
    var exitNotional := t.quantity * exitPrice;
    var drag := m.HalfSpreadFraction(false);
    var unadjusted := exitPrice / Max(if t.side.Long? then 1.0 - drag else 1.0 + drag, 0.000000001);
    CostEvent(
      t.entrySpreadUsd + Abs(exitNotional - t.quantity * unadjusted),
      if t.side.Short? then m.ShortHoldingCostUsd(t.entryNotional, t.entryTime, exitTime)
      else m.HoldingCostUsd(t.entryNotional, t.entryTime, exitTime),
      m.FxRoundTripCostUsd(t.entryNotional),
      2.0 * m.CommissionUsd(t.quantity) + m.LegFeeUsd(t.entryNotional) + m.LegFeeUsd(exitNotional),
      m.SlippageUsd(t.entryNotional) + m.SlippageUsd(exitNotional),
      m.RegulatorySellFeeUsd(if t.side.Short? then t.entryNotional else exitNotional, t.quantity))
  }

  /** What a close takes off the proceeds; the spread is already inside the two fill prices. */
  function Charged(e: CostEvent): real {
    e.financing + e.fx + e.commission + e.slippage + e.regulatory
  }

  /** Net proceeds of closing the trade. A short gets its collateral back plus its gain. */
  function Realized(t: OpenTrade, exitPrice: real, exitTime: int, m: CostModel): real {
    var exitNotional := t.quantity * exitPrice;
    (if t.side.Short? then 2.0 * t.entryNotional - exitNotional else exitNotional)
    - Charged(CostsOf(t, exitPrice, exitTime, m))
  }

  function TradeRecord(t: OpenTrade, exitPrice: real, exitTime: int, reason: Reason, m: CostModel): Trade {
    var pnl := Realized(t, exitPrice, exitTime, m) - t.entryNotional;
    var pct := if t.entryNotional != 0.0 then pnl / t.entryNotional * 100.0 else 0.0;
    Trade(t.entryTime, exitTime, t.entryPrice, exitPrice, t.quantity, t.side, t.entryNotional, pnl, reason,
          CostsOf(t, exitPrice, exitTime, m), pct > 75.0 && !reason.TakeProfit?)
  }

  function MarkToMarket(cash: real, open: Option<OpenTrade>, bar: Bar): real {
    match open
    case None => cash
    case Some(t) =>
      if t.side.Short? then cash + t.entryNotional + t.quantity * (t.entryPrice - bar.close)
      else cash + t.quantity * bar.close
  }

  /** The trade an accepted entry opens at the next bar's open, None when the order is refused. */
  function AttemptEntry(s: Signal, next: Bar, cash: real, c: Config, fillIndex: nat, minStopDistance: real, ny: NewYork)
    : Result<Option<OpenTrade>>
  {
    FillAt(s, next.open, next.time, cash, c, fillIndex, minStopDistance, ny)
  }

  function FillAt(s: Signal, open: real, time: int, cash: real, c: Config, fillIndex: nat, minStopDistance: real,
                  ny: NewYork)
    : Result<Option<OpenTrade>>
  {
    var extended := IsExtended(c, ny, time);
    if !ValidTradePlan(s) || open <= 0.0 || (extended && !c.allowExtendedHours) then Ok(None)
    else
      var side := if c.shortEntries then Short else Long;
      var fill :- c.costs.EntryFillPrice(open, side, extended);
      var (stop, target) :=
        if minStopDistance > 0.0 && s.stopLoss.Some? && side.Long? then
          var (floored, scaled) := FlooredStopAndTarget(fill, if s.price.Some? then s.price.value else fill,
                                                        s.stopLoss.value, s.takeProfit, minStopDistance);
          (Some(floored), scaled)
        else (s.stopLoss, s.takeProfit);
      var quantity :- SizePosition(stop, fill, cash, c);
      var notional := quantity * fill;
      if quantity <= 0.0 || !c.costs.AcceptsPosition(notional) then Ok(None)
      else
        var spread := notional - quantity * open;
        Ok(Some(OpenTrade(time, fill, quantity, side, stop, target, notional,
                          if side.Long? then Max(spread, 0.0)
                             else Abs(spread), fillIndex, PositiveHold(s.maxHoldBars))))
  }

  /** `deque(maxlen)` append: a full queue drops its oldest item. */
  function Push(recent: seq<Pending>, maxLen: nat, item: Pending): seq<Pending>
    requires maxLen > 0
  {
    (if |recent| >= maxLen then recent[|recent| - maxLen + 1..] else recent) + [item]
  }

  /** The signal to act on at bar i: the one of `Delay` bars back, unless that bar is not in the
      queue or a session ended since. */
  function EntrySignal(env: Env, recent: seq<Pending>, i: nat): Option<Signal>
    requires |recent| > 0 && i < |env.frame|
  {
    var delay := Delay(env.config);
    if recent[0].index + delay != i then None
    else if exists j | recent[0].index <= j < i :: AtSessionEnd(env, j) then None
    else recent[0].signal
  }

  function MinStopDistance(env: Env, i: nat): real
    requires i < |env.frame|
  {
    if !(IsIntraday(env.config) && env.config.minStopSessionAtrMultiple > 0.0) then 0.0
    else
      match SessionAtr(env.frame, env.ny, i)
      case None => 0.0
      case Some(atr) => atr * env.config.minStopSessionAtrMultiple
  }

  // ---- One bar --------------------------------------------------------------------------------

  function Close(s: State, price: real, time: int, reason: Reason, m: CostModel): State
    requires s.open.Some?
  {
    s.(cash := s.cash + Realized(s.open.value, price, time, m),
       trades := s.trades + [TradeRecord(s.open.value, price, time, reason, m)],
       open := None)
  }

  function PlannedExit(env: Env, s: State, i: nat): Result<Option<ExitAction>>
    requires i < |env.frame|
  {
    if s.open.None? then Ok(None)
    else EvaluateExit(s.open.value, env.frame[i], SignalAt(env, i), i, NextBar(env.frame, i), env.config, env.ny)
  }

  /** The exits of bar i: the planned one, then the session flatten. */
  function Exits(env: Env, s: State, i: nat): Result<State>
    requires i < |env.frame|
  {
    var planned :- PlannedExit(env, s, i);
    var s1 := if planned.Some? then Close(s, planned.value.price, planned.value.time, planned.value.reason,
                                          env.config.costs) else s;
    if s1.open.Some? && AtSessionEnd(env, i) then
      var price :- env.config.costs.ExitFillPrice(env.frame[i].close, s1.open.value.side, false);
      Ok(Close(s1, price, env.frame[i].time, SessionClose, env.config.costs))
    else Ok(s1)
  }

  function Queued(env: Env, s: State, i: nat): seq<Pending>
    requires i < |env.frame|
  {
    Push(s.recent, Delay(env.config) + 1, Pending(i, if s.open.None? then SignalAt(env, i) else None))
  }

  /** Bar i is flat, is not a session's last bar and holds an opening signal to act on. */
  predicate TriesToOpen(env: Env, s: State, i: nat)
    requires i < |env.frame|
  {
    var signal := EntrySignal(env, Queued(env, s, i), i);
    s.open.None? && !AtSessionEnd(env, i) && signal.Some? && OpensPosition(signal.value, env.config.shortEntries)
  }

  function Entered(env: Env, s: State, i: nat): Result<Option<OpenTrade>>
    requires i < |env.frame| && TriesToOpen(env, s, i)
  {
    match NextBar(env.frame, i)
    case None => Ok(None)
    case Some(next) =>
      AttemptEntry(EntrySignal(env, Queued(env, s, i), i).value, next, s.cash, env.config, i + 1,
                   MinStopDistance(env, i), env.ny)
  }

  function MarkEquity(env: Env, s: State, i: nat): State
    requires i < |env.frame|
  {
    s.(equity := s.equity + [MarkToMarket(s.cash, s.open, env.frame[i])])
  }

  /** The entry of bar i. A refused attempt skips the bar's equity point; an accepted one empties
      the queue. */
  function Enter(env: Env, s: State, i: nat): Result<State>
    requires i < |env.frame|
  {
    if TriesToOpen(env, s, i) then
      var entered :- Entered(env, s, i);
      if entered.None? then Ok(s.(recent := Queued(env, s, i)))
      else Ok(MarkEquity(env, s.(open := entered, cash := s.cash - entered.value.entryNotional, recent := []), i))
    else Ok(MarkEquity(env, s.(recent := Queued(env, s, i)), i))
  }

  function Step(env: Env, s: State, i: nat): Result<State>
    requires i < |env.frame|
  {
    if !Evaluated(env, i) then Ok(s)
    else
      var flat :- Exits(env, s, i);
      Enter(env, flat, i)
  }

  // ---- Whole runs -----------------------------------------------------------------------------

  function Initial(env: Env): State {
    State(env.config.initialCash, None, [], [], [])
  }

  function RunTo(env: Env, n: nat): Result<State>
    requires n <= |env.frame|
  {
    if n == 0 then Ok(Initial(env))
    else
      var s :- RunTo(env, n - 1);
      Step(env, s, n - 1)
  }

  /** The close at the last bar's close, and the result's `ending_cash`. */
  function Finish(env: Env, s: State): Result<Outcome> {
    if s.open.Some? && |env.frame| > 0 then
      var last := env.frame[|env.frame| - 1];
      var price :- env.config.costs.ExitFillPrice(last.close, s.open.value.side, false);
      var closed := Close(s, price, last.time, EndOfData, env.config.costs);
      var equity := if |s.equity| > 0 then s.equity[..|s.equity| - 1] + [closed.cash] else [];
      Ok(Outcome(closed.cash, EndingCash(env, equity), closed.trades, equity))
    else Ok(Outcome(s.cash, EndingCash(env, s.equity), s.trades, s.equity))
  }

  function EndingCash(env: Env, equity: seq<real>): real {
    if |equity| > 0 then equity[|equity| - 1] else env.config.initialCash
  }

  function RunAll(env: Env): Result<Outcome> {
    var s :- RunTo(env, |env.frame|);
    Finish(env, s)
  }

  lemma {:induction false} ErrorsPersist(env: Env, i: nat, n: nat)
    requires i <= n <= |env.frame| && RunTo(env, i).Err?
    ensures RunTo(env, n) == RunTo(env, i)
    decreases n
  {
    hide Step;
    if i < n {
      ErrorsPersist(env, i, n - 1);
    }
  }

  /** The body of the loop on an evaluated bar, given the bar's signal, with the variables it updates. */
  method RunBar(env: Env, i: nat, signal: Option<Signal>, before: State) returns (r: Result<State>)
    requires i < |env.frame| && Evaluated(env, i) && signal == SignalAt(env, i)
    ensures r == Step(env, before, i)
  {
    hide EvaluateExit, AttemptEntry, Realized, TradeRecord, EntrySignal, MarkToMarket, MinStopDistance, OpensPosition;
    hide AtSessionEnd, NextBar, Delay, CostModel.ExitFillPrice;
    var cash, open, trades, equity, recent := before.cash, before.open, before.trades, before.equity, before.recent;
    var bar := env.frame[i];

    if open.Some? {
      var planned := EvaluateExit(open.value, bar, signal, i, NextBar(env.frame, i), env.config, env.ny);
      if planned.Err? {
        return Err(planned.error);
      }
      if planned.value.Some? {
        var exit := planned.value.value;
        cash := cash + Realized(open.value, exit.price, exit.time, env.config.costs);
        trades := trades + [TradeRecord(open.value, exit.price, exit.time, exit.reason, env.config.costs)];
        open := None;
      }
    }
    var atSessionEnd := AtSessionEnd(env, i);
    if open.Some? && atSessionEnd {
      var price := env.config.costs.ExitFillPrice(bar.close, open.value.side, false);
      if price.Err? {
        return Err(price.error);
      }
      cash := cash + Realized(open.value, price.value, bar.time, env.config.costs);
      trades := trades + [TradeRecord(open.value, price.value, bar.time, SessionClose, env.config.costs)];
      open := None;
    }
    ghost var flat := State(cash, open, trades, equity, recent);
    assert Exits(env, before, i) == Ok(flat);
    assert Step(env, before, i) == Enter(env, flat, i);

    recent := Push(recent, Delay(env.config) + 1, Pending(i, if open.None? then signal else None));
    var entrySignal := EntrySignal(env, recent, i);
    if open.None? && !atSessionEnd && entrySignal.Some? && OpensPosition(entrySignal.value, env.config.shortEntries) {
      var next := NextBar(env.frame, i);
      if next.None? {
        return Ok(State(cash, open, trades, equity, recent));
      }
      var attempt := AttemptEntry(entrySignal.value, next.value, cash, env.config, i + 1, MinStopDistance(env, i),
                                  env.ny);
      if attempt.Err? {
        return Err(attempt.error);
      }
      if attempt.value.None? {
        return Ok(State(cash, open, trades, equity, recent));
      }
      open := attempt.value;
      cash := cash - open.value.entryNotional;
      recent := [];
    }
    equity := equity + [MarkToMarket(cash, open, bar)];
    r := Ok(State(cash, open, trades, equity, recent));
  }

  /** What follows the loop: the end-of-data close and the result. */
  method CloseOut(env: Env, s: State) returns (r: Result<Outcome>)
    ensures r == Finish(env, s)
  {
    hide Realized, TradeRecord, CostModel.ExitFillPrice;
    var cash, trades, equity := s.cash, s.trades, s.equity;
    if s.open.Some? && |env.frame| > 0 {
      var last := env.frame[|env.frame| - 1];
      var price := env.config.costs.ExitFillPrice(last.close, s.open.value.side, false);
      if price.Err? {
        return Err(price.error);
      }
      cash := cash + Realized(s.open.value, price.value, last.time, env.config.costs);
      trades := trades + [TradeRecord(s.open.value, price.value, last.time, EndOfData, env.config.costs)];
      if |equity| > 0 {
        equity := equity[..|equity| - 1] + [cash];
      }
    }
    r := Ok(Outcome(cash, EndingCash(env, equity), trades, equity));
  }

  /** The loop of the engine. */
  method Run(env: Env) returns (r: Result<Outcome>)
    ensures r == RunAll(env)
  {
    hide Step, Finish;
    var s := Initial(env);
    for i := 0 to |env.frame|
      invariant RunTo(env, i) == Ok(s)
    {
      assert RunTo(env, i + 1) == Step(env, s, i);
      if env.windowStart.Some? && env.frame[i].time < env.windowStart.value {
        SkippedBar(env, s, i);
        continue;
      }
      var signal := (env.strategy)(env.frame[..i + 1]);
      var next := RunBar(env, i, signal, s);
      if next.Err? {
        ErrorsPersist(env, i + 1, |env.frame|);
        return Err(next.error);
      }
      s := next.value;
    }
    r := CloseOut(env, s);
  }

  lemma SkippedBar(env: Env, s: State, i: nat)
    requires i < |env.frame| && !Evaluated(env, i)
    ensures Step(env, s, i) == Ok(s)
  {}
}
