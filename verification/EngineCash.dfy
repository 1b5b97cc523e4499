/** Where the money of a run is: conservation over every bar, what a trade's profit is, and when
    the reported `ending_cash` is the cash the run ended with. */
module EngineCash {
  import opened Wrappers
  import opened Costs
  import opened Intraday
  import opened Engine
  import Calendar

  function SumPnl(trades: seq<Trade>): real {
    if |trades| == 0 then 0.0 else SumPnl(trades[..|trades| - 1]) + trades[|trades| - 1].pnl
  }

  lemma SumPnlAppend(trades: seq<Trade>, t: Trade)
    ensures SumPnl(trades + [t]) == SumPnl(trades) + t.pnl
  {
    assert (trades + [t])[..|trades|] == trades;
  }

  function Invested(open: Option<OpenTrade>): real {
    if open.Some? then open.value.entryNotional else 0.0
  }

  /** Cash and the open trade's entry notional are the initial cash plus the closed profits. */
  ghost predicate Balanced(env: Env, s: State) {
    s.cash + Invested(s.open) == env.config.initialCash + SumPnl(s.trades)
  }

  lemma CloseKeepsBalance(env: Env, s: State, price: real, time: int, reason: Reason)
    requires s.open.Some? && Balanced(env, s)
    ensures Balanced(env, Close(s, price, time, reason, env.config.costs))
  {
    hide CostsOf;
    SumPnlAppend(s.trades, TradeRecord(s.open.value, price, time, reason, env.config.costs));
  }

  lemma ExitsKeepBalance(env: Env, s: State, i: nat)
    requires i < |env.frame| && Balanced(env, s) && Exits(env, s, i).Ok?
    ensures Balanced(env, Exits(env, s, i).value)
  {
    hide EvaluateExit, Realized, TradeRecord, AtSessionEnd, SumPnl;
    var planned := PlannedExit(env, s, i).value;
    var s1 := if planned.Some? then Close(s, planned.value.price, planned.value.time, planned.value.reason,
                                          env.config.costs) else s;
    if planned.Some? {
      CloseKeepsBalance(env, s, planned.value.price, planned.value.time, planned.value.reason);
    }
    if s1.open.Some? && AtSessionEnd(env, i) {
      var price := env.config.costs.ExitFillPrice(env.frame[i].close, s1.open.value.side, false).value;
      CloseKeepsBalance(env, s1, price, env.frame[i].time, SessionClose);
    }
  }

  lemma StepKeepsBalance(env: Env, s: State, i: nat)
    requires i < |env.frame| && Balanced(env, s) && Step(env, s, i).Ok?
    ensures Balanced(env, Step(env, s, i).value)
  {
    hide Exits, EntrySignal, OpensPosition, AtSessionEnd, Entered, Queued, MarkToMarket, SumPnl;
    if Evaluated(env, i) {
      ExitsKeepBalance(env, s, i);
    }
  }

  /** Conservation at every loop head, long or short. */
  lemma {:induction false} CashConserved(env: Env, n: nat)
    requires n <= |env.frame| && RunTo(env, n).Ok?
    ensures Balanced(env, RunTo(env, n).value)
  {
    hide Step;
    if n > 0 {
      CashConserved(env, n - 1);
      StepKeepsBalance(env, RunTo(env, n - 1).value, n - 1);
    }
  }

  // ---- What a trade earned ---------------------------------------------------------------------

  /** A trade earns its quantity times the price move in its direction, less what was charged. */
  ghost predicate FairTrade(t: Trade) {
    && t.quantity > 0.0
    && t.notional == t.quantity * t.entryPrice
    && t.pnl == t.quantity * (if t.side.Short? then t.entryPrice - t.exitPrice
                              else t.exitPrice - t.entryPrice) - Charged(t.costs)
  }

  ghost predicate FairOpen(env: Env, t: OpenTrade) {
    && t.quantity > 0.0
    && t.entryNotional == t.quantity * t.entryPrice
    && t.side == (if env.config.shortEntries then Short else Long)
  }

  ghost predicate FairState(env: Env, s: State) {
    && (s.open.Some? ==> FairOpen(env, s.open.value))
    && (forall t | t in s.trades :: FairTrade(t) && t.side == (if env.config.shortEntries then Short else Long))
  }

  lemma RecordIsFair(env: Env, t: OpenTrade, price: real, time: int, reason: Reason)
    requires FairOpen(env, t)
    ensures FairTrade(TradeRecord(t, price, time, reason, env.config.costs))
  {
    hide CostsOf, Charged;
    Distribute(t.quantity, price, -t.entryPrice);
    Distribute(t.quantity, t.entryPrice, -price);
  }

  lemma EntryIsFair(env: Env, signal: Signal, next: Bar, cash: real, fillIndex: nat, floor: real)
    requires var e := AttemptEntry(signal, next, cash, env.config, fillIndex, floor, env.ny); e.Ok? && e.value.Some?
    ensures var t := AttemptEntry(signal, next, cash, env.config, fillIndex, floor, env.ny).value.value;
            && FairOpen(env, t)
            && t.entryTime == next.time && t.entryBarIndex == fillIndex
            && env.config.costs.EntryFillPrice(next.open, t.side,
                                               IsExtended(env.config, env.ny, next.time)) == Ok(t.entryPrice)
  {
    hide SizePosition, FlooredStopAndTarget, ValidTradePlan, IsExtendedHours;
  }

  lemma CloseKeepsFair(env: Env, s: State, price: real, time: int, reason: Reason)
    requires s.open.Some? && FairState(env, s)
    ensures FairState(env, Close(s, price, time, reason, env.config.costs))
  {
    hide FairTrade;
    RecordIsFair(env, s.open.value, price, time, reason);
  }

  lemma ExitsKeepFair(env: Env, s: State, i: nat)
    requires i < |env.frame| && FairState(env, s) && Exits(env, s, i).Ok?
    ensures FairState(env, Exits(env, s, i).value)
  {
    hide EvaluateExit, AtSessionEnd, Close, FairState;
    var planned := PlannedExit(env, s, i).value;
    var s1 := if planned.Some? then Close(s, planned.value.price, planned.value.time, planned.value.reason,
                                          env.config.costs) else s;
    if planned.Some? {
      CloseKeepsFair(env, s, planned.value.price, planned.value.time, planned.value.reason);
    }
    if s1.open.Some? && AtSessionEnd(env, i) {
      CloseKeepsFair(env, s1, env.config.costs.ExitFillPrice(env.frame[i].close, s1.open.value.side, false).value,
                     env.frame[i].time, SessionClose);
    }
  }

  lemma {:induction false} TradesAreFair(env: Env, n: nat)
    requires n <= |env.frame| && RunTo(env, n).Ok?
    ensures FairState(env, RunTo(env, n).value)
  {
    hide Exits, Enter, FairTrade, FairOpen;
    if n > 0 {
      TradesAreFair(env, n - 1);
      var s := RunTo(env, n - 1).value;
      if Evaluated(env, n - 1) {
        ExitsKeepFair(env, s, n - 1);
        EnterKeepsFair(env, Exits(env, s, n - 1).value, n - 1);
      }
    }
  }

  lemma EnterKeepsFair(env: Env, s: State, i: nat)
    requires i < |env.frame| && FairState(env, s) && Enter(env, s, i).Ok?
    ensures FairState(env, Enter(env, s, i).value)
  {
    hide EntrySignal, OpensPosition, AtSessionEnd, AttemptEntry, MarkToMarket, FairTrade;
    if TriesToOpen(env, s, i) && Entered(env, s, i).value.Some? {
      EntryIsFair(env, EntrySignal(env, Queued(env, s, i), i).value, env.frame[i + 1], s.cash, i + 1,
                  MinStopDistance(env, i));
    }
  }

  /** What the open trade would gain, before charges, were it closed at this price. */
  function PaperProfit(open: Option<OpenTrade>, price: real): real {
    match open
    case None => 0.0
    case Some(t) => t.quantity * (if t.side.Long? then price - t.entryPrice else t.entryPrice - price)
  }

  lemma MarkIsWorth(env: Env, s: State, bar: Bar)
    requires Balanced(env, s) && FairState(env, s)
    ensures MarkToMarket(s.cash, s.open, bar) ==
            env.config.initialCash + SumPnl(s.trades) + PaperProfit(s.open, bar.close)
  {
    hide SumPnl, FairTrade;
    if s.open.Some? {
      Distribute(s.open.value.quantity, bar.close, -s.open.value.entryPrice);
    }
  }

  /** The point a bar adds is what the run has earned: the initial cash, every closed profit, and the
      paper profit of the trade it leaves open at its own close. */
  lemma EquityIsWorth(env: Env, i: nat)
    requires i < |env.frame| && RunTo(env, i + 1).Ok? && RunTo(env, i).Ok?
    ensures var s, s' := RunTo(env, i).value, RunTo(env, i + 1).value;
            && |s.equity| <= |s'.equity| <= |s.equity| + 1
            && s'.equity[..|s.equity|] == s.equity
            && (|s'.equity| > |s.equity| ==>
                  s'.equity[|s.equity|] ==
                  env.config.initialCash + SumPnl(s'.trades) + PaperProfit(s'.open, env.frame[i].close))
  {
    hide Exits, Enter, SumPnl, Balanced, FairState, MarkToMarket, PaperProfit;
    CashConserved(env, i + 1);
    TradesAreFair(env, i + 1);
    MarkIsWorth(env, RunTo(env, i + 1).value, env.frame[i]);
    if Evaluated(env, i) {
      PointIsTheMark(env, RunTo(env, i).value, i);
    }
  }

  lemma PointIsTheMark(env: Env, s: State, i: nat)
    requires i < |env.frame| && Exits(env, s, i).Ok? && Enter(env, Exits(env, s, i).value, i).Ok?
    ensures var s' := Enter(env, Exits(env, s, i).value, i).value;
            s'.equity == s.equity || s'.equity == s.equity + [MarkToMarket(s'.cash, s'.open, env.frame[i])]
  {
    hide EvaluateExit, EntrySignal, OpensPosition, AtSessionEnd, AttemptEntry, MarkToMarket, Push, Realized,
         TradeRecord;
  }

  // ---- The reported ending cash ----------------------------------------------------------------

  /** The last bar before `n` that added an equity point, None when none did. */
  ghost function LastMarkedBar(env: Env, n: nat): Option<nat>
    requires n <= |env.frame| && RunTo(env, n).Ok?
  {
    if n == 0 then None
    else if |RunTo(env, n).value.equity| > |RunTo(env, n - 1).value.equity| then Some(n - 1)
    else LastMarkedBar(env, n - 1)
  }

  /** The state right after that bar, or the initial state. */
  ghost function LastMarked(env: Env, n: nat): State
    requires n <= |env.frame| && RunTo(env, n).Ok?
  {
    if n == 0 then Initial(env)
    else if |RunTo(env, n).value.equity| > |RunTo(env, n - 1).value.equity| then RunTo(env, n).value
    else LastMarked(env, n - 1)
  }

  /** Since the last equity point nothing happened, or the trade open then was closed. */
  ghost predicate Tail(env: Env, s: State, marked: State) {
    && s.equity == marked.equity
    && (s.open.Some? ==> s.trades == marked.trades)
    && (|s.trades| == |marked.trades| ==> s.trades == marked.trades && s.open == marked.open && s.cash == marked.cash)
    && (|s.trades| != |marked.trades| ==>
          && s.open.None? && marked.open.Some?
          && exists price, time, reason :: ClosedFrom(env, s, marked, price, time, reason))
  }

  ghost predicate ClosedFrom(env: Env, s: State, marked: State, price: real, time: int, reason: Reason)
    requires marked.open.Some?
  {
    && s.trades == marked.trades + [TradeRecord(marked.open.value, price, time, reason, env.config.costs)]
    && s.cash == marked.cash + Realized(marked.open.value, price, time, env.config.costs)
  }

  ghost predicate MarkedWith(env: Env, marked: State, bar: Option<nat>) {
    match bar
    case None => marked == Initial(env)
    case Some(b) =>
      && b < |env.frame| && |marked.equity| > 0
      && marked.equity[|marked.equity| - 1] == MarkToMarket(marked.cash, marked.open, env.frame[b])
  }

  lemma StepTail(env: Env, s: State, marked: State, i: nat)
    requires i < |env.frame| && Step(env, s, i).Ok? && Tail(env, s, marked)
    ensures var s' := Step(env, s, i).value;
            if |s'.equity| > |s.equity| then MarkedWith(env, s', Some(i)) && (s'.equity[..|s.equity|] == s.equity)
            else Tail(env, s', marked)
  {
    hide EvaluateExit, EntrySignal, OpensPosition, AtSessionEnd, AttemptEntry, MarkToMarket, Push, Realized,
         TradeRecord;
    if Evaluated(env, i) {
      var flat := Exits(env, s, i).value;
      assert flat.equity == s.equity;
      assert flat == s || (s.open.Some? && flat.open.None? &&
               exists price, time, reason :: ClosedFrom(env, flat, s, price, time, reason)) by {
        if flat != s {
          var planned := PlannedExit(env, s, i).value;
          if planned.Some? {
            assert ClosedFrom(env, flat, s, planned.value.price, planned.value.time, planned.value.reason);
          } else {
            var price := env.config.costs.ExitFillPrice(env.frame[i].close, s.open.value.side, false).value;
            assert ClosedFrom(env, flat, s, price, env.frame[i].time, SessionClose);
          }
        }
      }
      var s' := Enter(env, flat, i).value;
      if |s'.equity| == |s.equity| {
        assert s'.cash == flat.cash && s'.trades == flat.trades && s'.open == flat.open;
        if flat != s {
          var price, time, reason :| ClosedFrom(env, flat, s, price, time, reason);
          assert ClosedFrom(env, s', marked, price, time, reason);
        } else if |s.trades| != |marked.trades| {
          var price, time, reason :| ClosedFrom(env, s, marked, price, time, reason);
          assert ClosedFrom(env, s', marked, price, time, reason);
        }
      }
    }
  }

  lemma {:induction false} RunTail(env: Env, n: nat)
    requires n <= |env.frame| && RunTo(env, n).Ok?
    ensures Tail(env, RunTo(env, n).value, LastMarked(env, n))
    ensures MarkedWith(env, LastMarked(env, n), LastMarkedBar(env, n))
  {
    hide Step;
    if n > 0 {
      RunTail(env, n - 1);
      StepTail(env, RunTo(env, n - 1).value, LastMarked(env, n - 1), n - 1);
    }
  }

  /** What the run closed with: every dollar it began with plus every closed profit. */
  lemma FinalCashConserved(env: Env)
    requires RunAll(env).Ok?
    ensures RunAll(env).value.cash == env.config.initialCash + SumPnl(RunAll(env).value.trades)
  {
    hide EvaluateExit, Realized, TradeRecord, Step;
    var s := RunTo(env, |env.frame|).value;
    CashConserved(env, |env.frame|);
    if s.open.Some? && |env.frame| > 0 {
      var last := env.frame[|env.frame| - 1];
      var price := env.config.costs.ExitFillPrice(last.close, s.open.value.side, false).value;
      CloseKeepsBalance(env, s, price, last.time, EndOfData);
    }
  }

  /** Bar i takes one of the two early turns: it tries to open and has no bar to fill on, or its order
      is refused. Such a bar adds no equity point. */
  ghost predicate SkipsPoint(env: Env, i: nat)
    requires i < |env.frame| && RunTo(env, i).Ok?
  {
    Evaluated(env, i) &&
    var flat := Exits(env, RunTo(env, i).value, i);
    flat.Ok? && TriesToOpen(env, flat.value, i) && Entered(env, flat.value, i) == Ok(None)
  }

  /** Bar i closes the open trade. */
  ghost predicate ClosesAt(env: Env, i: nat)
    requires i < |env.frame| && RunTo(env, i).Ok?
  {
    Evaluated(env, i) && RunTo(env, i).value.open.Some? &&
    var flat := Exits(env, RunTo(env, i).value, i);
    flat.Ok? && flat.value.open.None?
  }

  /** Among the first n bars one closes a trade and it and every later evaluated one skip their point. */
  ghost predicate ClosedThenSkipped(env: Env, n: nat)
    requires n <= |env.frame| && RunTo(env, n).Ok?
  {
    exists i: nat :: i < n && RunTo(env, i).Ok? && ClosesAt(env, i) && AllSkip(env, i, n)
  }

  ghost predicate AllSkip(env: Env, i: nat, n: nat)
    requires i <= n <= |env.frame|
  {
    forall j: nat | i <= j < n && Evaluated(env, j) :: RunTo(env, j).Ok? && SkipsPoint(env, j)
  }

  /** A bar adds an equity point exactly when it is evaluated and does not skip it. */
  lemma PointExactly(env: Env, i: nat)
    requires i < |env.frame| && RunTo(env, i + 1).Ok?
    ensures RunTo(env, i).Ok?
    ensures var s, s' := RunTo(env, i).value, RunTo(env, i + 1).value;
            && (|s'.equity| > |s.equity| <==> Evaluated(env, i) && !SkipsPoint(env, i))
            && (!Evaluated(env, i) ==> s' == s)
            && (SkipsPoint(env, i) ==> s'.open.None? && s'.trades == Exits(env, s, i).value.trades)
            && (Evaluated(env, i) && s.open.None? ==> Exits(env, s, i) == Ok(s))
            && (ClosesAt(env, i) ==> |Exits(env, s, i).value.trades| == |s.trades| + 1)
  {
    hide EvaluateExit, EntrySignal, OpensPosition, AtSessionEnd, AttemptEntry, MarkToMarket, Push, Realized,
         TradeRecord;
  }

  /** Closed-then-skipped is what leaves a close unmarked. */
  lemma {:induction false} SkippingLeavesItUnmarked(env: Env, n: nat)
    requires n <= |env.frame| && RunTo(env, n).Ok?
    ensures ClosedThenSkipped(env, n) <==>
            RunTo(env, n).value.open.None? && |RunTo(env, n).value.trades| != |LastMarked(env, n).trades|
  {
    if n > 0 {
      PointExactly(env, n - 1);
      SkippingLeavesItUnmarked(env, n - 1);
      RunTail(env, n - 1);
      hide RunTo, SkipsPoint, ClosesAt, Exits;
      SkippedSoFar(env, n);
      MarkedNext(env, n);
    }
  }

  lemma MarkedNext(env: Env, n: nat)
    requires 0 < n <= |env.frame| && RunTo(env, n).Ok?
    ensures RunTo(env, n - 1).Ok?
    ensures LastMarked(env, n) ==
            if |RunTo(env, n).value.equity| > |RunTo(env, n - 1).value.equity| then RunTo(env, n).value
               else LastMarked(env, n - 1)
  {
    hide Step;
  }

  lemma SkippedSoFar(env: Env, n: nat)
    requires 0 < n <= |env.frame| && RunTo(env, n).Ok? && RunTo(env, n - 1).Ok?
    ensures ClosedThenSkipped(env, n) <==>
            && (Evaluated(env, n - 1) ==> SkipsPoint(env, n - 1))
            && (ClosedThenSkipped(env, n - 1) || ClosesAt(env, n - 1))
  {
    hide RunTo, SkipsPoint, ClosesAt, AllSkip, Evaluated;
    SkipsNext(env, n - 1, n);
    if ClosedThenSkipped(env, n) {
      var i: nat :| i < n && RunTo(env, i).Ok? && ClosesAt(env, i) && AllSkip(env, i, n);
      SkipsNext(env, i, n);
      ClosingIsEvaluated(env, i);
    } else if ClosesAt(env, n - 1) {
      ClosingIsEvaluated(env, n - 1);
    } else if ClosedThenSkipped(env, n - 1) {
      var i: nat :| i < n - 1 && RunTo(env, i).Ok? && ClosesAt(env, i) && AllSkip(env, i, n - 1);
      SkipsNext(env, i, n);
    }
  }

  lemma SkipsNext(env: Env, i: nat, n: nat)
    requires i < n <= |env.frame| && RunTo(env, n - 1).Ok?
    ensures AllSkip(env, i, n) <==> AllSkip(env, i, n - 1) && (Evaluated(env, n - 1) ==> SkipsPoint(env, n - 1))
    ensures AllSkip(env, n - 1, n - 1)
  {
    hide RunTo, SkipsPoint, Evaluated;
  }

  /** `ending_cash` is the run's cash unless a bar closes a trade and it and every later evaluated bar
      take an early turn past their equity point; then it is what that trade was marked at one point
      earlier, and agrees with the cash only if the close realised exactly that mark. */
  lemma EndingCashExact(env: Env)
    requires RunAll(env).Ok?
    ensures RunTo(env, |env.frame|).Ok?
    ensures var o := RunAll(env).value;
            && (!ClosedThenSkipped(env, |env.frame|) ==> o.endingCash == o.cash)
            && (ClosedThenSkipped(env, |env.frame|) ==>
                  var marked := LastMarked(env, |env.frame|);
                  var bar := LastMarkedBar(env, |env.frame|);
                  && bar.Some? && bar.value < |env.frame| && marked.open.Some?
                  && o.endingCash - o.cash ==
                     MarkToMarket(0.0, marked.open, env.frame[bar.value]) - (o.cash - marked.cash)
                  && (o.endingCash == o.cash <==>
                        MarkToMarket(0.0, marked.open, env.frame[bar.value]) == o.cash - marked.cash))
  {
    hide EvaluateExit, Realized, TradeRecord, Step, ClosedThenSkipped;
    var n := |env.frame|;
    var s, marked := RunTo(env, n).value, LastMarked(env, n);
    RunTail(env, n);
    SkippingLeavesItUnmarked(env, n);
    if s.open.Some? {
      assert |s.trades| == |marked.trades|;
      assert marked != Initial(env);
    } else if !ClosedThenSkipped(env, n) {
      assert marked.open.None?;
    }
  }

  /** So it is the run's cash whenever the last evaluated bar reaches its equity point, or a trade is
      left for the end-of-data close. */
  lemma EndingCashAgrees(env: Env)
    requires RunAll(env).Ok?
    ensures RunTo(env, |env.frame|).Ok?
    ensures RunTo(env, |env.frame|).value.open.Some? ==> RunAll(env).value.endingCash == RunAll(env).value.cash
    ensures (forall b: nat | b < |env.frame| && Evaluated(env, b)
             && (forall j: nat | b < j < |env.frame| :: !Evaluated(env, j)) ::
               RunTo(env, b).Ok? && !SkipsPoint(env, b)) ==>
            RunAll(env).value.endingCash == RunAll(env).value.cash
  {
    hide RunTo, SkipsPoint, ClosesAt, Step, Finish, EndingCash;
    var n := |env.frame|;
    EndingCashExact(env);
    SkippingLeavesItUnmarked(env, n);
    if ClosedThenSkipped(env, n) {
      var i: nat :| i < n && RunTo(env, i).Ok? && ClosesAt(env, i) && AllSkip(env, i, n);
      assert Evaluated(env, i) by { ClosingIsEvaluated(env, i); }
      var b := LastEvaluated(env, i);
      assert SkipsPoint(env, b);
    }
  }

  lemma ClosingIsEvaluated(env: Env, i: nat)
    requires i < |env.frame| && RunTo(env, i).Ok? && ClosesAt(env, i)
    ensures Evaluated(env, i)
  {}

  lemma {:induction false} LastEvaluated(env: Env, i: nat) returns (b: nat)
    requires i < |env.frame| && Evaluated(env, i)
    ensures i <= b < |env.frame| && Evaluated(env, b) && forall j: nat | b < j < |env.frame| :: !Evaluated(env, j)
    decreases |env.frame| - i
  {
    hide Evaluated;
    if later: nat :| i < later < |env.frame| && Evaluated(env, later) {
      b := LastEvaluated(env, later);
    } else {
      b := i;
    }
  }

  lemma AllTradesAreFair(env: Env)
    requires RunAll(env).Ok?
    ensures forall t | t in RunAll(env).value.trades :: FairTrade(t)
  {
    hide TradeRecord, FairTrade, Realized, FairOpen;
    var s := RunTo(env, |env.frame|).value;
    TradesAreFair(env, |env.frame|);
    if s.open.Some? && |env.frame| > 0 {
      var last := env.frame[|env.frame| - 1];
      RecordIsFair(env, s.open.value, env.config.costs.ExitFillPrice(last.close, s.open.value.side, false).value,
                   last.time, EndOfData);
    }
  }

  // ---- The lag is real -------------------------------------------------------------------------

  function NoCosts(): CostModel {
    CostModel(0.0, 0.0, 0.0, 1.0, 0.0, 0.0, false, 0.0, 0.0, 0.0, 0.0, 0.0, 0.0, 0.0, 0.0, 0.0)
  }

  const LAG_BUY := Signal(Buy, Some(10.0), Some(9.0), Some(20.0), false, None)
  const LAG_BOUGHT := OpenTrade(1, 10.0, 10.0, Long, Some(9.0), Some(20.0), 100.0, 0.0, 1, None)
  const LAG_CONFIG := Config(100.0, None, 1, DAILY_BARS_PER_YEAR, NoCosts(), false, false, 0.0, false, 0)
  const LAG_FRAME := [Bar(0, 10.0, 10.0, 10.0, 10.0), Bar(1, 10.0, 10.0, 8.0, 8.0)]

  /** Two daily bars, a strategy that always buys with a stop at 9, all-in sizing, no costs. */
  function LagExample(): Env {
    Env(LAG_FRAME, (w: seq<Bar>) => Some(LAG_BUY), LAG_CONFIG, None, (t: int) => 0)
  }

  lemma LagTries()
    ensures var env := LagExample();
            TriesToOpen(env, Initial(env), 0) && Entered(env, Initial(env), 0) == Ok(Some(LAG_BOUGHT))
  {
    hide AttemptEntry, MinStopDistance, Queued, EntrySignal, LastBarOfSession;
    LagQueue();
    LagOrder(LagExample().ny);
    LagHasNoFloor();
  }

  lemma LagEntry()
    ensures Enter(LagExample(), Initial(LagExample()), 0) == Ok(State(0.0, Some(LAG_BOUGHT), [], [100.0], []))
  {
    hide TriesToOpen, Entered, Queued, MarkEquity;
    LagTries();
    var s := Initial(LagExample());
    LagMark(s.(open := Some(LAG_BOUGHT), cash := s.cash - LAG_BOUGHT.entryNotional, recent := []));
  }

  lemma LagMark(entered: State)
    requires entered == State(0.0, Some(LAG_BOUGHT), [], [], [])
    ensures MarkEquity(LagExample(), entered, 0) == State(0.0, Some(LAG_BOUGHT), [], [100.0], [])
  {}

  lemma LagQueue()
    ensures var env := LagExample();
            && Queued(env, Initial(env), 0) == [Pending(0, Some(LAG_BUY))]
            && EntrySignal(env, Queued(env, Initial(env), 0), 0) == Some(LAG_BUY)
  {
    assert Queued(LagExample(), Initial(LagExample()), 0) == [Pending(0, Some(LAG_BUY))];
  }

  lemma LagHasNoFloor()
    ensures MinStopDistance(LagExample(), 0) == 0.0
  {
    hide SessionAtr;
  }

  lemma LagOrder(ny: NewYork)
    ensures AttemptEntry(LAG_BUY, LAG_FRAME[1], 100.0, LAG_CONFIG, 1, 0.0, ny) == Ok(Some(LAG_BOUGHT))
  {
    hide FlooredStopAndTarget, IsExtendedHours, CostModel.EntryFillPrice, SizePosition;
    assert NoCosts().EntryFillPrice(10.0, Long, false) == Ok(10.0) by { NoSpread(10.0); }
    assert SizePosition(Some(9.0), 10.0, 100.0, LAG_CONFIG) == Ok(10.0) by { LagSize(); }
  }

  lemma LagSize()
    ensures SizePosition(Some(9.0), 10.0, 100.0, LAG_CONFIG) == Ok(10.0)
  {}

  lemma NoCostsChargeNothing(t: OpenTrade, price: real, time: int)
    requires t.side.Long?
    ensures Charged(CostsOf(t, price, time, NoCosts())) == 0.0
  {
    hide Calendar.FridayCloses, Calendar.DateOf, CostModel.EffectiveDays;
  }

  lemma LagExit(s: State)
    requires s == State(0.0, Some(LAG_BOUGHT), [], [100.0], [])
    ensures Exits(LagExample(), s, 1).Ok?
    ensures var flat := Exits(LagExample(), s, 1).value;
            flat.open.None? && flat.cash == 90.0 && flat.equity == [100.0] && flat.recent == []
  {
    hide CostsOf, Charged, TradeRecord, CostModel.ExitFillPrice;
    assert LAG_CONFIG.costs.ExitFillPrice(9.0, Long, false) == Ok(9.0) by { NoSpread(9.0); }
    NoCostsChargeNothing(LAG_BOUGHT, 9.0, 1);
    assert Realized(LAG_BOUGHT, 9.0, 1, LAG_CONFIG.costs) == 90.0;
  }

  lemma NoSpread(price: real)
    requires price > 0.0
    ensures NoCosts().ExitFillPrice(price, Long, false) == NoCosts().EntryFillPrice(price, Long, false) == Ok(price)
  {}

  lemma LagSkipsThePoint(flat: State)
    requires flat.open.None? && flat.recent == []
    ensures Enter(LagExample(), flat, 1) == Ok(flat.(recent := [Pending(1, Some(LAG_BUY))]))
  {
    assert Queued(LagExample(), flat, 1) == [Pending(1, Some(LAG_BUY))];
  }

  /** Stopped out at 9 on the last bar, with a buy signal that has no bar left to fill on: the run
      ends with 90 in cash and reports 100. */
  lemma EndingCashCanLag()
    ensures RunAll(LagExample()).Ok?
    ensures RunAll(LagExample()).value.cash == 90.0
    ensures RunAll(LagExample()).value.endingCash == 100.0
  {
    hide Enter, Exits;
    var env := LagExample();
    LagEntry();
    var s1 := State(0.0, Some(LAG_BOUGHT), [], [100.0], []);
    assert Exits(env, Initial(env), 0) == Ok(Initial(env)) by { NothingToExit(env, Initial(env), 0); }
    assert RunTo(env, 1) == Step(env, RunTo(env, 0).value, 0) == Ok(s1);
    LagExit(s1);
    LagSkipsThePoint(Exits(env, s1, 1).value);
    assert RunTo(env, 2) == Step(env, s1, 1);
  }

  lemma NothingToExit(env: Env, s: State, i: nat)
    requires i < |env.frame| && s.open.None?
    ensures Exits(env, s, i) == Ok(s)
  {}
}
