/** With the session flatten on, no trade is carried over a New York close, except that a strategy
    exit raised on a session's last bar fills at the next session's first open. */
module EngineSessions {
  import opened Wrappers
  import opened Costs
  import opened Intraday
  import opened Engine
  import EngineCash

  function DateAt(env: Env, i: nat): int
    requires i < |env.frame|
  {
    SessionDate(env.ny, env.frame[i].time)
  }

  /** The trade entered at bar e's open and was closed by bar x of the same session: at bar x's own
      time, or, for a strategy exit only, at the open of the bar after it. */
  ghost predicate OneSession(env: Env, t: Trade, e: nat, x: nat) {
    && e <= x < |env.frame|
    && t.entryTime == env.frame[e].time
    && DateAt(env, e) == DateAt(env, x)
    && (if t.reason.StrategyExit? then x + 1 < |env.frame| && t.exitTime == env.frame[x + 1].time
        else t.exitTime == env.frame[x].time)
    && !t.reason.EndOfData?
  }

  ghost predicate SessionBound(env: Env, t: Trade) {
    exists e: nat, x: nat :: OneSession(env, t, e, x)
  }

  ghost predicate OpenInSession(env: Env, t: OpenTrade, n: nat) {
    && 0 < n < |env.frame| && Evaluated(env, n - 1)
    && 0 <= t.entryBarIndex <= n
    && t.entryTime == env.frame[t.entryBarIndex].time
    && DateAt(env, t.entryBarIndex) == DateAt(env, n)
  }

  ghost predicate SessionState(env: Env, s: State, n: nat) {
    && (s.open.Some? ==> OpenInSession(env, s.open.value, n))
    && (forall t | t in s.trades :: SessionBound(env, t))
  }

  lemma PlannedExitTiming(t: OpenTrade, bar: Bar, signal: Option<Signal>, i: nat, next: Option<Bar>, c: Config,
                          ny: NewYork)
    requires var e := EvaluateExit(t, bar, signal, i, next, c, ny); e.Ok? && e.value.Some?
    ensures var a := EvaluateExit(t, bar, signal, i, next, c, ny).value.value;
            && (if a.reason.StrategyExit? then next.Some? && a.time == next.value.time else a.time == bar.time)
            && !a.reason.EndOfData?
  {}

  lemma CloseStaysInSession(env: Env, s: State, n: nat, price: real, time: int, reason: Reason)
    requires n < |env.frame| && s.open.Some? && SessionState(env, s, n)
    requires !reason.EndOfData?
    requires if reason.StrategyExit? then n + 1 < |env.frame| && time == env.frame[n + 1].time
             else time == env.frame[n].time
    ensures SessionState(env, Close(s, price, time, reason, env.config.costs), n)
  {
    hide CostModel.ExitFillPrice, Realized, CostsOf;
    var t := TradeRecord(s.open.value, price, time, reason, env.config.costs);
    assert OneSession(env, t, s.open.value.entryBarIndex, n);
    assert SessionBound(env, t);
  }

  lemma ExitsStayInSession(env: Env, s: State, n: nat)
    requires n < |env.frame| && SessionState(env, s, n) && Exits(env, s, n).Ok?
    ensures SessionState(env, Exits(env, s, n).value, n)
    ensures AtSessionEnd(env, n) ==> Exits(env, s, n).value.open.None?
  {
    hide EvaluateExit, SessionState, LastBarOfSession, TradeRecord, Realized;
    var planned := PlannedExit(env, s, n).value;
    var s1 := if planned.Some? then Close(s, planned.value.price, planned.value.time, planned.value.reason,
                                          env.config.costs) else s;
    if planned.Some? {
      PlannedExitTiming(s.open.value, env.frame[n], SignalAt(env, n), n, NextBar(env.frame, n), env.config, env.ny);
      CloseStaysInSession(env, s, n, planned.value.price, planned.value.time, planned.value.reason);
    }
    if s1.open.Some? && AtSessionEnd(env, n) {
      CloseStaysInSession(env, s1, n,
                          env.config.costs.ExitFillPrice(env.frame[n].close, s1.open.value.side, false).value,
                          env.frame[n].time, SessionClose);
    }
  }

  lemma EnterStaysInSession(env: Env, flat: State, n: nat)
    requires Flattens(env.config) && n < |env.frame| && Evaluated(env, n)
    requires SessionState(env, flat, n) && (AtSessionEnd(env, n) ==> flat.open.None?)
    requires Enter(env, flat, n).Ok?
    ensures SessionState(env, Enter(env, flat, n).value, n + 1)
  {
    hide AttemptEntry, EntrySignal, OpensPosition, MarkToMarket, Push, SessionBound, MinStopDistance;
    var s' := Enter(env, flat, n).value;
    assert s'.trades == flat.trades;
    if s'.open.Some? {
      assert !AtSessionEnd(env, n) by {
        if flat.open.None? { OpensOnlyInSession(env, flat, n); }
      }
      assert n + 1 < |env.frame| && DateAt(env, n) == DateAt(env, n + 1);
      if flat.open.None? {
        OpensOnlyInSession(env, flat, n);
      } else {
        assert s'.open == flat.open;
      }
    }
  }

  lemma OpensOnlyInSession(env: Env, flat: State, n: nat)
    requires n < |env.frame| && flat.open.None? && Enter(env, flat, n).Ok? && Enter(env, flat, n).value.open.Some?
    ensures !AtSessionEnd(env, n) && n + 1 < |env.frame|
    ensures var t := Enter(env, flat, n).value.open.value;
            t.entryBarIndex == n + 1 && t.entryTime == env.frame[n + 1].time
  {
    hide AttemptEntry, EntrySignal, OpensPosition, MarkToMarket, AtSessionEnd;
    EngineCash.EntryIsFair(env, EntrySignal(env, Queued(env, flat, n), n).value, env.frame[n + 1], flat.cash, n + 1,
                           MinStopDistance(env, n));
  }

  lemma {:induction false} RunStaysInSession(env: Env, n: nat)
    requires Sorted(env.frame) && Flattens(env.config) && n <= |env.frame| && RunTo(env, n).Ok?
    ensures SessionState(env, RunTo(env, n).value, n)
  {
    hide Exits, Enter, SessionBound, LastBarOfSession;
    if n > 0 {
      RunStaysInSession(env, n - 1);
      var s := RunTo(env, n - 1).value;
      if Evaluated(env, n - 1) {
        ExitsStayInSession(env, s, n - 1);
        EnterStaysInSession(env, Exits(env, s, n - 1).value, n - 1);
      }
    }
  }

  /** Every trade of a flattening run lies in one session as described, and the end-of-data close
      never fires: the run is flat when its bars are used up. */
  lemma FlattenKeepsTradesInSession(env: Env)
    requires Sorted(env.frame) && Flattens(env.config) && RunAll(env).Ok?
    ensures RunTo(env, |env.frame|).value.open.None?
    ensures forall t | t in RunAll(env).value.trades :: SessionBound(env, t)
    ensures RunAll(env).value.trades == RunTo(env, |env.frame|).value.trades
  {
    hide SessionBound;
    RunStaysInSession(env, |env.frame|);
  }
}
