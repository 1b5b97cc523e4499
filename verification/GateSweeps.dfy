/** Which timeframes a refresh runs and from where, and the sweep its other passes make between the
    daily ones. */
module GateSweeps {
  import opened Wrappers
  import opened EvidenceSweep
  import opened GateRefresh

  // ---- The timeframes of a pass --------------------------------------------------------------------------

  /** The chosen ones stand at these places of the list, in its order. */
  ghost predicate At(all: seq<Timeframe>, chosen: seq<Timeframe>, places: seq<nat>) {
    && |places| == |chosen|
    && (forall k | 0 <= k < |places| :: places[k] < |all| && chosen[k] == all[places[k]])
    && (forall k, l | 0 <= k < l < |places| :: places[k] < places[l])
  }

  /** The places are all those of one kind. */
  ghost predicate Marks(all: seq<Timeframe>, minute: bool, places: seq<nat>) {
    forall j: nat | j < |all| :: all[j].minute == minute <==> j in places
  }

  /** Exactly the configured timeframes of one kind, in the configured order, none lost. */
  ghost predicate AreThoseOf(all: seq<Timeframe>, minute: bool, chosen: seq<Timeframe>) {
    exists places :: At(all, chosen, places) && Marks(all, minute, places)
  }

  lemma {:induction false} KindSelects(all: seq<Timeframe>, minute: bool) returns (places: seq<nat>)
    ensures At(all, Kind(all, minute), places) && Marks(all, minute, places)
  {
    if |all| == 0 {
      return [];
    }
    hide At, Marks;
    var n := |all| - 1;
    var before := KindSelects(all[..n], minute);
    SelectsOneMore(all, Kind(all[..n], minute), before, minute);
    places := if all[n].minute == minute then before + [n] else before;
    assert Kind(all[..n], minute) + [] == Kind(all[..n], minute);
  }

  lemma SelectsOneMore(all: seq<Timeframe>, chosen: seq<Timeframe>, places: seq<nat>, minute: bool)
    requires |all| > 0 && At(all[..|all| - 1], chosen, places) && Marks(all[..|all| - 1], minute, places)
    ensures var n := |all| - 1;
            if all[n].minute == minute then At(all, chosen + [all[n]], places + [n]) && Marks(all, minute, places + [n])
            else At(all, chosen, places) && Marks(all, minute, places)
  {
    var n := |all| - 1;
    forall j: nat | j < n ensures all[..n][j] == all[j] && (j in places + [n] <==> j in places) {}
  }

  ghost predicate HasKind(all: seq<Timeframe>, minute: bool) {
    exists tf :: tf in all && tf.minute == minute
  }

  lemma KindIsPresent(all: seq<Timeframe>, minute: bool)
    ensures |Kind(all, minute)| > 0 <==> HasKind(all, minute)
  {
    var places := KindSelects(all, minute);
    if |Kind(all, minute)| > 0 {
      assert all[places[0]] in all && places[0] in places;
    }
    if HasKind(all, minute) {
      var tf :| tf in all && tf.minute == minute;
      var j: nat :| j < |all| && all[j] == tf;
      assert j in places;
    }
  }

  /** A refresh runs a daily pass exactly when both kinds are configured and the last full daily cycle is
      unknown or twelve hours old. */
  lemma RunsDailyExactly(plan: Plan, g: Gate, now: int)
    ensures RunsDaily(plan, g, now) <==>
            && HasKind(plan.timeframes, false) && HasKind(plan.timeframes, true)
            && (g.dailyFullAt.Some? ==> now - g.dailyFullAt.value >= 43_200_000_000)
  {
    KindIsPresent(plan.timeframes, false);
    KindIsPresent(plan.timeframes, true);
  }

  /** What one refresh runs: with one kind configured everything, from the plain keys; with both, the daily
      timeframes from the daily keys or the minute ones from the plain keys. */
  lemma PassRunsItsKind(plan: Plan, g: Gate, now: int, o: Oracle) returns (tfs: seq<Timeframe>)
    ensures var both := HasKind(plan.timeframes, false) && HasKind(plan.timeframes, true);
            var daily := both && (g.dailyFullAt.Some? ==> now - g.dailyFullAt.value >= 43_200_000_000);
            && (if both then AreThoseOf(plan.timeframes, !daily, tfs) else tfs == plan.timeframes)
            && PassOf(plan, g, now, o) ==
               if daily then PassFrom(plan.size, tfs, g.dailyCursor, g.dailyUnit, o)
               else PassFrom(plan.size, tfs, g.cursor, g.unit, o)
  {
    hide PassFrom;
    RunsDailyExactly(plan, g, now);
    KindIsPresent(plan.timeframes, false);
    KindIsPresent(plan.timeframes, true);
    var daily := RunsDaily(plan, g, now);
    tfs := PassTimeframes(plan, daily);
    var places := KindSelects(plan.timeframes, !daily);
  }

  /** The two kinds of pass together hold every configured timeframe, each as often as it is configured. */
  lemma {:induction false} KindsHoldEverything(all: seq<Timeframe>)
    ensures multiset(Kind(all, false)) + multiset(Kind(all, true)) == multiset(all)
  {
    if |all| > 0 {
      KindsHoldEverything(all[..|all| - 1]);
      assert all == all[..|all| - 1] + [all[|all| - 1]];
    }
  }

  // ---- The sweep of the plain passes ---------------------------------------------------------------------

  /** What the passes of calls 0 to n - 1 ran that were not daily ones. */
  function PlainUnits(plan: Plan, g: Gate, calls: seq<Call>, n: nat): seq<Unit>
    requires n <= |calls|
  {
    if n == 0 then []
    else
      PlainUnits(plan, g, calls, n - 1) +
      if DailyAt(plan, g, calls, n - 1) then [] else PassAt(plan, g, calls, n - 1).executed
  }

  /** Every pass that is not a daily one covers a symbol and is unbroken. */
  ghost predicate CleanPlain(plan: Plan, g: Gate, calls: seq<Call>) {
    forall n: nat | n < |calls| && !DailyAt(plan, g, calls, n) ::
      PassAt(plan, g, calls, n).covered > 0 && Unbroken(PassAt(plan, g, calls, n))
  }

  /** The timeframes of the plain passes: the minute ones, or everything when one kind is configured. */
  ghost predicate PlainTimeframes(plan: Plan, tfs: seq<Timeframe>) {
    if HasKind(plan.timeframes, false) && HasKind(plan.timeframes, true) then AreThoseOf(plan.timeframes, true, tfs)
    else tfs == plan.timeframes
  }

  /** A list has one selection of a kind. */
  lemma {:induction false} SelectionIsKind(all: seq<Timeframe>, minute: bool, chosen: seq<Timeframe>, places: seq<nat>)
    requires At(all, chosen, places) && Marks(all, minute, places)
    ensures chosen == Kind(all, minute)
    decreases |all|
  {
    NoMoreThanAll(all, chosen, places);
    if |all| > 0 {
      hide At, Marks;
      var n := |all| - 1;
      if all[n].minute == minute {
        var m := |places| - 1;
        SelectionEndsWith(all, minute, chosen, places);
        SelectionIsKind(all[..n], minute, chosen[..m], places[..m]);
        assert chosen == chosen[..m] + [all[n]];
      } else {
        SelectionEndsBefore(all, minute, chosen, places);
        SelectionIsKind(all[..n], minute, chosen, places);
      }
    }
  }

  lemma {:induction false} NoMoreThanAll(all: seq<Timeframe>, chosen: seq<Timeframe>, places: seq<nat>)
    requires At(all, chosen, places)
    ensures |chosen| == |places| && (|all| == 0 ==> |places| == 0)
  {
    assert |places| == 0 || places[0] < |all|;
  }

  lemma LastIsLargest(places: seq<nat>, k: nat)
    requires k < |places| && forall l, m | 0 <= l < m < |places| :: places[l] < places[m]
    ensures places[k] <= places[|places| - 1]
  {}

  lemma SelectionEndsWith(all: seq<Timeframe>, minute: bool, chosen: seq<Timeframe>, places: seq<nat>)
    requires |all| > 0 && At(all, chosen, places) && Marks(all, minute, places) && all[|all| - 1].minute == minute
    ensures var n, m := |all| - 1, |places| - 1;
            && m >= 0 && |chosen| == |places| && chosen[m] == all[n]
            && At(all[..n], chosen[..m], places[..m]) && Marks(all[..n], minute, places[..m])
  {
    LastPlace(all, minute, chosen, places);
    PlacesBefore(all, chosen, places);
    MarksBefore(all, minute, places);
    hide Marks;
  }

  lemma LastPlace(all: seq<Timeframe>, minute: bool, chosen: seq<Timeframe>, places: seq<nat>)
    requires |all| > 0 && At(all, chosen, places) && Marks(all, minute, places) && all[|all| - 1].minute == minute
    ensures |places| > 0 && places[|places| - 1] == |all| - 1
  {
    var n := |all| - 1;
    assert n in places;
    var k: nat :| k < |places| && places[k] == n;
    LastIsLargest(places, k);
  }

  lemma PlacesBefore(all: seq<Timeframe>, chosen: seq<Timeframe>, places: seq<nat>)
    requires At(all, chosen, places) && |places| > 0 && places[|places| - 1] + 1 == |all|
    ensures At(all[..|all| - 1], chosen[..|places| - 1], places[..|places| - 1])
  {}

  lemma MarksBefore(all: seq<Timeframe>, minute: bool, places: seq<nat>)
    requires Marks(all, minute, places) && |places| > 0 && places[|places| - 1] + 1 == |all|
    ensures Marks(all[..|all| - 1], minute, places[..|places| - 1])
  {
    var n, m := |all| - 1, |places| - 1;
    assert places == places[..m] + [n];
    forall j: nat | j < n ensures all[..n][j] == all[j] && (j in places <==> j in places[..m]) {}
  }

  lemma SelectionEndsBefore(all: seq<Timeframe>, minute: bool, chosen: seq<Timeframe>, places: seq<nat>)
    requires |all| > 0 && At(all, chosen, places) && Marks(all, minute, places) && all[|all| - 1].minute != minute
    ensures At(all[..|all| - 1], chosen, places) && Marks(all[..|all| - 1], minute, places)
  {
    var n := |all| - 1;
    assert n !in places;
    forall k | 0 <= k < |places| ensures places[k] < n { assert places[k] in places; }
  }

  lemma PlainAreThePass(plan: Plan, tfs: seq<Timeframe>)
    requires PlainTimeframes(plan, tfs)
    ensures PassTimeframes(plan, false) == tfs
  {
    KindIsPresent(plan.timeframes, false);
    KindIsPresent(plan.timeframes, true);
    if BothKinds(plan) {
      var places :| At(plan.timeframes, tfs, places) && Marks(plan.timeframes, true, places);
      SelectionIsKind(plan.timeframes, true, tfs, places);
    }
  }

  /** One call on a stretch of the plain sweep: a plain pass extends it and moves the plain keys to its new
      end, a daily one leaves both alone. */
  lemma OneCall(plan: Plan, g: Gate, call: Call, tfs: seq<Timeframe>, pos: nat, done: seq<Unit>, q: nat)
    returns (after: nat)
    requires plan.size > 0 && PlainTimeframes(plan, tfs) && UnitCount(tfs) > 0 && g.unit <= UnitCount(tfs)
    requires g.cursor % plan.size == q % plan.size && Stands(plan.size, UnitCount(tfs), pos, done, q, g.unit)
    requires !RunsDaily(plan, g, call.now) ==>
               PassOf(plan, g, call.now, call.o).covered > 0 && Unbroken(PassOf(plan, g, call.now, call.o))
    ensures var next := Refreshed(plan, g, call.now, call.o);
            var p := PassOf(plan, g, call.now, call.o);
            var executed := if RunsDaily(plan, g, call.now) then [] else p.executed;
            && Stands(plan.size, UnitCount(tfs), pos, done + executed, after, next.unit)
            && next.cursor % plan.size == after % plan.size && next.unit <= UnitCount(tfs)
            && (RunsDaily(plan, g, call.now) ==> next.cursor == g.cursor && next.unit == g.unit)
            && (!RunsDaily(plan, g, call.now) ==>
                  next == g.(cursor := next.cursor, unit := next.unit) && next.cursor < plan.size)
  {
    hide PassFrom, Unbroken, Advance, Stands, UnitCount, Resume, PassTimeframes, BothKinds, PlainTimeframes;
    var p := PassOf(plan, g, call.now, call.o);
    after := q;
    assert done + [] == done;
    if !RunsDaily(plan, g, call.now) {
      PlainAreThePass(plan, tfs);
      OnePassMore(plan.size, tfs, pos, done, g.cursor, g.unit, call.o, q);
      after := q + Advance(p);
      StandsWithin(plan.size, UnitCount(tfs), pos, done + p.executed, after, Resume(p));
    }
  }

  /** Whatever daily passes come between, the plain passes run one stretch of the sweep over the symbols and
      their timeframes, from the stored cursor and unit on, and leave the two at its end. */
  lemma {:induction false} PlainPassesConcatenate(plan: Plan, g: Gate, calls: seq<Call>, tfs: seq<Timeframe>, n: nat)
    returns (q: nat)
    requires plan.size > 0 && PlainTimeframes(plan, tfs) && UnitCount(tfs) > 0 && g.unit <= UnitCount(tfs)
    requires CleanPlain(plan, g, calls) && n <= |calls|
    ensures var units, end := UnitCount(tfs), GateAt(plan, g, calls, n);
            && Stands(plan.size, units, g.cursor * units + g.unit, PlainUnits(plan, g, calls, n), q, end.unit)
            && end.cursor % plan.size == q % plan.size && end.unit <= units
  {
    hide Refreshed, RunsDaily, MarksDaily, PassOf, Unbroken, GateAt, UnitCount, PlainTimeframes, Stands, DailyAt,
         MarksAt, PassAt;
    GateNext(plan, g, calls, n);
    var units := UnitCount(tfs);
    if n == 0 {
      StandsAtStart(plan.size, units, g.cursor, g.unit);
      return g.cursor;
    }
    var q0 := PlainPassesConcatenate(plan, g, calls, tfs, n - 1);
    q := OneCall(plan, GateAt(plan, g, calls, n - 1), calls[n - 1], tfs, g.cursor * units + g.unit,
                 PlainUnits(plan, g, calls, n - 1), q0);
  }

  /** The plain passes of the first n calls. */
  function PlainPasses(plan: Plan, g: Gate, calls: seq<Call>, n: nat): nat
    requires n <= |calls|
  {
    if n == 0 then 0
    else PlainPasses(plan, g, calls, n - 1) + if DailyAt(plan, g, calls, n - 1) then 0 else 1
  }

  lemma {:induction false} PlainUnitsAdd(plan: Plan, g: Gate, calls: seq<Call>, n: nat)
    requires n <= |calls|
    requires forall m: nat | m < |calls| && !DailyAt(plan, g, calls, m) :: |PassAt(plan, g, calls, m).executed| > 0
    ensures |PlainUnits(plan, g, calls, n)| >= PlainPasses(plan, g, calls, n)
  {
    hide DailyAt, PassAt;
    if n > 0 {
      PlainUnitsAdd(plan, g, calls, n - 1);
    }
  }

  lemma {:induction false} RanInAPlainPass(plan: Plan, g: Gate, calls: seq<Call>, n: nat, u: Unit) returns (m: nat)
    requires n <= |calls| && u in PlainUnits(plan, g, calls, n)
    ensures m < n && !DailyAt(plan, g, calls, m) && u in PassAt(plan, g, calls, m).executed
  {
    hide DailyAt, PassAt;
    if !DailyAt(plan, g, calls, n - 1) && u in PassAt(plan, g, calls, n - 1).executed {
      return n - 1;
    }
    m := RanInAPlainPass(plan, g, calls, n - 1, u);
  }

  /** Minute evidence is refreshed for good: as many plain passes as the sweep has units, each running one at
      least, reach every symbol with every strategy of every timeframe, whatever daily passes come between. */
  lemma EveryPlainUnitIsReached(plan: Plan, g: Gate, calls: seq<Call>, tfs: seq<Timeframe>, u: Unit) returns (m: nat)
    requires plan.size > 0 && PlainTimeframes(plan, tfs) && UnitCount(tfs) > 0 && g.unit <= UnitCount(tfs)
    requires CleanPlain(plan, g, calls)
    requires forall n: nat | n < |calls| && !DailyAt(plan, g, calls, n) :: |PassAt(plan, g, calls, n).executed| > 0
    requires PlainPasses(plan, g, calls, |calls|) >= plan.size * UnitCount(tfs)
    requires u.symbol < plan.size && u.unit < UnitCount(tfs)
    ensures m < |calls| && !DailyAt(plan, g, calls, m) && u in PassAt(plan, g, calls, m).executed
  {
    hide Refreshed, RunsDaily, MarksDaily, PassOf, Unbroken, GateAt, UnitCount, PlainTimeframes, Stands, DailyAt,
         MarksAt, PassAt;
    var units, n := UnitCount(tfs), |calls|;
    var q := PlainPassesConcatenate(plan, g, calls, tfs, n);
    PlainUnitsAdd(plan, g, calls, n);
    var executed := PlainUnits(plan, g, calls, n);
    StandsWithin(plan.size, units, g.cursor * units + g.unit, executed, q, GateAt(plan, g, calls, n).unit);
    FullTurnHoldsEveryUnit(plan.size, units, g.cursor * units + g.unit, |executed|, u);
    m := RanInAPlainPass(plan, g, calls, n, u);
  }
}
