/** The scheduled refresh: one bounded pass, its persisted cursor, and the mark of a full daily
    cycle. Times are microseconds. */
module GateRefresh {
  import opened Wrappers
  import opened EvidenceSweep

  const DAILY_CYCLE := 12 * 3_600_000_000

  datatype Plan = Plan(size: nat, timeframes: seq<Timeframe>)

  /** The persisted runtime-state keys of the refresh. */
  datatype Gate = Gate(cursor: nat, unit: nat, dailyCursor: nat, dailyUnit: nat, dailyCovered: nat,
                       dailyFullAt: Option<int>)

  function Kind(timeframes: seq<Timeframe>, minute: bool): seq<Timeframe> {
    if |timeframes| == 0 then []
    else Kind(timeframes[..|timeframes| - 1], minute) +
         if timeframes[|timeframes| - 1].minute == minute then [timeframes[|timeframes| - 1]] else []
  }

  predicate BothKinds(plan: Plan) {
    |Kind(plan.timeframes, false)| > 0 && |Kind(plan.timeframes, true)| > 0
  }

  predicate DailyDue(g: Gate, now: int) {
    g.dailyFullAt.None? || now - g.dailyFullAt.value >= DAILY_CYCLE
  }

  predicate RunsDaily(plan: Plan, g: Gate, now: int) {
    BothKinds(plan) && DailyDue(g, now)
  }

  function PassTimeframes(plan: Plan, daily: bool): seq<Timeframe> {
    if !BothKinds(plan) then plan.timeframes else Kind(plan.timeframes, !daily)
  }

  /** How many symbols the cursor moves on: a pass stopped mid-symbol stays on that symbol. */
  function Advance(p: Pass): nat
    requires p.midSymbol ==> p.covered > 0
  {
    if p.midSymbol then p.covered - 1 else if p.covered > 1 then p.covered else 1
  }

  function Resume(p: Pass): nat {
    if p.midSymbol then p.resume else 0
  }

  lemma {:induction false} TimeframesKeepCovered(tfs: seq<Timeframe>, o: Oracle, symbol: nat, t: nat, unit: nat,
                                                 skip: nat, p: Pass)
    requires t <= |tfs|
    ensures Timeframes(tfs, o, symbol, t, unit, skip, p).covered == p.covered
    decreases |tfs| - t
  {
    if t < |tfs| {
      var n := tfs[t].specs;
      var p1 := if tfs[t].minute then p.(checks := p.checks + 1) else p;
      if unit + n <= skip {
        TimeframesKeepCovered(tfs, o, symbol, t + 1, unit + n, skip, p);
      } else if !(tfs[t].minute && (o.late)(p.checks)) {
        SpecsKeepCovered(o, symbol, Offset(tfs, t), n, 0, unit, skip, p1);
        TimeframesKeepCovered(tfs, o, symbol, t + 1, unit, skip, Missed(p1, t, n));
        TimeframesKeepCovered(tfs, o, symbol, t + 1, unit + n, skip,
                              Specs(o, symbol, Offset(tfs, t), n, 0, unit, skip, p1));
      }
    }
  }

  lemma {:induction false} SpecsKeepCovered(o: Oracle, symbol: nat, base: nat, count: nat, j: nat, unit: nat, skip: nat,
                                            p: Pass)
    requires j <= count
    ensures Specs(o, symbol, base, count, j, unit, skip, p).covered == p.covered
    decreases count - j
  {
    if j < count {
      SpecsKeepCovered(o, symbol, base, count, j + 1, unit + 1, skip, p);
      SpecsKeepCovered(o, symbol, base, count, j + 1, unit + 1, skip,
                       p.(executed := p.executed + [Unit(symbol, base + j)], checks := p.checks + 1));
    }
  }

  lemma {:induction false} SymbolsCountCovered(tfs: seq<Timeframe>, o: Oracle, universe: seq<nat>, k: nat, skip: nat,
                                               p: Pass)
    requires k <= |universe| && (p.midSymbol ==> p.covered > 0)
    ensures var r := Symbols(tfs, o, universe, k, skip, p);
            p.covered <= r.covered && (r.midSymbol ==> r.covered > 0)
    decreases |universe| - k
  {
    hide Timeframes;
    if k < |universe| && !(o.late)(p.checks) {
      var p1 := p.(covered := p.covered + 1, checks := p.checks + 1);
      TimeframesKeepCovered(tfs, o, universe[k], 0, 0, skip, p1);
      SymbolsCountCovered(tfs, o, universe, k + 1, 0, Timeframes(tfs, o, universe[k], 0, 0, skip, p1));
    }
  }

  function PassFrom(size: nat, tfs: seq<Timeframe>, cursor: nat, unit: nat, o: Oracle): (p: Pass)
    ensures p.midSymbol ==> p.covered > 0
  {
    SymbolsCountCovered(tfs, o, Rotated(size, cursor), 0, unit, FRESH);
    RunPass(size, tfs, cursor, unit, o)
  }

  /** The pass one refresh runs. */
  function PassOf(plan: Plan, g: Gate, now: int, o: Oracle): (p: Pass)
    ensures p.midSymbol ==> p.covered > 0
  {
    if RunsDaily(plan, g, now) then PassFrom(plan.size, PassTimeframes(plan, true), g.dailyCursor, g.dailyUnit, o)
    else PassFrom(plan.size, PassTimeframes(plan, false), g.cursor, g.unit, o)
  }

  predicate MarksDaily(plan: Plan, g: Gate, now: int, o: Oracle) {
    RunsDaily(plan, g, now) && plan.size > 0 && g.dailyCovered + Advance(PassOf(plan, g, now, o)) >= plan.size
  }

  /** The keys after one refresh. */
  function Refreshed(plan: Plan, g: Gate, now: int, o: Oracle): Gate {
    var p := PassOf(plan, g, now, o);
    if plan.size == 0 then g
    else if !RunsDaily(plan, g, now) then g.(cursor := (g.cursor + Advance(p)) % plan.size, unit := Resume(p))
    else
      var marks := MarksDaily(plan, g, now, o);
      g.(dailyCursor := (g.dailyCursor + Advance(p)) % plan.size, dailyUnit := Resume(p),
         dailyCovered := if marks then 0 else g.dailyCovered + Advance(p),
         dailyFullAt := if marks then Some(now) else g.dailyFullAt)
  }

  class RuntimeState {
    var cursor: nat
    var unit: nat
    var dailyCursor: nat
    var dailyUnit: nat
    var dailyCovered: nat
    var dailyFullAt: Option<int>

    function Keys(): Gate
      reads this
    {
      Gate(cursor, unit, dailyCursor, dailyUnit, dailyCovered, dailyFullAt)
    }

    constructor ()
      ensures Keys() == Gate(0, 0, 0, 0, 0, None)
    {
      cursor, unit, dailyCursor, dailyUnit, dailyCovered, dailyFullAt := 0, 0, 0, 0, 0, None;
    }

    /** One scheduled run: the daily timeframes on their own keys while a daily cycle is due, else
        the minute bars (or everything, with one kind configured) on the others. */
    method RefreshBacktestGate(plan: Plan, now: int, o: Oracle) returns (p: Pass)
      modifies this
      ensures p == PassOf(plan, old(Keys()), now, o)
      ensures Keys() == Refreshed(plan, old(Keys()), now, o)
    {
      var runDaily := RunsDaily(plan, Keys(), now);
      var tfs := PassTimeframes(plan, runDaily);
      if runDaily {
        p := Run(plan.size, tfs, dailyCursor, dailyUnit, o);
      } else {
        p := Run(plan.size, tfs, cursor, unit, o);
      }
      assert p == PassOf(plan, Keys(), now, o);
      if plan.size > 0 {
        var advance := if p.midSymbol then p.covered - 1 else if p.covered > 1 then p.covered else 1;
        if runDaily {
          dailyCursor := (dailyCursor + advance) % plan.size;
          dailyUnit := Resume(p);
          var done := dailyCovered + advance;
          if done >= plan.size {
            dailyFullAt := Some(now);
            done := 0;
          }
          dailyCovered := done;
        } else {
          cursor := (cursor + advance) % plan.size;
          unit := Resume(p);
        }
      }
    }
  }

  // ---- One pass on the endless sweep ------------------------------------------------------------------

  /** A rotation depends on the offset only up to the size of the universe. */
  lemma SameRotation(size: nat, a: nat, b: nat)
    requires size > 0 && a % size == b % size
    ensures Rotated(size, a) == Rotated(size, b)
  {
    forall k | 0 <= k < size ensures Rotated(size, a)[k] == Rotated(size, b)[k] {
      RotationWraps(size, a, k);
      RotationWraps(size, b, k);
    }
  }

  /** The place of a symbol's unit on the endless sweep. */
  function Place(units: nat, symbol: nat, unit: nat): nat {
    symbol * units + unit
  }

  lemma CursorFollows(size: nat, cursor: nat, q: nat, n: nat)
    requires size > 0 && cursor % size == q % size
    ensures (cursor + n) % size == (q + n) % size
  {
    RotationWraps(size, cursor, n);
    RotationWraps(size, q, n);
  }

  /** A pass that covers a symbol runs the next stretch of the sweep and leaves the cursor and unit
      exactly at its end if and only if it is unbroken: no fetch of a timeframe with strategies failed
      but in the symbol it stopped in, with nothing run after. */
  lemma PassAdvances(size: nat, tfs: seq<Timeframe>, cursor: nat, unit: nat, o: Oracle, q: nat)
    requires size > 0 && UnitCount(tfs) > 0 && unit <= UnitCount(tfs)
    requires cursor % size == q % size
    requires PassFrom(size, tfs, cursor, unit, o).covered > 0
    ensures var p := PassFrom(size, tfs, cursor, unit, o);
            && (Stands(size, UnitCount(tfs), Place(UnitCount(tfs), q, unit), p.executed, q + Advance(p), Resume(p)) <==>
                Unbroken(p))
            && Resume(p) <= UnitCount(tfs)
            && (cursor + Advance(p)) % size == (q + Advance(p)) % size
  {
    hide Symbols, Cycle, Rotated, Stands, UnitCount, Place, Unbroken;
    PassSweeps(size, tfs, cursor, unit, o, q);
    CursorFollows(size, cursor, q, Advance(PassFrom(size, tfs, cursor, unit, o)));
  }

  lemma PassSweeps(size: nat, tfs: seq<Timeframe>, cursor: nat, unit: nat, o: Oracle, q: nat)
    requires size > 0 && UnitCount(tfs) > 0 && unit <= UnitCount(tfs)
    requires cursor % size == q % size
    ensures var p := PassFrom(size, tfs, cursor, unit, o);
            && Resume(p) <= UnitCount(tfs)
            && (p.covered > 0 ==>
                  (Unbroken(p) <==>
                     Stands(size, UnitCount(tfs), Place(UnitCount(tfs), q, unit), p.executed,
                            q + Advance(p), Resume(p))))
  {
    var units := UnitCount(tfs);
    hide Symbols, Cycle, Rotated, Stands, UnitCount, Place, Unbroken;
    SameRotation(size, cursor, q % size);
    StandsAtStart(size, units, q, unit);
    SymbolsSweep(tfs, o, size, Place(units, q, unit), q, 0, unit, FRESH);
  }

  /** The units a pass runs are one stretch of the sweep from its cursor and unit on if and only if no
      unit ran after a failed fetch of a timeframe with strategies. */
  lemma PassIsOneStretchExactly(size: nat, tfs: seq<Timeframe>, cursor: nat, unit: nat, o: Oracle, q: nat)
    requires size > 0 && UnitCount(tfs) > 0 && unit <= UnitCount(tfs)
    requires cursor % size == q % size
    ensures var p := PassFrom(size, tfs, cursor, unit, o);
            p.executed == Cycle(size, UnitCount(tfs), Place(UnitCount(tfs), q, unit), |p.executed|) <==>
            forall m | m in p.failed && m.specs > 0 :: m.ran == |p.executed|
  {
    PassIsContiguous(size, tfs, cursor, unit, o, q);
    hide PassFrom, Cycle, UnitCount, Place;
  }

  lemma PassIsContiguous(size: nat, tfs: seq<Timeframe>, cursor: nat, unit: nat, o: Oracle, q: nat)
    requires size > 0 && UnitCount(tfs) > 0 && unit <= UnitCount(tfs)
    requires cursor % size == q % size
    ensures var p := PassFrom(size, tfs, cursor, unit, o);
            Contiguous(size, UnitCount(tfs), Place(UnitCount(tfs), q, unit), p.executed) <==> Quiet(p)
  {
    var units := UnitCount(tfs);
    hide Symbols, Cycle, Rotated, Stands, UnitCount, Contiguous, Quiet;
    SameRotation(size, cursor, q % size);
    StandsAtStart(size, units, q, unit);
    SymbolsContiguous(tfs, o, size, Place(units, q, unit), q, 0, unit, FRESH);
  }

  /** A pass that stops mid-symbol asks to be resumed where it stopped if and only if no fetch of a
      timeframe with strategies failed earlier in that symbol. */
  lemma PassResumesAtItsPlaceExactly(size: nat, tfs: seq<Timeframe>, cursor: nat, unit: nat, o: Oracle)
    ensures var p := PassFrom(size, tfs, cursor, unit, o);
            p.midSymbol ==> (p.resume == p.place <==> forall m | m in p.failed && m.covered == p.covered ::
                             m.specs == 0)
  {
    hide Symbols, Rotated;
    ResumesAtItsPlaceExactly(tfs, o, Rotated(size, cursor), 0, unit, FRESH);
    var p := PassFrom(size, tfs, cursor, unit, o);
    if p.midSymbol {
      if forall x: nat | x < |p.failed| :: !MattersHere(p, x) {
        forall m | m in p.failed && m.covered == p.covered ensures m.specs == 0 {
          var x: nat :| x < |p.failed| && p.failed[x] == m;
          assert !MattersHere(p, x);
        }
      } else {
        var x: nat :| x < |p.failed| && MattersHere(p, x);
        assert p.failed[x] in p.failed;
      }
    }
  }

  lemma StandsAtStart(size: nat, units: nat, q: nat, unit: nat)
    requires size > 0 && units > 0 && unit <= units
    ensures Stands(size, units, Place(units, q, unit), [], q, unit)
  {}

  /** A pass whose first clock reading is already late runs nothing, and yet moves on by one symbol. */
  lemma ZeroSymbolPassSkipsASymbol(size: nat, tfs: seq<Timeframe>, cursor: nat, unit: nat, o: Oracle)
    requires size > 0
    ensures var p := PassFrom(size, tfs, cursor, unit, o);
            && (p.covered == 0 <==> (o.late)(0))
            && (p.covered == 0 ==> p.executed == [] && !p.midSymbol && Advance(p) == 1 && Resume(p) == 0)
  {
    var universe := Rotated(size, cursor);
    if !(o.late)(0) {
      var p1 := FRESH.(covered := 1, checks := 1);
      TimeframesKeepCovered(tfs, o, universe[0], 0, 0, unit, p1);
      SymbolsCountCovered(tfs, o, universe, 1, 0, Timeframes(tfs, o, universe[0], 0, 0, unit, p1));
    }
  }

  const TWO_THEN_THREE := [Timeframe(false, 2), Timeframe(false, 3)]

  /** The first timeframe's fetch fails, and the c-th clock reading is the first late one. */
  function FirstFetchFails(c: nat): Oracle {
    Oracle((n: nat) => n >= c, (s: nat, t: nat) => t == 1)
  }

  /** Two timeframes of two and three strategies: the first one's fetch fails and the deadline comes
      one unit later. The pass ran unit 2, stopped at unit 3 and asks to resume at unit 1: unit 0 is
      never run in this cycle and unit 2 is run twice. */
  lemma FailedFetchLosesItsPlace()
    ensures var p := PassFrom(1, TWO_THEN_THREE, 0, 0, FirstFetchFails(2));
            && p.executed == [Unit(0, 2)] && p.midSymbol && Resume(p) == 1 && p.place == 3
            && p.failed == [Miss(1, 0, 2, 0)] && !Unbroken(p)
  {
    var tfs, o := TWO_THEN_THREE, FirstFetchFails(2);
    assert Rotated(1, 0) == [0];
    assert Offset(tfs, 1) == 2;
    var p1 := Missed(FRESH.(covered := 1, checks := 1), 0, 2);
    var p2 := p1.(executed := [Unit(0, 2)], checks := 2);
    var p3 := p2.(resume := 1, place := 3, midSymbol := true, truncated := true, checks := 3);
    assert Specs(o, 0, 2, 3, 1, 1, 0, p2) == p3;
    assert Specs(o, 0, 2, 3, 0, 0, 0, p1) == Specs(o, 0, 2, 3, 1, 1, 0, p2);
    assert Timeframes(tfs, o, 0, 1, 0, 0, p1) == Specs(o, 0, 2, 3, 0, 0, 0, p1);
    assert Timeframes(tfs, o, 0, 0, 0, 0, FRESH.(covered := 1, checks := 1)) == Timeframes(tfs, o, 0, 1, 0, 0, p1);
    assert p3.failed[0] in p3.failed;
  }

  /** A failed fetch need not break a pass: with the deadline one unit earlier nothing has run after it.
      The pass stopped at unit 2 and asks to resume at unit 0, before the timeframe that failed. */
  lemma FailedFetchCanBeHarmless()
    ensures var p := PassFrom(1, TWO_THEN_THREE, 0, 0, FirstFetchFails(1));
            && p.executed == [] && p.midSymbol && Resume(p) == 0 && p.place == 2
            && p.failed == [Miss(1, 0, 2, 0)] && Unbroken(p)
  {
    var tfs, o := TWO_THEN_THREE, FirstFetchFails(1);
    assert Rotated(1, 0) == [0];
    assert Offset(tfs, 1) == 2;
    var p1 := Missed(FRESH.(covered := 1, checks := 1), 0, 2);
    assert Specs(o, 0, 2, 3, 0, 0, 0, p1) == p1.(resume := 0, place := 2, midSymbol := true, truncated := true,
                                                 checks := 2);
    assert Timeframes(tfs, o, 0, 1, 0, 0, p1) == Specs(o, 0, 2, 3, 0, 0, 0, p1);
    assert Timeframes(tfs, o, 0, 0, 0, 0, FRESH.(covered := 1, checks := 1)) == Timeframes(tfs, o, 0, 1, 0, 0, p1);
  }

  // ---- Many passes --------------------------------------------------------------------------------------

  datatype Swept = Swept(executed: seq<Unit>, cursor: nat, unit: nat)

  /** The units that the first n passes ran, one after another, and the cursor they left. */
  function SweepTo(size: nat, tfs: seq<Timeframe>, cursor: nat, unit: nat, os: seq<Oracle>, n: nat): Swept
    requires size > 0 && n <= |os|
  {
    if n == 0 then Swept([], cursor, unit)
    else
      var s := SweepTo(size, tfs, cursor, unit, os, n - 1);
      var p := PassFrom(size, tfs, s.cursor, s.unit, os[n - 1]);
      Swept(s.executed + p.executed, (s.cursor + Advance(p)) % size, Resume(p))
  }

  /** The n-th of a run of passes. */
  function NthPass(size: nat, tfs: seq<Timeframe>, cursor: nat, unit: nat, os: seq<Oracle>, n: nat): Pass
    requires size > 0 && n < |os|
  {
    var s := SweepTo(size, tfs, cursor, unit, os, n);
    PassFrom(size, tfs, s.cursor, s.unit, os[n])
  }

  /** Every pass covers a symbol and is unbroken. */
  ghost predicate CleanPasses(size: nat, tfs: seq<Timeframe>, cursor: nat, unit: nat, os: seq<Oracle>)
    requires size > 0
  {
    forall n: nat | n < |os| :: NthPass(size, tfs, cursor, unit, os,
                                        n).covered > 0 && Unbroken(NthPass(size, tfs, cursor, unit, os, n))
  }

  /** One more clean pass on a stretch that ends at (symbol q, unit r). */
  lemma OnePassMore(size: nat, tfs: seq<Timeframe>, pos: nat, done: seq<Unit>, cursor: nat, unit: nat, o: Oracle,
                    q: nat)
    requires size > 0 && UnitCount(tfs) > 0 && unit <= UnitCount(tfs)
    requires cursor % size == q % size && PassFrom(size, tfs, cursor, unit, o).covered > 0
             && Unbroken(PassFrom(size, tfs, cursor, unit, o))
    requires Stands(size, UnitCount(tfs), pos, done, q, unit)
    ensures var p := PassFrom(size, tfs, cursor, unit, o);
            && Stands(size, UnitCount(tfs), pos, done + p.executed, q + Advance(p), Resume(p))
            && (cursor + Advance(p)) % size % size == (q + Advance(p)) % size
  {
    hide PassFrom, Cycle, Unbroken, Advance, Resume, UnitCount, Stands;
    PassAdvances(size, tfs, cursor, unit, o, q);
    var p := PassFrom(size, tfs, cursor, unit, o);
    StretchesJoin(size, UnitCount(tfs), pos, done, q, unit, p.executed, q + Advance(p), Resume(p));
    RotationWraps(size, cursor + Advance(p), 0);
  }

  lemma StretchesJoin(size: nat, units: nat, pos: nat, a: seq<Unit>, q: nat, r: nat, b: seq<Unit>, q2: nat, r2: nat)
    requires size > 0 && units > 0 && Stands(size, units, pos, a, q, r)
             && Stands(size, units, Place(units, q, r), b, q2, r2)
    ensures Stands(size, units, pos, a + b, q2, r2)
  {
    hide Cycle;
    CycleJoins(size, units, pos, |a|, |b|);
  }

  /** Wherever the deadline cuts, successive passes concatenate to the endless cyclic order of
      (symbol, timeframe, strategy) units, with no gap and no repeat. */
  lemma {:induction false} PassesConcatenate(size: nat, tfs: seq<Timeframe>, cursor: nat, unit: nat, os: seq<Oracle>,
                                             n: nat) returns (q: nat)
    requires size > 0 && UnitCount(tfs) > 0 && unit <= UnitCount(tfs) && n <= |os|
    requires CleanPasses(size, tfs, cursor, unit, os)
    ensures var s, units := SweepTo(size, tfs, cursor, unit, os, n), UnitCount(tfs);
            && Stands(size, units, Place(units, cursor, unit), s.executed, q, s.unit)
            && s.cursor % size == q % size
  {
    hide PassFrom, Unbroken, Advance, Stands, UnitCount, Resume, SweepTo, NthPass, Place;
    SweepNext(size, tfs, cursor, unit, os, n);
    if n == 0 {
      StandsAtStart(size, UnitCount(tfs), cursor, unit);
      return cursor;
    }
    var before := PassesConcatenate(size, tfs, cursor, unit, os, n - 1);
    var s := SweepTo(size, tfs, cursor, unit, os, n - 1);
    assert s.unit <= UnitCount(tfs) by {
      StandsWithin(size, UnitCount(tfs), Place(UnitCount(tfs), cursor, unit), s.executed, before, s.unit);
    }
    OnePassMore(size, tfs, Place(UnitCount(tfs), cursor, unit), s.executed, s.cursor, s.unit, os[n - 1], before);
    q := before + Advance(PassFrom(size, tfs, s.cursor, s.unit, os[n - 1]));
  }

  lemma SweepNext(size: nat, tfs: seq<Timeframe>, cursor: nat, unit: nat, os: seq<Oracle>, n: nat)
    requires size > 0 && n <= |os|
    ensures n == 0 ==> SweepTo(size, tfs, cursor, unit, os, n) == Swept([], cursor, unit)
    ensures n > 0 ==>
              var s := SweepTo(size, tfs, cursor, unit, os, n - 1);
              var p := NthPass(size, tfs, cursor, unit, os, n - 1);
              && p == PassFrom(size, tfs, s.cursor, s.unit, os[n - 1])
              && SweepTo(size, tfs, cursor, unit, os, n) == Swept(s.executed + p.executed,
                (s.cursor + Advance(p)) % size, Resume(p))
  {
    hide PassFrom, Advance, Resume;
  }

  lemma StandsWithin(size: nat, units: nat, pos: nat, executed: seq<Unit>, q: nat, r: nat)
    requires size > 0 && units > 0
    ensures Stands(size, units, pos, executed, q, r) ==> r <= units && executed == Cycle(size, units, pos, |executed|)
  {}

  /** A full turn of the sweep holds every unit. */
  lemma FullTurnHoldsEveryUnit(size: nat, units: nat, pos: nat, len: nat, u: Unit)
    requires size > 0 && units > 0 && u.symbol < size && u.unit < units && len >= size * units
    ensures u in Cycle(size, units, pos, len)
  {
    var at := NextPlaceOf(size, units, pos, u);
    hide UnitAt;
    assert Cycle(size, units, pos, len)[at - pos] == UnitAt(size, units, at);
  }

  /** A unit stands within every turn of the sweep. */
  lemma NextPlaceOf(size: nat, units: nat, pos: nat, u: Unit) returns (at: nat)
    requires size > 0 && units > 0 && u.symbol < size && u.unit < units
    ensures pos <= at < pos + size * units && UnitAt(size, units, at) == u
  {
    // The first symbol head at or after pos + units - u.unit - 1 whose symbol is u's.
    var q := (pos + units - 1 - u.unit) / units;
    var r := (pos + units - 1 - u.unit) % units;
    var skip := (u.symbol + size - q % size) % size;
    at := (q + skip) * units + u.unit;
    WithinATurn(size, units, pos, q, r, skip, u.unit);
    SkipsToSymbol(size, units, q, skip, u);
    hide UnitAt;
  }

  lemma SkipsToSymbol(size: nat, units: nat, q: nat, skip: nat, u: Unit)
    requires u.symbol < size && u.unit < units && skip == (u.symbol + size - q % size) % size
    ensures UnitAt(size, units, (q + skip) * units + u.unit) == u
  {
    RotationWraps(size, q, skip);
    SymbolWraps(size, q % size, u.symbol);
    DivPos(units, q + skip, u.unit);
  }

  lemma WithinATurn(size: nat, units: nat, pos: nat, q: nat, r: nat, skip: nat, unit: nat)
    requires r < units && unit < units && skip < size && pos + units - 1 - unit == q * units + r
    ensures pos <= (q + skip) * units + unit < pos + size * units
  {
    MulOrder(skip + 1, size, units);
    assert (skip + 1) * units == skip * units + units;
    assert (q + skip) * units == q * units + skip * units;
  }

  lemma SymbolWraps(size: nat, from: nat, symbol: nat)
    requires from < size && symbol < size
    ensures (from + (symbol + size - from) % size) % size == symbol
  {
    if symbol >= from {
      DivPos(size, 1, symbol - from);
      assert (symbol + size - from) % size == symbol - from;
    } else {
      DivPos(size, 0, symbol + size - from);
      DivPos(size, 1, symbol);
    }
    DivPos(size, 0, symbol);
  }

  /** Any run of clean passes that each run at least one unit reaches every unit. */
  lemma EveryUnitIsReached(size: nat, tfs: seq<Timeframe>, cursor: nat, unit: nat, os: seq<Oracle>, u: Unit)
    requires size > 0 && UnitCount(tfs) > 0 && unit <= UnitCount(tfs)
    requires CleanPasses(size, tfs, cursor, unit, os)
    requires forall n: nat | n < |os| :: |NthPass(size, tfs, cursor, unit, os, n).executed| > 0
    requires |os| >= size * UnitCount(tfs)
    requires u.symbol < size && u.unit < UnitCount(tfs)
    ensures u in SweepTo(size, tfs, cursor, unit, os, |os|).executed
  {
    hide PassFrom, SweepTo, NthPass, Stands, UnitCount, Unbroken;
    var q := PassesConcatenate(size, tfs, cursor, unit, os, |os|);
    AtLeastOneEach(size, tfs, cursor, unit, os, |os|);
    var end := SweepTo(size, tfs, cursor, unit, os, |os|);
    var executed := end.executed;
    StandsWithin(size, UnitCount(tfs), Place(UnitCount(tfs), cursor, unit), executed, q, end.unit);
    FullTurnHoldsEveryUnit(size, UnitCount(tfs), Place(UnitCount(tfs), cursor, unit), |executed|, u);
  }

  lemma {:induction false} AtLeastOneEach(size: nat, tfs: seq<Timeframe>, cursor: nat, unit: nat, os: seq<Oracle>,
                                          n: nat)
    requires size > 0 && n <= |os|
    requires forall m: nat | m < |os| :: |NthPass(size, tfs, cursor, unit, os, m).executed| > 0
    ensures |SweepTo(size, tfs, cursor, unit, os, n).executed| >= n
  {
    hide PassFrom, Advance, Resume, SweepTo, NthPass;
    SweepNext(size, tfs, cursor, unit, os, n);
    if n > 0 {
      AtLeastOneEach(size, tfs, cursor, unit, os, n - 1);
    }
  }

  // ---- The mark of a full daily cycle -----------------------------------------------------------------

  /** One scheduled run of the job: the clock it read and what its pass met. */
  datatype Call = Call(now: int, o: Oracle)

  /** The keys before the n-th of a run of calls. */
  function GateAt(plan: Plan, g: Gate, calls: seq<Call>, n: nat): Gate
    requires n <= |calls|
  {
    if n == 0 then g else Refreshed(plan, GateAt(plan, g, calls, n - 1), calls[n - 1].now, calls[n - 1].o)
  }

  predicate DailyAt(plan: Plan, g: Gate, calls: seq<Call>, n: nat)
    requires n < |calls|
  {
    RunsDaily(plan, GateAt(plan, g, calls, n), calls[n].now)
  }

  predicate MarksAt(plan: Plan, g: Gate, calls: seq<Call>, n: nat)
    requires n < |calls|
  {
    MarksDaily(plan, GateAt(plan, g, calls, n), calls[n].now, calls[n].o)
  }

  function PassAt(plan: Plan, g: Gate, calls: seq<Call>, n: nat): (p: Pass)
    requires n < |calls|
    ensures p.midSymbol ==> p.covered > 0
  {
    PassOf(plan, GateAt(plan, g, calls, n), calls[n].now, calls[n].o)
  }

  /** What the daily passes of calls i to n - 1 ran. */
  function DailyUnits(plan: Plan, g: Gate, calls: seq<Call>, i: nat, n: nat): seq<Unit>
    requires i <= n <= |calls|
  {
    if n == i then []
    else
      DailyUnits(plan, g, calls, i, n - 1) +
      if DailyAt(plan, g, calls, n - 1) then PassAt(plan, g, calls, n - 1).executed else []
  }

  ghost predicate CleanDaily(plan: Plan, g: Gate, calls: seq<Call>) {
    forall n: nat | n < |calls| && DailyAt(plan, g, calls, n) ::
      PassAt(plan, g, calls, n).covered > 0 && Unbroken(PassAt(plan, g, calls, n))
  }

  /** A plan whose daily mark is kept, and keys that a refresh of it left. */
  ghost predicate Fits(plan: Plan, g: Gate) {
    && plan.size > 0 && BothKinds(plan) && UnitCount(PassTimeframes(plan, true)) > 0
    && g.dailyUnit <= UnitCount(PassTimeframes(plan, true)) && g.dailyCovered < plan.size
  }

  /** One call on a stretch of the daily sweep that ends where the daily keys stand. */
  lemma OneCallMore(plan: Plan, g: Gate, call: Call, pos: nat, done: seq<Unit>, q: nat) returns (p: Pass, after: nat)
    requires Fits(plan, g) && g.dailyCursor % plan.size == q % plan.size
    requires Stands(plan.size, UnitCount(PassTimeframes(plan, true)), pos, done, q, g.dailyUnit)
    requires RunsDaily(plan, g, call.now) ==>
               PassOf(plan, g, call.now, call.o).covered > 0 && Unbroken(PassOf(plan, g, call.now, call.o))
    ensures p == PassOf(plan, g, call.now, call.o)
    ensures var daily := RunsDaily(plan, g, call.now);
            var marks := MarksDaily(plan, g, call.now, call.o);
            var next := Refreshed(plan, g, call.now, call.o);
            var executed := if daily then p.executed else [];
            && Fits(plan, next)
            && Stands(plan.size, UnitCount(PassTimeframes(plan, true)), pos, done + executed, after, next.dailyUnit)
            && next.dailyCursor % plan.size == after % plan.size
            && after == q + (if daily then Advance(p) else 0)
            && (marks <==> g.dailyCovered + (after - q) >= plan.size)
            && next.dailyCovered == (if marks then 0 else g.dailyCovered + (after - q))
            && next.dailyFullAt == (if marks then Some(call.now) else g.dailyFullAt)
  {
    hide PassFrom, Unbroken, Advance, Stands, UnitCount, Resume, PassTimeframes, BothKinds;
    p := PassOf(plan, g, call.now, call.o);
    after := q;
    var tfs := PassTimeframes(plan, true);
    assert done + [] == done;
    if RunsDaily(plan, g, call.now) {
      OnePassMore(plan.size, tfs, pos, done, g.dailyCursor, g.dailyUnit, call.o, q);
      after := q + Advance(p);
      StandsWithin(plan.size, UnitCount(tfs), pos, done + p.executed, after, Resume(p));
    }
  }

  lemma {:induction false} KeysKeepFitting(plan: Plan, g: Gate, calls: seq<Call>, n: nat)
    requires Fits(plan, g) && CleanDaily(plan, g, calls) && n <= |calls|
    ensures Fits(plan, GateAt(plan, g, calls, n))
  {
    hide Refreshed, Fits, RunsDaily, PassOf, Unbroken, GateAt, UnitCount, PassTimeframes, Stands;
    GateNext(plan, g, calls, n);
    if n > 0 {
      KeysKeepFitting(plan, g, calls, n - 1);
      var before := GateAt(plan, g, calls, n - 1);
      StandsAtKeys(plan, before);
      var _, _ := OneCallMore(plan, before, calls[n - 1],
                              Place(UnitCount(PassTimeframes(plan, true)), before.dailyCursor, before.dailyUnit), [],
                                before.dailyCursor);
    }
  }

  lemma StandsAtKeys(plan: Plan, g: Gate)
    requires Fits(plan, g)
    ensures plan.size > 0 && UnitCount(PassTimeframes(plan, true)) > 0
    ensures Stands(plan.size, UnitCount(PassTimeframes(plan, true)),
                   Place(UnitCount(PassTimeframes(plan, true)), g.dailyCursor, g.dailyUnit), [], g.dailyCursor,
                     g.dailyUnit)
  {
    hide Stands;
    StandsAtStart(plan.size, UnitCount(PassTimeframes(plan, true)), g.dailyCursor, g.dailyUnit);
  }

  lemma GateNext(plan: Plan, g: Gate, calls: seq<Call>, n: nat)
    requires n <= |calls|
    ensures n == 0 ==> GateAt(plan, g, calls, n) == g
    ensures n > 0 ==>
              var before := GateAt(plan, g, calls, n - 1);
              && GateAt(plan, g, calls, n) == Refreshed(plan, before, calls[n - 1].now, calls[n - 1].o)
              && DailyAt(plan, g, calls, n - 1) == RunsDaily(plan, before, calls[n - 1].now)
              && MarksAt(plan, g, calls, n - 1) == MarksDaily(plan, before, calls[n - 1].now, calls[n - 1].o)
              && PassAt(plan, g, calls, n - 1) == PassOf(plan, before, calls[n - 1].now, calls[n - 1].o)
  {
    hide Refreshed, RunsDaily, MarksDaily, PassOf;
  }

  /** From a marking call i on, the daily passes run one stretch of the sweep; the covered count is
      how far the cursor has moved since the mark. */
  lemma {:induction false} StretchSinceMark(plan: Plan, g: Gate, calls: seq<Call>, i: nat, n: nat)
    returns (start: nat, q: nat)
    requires Fits(plan, g) && CleanDaily(plan, g, calls) && i < n <= |calls|
    requires MarksAt(plan, g, calls, i)
    requires forall m | i < m < n :: !MarksAt(plan, g, calls, m)
    ensures var units, end := UnitCount(PassTimeframes(plan, true)), GateAt(plan, g, calls, n);
            && Fits(plan, end)
            && Stands(plan.size, units, start, DailyUnits(plan, g, calls, i, n), q, end.dailyUnit)
            && end.dailyCursor % plan.size == q % plan.size
            && end.dailyFullAt == Some(calls[i].now)
            && end.dailyCovered <= q && start <= (q - end.dailyCovered) * units
    decreases n
  {
    hide Refreshed, Fits, RunsDaily, MarksDaily, PassOf, Unbroken, GateAt, UnitCount, PassTimeframes, Stands, DailyAt,
         MarksAt, PassAt;
    GateNext(plan, g, calls, n);
    var before := GateAt(plan, g, calls, n - 1);
    var units := UnitCount(PassTimeframes(plan, true));
    if n == i + 1 {
      KeysKeepFitting(plan, g, calls, i);
      StandsAtKeys(plan, before);
      start := Place(units, before.dailyCursor, before.dailyUnit);
      var p, after := OneCallMore(plan, before, calls[i], start, [], before.dailyCursor);
      q := after;
      MarkMovesOn(plan, before, units, q);
      assert [] + p.executed == p.executed;
    } else {
      var q0;
      start, q0 := StretchSinceMark(plan, g, calls, i, n - 1);
      var p, after := OneCallMore(plan, before, calls[n - 1], start, DailyUnits(plan, g, calls, i, n - 1), q0);
      q := after;
      assert !MarksAt(plan, g, calls, n - 1);
    }
  }

  /** The marking pass left its first symbol, so it ran its last symbol from the head. */
  lemma MarkMovesOn(plan: Plan, g: Gate, units: nat, after: nat)
    requires Fits(plan, g) && units == UnitCount(PassTimeframes(plan, true))
    requires after >= g.dailyCursor && g.dailyCovered + (after - g.dailyCursor) >= plan.size
    ensures Place(units, g.dailyCursor, g.dailyUnit) <= after * units
  {
    hide UnitCount, PassTimeframes, BothKinds;
    MulOrder(g.dailyCursor + 1, after, units);
    assert (g.dailyCursor + 1) * units == g.dailyCursor * units + units;
  }

  lemma {:induction false} RanInSomePass(plan: Plan, g: Gate, calls: seq<Call>, i: nat, n: nat, u: Unit)
    returns (m: nat)
    requires i <= n <= |calls| && u in DailyUnits(plan, g, calls, i, n)
    ensures i <= m < n && DailyAt(plan, g, calls, m) && u in PassAt(plan, g, calls, m).executed
    decreases n
  {
    hide DailyAt, PassAt;
    if DailyAt(plan, g, calls, n - 1) && u in PassAt(plan, g, calls, n - 1).executed {
      return n - 1;
    }
    m := RanInSomePass(plan, g, calls, i, n - 1, u);
  }

  /** The daily mark is sound: between one mark and the next, every daily (symbol, strategy) unit ran
      in a pass that began no earlier than the stored stamp of the first, even when passes stop
      mid-symbol and minute passes come between. */
  lemma DailyMarkIsSound(plan: Plan, g: Gate, calls: seq<Call>, i: nat, j: nat, u: Unit) returns (m: nat)
    requires Fits(plan, g) && CleanDaily(plan, g, calls)
    requires i < j < |calls| && MarksAt(plan, g, calls, i) && MarksAt(plan, g, calls, j)
    requires forall k | i < k < j :: !MarksAt(plan, g, calls, k)
    requires forall k, l | 0 <= k <= l < |calls| :: calls[k].now <= calls[l].now
    requires u.symbol < plan.size && u.unit < UnitCount(PassTimeframes(plan, true))
    ensures GateAt(plan, g, calls, j).dailyFullAt == Some(calls[i].now)
    ensures i <= m <= j && DailyAt(plan, g, calls, m) && calls[i].now <= calls[m].now
            && u in PassAt(plan, g, calls, m).executed
  {
    hide Refreshed, RunsDaily, MarksDaily, PassOf, Unbroken, GateAt, UnitCount, PassTimeframes, Stands, DailyAt,
         MarksAt, PassAt, BothKinds;
    var units := UnitCount(PassTimeframes(plan, true));
    var start, q := StretchSinceMark(plan, g, calls, i, j);
    var before := GateAt(plan, g, calls, j);
    GateNext(plan, g, calls, j + 1);
    var p, after := OneCallMore(plan, before, calls[j], start, DailyUnits(plan, g, calls, i, j), q);
    var executed := DailyUnits(plan, g, calls, i, j + 1);
    var end := GateAt(plan, g, calls, j + 1);
    TurnFits(plan.size, units, start, executed, q - before.dailyCovered, after, end.dailyUnit);
    FullTurnHoldsEveryUnit(plan.size, units, start, |executed|, u);
    m := RanInSomePass(plan, g, calls, i, j + 1, u);
  }

  lemma TurnFits(size: nat, units: nat, start: nat, executed: seq<Unit>, head: nat, q: nat, r: nat)
    requires size > 0 && units > 0 && Stands(size, units, start, executed, q, r)
    requires start <= head * units && q >= head + size
    ensures |executed| >= size * units && executed == Cycle(size, units, start, |executed|)
  {
    MulOrder(head + size, q, units);
    assert (head + size) * units == head * units + size * units;
  }

  // ---- The mark does come -----------------------------------------------------------------------------

  const ONE_OF_EACH := Plan(1, [Timeframe(false, 1), Timeframe(true, 1)])
  const TIMELY := Oracle((c: nat) => false, (s: nat, t: nat) => true)
  const EMPTY := Gate(0, 0, 0, 0, 0, None)

  lemma TimelyPass()
    ensures PassFrom(1, [Timeframe(false, 1)], 0, 0, TIMELY) == Pass([Unit(0, 0)], 1, 0, false, false, 2, 0, [])
  {
    var tfs := [Timeframe(false, 1)];
    assert Rotated(1, 0) == [0];
    var p1 := FRESH.(covered := 1, checks := 1);
    var p2 := p1.(executed := [Unit(0, 0)], checks := 2);
    assert Specs(TIMELY, 0, 0, 1, 0, 0, 0, p1) == Specs(TIMELY, 0, 0, 1, 1, 1, 0, p2) == p2;
    assert Timeframes(tfs, TIMELY, 0, 0, 0, 0, p1) == Timeframes(tfs, TIMELY, 0, 1, 1, 0, p2) == p2;
  }

  lemma KindsOfOneEach()
    ensures BothKinds(ONE_OF_EACH) && PassTimeframes(ONE_OF_EACH, true) == [Timeframe(false, 1)]
  {
    var tfs := ONE_OF_EACH.timeframes;
    assert tfs[..1] == [Timeframe(false, 1)] && tfs[..1][..0] == [];
    assert Kind(tfs[..1], false) == [Timeframe(false, 1)] && Kind(tfs[..1], true) == [];
  }

  /** Two timely daily passes a cycle apart both mark: the soundness theorem speaks of real runs. */
  lemma TimelyPassesMark()
    ensures var calls := [Call(0, TIMELY), Call(DAILY_CYCLE, TIMELY)];
            && Fits(ONE_OF_EACH, EMPTY) && CleanDaily(ONE_OF_EACH, EMPTY, calls)
            && MarksAt(ONE_OF_EACH, EMPTY, calls, 0) && MarksAt(ONE_OF_EACH, EMPTY, calls, 1)
  {
    var calls := [Call(0, TIMELY), Call(DAILY_CYCLE, TIMELY)];
    KindsOfOneEach();
    TimelyPass();
    assert UnitCount([Timeframe(false, 1)]) == 1;
    hide PassFrom, PassTimeframes, BothKinds;
    var first := EMPTY.(dailyFullAt := Some(0));
    assert Refreshed(ONE_OF_EACH, EMPTY, 0, TIMELY) == first;
    assert GateAt(ONE_OF_EACH, EMPTY, calls, 0) == EMPTY;
    assert GateAt(ONE_OF_EACH, EMPTY, calls, 1) == first;
  }
}
