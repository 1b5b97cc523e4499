/** The deadline-cut evidence pass over (symbol, timeframe, strategy) units. A symbol's units are
    numbered through its timeframes in order; the symbols are numbered in universe order. */
module EvidenceSweep {
  import opened Wrappers

  datatype Timeframe = Timeframe(minute: bool, specs: nat)

  /** One walk-forward run: strategy number `unit` of the symbol, counted over all its timeframes. */
  datatype Unit = Unit(symbol: nat, unit: nat)

  /** What a pass meets: whether its c-th clock reading is past the deadline, and whether the fetch
      of a symbol's t-th timeframe succeeds. */
  datatype Oracle = Oracle(late: nat -> bool, fetched: (nat, nat) -> bool)

  /** A fetch that failed: in which symbol of the pass, of which timeframe with how many strategies, and
      how many units the pass had run by then. */
  datatype Miss = Miss(covered: nat, timeframe: nat, specs: nat, ran: nat)

  /** What a pass did. `resume` is the unit it asks to be resumed at, by its own count; `place` is the
      unit it stopped before, counted over all timeframes. */
  datatype Pass = Pass(executed: seq<Unit>, covered: nat, resume: nat, midSymbol: bool, truncated: bool, checks: nat,
                       place: nat, failed: seq<Miss>)

  const FRESH := Pass([], 0, 0, false, false, 0, 0, [])

  function Max(a: nat, b: nat): nat { if a > b then a else b }

  /** Units of the timeframes before the t-th. */
  function Offset(tfs: seq<Timeframe>, t: nat): nat
    requires t <= |tfs|
  {
    if t == 0 then 0 else Offset(tfs, t - 1) + tfs[t - 1].specs
  }

  function UnitCount(tfs: seq<Timeframe>): nat {
    Offset(tfs, |tfs|)
  }

  function Rotated(size: nat, offset: nat): seq<nat> {
    seq(size, k requires 0 <= k < size => (offset + k) % size)
  }

  // ---- The three loops as functions -----------------------------------------------------------------

  /** The rest of a timeframe's strategies from the j-th, with `unit` counted so far. */
  function Specs(o: Oracle, symbol: nat, base: nat, count: nat, j: nat, unit: nat, skip: nat, p: Pass): Pass
    requires j <= count
    decreases count - j
  {
    if j == count then p
    else if unit + 1 <= skip then Specs(o, symbol, base, count, j + 1, unit + 1, skip, p)
    else if (o.late)(p.checks) then p.(resume := unit, place := base + j, midSymbol := true, truncated := true,
                                       checks := p.checks + 1)
    else Specs(o, symbol, base, count, j + 1, unit + 1, skip,
               p.(executed := p.executed + [Unit(symbol, base + j)], checks := p.checks + 1))
  }

  function Missed(p: Pass, t: nat, specs: nat): Pass {
    p.(failed := p.failed + [Miss(p.covered, t, specs, |p.executed|)])
  }

  /** The rest of a symbol from its t-th timeframe. A failed fetch goes on without counting the
      timeframe's units. */
  function Timeframes(tfs: seq<Timeframe>, o: Oracle, symbol: nat, t: nat, unit: nat, skip: nat, p: Pass): Pass
    requires t <= |tfs|
    decreases |tfs| - t
  {
    if t == |tfs| then p
    else
      var n := tfs[t].specs;
      if unit + n <= skip then Timeframes(tfs, o, symbol, t + 1, unit + n, skip, p)
      else if tfs[t].minute && (o.late)(p.checks) then
        p.(resume := Max(unit, skip), place := Max(Offset(tfs, t), skip), midSymbol := true, truncated := true,
           checks := p.checks + 1)
      else
        var p1 := if tfs[t].minute then p.(checks := p.checks + 1) else p;
        if !(o.fetched)(symbol, t) then Timeframes(tfs, o, symbol, t + 1, unit, skip, Missed(p1, t, n))
        else
          var p2 := Specs(o, symbol, Offset(tfs, t), n, 0, unit, skip, p1);
          if p2.truncated then p2 else Timeframes(tfs, o, symbol, t + 1, unit + n, skip, p2)
  }

  /** The rest of the universe from its k-th symbol. */
  function Symbols(tfs: seq<Timeframe>, o: Oracle, universe: seq<nat>, k: nat, skip: nat, p: Pass): Pass
    requires k <= |universe|
    decreases |universe| - k
  {
    if k == |universe| then p
    else if (o.late)(p.checks) then p.(truncated := true, checks := p.checks + 1)
    else
      var p2 := Timeframes(tfs, o, universe[k], 0, 0, skip, p.(covered := p.covered + 1, checks := p.checks + 1));
      if p2.truncated then p2 else Symbols(tfs, o, universe, k + 1, 0, p2)
  }

  function RunPass(size: nat, tfs: seq<Timeframe>, offset: nat, startUnit: nat, o: Oracle): Pass {
    Symbols(tfs, o, Rotated(size, offset), 0, startUnit, FRESH)
  }

  /** The pass as it is run: three nested loops over the variables they update. */
  method Run(size: nat, tfs: seq<Timeframe>, offset: nat, startUnit: nat, o: Oracle) returns (p: Pass)
    ensures p == RunPass(size, tfs, offset, startUnit, o)
  {
    var universe := Rotated(size, offset);
    var skip := startUnit;
    p := FRESH;
    var k := 0;
    while k < |universe|
      invariant k <= |universe|
      invariant !p.truncated && Symbols(tfs, o, universe, k, skip, p) == RunPass(size, tfs, offset, startUnit, o)
    {
      if (o.late)(p.checks) {
        p := p.(truncated := true, checks := p.checks + 1);
        return;
      }
      p := p.(covered := p.covered + 1, checks := p.checks + 1);
      ghost var whole := Timeframes(tfs, o, universe[k], 0, 0, skip, p);
      var unit, t := 0, 0;
      while t < |tfs| && !p.truncated
        invariant t <= |tfs|
        invariant if p.truncated then p == whole else Timeframes(tfs, o, universe[k], t, unit, skip, p) == whole
        decreases |tfs| - t
      {
        p, unit := RunTimeframe(tfs, o, universe[k], t, unit, skip, p);
        t := t + 1;
      }
      if p.truncated {
        return;
      }
      skip := 0;
      k := k + 1;
    }
  }

  /** The body of the timeframe loop. */
  method RunTimeframe(tfs: seq<Timeframe>, o: Oracle, symbol: nat, t: nat, unit0: nat, skip: nat, p0: Pass)
    returns (p: Pass, unit: nat)
    requires t < |tfs| && !p0.truncated
    ensures Timeframes(tfs, o, symbol, t, unit0, skip, p0) ==
            if p.truncated then p else Timeframes(tfs, o, symbol, t + 1, unit, skip, p)
  {
    p, unit := p0, unit0;
    var n := tfs[t].specs;
    if unit + n <= skip {
      unit := unit + n;
      return;
    }
    if tfs[t].minute {
      if (o.late)(p.checks) {
        p := p.(resume := Max(unit, skip), place := Max(Offset(tfs, t), skip), midSymbol := true, truncated := true,
                checks := p.checks + 1);
        return;
      }
      p := p.(checks := p.checks + 1);
    }
    if !(o.fetched)(symbol, t) {
      p := Missed(p, t, n);
      return;
    }
    ghost var whole := Specs(o, symbol, Offset(tfs, t), n, 0, unit, skip, p);
    var j := 0;
    while j < n
      invariant 0 <= j <= n && unit == unit0 + j && !p.truncated
      invariant Specs(o, symbol, Offset(tfs, t), n, j, unit, skip, p) == whole
    {
      unit := unit + 1;
      if unit <= skip {
        j := j + 1;
        continue;
      }
      if (o.late)(p.checks) {
        p := p.(resume := unit - 1, place := Offset(tfs, t) + j, midSymbol := true, truncated := true,
                checks := p.checks + 1);
        return;
      }
      p := p.(executed := p.executed + [Unit(symbol, Offset(tfs, t) + j)], checks := p.checks + 1);
      j := j + 1;
    }
  }

  // ---- The unbounded sweep --------------------------------------------------------------------------

  /** The unit at a position of the endless cyclic sweep. */
  function UnitAt(size: nat, units: nat, pos: nat): Unit
    requires size > 0 && units > 0
  {
    Unit(pos / units % size, pos % units)
  }

  function Cycle(size: nat, units: nat, pos: nat, len: nat): seq<Unit>
    requires size > 0 && units > 0
  {
    seq(len, i requires 0 <= i < len => UnitAt(size, units, pos + i))
  }

  lemma MulOrder(a: nat, b: nat, u: nat)
    ensures a <= b ==> a * u <= b * u
  {}

  lemma DivPos(units: nat, q: nat, r: nat)
    requires r < units
    ensures (q * units + r) / units == q && (q * units + r) % units == r
  {
    var x := q * units + r;
    var d := x / units;
    assert d * units <= x < d * units + units;
    MulOrder(d + 1, q, units);
    MulOrder(q + 1, d, units);
    assert (d + 1) * units == d * units + units && (q + 1) * units == q * units + units;
  }

  lemma CycleJoins(size: nat, units: nat, pos: nat, a: nat, b: nat)
    requires size > 0 && units > 0
    ensures Cycle(size, units, pos, a) + Cycle(size, units, pos + a, b) == Cycle(size, units, pos, a + b)
  {
    hide UnitAt;
  }

  /** One unit appended to a stretch of the sweep that stands at unit r of symbol q. */
  lemma CycleStep(size: nat, units: nat, pos: nat, len: nat, q: nat, r: nat)
    requires size > 0 && r < units && pos + len == q * units + r
    ensures Cycle(size, units, pos, len) + [Unit(q % size, r)] == Cycle(size, units, pos, len + 1)
  {
    DivPos(units, q, r);
    assert UnitAt(size, units, pos + len) == Unit(q % size, r);
    hide UnitAt;
    var longer := Cycle(size, units, pos, len + 1);
    assert longer[..len] == Cycle(size, units, pos, len);
    assert longer == longer[..len] + [longer[len]];
  }

  /** The stretch a pass has run, from `pos` up to unit r of symbol q (r may be the symbol's end). */
  ghost predicate Stands(size: nat, units: nat, pos: nat, executed: seq<Unit>, q: nat, r: nat)
    requires size > 0 && units > 0
  {
    && r <= units && pos + |executed| == q * units + r
    && executed == Cycle(size, units, pos, |executed|)
  }

  lemma {:induction false} OffsetGrows(tfs: seq<Timeframe>, t: nat)
    requires t <= |tfs|
    ensures Offset(tfs, t) <= UnitCount(tfs)
    decreases |tfs| - t
  {
    if t < |tfs| {
      OffsetGrows(tfs, t + 1);
    }
  }

  /** A symbol's end is the next symbol's start. */
  lemma NextSymbol(size: nat, units: nat, pos: nat, executed: seq<Unit>, q: nat)
    requires size > 0 && units > 0 && Stands(size, units, pos, executed, q, units)
    ensures Stands(size, units, pos, executed, q + 1, 0)
  {
    assert (q + 1) * units == q * units + units;
  }

  lemma RotationWraps(size: nat, q: nat, k: nat)
    requires size > 0
    ensures (q % size + k) % size == (q + k) % size
  {
    var a := q % size + k;
    var m := q / size;
    DivPos(size, a / size, a % size);
    DivPos(size, m + a / size, a % size);
    assert (m + a / size) * size == m * size + a / size * size;
  }

  // ---- What the loops add ------------------------------------------------------------------------------

  /** The strategies loop runs one unit after another and counts what it runs. */
  lemma {:induction false} SpecsCount(o: Oracle, symbol: nat, base: nat, count: nat, j: nat, unit: nat, skip: nat,
                                      p: Pass)
    requires j <= count && !p.truncated
    ensures var r := Specs(o, symbol, base, count, j, unit, skip, p);
            && p.executed <= r.executed && r.failed == p.failed && r.covered == p.covered
            && (r.truncated ==>
                  && r.midSymbol && skip <= r.resume < unit + (count - j)
                  && |r.executed| == |p.executed| + r.resume - Max(unit, skip)
                  && r.place - r.resume == base + j - unit)
            && (!r.truncated ==>
                  && |r.executed| == |p.executed| + Max(unit + (count - j), skip) - Max(unit, skip)
                  && r.midSymbol == p.midSymbol)
    decreases count - j
  {
    if j < count {
      if unit + 1 <= skip {
        SpecsCount(o, symbol, base, count, j + 1, unit + 1, skip, p);
      } else if !(o.late)(p.checks) {
        SpecsCount(o, symbol, base, count, j + 1, unit + 1, skip,
                   p.(executed := p.executed + [Unit(symbol, base + j)], checks := p.checks + 1));
      }
    }
  }

  /** What a symbol adds: it extends what was run, its misses are its own, and it runs at most what is
      left of the symbol by its count, exactly up to its resume unit where it stops. */
  ghost predicate Adds(tfs: seq<Timeframe>, p: Pass, r: Pass, t: nat, unit: nat, skip: nat)
    requires t <= |tfs| && Offset(tfs, t) <= UnitCount(tfs)
  {
    && p.executed <= r.executed && p.failed <= r.failed && r.covered == p.covered
    && (forall x | |p.failed| <= x < |r.failed| ::
        r.failed[x].covered == p.covered && |p.executed| <= r.failed[x].ran <= |r.executed|)
    && (r.truncated ==> r.midSymbol && |r.executed| == |p.executed| + r.resume - Max(unit, skip))
    && (r.truncated ==> r.resume <= Max(unit + (UnitCount(tfs) - Offset(tfs, t)), skip))
    && (!r.truncated ==> r.midSymbol == p.midSymbol
                         && |r.executed| <= |p.executed| +
                              Max(unit + (UnitCount(tfs) - Offset(tfs, t)), skip) - Max(unit, skip))
  }

  lemma {:induction false} TimeframesAdd(tfs: seq<Timeframe>, o: Oracle, symbol: nat, t: nat, unit: nat, skip: nat,
                                         p: Pass)
    requires t <= |tfs| && !p.truncated
    ensures Offset(tfs, t) <= UnitCount(tfs)
            && Adds(tfs, p, Timeframes(tfs, o, symbol, t, unit, skip, p), t, unit, skip)
    decreases |tfs| - t
  {
    OffsetGrows(tfs, t);
    hide Specs, UnitCount, Adds;
    if t < |tfs| {
      var n, at := tfs[t].specs, Offset(tfs, t);
      OffsetGrows(tfs, t + 1);
      assert Offset(tfs, t + 1) == at + n;
      var whole := Timeframes(tfs, o, symbol, t, unit, skip, p);
      if unit + n <= skip {
        TimeframesAdd(tfs, o, symbol, t + 1, unit + n, skip, p);
        RunAdds(tfs, p, p, whole, t, unit, skip);
      } else if tfs[t].minute && (o.late)(p.checks) {
        StopAdds(tfs, p, whole, t, unit, skip);
      } else {
        var p1 := if tfs[t].minute then p.(checks := p.checks + 1) else p;
        if !(o.fetched)(symbol, t) {
          var p2 := Missed(p1, t, n);
          TimeframesAdd(tfs, o, symbol, t + 1, unit, skip, p2);
          MissAdds(tfs, p, p2, whole, t, unit, skip);
        } else {
          SpecsCount(o, symbol, at, n, 0, unit, skip, p1);
          var p2 := Specs(o, symbol, at, n, 0, unit, skip, p1);
          if p2.truncated {
            StopAdds(tfs, p, p2, t, unit, skip);
          } else {
            TimeframesAdd(tfs, o, symbol, t + 1, unit + n, skip, p2);
            RunAdds(tfs, p, p2, whole, t, unit, skip);
          }
        }
      }
    } else {
      assert UnitCount(tfs) == Offset(tfs, t);
      EndAdds(tfs, p, t, unit, skip);
    }
  }

  lemma EndAdds(tfs: seq<Timeframe>, p: Pass, t: nat, unit: nat, skip: nat)
    requires t <= |tfs| && Offset(tfs, t) <= UnitCount(tfs) && !p.truncated
    ensures Adds(tfs, p, p, t, unit, skip)
  {
    hide UnitCount, Offset;
  }

  /** A symbol that stops in this timeframe. */
  lemma StopAdds(tfs: seq<Timeframe>, p: Pass, r: Pass, t: nat, unit: nat, skip: nat)
    requires t < |tfs| && Offset(tfs, t) + tfs[t].specs <= UnitCount(tfs) && skip < unit + tfs[t].specs
    requires p.executed <= r.executed && r.failed == p.failed && r.covered == p.covered && r.truncated && r.midSymbol
    requires Max(unit, skip) <= r.resume <= unit + tfs[t].specs
             && |r.executed| == |p.executed| + r.resume - Max(unit, skip)
    ensures Adds(tfs, p, r, t, unit, skip)
  {
    hide UnitCount, Offset;
  }

  /** A timeframe that runs what the skip leaves of it, or is skipped whole. */
  lemma RunAdds(tfs: seq<Timeframe>, p: Pass, p2: Pass, r: Pass, t: nat, unit: nat, skip: nat)
    requires t < |tfs| && Offset(tfs, t + 1) <= UnitCount(tfs) && Offset(tfs, t + 1) == Offset(tfs, t) + tfs[t].specs
    requires p.executed <= p2.executed && p2.failed == p.failed && p2.covered == p.covered
             && p2.midSymbol == p.midSymbol
    requires |p2.executed| == |p.executed| + Max(unit + tfs[t].specs, skip) - Max(unit, skip)
    requires Adds(tfs, p2, r, t + 1, unit + tfs[t].specs, skip)
    ensures Adds(tfs, p, r, t, unit, skip)
  {
    hide UnitCount, Offset;
  }

  lemma MissAdds(tfs: seq<Timeframe>, p: Pass, p2: Pass, r: Pass, t: nat, unit: nat, skip: nat)
    requires t < |tfs| && Offset(tfs, t + 1) <= UnitCount(tfs) && Offset(tfs, t + 1) == Offset(tfs, t) + tfs[t].specs
    requires p2.executed == p.executed && p2.covered == p.covered && p2.midSymbol == p.midSymbol
             && |p2.failed| == |p.failed| + 1
    requires p.failed <= p2.failed && p2.failed[|p.failed|].covered == p.covered
             && p2.failed[|p.failed|].ran == |p.executed|
    requires Adds(tfs, p2, r, t + 1, unit, skip)
    ensures Adds(tfs, p, r, t, unit, skip)
  {
    hide UnitCount, Offset;
    assert r.failed[|p.failed|] == p2.failed[|p.failed|];
  }

  /** The strategies loop when its count lags behind: the first unit it runs is numbered higher than
      both its count and the skip. */
  lemma {:induction false} SpecsFirst(o: Oracle, symbol: nat, base: nat, count: nat, j: nat, unit: nat, skip: nat,
                                      p: Pass)
    requires j <= count && !p.truncated && unit < base + j
    ensures var r := Specs(o, symbol, base, count, j, unit, skip, p);
            && p.executed <= r.executed
            && (|r.executed| > |p.executed| ==> r.executed[|p.executed|].unit > Max(unit, skip))
    decreases count - j
  {
    if j < count {
      if unit + 1 <= skip {
        SpecsFirst(o, symbol, base, count, j + 1, unit + 1, skip, p);
      } else if !(o.late)(p.checks) {
        var p1 := p.(executed := p.executed + [Unit(symbol, base + j)], checks := p.checks + 1);
        SpecsCount(o, symbol, base, count, j + 1, unit + 1, skip, p1);
        assert Specs(o, symbol, base, count, j + 1, unit + 1, skip,
                     p1).executed[|p.executed|] == p1.executed[|p.executed|];
      }
    }
  }

  lemma {:induction false} FirstAfterLag(tfs: seq<Timeframe>, o: Oracle, symbol: nat, t: nat, unit: nat, skip: nat,
                                         p: Pass)
    requires t <= |tfs| && !p.truncated && unit < Offset(tfs, t) && skip < Offset(tfs, t)
    ensures var r := Timeframes(tfs, o, symbol, t, unit, skip, p);
            && p.executed <= r.executed
            && (|r.executed| > |p.executed| ==> r.executed[|p.executed|].unit > Max(unit, skip))
    decreases |tfs| - t
  {
    hide Specs;
    if t < |tfs| {
      var n, at := tfs[t].specs, Offset(tfs, t);
      assert Offset(tfs, t + 1) == at + n;
      if unit + n <= skip {
        FirstAfterLag(tfs, o, symbol, t + 1, unit + n, skip, p);
      } else if !(tfs[t].minute && (o.late)(p.checks)) {
        var p1 := if tfs[t].minute then p.(checks := p.checks + 1) else p;
        if !(o.fetched)(symbol, t) {
          FirstAfterLag(tfs, o, symbol, t + 1, unit, skip, Missed(p1, t, n));
        } else {
          SpecsCount(o, symbol, at, n, 0, unit, skip, p1);
          SpecsFirst(o, symbol, at, n, 0, unit, skip, p1);
          var p2 := Specs(o, symbol, at, n, 0, unit, skip, p1);
          if !p2.truncated {
            FirstAfterLag(tfs, o, symbol, t + 1, unit + n, skip, p2);
            var r := Timeframes(tfs, o, symbol, t + 1, unit + n, skip, p2);
            if |p2.executed| > |p.executed| {
              assert r.executed[|p.executed|] == p2.executed[|p.executed|];
            } else {
              assert Max(unit + n, skip) == Max(unit, skip);
            }
          }
        }
      }
    }
  }

  // ---- Failed fetches and the place of a pass -----------------------------------------------------------

  /** No miss that matters is new, or the symbol was stopped in and nothing ran after the miss. */
  ghost predicate Harmless(p: Pass, r: Pass) {
    forall x | |p.failed| <= x < |r.failed| && r.failed[x].specs > 0 :: r.midSymbol && r.failed[x].ran == |r.executed|
  }

  /** No unit was passed over: every failed fetch of a timeframe with strategies was in the symbol the
      pass stopped in, and nothing ran after it. */
  ghost predicate Unbroken(p: Pass) {
    forall m | m in p.failed && m.specs > 0 :: p.midSymbol && m.covered == p.covered && m.ran == |p.executed|
  }

  /** From a lagging count on, the symbol stands where it says only while it runs nothing, and cannot
      complete. */
  lemma LagNeverRecovers(tfs: seq<Timeframe>, o: Oracle, size: nat, pos: nat, q: nat, t: nat, unit: nat, skip: nat,
                         p: Pass)
    requires size > 0 && UnitCount(tfs) > 0 && t <= |tfs| && !p.truncated && unit < Offset(tfs, t)
             && skip < Offset(tfs, t)
    requires Stands(size, UnitCount(tfs), pos, p.executed, q, Max(unit, skip))
    ensures var r := Timeframes(tfs, o, q % size, t, unit, skip, p);
            && (r.truncated ==>
                  r.resume <= UnitCount(tfs) && (Stands(size, UnitCount(tfs), pos, r.executed, q, r.resume) <==>
                                                 |r.executed| == |p.executed|))
            && (!r.truncated ==> pos + |r.executed| < q * UnitCount(tfs) + UnitCount(tfs))
  {
    hide Timeframes;
    OffsetGrows(tfs, t);
    TimeframesAdd(tfs, o, q % size, t, unit, skip, p);
    FirstAfterLag(tfs, o, q % size, t, unit, skip, p);
    var r := Timeframes(tfs, o, q % size, t, unit, skip, p);
    hide UnitCount, Offset;
    if |r.executed| == |p.executed| {
      assert r.executed == p.executed;
    } else {
      WrongUnit(size, UnitCount(tfs), pos, p.executed, r.executed, q, Max(unit, skip));
    }
  }

  lemma WrongUnit(size: nat, units: nat, pos: nat, before: seq<Unit>, after: seq<Unit>, q: nat, r: nat)
    requires size > 0 && units > 0 && Stands(size, units, pos, before, q, r) && r < units
    requires before <= after && |after| > |before| && after[|before|].unit > r
    ensures after != Cycle(size, units, pos, |after|)
  {
    DivPos(units, q, r);
    assert Cycle(size, units, pos, |after|)[|before|] == UnitAt(size, units, pos + |before|);
  }

  /** Where a symbol leaves a pass that has not lost its place: where it says, if and only if its misses
      are harmless; if it is completed with a miss that matters, it is behind for good. */
  lemma {:induction false} TimeframesExact(tfs: seq<Timeframe>, o: Oracle, size: nat, pos: nat, q: nat, t: nat,
                                           skip: nat, p: Pass)
    requires size > 0 && UnitCount(tfs) > 0 && t <= |tfs| && skip <= UnitCount(tfs) && !p.truncated && !p.midSymbol
    requires Stands(size, UnitCount(tfs), pos, p.executed, q, Max(Offset(tfs, t), skip))
    ensures var r := Timeframes(tfs, o, q % size, t, Offset(tfs, t), skip, p);
            && (r.truncated ==>
                  r.resume <= UnitCount(tfs) && (Stands(size, UnitCount(tfs), pos, r.executed, q, r.resume) <==>
                                                 Harmless(p, r)))
            && (!r.truncated ==>
                  && (Harmless(p, r) ==> Stands(size, UnitCount(tfs), pos, r.executed, q, UnitCount(tfs)))
                  && (!Harmless(p, r) ==> pos + |r.executed| < q * UnitCount(tfs) + UnitCount(tfs)))
    decreases |tfs| - t
  {
    hide Stands, Specs, Harmless;
    var r := Timeframes(tfs, o, q % size, t, Offset(tfs, t), skip, p);
    if t == |tfs| {
      assert Harmless(p, p) by { SameMisses(p, p); }
    } else {
      var units, n, at := UnitCount(tfs), tfs[t].specs, Offset(tfs, t);
      OffsetGrows(tfs, t + 1);
      assert Offset(tfs, t + 1) == at + n <= units;
      if at + n <= skip {
        TimeframesExact(tfs, o, size, pos, q, t + 1, skip, p);
      } else if tfs[t].minute && (o.late)(p.checks) {
        SameMisses(p, r);
      } else {
        var p1 := if tfs[t].minute then p.(checks := p.checks + 1) else p;
        if !(o.fetched)(q % size, t) {
          MissExact(tfs, o, size, pos, q, t, skip, p, p1);
          if n == 0 {
            TimeframesExact(tfs, o, size, pos, q, t + 1, skip, Missed(p1, t, n));
          }
        } else {
          SpecsStand(tfs, o, size, pos, q, t, skip, p, p1);
          var p2 := Specs(o, q % size, at, n, 0, at, skip, p1);
          if p2.truncated {
            SameMisses(p, p2);
          } else {
            TimeframesExact(tfs, o, size, pos, q, t + 1, skip, p2);
            HarmlessSince(p, p2, r);
          }
        }
      }
    }
  }

  lemma SameMisses(p: Pass, r: Pass)
    requires r.failed == p.failed
    ensures Harmless(p, r)
  {}

  lemma HarmlessSince(p: Pass, p2: Pass, r: Pass)
    requires p2.failed == p.failed
    ensures Harmless(p, r) == Harmless(p2, r)
  {}

  lemma MissExact(tfs: seq<Timeframe>, o: Oracle, size: nat, pos: nat, q: nat, t: nat, skip: nat, p: Pass, p1: Pass)
    requires size > 0 && UnitCount(tfs) > 0 && t < |tfs| && !p.truncated && !p.midSymbol
             && p1 == p.(checks := p1.checks)
    requires Offset(tfs, t) + tfs[t].specs > skip
    requires Stands(size, UnitCount(tfs), pos, p.executed, q, Max(Offset(tfs, t), skip))
    ensures var p2 := Missed(p1, t, tfs[t].specs);
            var r := Timeframes(tfs, o, q % size, t + 1, Offset(tfs, t), skip, p2);
            && (tfs[t].specs == 0 ==> Harmless(p, r) == Harmless(p2, r))
            && (tfs[t].specs > 0 && r.truncated ==>
                  r.resume <= UnitCount(tfs) && (Stands(size, UnitCount(tfs), pos, r.executed, q, r.resume) <==>
                                                 Harmless(p, r)))
            && (tfs[t].specs > 0 && !r.truncated ==>
                !Harmless(p, r) && pos + |r.executed| < q * UnitCount(tfs) + UnitCount(tfs))
  {
    hide Timeframes, Stands;
    var p2 := Missed(p1, t, tfs[t].specs);
    var r := Timeframes(tfs, o, q % size, t + 1, Offset(tfs, t), skip, p2);
    TimeframesAdd(tfs, o, q % size, t + 1, Offset(tfs, t), skip, p2);
    assert Offset(tfs, t + 1) == Offset(tfs, t) + tfs[t].specs;
    assert r.failed[|p.failed|] == p2.failed[|p.failed|] == Miss(p.covered, t, tfs[t].specs, |p.executed|);
    if tfs[t].specs > 0 {
      LagNeverRecovers(tfs, o, size, pos, q, t + 1, Offset(tfs, t), skip, p2);
    }
    hide UnitCount, Offset;
  }

  lemma SpecsStand(tfs: seq<Timeframe>, o: Oracle, size: nat, pos: nat, q: nat, t: nat, skip: nat, p: Pass, p1: Pass)
    requires size > 0 && UnitCount(tfs) > 0 && t < |tfs| && skip <= UnitCount(tfs) && !p.truncated && !p.midSymbol
             && p1 == p.(checks := p1.checks)
    requires Stands(size, UnitCount(tfs), pos, p.executed, q, Max(Offset(tfs, t), skip))
    ensures var p2 := Specs(o, q % size, Offset(tfs, t), tfs[t].specs, 0, Offset(tfs, t), skip, p1);
            && p2.failed == p.failed && (!p2.truncated ==> !p2.midSymbol)
            && (p2.truncated ==> p2.resume <= UnitCount(tfs) && Stands(size, UnitCount(tfs), pos, p2.executed, q,
              p2.resume))
            && (!p2.truncated ==> Stands(size, UnitCount(tfs), pos, p2.executed, q, Max(Offset(tfs, t + 1), skip)))
  {
    OffsetGrows(tfs, t + 1);
    assert Offset(tfs, t + 1) == Offset(tfs, t) + tfs[t].specs <= UnitCount(tfs);
    hide Stands, Specs;
    SpecsCount(o, q % size, Offset(tfs, t), tfs[t].specs, 0, Offset(tfs, t), skip, p1);
    SpecsSweep(o, size, UnitCount(tfs), pos, q, Offset(tfs, t), tfs[t].specs, 0, skip, p1);
  }

  /** Where the strategies loop leaves a pass that stands at `max(unit, skip)`. */
  lemma {:induction false} SpecsSweep(o: Oracle, size: nat, units: nat, pos: nat, q: nat, base: nat, count: nat, j: nat,
                                      skip: nat, p: Pass)
    requires size > 0 && units > 0 && j <= count && base + count <= units && skip <= units && !p.truncated
    requires Stands(size, units, pos, p.executed, q, if base + j > skip then base + j else skip)
    ensures var r := Specs(o, q % size, base, count, j, base + j, skip, p);
            && r.covered == p.covered
            && (r.truncated ==>
                  r.midSymbol && skip <= r.resume < base + count && Stands(size, units, pos, r.executed, q, r.resume))
            && (!r.truncated ==> Stands(size, units, pos, r.executed, q, if base + count > skip then base + count
                                        else skip))
            && (!r.truncated ==> r.midSymbol == p.midSymbol && r.resume == p.resume)
    decreases count - j
  {
    if j < count {
      if base + j + 1 <= skip {
        SpecsSweep(o, size, units, pos, q, base, count, j + 1, skip, p);
      } else if !(o.late)(p.checks) {
        CycleStep(size, units, pos, |p.executed|, q, base + j);
        SpecsSweep(o, size, units, pos, q, base, count, j + 1, skip,
                   p.(executed := p.executed + [Unit(q % size, base + j)], checks := p.checks + 1));
      }
    }
  }

  /** A pass that is behind stays behind. */
  lemma {:induction false} BehindForGood(tfs: seq<Timeframe>, o: Oracle, size: nat, pos: nat, q: nat, k: nat, p: Pass)
    requires size > 0 && UnitCount(tfs) > 0 && k <= size && !p.truncated && !p.midSymbol
    requires pos + |p.executed| < (q + k) * UnitCount(tfs)
    ensures var r := Symbols(tfs, o, Rotated(size, q % size), k, 0, p);
            && p.failed <= r.failed && p.covered <= r.covered
            && (r.midSymbol ==> r.covered > p.covered && r.resume <= UnitCount(tfs))
            && pos + |r.executed| < (q + k + (r.covered - p.covered) - if r.midSymbol then 1 else 0) * UnitCount(tfs)
                                    + if r.midSymbol then r.resume else 0
    decreases size - k
  {
    hide Timeframes, UnitCount;
    var universe := Rotated(size, q % size);
    if k < size && !(o.late)(p.checks) {
      var p1 := p.(covered := p.covered + 1, checks := p.checks + 1);
      TimeframesAdd(tfs, o, universe[k], 0, 0, 0, p1);
      var p2 := Timeframes(tfs, o, universe[k], 0, 0, 0, p1);
      if !p2.truncated {
        assert (q + k + 1) * UnitCount(tfs) == (q + k) * UnitCount(tfs) + UnitCount(tfs);
        BehindForGood(tfs, o, size, pos, q, k + 1, p2);
      }
    }
  }

  ghost predicate NoneMatters(p: Pass) {
    forall m | m in p.failed :: m.specs == 0
  }

  /** Where a pass ends: mid-symbol at its resume unit, at a symbol's head, or after the universe, if and
      only if it is unbroken. */
  lemma {:induction false} SymbolsSweep(tfs: seq<Timeframe>, o: Oracle, size: nat, pos: nat, q: nat, k: nat, skip: nat,
                                        p: Pass)
    requires size > 0 && UnitCount(tfs) > 0 && k <= size && skip <= UnitCount(tfs) && !p.truncated && !p.midSymbol
             && NoneMatters(p)
    requires k < size || skip == 0
    requires Stands(size, UnitCount(tfs), pos, p.executed, q + k, skip)
    ensures var r := Symbols(tfs, o, Rotated(size, q % size), k, skip, p);
            && r.covered >= p.covered && (r.midSymbol ==> r.covered > p.covered && r.resume <= UnitCount(tfs))
            && (r.covered == p.covered ==> r.executed == p.executed)
            && (r.covered > p.covered || skip == 0 ==>
                  (Stands(size, UnitCount(tfs), pos, r.executed,
                          q + k + (r.covered - p.covered) - (if r.midSymbol then 1 else 0),
                          if r.midSymbol then r.resume else 0)
                   <==> Unbroken(r)))
    decreases size - k
  {
    hide Stands, Timeframes, UnitCount, Harmless, Unbroken, NoneMatters, Adds;
    var universe := Rotated(size, q % size);
    if k < size && !(o.late)(p.checks) {
      RotationWraps(size, q, k);
      var p1 := p.(covered := p.covered + 1, checks := p.checks + 1);
      var p2 := Timeframes(tfs, o, universe[k], 0, 0, skip, p1);
      SymbolOnward(tfs, o, size, pos, q, k, skip, p, p1);
      if !p2.truncated && Harmless(p1, p2) {
        SymbolsSweep(tfs, o, size, pos, q, k + 1, 0, p2);
      }
    } else {
      UnbrokenAlone(p, Symbols(tfs, o, universe, k, skip, p));
    }
  }

  lemma UnbrokenAlone(p: Pass, r: Pass)
    requires NoneMatters(p) && r.failed == p.failed
    ensures Unbroken(r)
  {}

  /** What one symbol does to a pass that stands at its start: it ends the pass where it says if and only
      if the pass is unbroken, it goes on standing at the next symbol, or it leaves the pass behind. */
  lemma SymbolOnward(tfs: seq<Timeframe>, o: Oracle, size: nat, pos: nat, q: nat, k: nat, skip: nat, p: Pass, p1: Pass)
    requires size > 0 && UnitCount(tfs) > 0 && k < size && skip <= UnitCount(tfs) && !p.truncated && !p.midSymbol
             && NoneMatters(p)
    requires p1 == p.(covered := p.covered + 1, checks := p1.checks)
    requires Stands(size, UnitCount(tfs), pos, p.executed, q + k, skip)
    ensures var p2 := Timeframes(tfs, o, (q + k) % size, 0, 0, skip, p1);
            && p2.covered == p1.covered && (p2.truncated ==> p2.midSymbol && p2.resume <= UnitCount(tfs))
            && (!p2.truncated ==> !p2.midSymbol)
            && (p2.truncated ==> (Stands(size, UnitCount(tfs), pos, p2.executed, q + k, p2.resume) <==> Unbroken(p2)))
            && (!p2.truncated && Harmless(p1, p2) ==>
                  NoneMatters(p2) && Stands(size, UnitCount(tfs), pos, p2.executed, q + k + 1, 0))
            && (!p2.truncated && !Harmless(p1, p2) ==>
                  var r := Symbols(tfs, o, Rotated(size, q % size), k + 1, 0, p2);
                  && !Unbroken(r) && r.covered >= p2.covered
                  && (r.midSymbol ==> r.covered > p2.covered && r.resume <= UnitCount(tfs))
                  && !Stands(size, UnitCount(tfs), pos, r.executed,
                             q + k + 1 + (r.covered - p2.covered) - (if r.midSymbol then 1 else 0),
                             if r.midSymbol then r.resume else 0))
  {
    hide Stands, Timeframes, UnitCount, Harmless, Unbroken, NoneMatters, Symbols;
    var p2 := Timeframes(tfs, o, (q + k) % size, 0, 0, skip, p1);
    assert Offset(tfs, 0) == 0 && Max(0, skip) == skip;
    SameMatters(p, p1);
    TimeframesExact(tfs, o, size, pos, q + k, 0, skip, p1);
    TimeframesAdd(tfs, o, (q + k) % size, 0, 0, skip, p1);
    hide Offset;
    if p2.truncated {
      HarmlessIsUnbroken(tfs, p1, p2, skip);
    } else if Harmless(p1, p2) {
      NothingMissed(p1, p2);
      NextSymbol(size, UnitCount(tfs), pos, p2.executed, q + k);
    } else {
      assert (q + (k + 1)) * UnitCount(tfs) == (q + k) * UnitCount(tfs) + UnitCount(tfs);
      BehindForGood(tfs, o, size, pos, q, k + 1, p2);
      var r := Symbols(tfs, o, Rotated(size, q % size), k + 1, 0, p2);
      LeftBehind(tfs, p1, p2, r, skip);
      NotStanding(size, UnitCount(tfs), pos, r.executed,
                  q + k + 1 + (r.covered - p2.covered) - (if r.midSymbol then 1 else 0),
                  if r.midSymbol then r.resume else 0);
    }
  }

  lemma SameMatters(p: Pass, r: Pass)
    requires NoneMatters(p) && r.failed == p.failed
    ensures NoneMatters(r)
  {}

  lemma NoneMattersAt(p: Pass, r: Pass)
    requires NoneMatters(p) && p.failed <= r.failed
    ensures forall x | 0 <= x < |p.failed| :: r.failed[x].specs == 0
  {
    forall x | 0 <= x < |p.failed| ensures r.failed[x].specs == 0 {
      assert p.failed[x] in p.failed;
    }
  }

  lemma HarmlessIsUnbroken(tfs: seq<Timeframe>, p: Pass, r: Pass, skip: nat)
    requires NoneMatters(p) && Adds(tfs, p, r, 0, 0, skip) && r.truncated
    ensures Harmless(p, r) <==> Unbroken(r)
  {
    hide Offset;
    NoneMattersAt(p, r);
    if Unbroken(r) {
      forall x | |p.failed| <= x < |r.failed| && r.failed[x].specs > 0
        ensures r.midSymbol && r.failed[x].ran == |r.executed| {
        assert r.failed[x] in r.failed;
      }
    }
  }

  lemma NothingMissed(p: Pass, r: Pass)
    requires NoneMatters(p) && p.failed <= r.failed && Harmless(p, r) && !r.midSymbol
    ensures NoneMatters(r)
  {
    NoneMattersAt(p, r);
    hide NoneMatters;
    assert forall x | 0 <= x < |r.failed| :: r.failed[x].specs == 0;
  }

  lemma LeftBehind(tfs: seq<Timeframe>, p1: Pass, p2: Pass, r: Pass, skip: nat)
    requires Adds(tfs, p1, p2, 0, 0, skip) && !Harmless(p1, p2) && p2.failed <= r.failed
    requires p2.covered <= r.covered && (r.midSymbol ==> r.covered > p2.covered)
    ensures !Unbroken(r)
  {
    var x :| |p1.failed| <= x < |p2.failed| && p2.failed[x].specs > 0
        && !(p2.midSymbol && p2.failed[x].ran == |p2.executed|);
    assert r.failed[x] == p2.failed[x] && r.failed[x] in r.failed;
  }

  lemma NotStanding(size: nat, units: nat, pos: nat, executed: seq<Unit>, q: nat, r: nat)
    requires size > 0 && units > 0
    ensures pos + |executed| != q * units + r ==> !Stands(size, units, pos, executed, q, r)
  {}

  // ---- Whether a pass runs one stretch ----------------------------------------------------------------------

  ghost predicate Contiguous(size: nat, units: nat, pos: nat, executed: seq<Unit>)
    requires size > 0 && units > 0
  {
    executed == Cycle(size, units, pos, |executed|)
  }

  /** Nothing has run after a new miss that matters. */
  ghost predicate QuietSince(p: Pass, r: Pass) {
    forall x | |p.failed| <= x < |r.failed| && r.failed[x].specs > 0 :: r.failed[x].ran == |r.executed|
  }

  /** Nothing has run after a failed fetch of a timeframe with strategies. */
  ghost predicate Quiet(p: Pass) {
    forall m | m in p.failed && m.specs > 0 :: m.ran == |p.executed|
  }

  lemma ContiguousPart(size: nat, units: nat, pos: nat, before: seq<Unit>, after: seq<Unit>)
    requires size > 0 && units > 0 && before <= after && Contiguous(size, units, pos, after)
    ensures Contiguous(size, units, pos, before)
  {
    assert Cycle(size, units, pos, |after|)[..|before|] == Cycle(size, units, pos, |before|);
  }

  lemma LagBreaks(tfs: seq<Timeframe>, o: Oracle, size: nat, pos: nat, q: nat, t: nat, unit: nat, skip: nat, p: Pass)
    requires size > 0 && UnitCount(tfs) > 0 && t <= |tfs| && !p.truncated && unit < Offset(tfs, t)
             && skip < Offset(tfs, t)
    requires Stands(size, UnitCount(tfs), pos, p.executed, q, Max(unit, skip))
    ensures var r := Timeframes(tfs, o, q % size, t, unit, skip, p);
            Contiguous(size, UnitCount(tfs), pos, r.executed) <==> |r.executed| == |p.executed|
  {
    hide Timeframes;
    OffsetGrows(tfs, t);
    FirstAfterLag(tfs, o, q % size, t, unit, skip, p);
    var r := Timeframes(tfs, o, q % size, t, unit, skip, p);
    hide UnitCount, Offset;
    if |r.executed| == |p.executed| {
      assert r.executed == p.executed;
    } else {
      WrongUnit(size, UnitCount(tfs), pos, p.executed, r.executed, q, Max(unit, skip));
    }
  }

  lemma MissBreaks(tfs: seq<Timeframe>, o: Oracle, size: nat, pos: nat, q: nat, t: nat, skip: nat, p: Pass, p1: Pass)
    requires size > 0 && UnitCount(tfs) > 0 && t < |tfs| && !p.truncated && p1 == p.(checks := p1.checks)
    requires Offset(tfs, t) + tfs[t].specs > skip
    requires Stands(size, UnitCount(tfs), pos, p.executed, q, Max(Offset(tfs, t), skip))
    ensures var p2 := Missed(p1, t, tfs[t].specs);
            var r := Timeframes(tfs, o, q % size, t + 1, Offset(tfs, t), skip, p2);
            && (tfs[t].specs == 0 ==> QuietSince(p, r) == QuietSince(p2, r))
            && (tfs[t].specs > 0 ==> (Contiguous(size, UnitCount(tfs), pos, r.executed) <==> QuietSince(p, r)))
  {
    hide Timeframes, Stands, Contiguous;
    var p2 := Missed(p1, t, tfs[t].specs);
    var r := Timeframes(tfs, o, q % size, t + 1, Offset(tfs, t), skip, p2);
    TimeframesAdd(tfs, o, q % size, t + 1, Offset(tfs, t), skip, p2);
    assert Offset(tfs, t + 1) == Offset(tfs, t) + tfs[t].specs;
    assert r.failed[|p.failed|] == p2.failed[|p.failed|] == Miss(p.covered, t, tfs[t].specs, |p.executed|);
    if tfs[t].specs > 0 {
      LagBreaks(tfs, o, size, pos, q, t + 1, Offset(tfs, t), skip, p2);
    }
    hide UnitCount, Offset;
  }

  lemma StandsIsContiguous(size: nat, units: nat, pos: nat, executed: seq<Unit>, q: nat, r: nat)
    requires size > 0 && units > 0 && Stands(size, units, pos, executed, q, r)
    ensures Contiguous(size, units, pos, executed)
  {}

  lemma QuietIfNoneNew(p: Pass, r: Pass)
    requires r.failed == p.failed
    ensures QuietSince(p, r)
  {}

  lemma QuietOnward(p: Pass, p2: Pass, r: Pass)
    requires p2.failed == p.failed
    ensures QuietSince(p, r) == QuietSince(p2, r)
  {}

  /** A symbol runs on contiguously if and only if nothing runs in it after a miss that matters. */
  lemma {:induction false} TimeframesContiguous(tfs: seq<Timeframe>, o: Oracle, size: nat, pos: nat, q: nat, t: nat,
                                                skip: nat, p: Pass)
    requires size > 0 && UnitCount(tfs) > 0 && t <= |tfs| && skip <= UnitCount(tfs) && !p.truncated && !p.midSymbol
    requires Stands(size, UnitCount(tfs), pos, p.executed, q, Max(Offset(tfs, t), skip))
    ensures var r := Timeframes(tfs, o, q % size, t, Offset(tfs, t), skip, p);
            Contiguous(size, UnitCount(tfs), pos, r.executed) <==> QuietSince(p, r)
    decreases |tfs| - t
  {
    hide Stands, Specs, QuietSince, Contiguous;
    var units := UnitCount(tfs);
    var r := Timeframes(tfs, o, q % size, t, Offset(tfs, t), skip, p);
    StandsIsContiguous(size, units, pos, p.executed, q, Max(Offset(tfs, t), skip));
    if t == |tfs| {
      QuietIfNoneNew(p, p);
    } else {
      var n, at := tfs[t].specs, Offset(tfs, t);
      OffsetGrows(tfs, t + 1);
      assert Offset(tfs, t + 1) == at + n <= units;
      if at + n <= skip {
        TimeframesContiguous(tfs, o, size, pos, q, t + 1, skip, p);
      } else if tfs[t].minute && (o.late)(p.checks) {
        QuietIfNoneNew(p, r);
      } else {
        var p1 := if tfs[t].minute then p.(checks := p.checks + 1) else p;
        if !(o.fetched)(q % size, t) {
          MissBreaks(tfs, o, size, pos, q, t, skip, p, p1);
          if n == 0 {
            TimeframesContiguous(tfs, o, size, pos, q, t + 1, skip, Missed(p1, t, n));
          }
        } else {
          SpecsStand(tfs, o, size, pos, q, t, skip, p, p1);
          var p2 := Specs(o, q % size, at, n, 0, at, skip, p1);
          if p2.truncated {
            QuietIfNoneNew(p, p2);
            StandsIsContiguous(size, units, pos, p2.executed, q, p2.resume);
          } else {
            TimeframesContiguous(tfs, o, size, pos, q, t + 1, skip, p2);
            QuietOnward(p, p2, r);
          }
        }
      }
    }
  }

  /** What was run since p is of this symbol. */
  ghost predicate RunsOnly(p: Pass, r: Pass, symbol: nat) {
    p.executed <= r.executed && forall x | |p.executed| <= x < |r.executed| :: r.executed[x].symbol == symbol
  }

  lemma {:induction false} SpecsOfSymbol(o: Oracle, symbol: nat, base: nat, count: nat, j: nat, unit: nat, skip: nat,
                                         p: Pass)
    requires j <= count
    ensures RunsOnly(p, Specs(o, symbol, base, count, j, unit, skip, p), symbol)
    decreases count - j
  {
    if j < count {
      if unit + 1 <= skip {
        SpecsOfSymbol(o, symbol, base, count, j + 1, unit + 1, skip, p);
      } else if !(o.late)(p.checks) {
        var p1 := p.(executed := p.executed + [Unit(symbol, base + j)], checks := p.checks + 1);
        SpecsOfSymbol(o, symbol, base, count, j + 1, unit + 1, skip, p1);
        assert Specs(o, symbol, base, count, j + 1, unit + 1, skip,
                     p1).executed[|p.executed|] == p1.executed[|p.executed|];
      }
    }
  }

  lemma {:induction false} TimeframesOfSymbol(tfs: seq<Timeframe>, o: Oracle, symbol: nat, t: nat, unit: nat, skip: nat,
                                              p: Pass)
    requires t <= |tfs|
    ensures RunsOnly(p, Timeframes(tfs, o, symbol, t, unit, skip, p), symbol)
    decreases |tfs| - t
  {
    hide Specs, Offset;
    if t < |tfs| {
      var n := tfs[t].specs;
      if unit + n <= skip {
        TimeframesOfSymbol(tfs, o, symbol, t + 1, unit + n, skip, p);
      } else if !(tfs[t].minute && (o.late)(p.checks)) {
        var p1 := if tfs[t].minute then p.(checks := p.checks + 1) else p;
        if !(o.fetched)(symbol, t) {
          TimeframesOfSymbol(tfs, o, symbol, t + 1, unit, skip, Missed(p1, t, n));
        } else {
          SpecsOfSymbol(o, symbol, Offset(tfs, t), n, 0, unit, skip, p1);
          var p2 := Specs(o, symbol, Offset(tfs, t), n, 0, unit, skip, p1);
          if !p2.truncated {
            TimeframesOfSymbol(tfs, o, symbol, t + 1, unit + n, skip, p2);
            RunsOnlyJoins(p, p2, Timeframes(tfs, o, symbol, t + 1, unit + n, skip, p2), symbol);
          }
        }
      }
    }
  }

  lemma RunsOnlyJoins(p: Pass, p2: Pass, r: Pass, symbol: nat)
    requires RunsOnly(p, p2, symbol) && RunsOnly(p2, r, symbol)
    ensures RunsOnly(p, r, symbol)
  {
    forall x | |p.executed| <= x < |r.executed| ensures r.executed[x].symbol == symbol {
      if x < |p2.executed| {
        assert r.executed[x] == p2.executed[x];
      }
    }
  }

  /** The pass goes on from p to r: its misses since then saw at least what p had run, at most what r has. */
  ghost predicate Onward(p: Pass, r: Pass) {
    && p.executed <= r.executed && p.failed <= r.failed
    && forall x | |p.failed| <= x < |r.failed| :: |p.executed| <= r.failed[x].ran <= |r.executed|
  }

  lemma OnwardJoins(p: Pass, p2: Pass, r: Pass)
    requires Onward(p, p2) && Onward(p2, r)
    ensures Onward(p, r)
  {
    forall x | |p.failed| <= x < |r.failed| ensures |p.executed| <= r.failed[x].ran <= |r.executed| {
      if x < |p2.failed| {
        assert r.failed[x] == p2.failed[x];
      }
    }
  }

  lemma SymbolGoesOn(tfs: seq<Timeframe>, o: Oracle, symbol: nat, skip: nat, p: Pass, p1: Pass)
    requires !p.truncated && p1 == p.(covered := p1.covered, checks := p1.checks)
    ensures Onward(p, Timeframes(tfs, o, symbol, 0, 0, skip, p1))
  {
    hide Timeframes;
    TimeframesAdd(tfs, o, symbol, 0, 0, skip, p1);
  }

  lemma {:induction false} SymbolsGoOn(tfs: seq<Timeframe>, o: Oracle, universe: seq<nat>, k: nat, skip: nat, p: Pass)
    requires k <= |universe| && !p.truncated
    ensures Onward(p, Symbols(tfs, o, universe, k, skip, p))
    decreases |universe| - k
  {
    hide Timeframes, Onward;
    if k < |universe| && !(o.late)(p.checks) {
      var p1 := p.(covered := p.covered + 1, checks := p.checks + 1);
      var p2 := Timeframes(tfs, o, universe[k], 0, 0, skip, p1);
      SymbolGoesOn(tfs, o, universe[k], skip, p, p1);
      if !p2.truncated {
        SymbolsGoOn(tfs, o, universe, k + 1, 0, p2);
        OnwardJoins(p, p2, Symbols(tfs, o, universe, k + 1, 0, p2));
      }
    } else {
      OnwardAlone(p, Symbols(tfs, o, universe, k, skip, p));
    }
  }

  lemma OnwardAlone(p: Pass, r: Pass)
    requires r.executed == p.executed && r.failed == p.failed
    ensures Onward(p, r)
  {}

  /** A pass that is behind is contiguous only while it runs nothing more. */
  lemma {:induction false} BehindBreaks(tfs: seq<Timeframe>, o: Oracle, size: nat, pos: nat, q: nat, k: nat, p: Pass)
    requires size > 0 && UnitCount(tfs) > 0 && k <= size && !p.truncated
    requires q * UnitCount(tfs) <= pos + |p.executed| < (q + k) * UnitCount(tfs)
             && Contiguous(size, UnitCount(tfs), pos, p.executed)
    ensures var r := Symbols(tfs, o, Rotated(size, q % size), k, 0, p);
            Contiguous(size, UnitCount(tfs), pos, r.executed) <==> |r.executed| == |p.executed|
    decreases size - k
  {
    hide Timeframes, UnitCount, Contiguous, Onward, RunsOnly;
    var units, universe := UnitCount(tfs), Rotated(size, q % size);
    if k < size && !(o.late)(p.checks) {
      var p1 := p.(covered := p.covered + 1, checks := p.checks + 1);
      var p2 := Timeframes(tfs, o, universe[k], 0, 0, 0, p1);
      var r := Symbols(tfs, o, universe, k, 0, p);
      SymbolGoesOn(tfs, o, universe[k], 0, p, p1);
      if !p2.truncated {
        SymbolsGoOn(tfs, o, universe, k + 1, 0, p2);
      }
      OnwardMeans(p, p2);
      assert p2.executed <= r.executed by {
        if !p2.truncated { OnwardMeans(p2, r); }
      }
      if |p2.executed| > |p.executed| {
        TimeframesOfSymbol(tfs, o, universe[k], 0, 0, 0, p1);
        RotationWraps(size, q, k);
        OtherSymbol(size, units, pos, p, p1, p2, q, k);
        if Contiguous(size, units, pos, r.executed) {
          ContiguousPart(size, units, pos, p2.executed, r.executed);
        }
      } else if !p2.truncated {
        assert (q + k + 1) * units == (q + k) * units + units;
        BehindBreaks(tfs, o, size, pos, q, k + 1, p2);
      }
    }
  }

  lemma OnwardMeans(p: Pass, r: Pass)
    requires Onward(p, r)
    ensures p.executed <= r.executed && p.failed <= r.failed
            && (|r.executed| <= |p.executed| ==> r.executed == p.executed)
  {}

  lemma OtherSymbol(size: nat, units: nat, pos: nat, p: Pass, p1: Pass, p2: Pass, q: nat, k: nat)
    requires size > 0 && units > 0 && k < size && p1.executed == p.executed && RunsOnly(p1, p2, (q + k) % size)
    requires q * units <= pos + |p.executed| < (q + k) * units && |p2.executed| > |p.executed|
    ensures !Contiguous(size, units, pos, p2.executed)
  {
    var d := (pos + |p.executed|) / units;
    DivBetween(pos + |p.executed|, units, q, q + k);
    OtherRemainder(d, q + k, size);
    assert Cycle(size, units, pos, |p2.executed|)[|p.executed|] == UnitAt(size, units, pos + |p.executed|);
  }

  lemma DivBetween(x: nat, units: nat, low: nat, high: nat)
    requires units > 0 && low * units <= x < high * units
    ensures low <= x / units < high
  {
    var d := x / units;
    assert d * units <= x < d * units + units;
    MulOrder(d + 1, low, units);
    MulOrder(high, d, units);
    assert (d + 1) * units == d * units + units;
  }

  lemma NoMultipleBetween(x: nat, y: nat, size: nat)
    ensures !(0 < y * size - x * size < size)
  {
    if y <= x {
      MulOrder(y, x, size);
    } else {
      MulOrder(x + 1, y, size);
      assert (x + 1) * size == x * size + size;
    }
  }

  lemma DivParts(a: nat, size: nat)
    requires size > 0
    ensures a == a / size * size + a % size
  {}

  lemma OtherRemainder(a: nat, b: nat, size: nat)
    requires size > 0 && a < b && b - a < size
    ensures a % size != b % size
  {
    DivParts(a, size);
    DivParts(b, size);
    NoMultipleBetween(a / size, b / size, size);
  }

  /** Over the universe: what a pass runs is one stretch of the sweep from where it started if and only if
      nothing ran after a failed fetch of a timeframe with strategies. */
  lemma {:induction false} SymbolsContiguous(tfs: seq<Timeframe>, o: Oracle, size: nat, pos: nat, q: nat, k: nat,
                                             skip: nat, p: Pass)
    requires size > 0 && UnitCount(tfs) > 0 && k <= size && skip <= UnitCount(tfs) && !p.truncated && !p.midSymbol
             && NoneMatters(p)
    requires Stands(size, UnitCount(tfs), pos, p.executed, q + k, skip) && q * UnitCount(tfs) <= pos
    ensures var r := Symbols(tfs, o, Rotated(size, q % size), k, skip, p);
            Contiguous(size, UnitCount(tfs), pos, r.executed) <==> Quiet(r)
    decreases size - k
  {
    hide Stands, Timeframes, UnitCount, Harmless, Unbroken, NoneMatters, Adds, Quiet, QuietSince, Contiguous, Onward;
    var units, universe := UnitCount(tfs), Rotated(size, q % size);
    StandsIsContiguous(size, units, pos, p.executed, q + k, skip);
    if k < size && !(o.late)(p.checks) {
      RotationWraps(size, q, k);
      var p1 := p.(covered := p.covered + 1, checks := p.checks + 1);
      var p2 := Timeframes(tfs, o, universe[k], 0, 0, skip, p1);
      SymbolOnward(tfs, o, size, pos, q, k, skip, p, p1);
      if !p2.truncated && Harmless(p1, p2) {
        SymbolsContiguous(tfs, o, size, pos, q, k + 1, 0, p2);
      } else {
        SameMatters(p, p1);
        BrokenSymbol(tfs, o, size, pos, q, k, skip, p1);
      }
    } else {
      QuietAlone(p, Symbols(tfs, o, universe, k, skip, p));
    }
  }

  lemma QuietAlone(p: Pass, r: Pass)
    requires NoneMatters(p) && r.failed == p.failed
    ensures Quiet(r)
  {}

  /** The symbol in which the pass ends or falls behind. */
  lemma BrokenSymbol(tfs: seq<Timeframe>, o: Oracle, size: nat, pos: nat, q: nat, k: nat, skip: nat, p1: Pass)
    requires size > 0 && UnitCount(tfs) > 0 && k < size && skip <= UnitCount(tfs) && !p1.truncated && !p1.midSymbol
             && NoneMatters(p1)
    requires Stands(size, UnitCount(tfs), pos, p1.executed, q + k, skip) && q * UnitCount(tfs) <= pos
    requires var p2 := Timeframes(tfs, o, (q + k) % size, 0, 0, skip, p1); p2.truncated || !Harmless(p1, p2)
    ensures var p2 := Timeframes(tfs, o, (q + k) % size, 0, 0, skip, p1);
            var r := if p2.truncated then p2 else Symbols(tfs, o, Rotated(size, q % size), k + 1, 0, p2);
            Contiguous(size, UnitCount(tfs), pos, r.executed) <==> Quiet(r)
  {
    hide Stands, Timeframes, UnitCount, NoneMatters, Quiet, QuietSince, Contiguous, Symbols, Onward, Harmless;
    var units := UnitCount(tfs);
    var p2 := Timeframes(tfs, o, (q + k) % size, 0, 0, skip, p1);
    assert Offset(tfs, 0) == 0 && Max(0, skip) == skip;
    TimeframesContiguous(tfs, o, size, pos, q + k, 0, skip, p1);
    SymbolGoesOn(tfs, o, (q + k) % size, skip, p1, p1);
    if p2.truncated {
      QuietOfMisses(p1, p2, p2);
    } else {
      TimeframesExact(tfs, o, size, pos, q + k, 0, skip, p1);
      hide Offset;
      var universe := Rotated(size, q % size);
      var r := Symbols(tfs, o, universe, k + 1, 0, p2);
      SymbolsGoOn(tfs, o, universe, k + 1, 0, p2);
      OnwardMeans(p2, r);
      SomeMiss(p1, p2);
      QuietOfMisses(p1, p2, r);
      if Contiguous(size, units, pos, p2.executed) {
        assert (q + (k + 1)) * units == (q + k) * units + units;
        BehindBreaks(tfs, o, size, pos, q, k + 1, p2);
      } else if Contiguous(size, units, pos, r.executed) {
        ContiguousPart(size, units, pos, p2.executed, r.executed);
      }
    }
  }

  lemma SomeMiss(p: Pass, p2: Pass)
    requires !Harmless(p, p2)
    ensures exists x :: |p.failed| <= x < |p2.failed| && p2.failed[x].specs > 0
  {}

  /** A pass went on from p, which had met no miss that matters, to p2 and, once it had met one, to r. */
  lemma QuietOfMisses(p: Pass, p2: Pass, r: Pass)
    requires NoneMatters(p) && Onward(p, p2) && (r == p2 || Onward(p2, r))
    requires r == p2 || exists x :: |p.failed| <= x < |p2.failed| && p2.failed[x].specs > 0
    ensures Quiet(r) <==> QuietSince(p, p2) && |r.executed| == |p2.executed|
  {
    NoneMattersAt(p, p2);
    hide NoneMatters;
    if Quiet(r) {
      forall x | |p.failed| <= x < |p2.failed| && p2.failed[x].specs > 0
        ensures p2.failed[x].ran == |r.executed| && |r.executed| == |p2.executed|
      {
        assert r.failed[x] == p2.failed[x] && r.failed[x] in r.failed;
      }
    } else {
      var m :| m in r.failed && m.specs > 0 && m.ran != |r.executed|;
      var x :| 0 <= x < |r.failed| && r.failed[x] == m;
      if x < |p2.failed| {
        assert r.failed[x] == p2.failed[x];
      }
    }
  }

  // ---- Whether a pass resumes where it stopped -------------------------------------------------------------

  /** The miss that matters and was met in the symbol under way. */
  predicate MattersHere(p: Pass, x: nat)
    requires x < |p.failed|
  {
    p.failed[x].covered == p.covered && p.failed[x].specs > 0
  }

  /** A stop inside a symbol: the resume unit is the place it stopped at unless the count already lagged
      or a fetch with strategies failed since. */
  lemma {:induction false} StopsAtItsPlace(tfs: seq<Timeframe>, o: Oracle, symbol: nat, t: nat, unit: nat, skip: nat,
                                           p: Pass)
    requires t <= |tfs| && !p.truncated && unit <= Offset(tfs, t) && (unit < Offset(tfs, t) ==> skip < Offset(tfs, t))
    ensures var r := Timeframes(tfs, o, symbol, t, unit, skip, p);
            && p.failed <= r.failed && r.covered == p.covered
            && (r.truncated ==>
                  && r.resume <= r.place
                  && (r.resume == r.place <==> unit == Offset(tfs, t) && forall x: nat | |p.failed| <= x < |r.failed| ::
                      !MattersHere(r, x)))
    decreases |tfs| - t
  {
    hide Specs;
    TimeframesAdd(tfs, o, symbol, t, unit, skip, p);
    if t < |tfs| {
      var n, at := tfs[t].specs, Offset(tfs, t);
      assert Offset(tfs, t + 1) == at + n;
      if unit + n <= skip {
        StopsAtItsPlace(tfs, o, symbol, t + 1, unit + n, skip, p);
      } else if !(tfs[t].minute && (o.late)(p.checks)) {
        var p1 := if tfs[t].minute then p.(checks := p.checks + 1) else p;
        if !(o.fetched)(symbol, t) {
          var p2 := Missed(p1, t, n);
          StopsAtItsPlace(tfs, o, symbol, t + 1, unit, skip, p2);
          var r := Timeframes(tfs, o, symbol, t + 1, unit, skip, p2);
          assert r.failed[|p.failed|] == p2.failed[|p.failed|] == Miss(p.covered, t, n, |p.executed|);
          assert n > 0 ==> MattersHere(r, |p.failed|);
        } else {
          SpecsCount(o, symbol, at, n, 0, unit, skip, p1);
          var p2 := Specs(o, symbol, at, n, 0, unit, skip, p1);
          if !p2.truncated {
            StopsAtItsPlace(tfs, o, symbol, t + 1, unit + n, skip, p2);
          }
        }
      }
    }
  }

  /** A pass that stops mid-symbol asks to be resumed where it stopped if and only if no fetch of a
      timeframe with strategies failed earlier in that symbol. */
  lemma {:induction false} ResumesAtItsPlaceExactly(tfs: seq<Timeframe>, o: Oracle, universe: seq<nat>, k: nat,
                                                    skip: nat, p: Pass)
    requires k <= |universe| && !p.truncated && !p.midSymbol
    requires forall x: nat | x < |p.failed| :: p.failed[x].covered <= p.covered
    ensures var r := Symbols(tfs, o, universe, k, skip, p);
            r.midSymbol ==> (r.resume == r.place <==> forall x: nat | x < |r.failed| :: !MattersHere(r, x))
    decreases |universe| - k
  {
    hide Timeframes;
    if k < |universe| && !(o.late)(p.checks) {
      var p1 := p.(covered := p.covered + 1, checks := p.checks + 1);
      assert Offset(tfs, 0) == 0;
      StopsAtItsPlace(tfs, o, universe[k], 0, 0, skip, p1);
      TimeframesAdd(tfs, o, universe[k], 0, 0, skip, p1);
      var p2 := Timeframes(tfs, o, universe[k], 0, 0, skip, p1);
      if p2.truncated {
        assert forall x: nat | x < |p1.failed| :: p2.failed[x] == p1.failed[x];
      } else {
        forall x: nat | x < |p2.failed| ensures p2.failed[x].covered <= p2.covered {
          if x < |p1.failed| {
            assert p2.failed[x] == p1.failed[x];
          }
        }
        ResumesAtItsPlaceExactly(tfs, o, universe, k + 1, 0, p2);
      }
    }
  }
}
