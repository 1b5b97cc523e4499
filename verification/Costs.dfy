/** The round-trip cost model of a backtest: fill prices after the half-spread, financing over
    calendar days, and per-leg fees. Rounding of reported dollars is not modelled. */
module Costs {
  import opened Wrappers
  import opened Calendar

  datatype Side = Long | Short

  datatype CostModel = CostModel(
    spreadBps: real,
    extendedHoursSpreadBps: real,
    overnightFeeDailyPct: real,
    weekendMultiplier: real,
    fxSpreadBps: real,
    minPositionUsd: real,
    includeWeekendFinancing: bool,
    commissionPerShare: real,
    commissionMinUsd: real,
    commissionFlatUsdPerLeg: real,
    commissionPctPerLeg: real,
    slippageBps: real,
    secFeePerDollar: real,
    finraTafPerShare: real,
    finraTafMaxUsd: real,
    shortBorrowFeeDailyPct: real
  ) {

    function HalfSpreadFraction(extended: bool): real {
      (if extended then extendedHoursSpreadBps else spreadBps) / 2.0 / 10_000.0
    }

    /** A long pays the ask, a short receives the bid. A non-positive reference raises. */
    function EntryFillPrice(reference: real, side: Side, extended: bool): Result<real> {
      if reference <= 0.0 then Err("reference_price must be positive")
      else if side.Long? then Ok(reference * (1.0 + HalfSpreadFraction(extended)))
      else Ok(reference * (1.0 - HalfSpreadFraction(extended)))
    }

    /** `side` is the side of the position being closed. */
    function ExitFillPrice(reference: real, side: Side, extended: bool): Result<real> {
      if reference <= 0.0 then Err("reference_price must be positive")
      else if side.Long? then Ok(reference * (1.0 - HalfSpreadFraction(extended)))
      else Ok(reference * (1.0 + HalfSpreadFraction(extended)))
    }

    function EffectiveDays(entry: int, exit: int): real {
      var days := DateOf(exit) - DateOf(entry);
      var crossings := if includeWeekendFinancing then |FridayCloses(entry, exit)| else 0;
      days as real + crossings as real * (weekendMultiplier - 1.0)
    }

    function HoldingCostUsd(notional: real, entry: int, exit: int): real {
      if notional <= 0.0 || exit <= entry || DateOf(exit) - DateOf(entry) <= 0 then 0.0
      else notional * overnightFeeDailyPct * EffectiveDays(entry, exit)
    }

    function ShortHoldingCostUsd(notional: real, entry: int, exit: int): real {
      var overnight := HoldingCostUsd(notional, entry, exit);
      if notional <= 0.0 || shortBorrowFeeDailyPct <= 0.0 || exit <= entry then overnight
      else overnight + notional * shortBorrowFeeDailyPct * (DateOf(exit) - DateOf(entry)) as real
    }

    function FxRoundTripCostUsd(notional: real): real {
      if notional <= 0.0 || fxSpreadBps <= 0.0 then 0.0 else notional * fxSpreadBps / 10_000.0
    }

    function CommissionUsd(quantity: real): real {
      if quantity <= 0.0 || (commissionPerShare <= 0.0 && commissionMinUsd <= 0.0) then 0.0
      else
        var raw := quantity * commissionPerShare;
        if commissionMinUsd > 0.0 && raw < commissionMinUsd then commissionMinUsd else raw
    }

    function LegFeeUsd(notional: real): real {
      if notional <= 0.0 || (commissionFlatUsdPerLeg <= 0.0 && commissionPctPerLeg <= 0.0) then 0.0
      else commissionFlatUsdPerLeg + notional * commissionPctPerLeg
    }

    function SlippageUsd(notional: real): real {
      if notional <= 0.0 || slippageBps <= 0.0 then 0.0 else notional * slippageBps / 10_000.0
    }

    function RegulatorySellFeeUsd(notional: real, quantity: real): real {
      if notional <= 0.0 then 0.0
      else
        var sec := if secFeePerDollar > 0.0 then notional * secFeePerDollar else 0.0;
        var uncapped := if finraTafPerShare > 0.0 && quantity > 0.0 then quantity * finraTafPerShare else 0.0;
        sec + if finraTafMaxUsd > 0.0 && uncapped > finraTafMaxUsd then finraTafMaxUsd else uncapped
    }

    predicate AcceptsPosition(notional: real) {
      notional >= minPositionUsd
    }
  }

  // ---- What the financing charge means -----------------------------------------------------

  /** What one day that a position is carried into costs, in days: a Friday counts
      `weekendMultiplier` times when weekend financing is on. */
  function DayWeight(m: CostModel, day: int): real {
    if m.includeWeekendFinancing && Weekday(day) == FRIDAY then m.weekendMultiplier else 1.0
  }

  function DayWeights(m: CostModel, lo: int, hi: int): real
    decreases hi - lo
  {
    if hi <= lo then 0.0 else DayWeights(m, lo, hi - 1) + DayWeight(m, hi)
  }

  lemma {:induction false} DayWeightsClosedForm(m: CostModel, lo: int, hi: int)
    requires lo <= hi
    ensures DayWeights(m, lo, hi) ==
            (hi - lo) as real +
            (if m.includeWeekendFinancing then (FridayIndex(hi) - FridayIndex(lo)) as real * (m.weekendMultiplier - 1.0)
             else 0.0)
    decreases hi - lo
  {
    if lo < hi {
      DayWeightsClosedForm(m, lo, hi - 1);
      if Weekday(hi) == FRIDAY {
        assert FridayIndex(hi) == FridayIndex(hi - 1) + 1;
      } else {
        assert FridayIndex(hi) == FridayIndex(hi - 1);
      }
    }
  }

  lemma {:induction false} DayWeightsSplit(m: CostModel, a: int, b: int, c: int)
    requires a <= b <= c
    ensures DayWeights(m, a, c) == DayWeights(m, a, b) + DayWeights(m, b, c)
    decreases c - b
  {
    if b < c {
      DayWeightsSplit(m, a, b, c - 1);
    }
  }

  lemma EffectiveDaysAreDayWeights(m: CostModel, entry: int, exit: int)
    requires entry <= exit
    ensures m.EffectiveDays(entry, exit) == DayWeights(m, DateOf(entry), DateOf(exit))
  {
    FridayClosesClosedForm(entry, exit);
    DayWeightsClosedForm(m, DateOf(entry), DateOf(exit));
  }

  /** The charge is a sum over the calendar days the position was carried into, whatever the
      times of day: the two early returns for a same-day exit hide no weekend charge. */
  lemma HoldingCostIsSumOverDays(m: CostModel, notional: real, entry: int, exit: int)
    requires entry <= exit && notional >= 0.0
    ensures m.HoldingCostUsd(notional, entry, exit) ==
            notional * m.overnightFeeDailyPct * DayWeights(m, DateOf(entry), DateOf(exit))
  {
    hide FridayCloses;
    if notional > 0.0 && DateOf(entry) < DateOf(exit) {
      EffectiveDaysAreDayWeights(m, entry, exit);
    } else if notional > 0.0 {
      assert DayWeights(m, DateOf(entry), DateOf(exit)) == 0.0;
    }
  }

  /** Financing over a..c is financing over a..b plus b..c for every split, weekends included. */
  lemma HoldingCostAdditive(m: CostModel, notional: real, a: int, b: int, c: int)
    requires a <= b <= c
    ensures m.HoldingCostUsd(notional, a, c) == m.HoldingCostUsd(notional, a, b) + m.HoldingCostUsd(notional, b, c)
  {
    hide FridayCloses, DateOf, CostModel.EffectiveDays, DayWeights, CostModel.HoldingCostUsd;
    if notional <= 0.0 {
      NoChargeWithoutNotional(m, notional, a, b, c);
    } else {
      HoldingCostIsSumOverDays(m, notional, a, b);
      HoldingCostIsSumOverDays(m, notional, b, c);
      HoldingCostIsSumOverDays(m, notional, a, c);
      assert DateOf(a) <= DateOf(b) <= DateOf(c) by { DateOfMonotone(a, b); DateOfMonotone(b, c); }
      DayWeightsSplit(m, DateOf(a), DateOf(b), DateOf(c));
      Distribute(notional * m.overnightFeeDailyPct, DayWeights(m, DateOf(a), DateOf(b)),
                 DayWeights(m, DateOf(b), DateOf(c)));
    }
  }

  lemma NoChargeWithoutNotional(m: CostModel, notional: real, a: int, b: int, c: int)
    requires notional <= 0.0
    ensures m.HoldingCostUsd(notional, a, c) == m.HoldingCostUsd(notional, a, b) == m.HoldingCostUsd(notional, b,
            c) == 0.0
  {}

  lemma DateOfMonotone(a: int, b: int)
    requires a <= b
    ensures DateOf(a) <= DateOf(b)
  {}

  lemma Distribute(x: real, y: real, z: real)
    ensures x * (y + z) == x * y + x * z
  {}

  lemma ShortHoldingCostAdditive(m: CostModel, notional: real, a: int, b: int, c: int)
    requires a <= b <= c
    ensures m.ShortHoldingCostUsd(notional, a, c) ==
            m.ShortHoldingCostUsd(notional, a, b) + m.ShortHoldingCostUsd(notional, b, c)
  {
    HoldingCostAdditive(m, notional, a, b, c);
    var borrow := notional * m.shortBorrowFeeDailyPct;
    var ab, bc := (DateOf(b) - DateOf(a)) as real, (DateOf(c) - DateOf(b)) as real;
    assert (DateOf(c) - DateOf(a)) as real == ab + bc;
    Distribute(borrow, ab, bc);
  }

  /** A fill never beats its reference: what is paid is at least, and what is received at most,
      the reference price, on both sides and both legs. */
  lemma SpreadNeverHelps(m: CostModel, reference: real, side: Side, extended: bool)
    requires m.spreadBps >= 0.0 && m.extendedHoursSpreadBps >= 0.0
    ensures m.EntryFillPrice(reference, side, extended).Ok? <==> reference > 0.0
    ensures m.ExitFillPrice(reference, side, extended).Ok? <==> reference > 0.0
    ensures reference > 0.0 && side.Long? ==>
              m.ExitFillPrice(reference, side, extended).value <= reference <= m.EntryFillPrice(reference, side,
                extended).value
    ensures reference > 0.0 && side.Short? ==>
              m.EntryFillPrice(reference, side, extended).value <= reference <= m.ExitFillPrice(reference, side,
                extended).value
  {
    if reference > 0.0 {
      var drag := m.HalfSpreadFraction(extended);
      assert drag >= 0.0;
      assert reference * drag >= 0.0;
      Distribute(reference, 1.0, drag);
      Distribute(reference, 1.0, -drag);
    }
  }

  /** A short pays the borrow fee, when there is one, for every calendar day on top of the financing. */
  lemma ShortHoldingCostIsSumOverDays(m: CostModel, notional: real, entry: int, exit: int)
    requires entry <= exit && notional >= 0.0
    ensures m.ShortHoldingCostUsd(notional, entry, exit) ==
            notional * m.overnightFeeDailyPct * DayWeights(m, DateOf(entry), DateOf(exit)) +
            notional * (if m.shortBorrowFeeDailyPct > 0.0 then m.shortBorrowFeeDailyPct else 0.0) *
            (DateOf(exit) - DateOf(entry)) as real
  {
    HoldingCostIsSumOverDays(m, notional, entry, exit);
    hide DayWeights, CostModel.HoldingCostUsd;
  }

  // ---- What the fees mean --------------------------------------------------------------------

  /** The basis-point charges are shares of the notional: they add up over its parts, and 10 000 dollars
      pay as many dollars as there are basis points. */
  lemma BasisPointsAreShares(m: CostModel, a: real, b: real)
    requires a >= 0.0 && b >= 0.0
    ensures m.FxRoundTripCostUsd(a + b) == m.FxRoundTripCostUsd(a) + m.FxRoundTripCostUsd(b)
    ensures m.FxRoundTripCostUsd(10_000.0) == if m.fxSpreadBps > 0.0 then m.fxSpreadBps else 0.0
    ensures m.SlippageUsd(a + b) == m.SlippageUsd(a) + m.SlippageUsd(b)
    ensures m.SlippageUsd(10_000.0) == if m.slippageBps > 0.0 then m.slippageBps else 0.0
  {
    AddShares(a, b, m.fxSpreadBps);
    AddShares(a, b, m.slippageBps);
  }

  lemma AddShares(a: real, b: real, bps: real)
    ensures (a + b) * bps / 10_000.0 == a * bps / 10_000.0 + b * bps / 10_000.0
  {}

  /** The commission is the largest of the per-share price, the minimum and nothing. */
  lemma CommissionIsTheLargest(m: CostModel, quantity: real)
    ensures quantity <= 0.0 ==> m.CommissionUsd(quantity) == 0.0
    ensures quantity > 0.0 ==>
              && m.CommissionUsd(quantity) >= quantity * m.commissionPerShare
              && m.CommissionUsd(quantity) >= m.commissionMinUsd
              && m.CommissionUsd(quantity) >= 0.0
              && (m.CommissionUsd(quantity) == quantity * m.commissionPerShare ||
                  m.CommissionUsd(quantity) == m.commissionMinUsd || m.CommissionUsd(quantity) == 0.0)
  {}

  /** Two legs differ in their fee by the percentage of what their notionals differ by; what is left is the
      same flat fee on each. A leg pays no fee that is not set. */
  lemma LegFeeIsFlatAndShare(m: CostModel, a: real, b: real)
    requires a > 0.0 && b > 0.0
    ensures m.commissionFlatUsdPerLeg > 0.0 || m.commissionPctPerLeg > 0.0 ==>
              && m.LegFeeUsd(a) - m.LegFeeUsd(b) == (a - b) * m.commissionPctPerLeg
              && a * m.LegFeeUsd(b) - b * m.LegFeeUsd(a) == (a - b) * m.commissionFlatUsdPerLeg
    ensures m.commissionFlatUsdPerLeg <= 0.0 && m.commissionPctPerLeg <= 0.0 ==> m.LegFeeUsd(a) == 0.0
    ensures m.LegFeeUsd(0.0) == m.LegFeeUsd(-a) == 0.0
  {
    var flat, share := m.commissionFlatUsdPerLeg, m.commissionPctPerLeg;
    Distribute(a, flat, b * share);
    Distribute(b, flat, a * share);
    assert a * (b * share) == b * (a * share);
  }

  /** A sale pays the SEC's share of the proceeds, and of the FINRA fee per share no more than its cap. */
  lemma SaleFeesAreCapped(m: CostModel, notional: real, quantity: real)
    ensures notional <= 0.0 ==> m.RegulatorySellFeeUsd(notional, quantity) == 0.0
    ensures notional > 0.0 ==>
              var sec := if m.secFeePerDollar > 0.0 then notional * m.secFeePerDollar else 0.0;
              var taf := m.RegulatorySellFeeUsd(notional, quantity) - sec;
              && (m.finraTafPerShare <= 0.0 || quantity <= 0.0 ==> taf == 0.0)
              && (m.finraTafPerShare > 0.0 && quantity > 0.0 ==>
                    && taf <= quantity * m.finraTafPerShare
                    && (m.finraTafMaxUsd > 0.0 ==> taf <= m.finraTafMaxUsd)
                    && (taf == quantity * m.finraTafPerShare || (m.finraTafMaxUsd > 0.0 && taf == m.finraTafMaxUsd)))
  {}
}
