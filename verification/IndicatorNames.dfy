/** The named columns of an enriched frame, and what they are computed with. */
module IndicatorNames {
  import opened Wrappers
  import opened Indicators

  datatype Average = SMA_20 | SMA_50 | BB_MID | AVG_VOLUME_20

  /** Its name, its rows and what it averages. */
  function AverageColumn(a: Average): (string, nat, Field) {
    match a
    case SMA_20 => ("sma_20", 20, Close)
    case SMA_50 => ("sma_50", 50, Close)
    case BB_MID => ("bb_mid", 20, Close)
    case AVG_VOLUME_20 => ("avg_volume_20", 20, Volume)
  }

  lemma CommonHolds(timeframe: string, column: (string, CausalExpr))
    requires column in AVERAGES || column in BANDS || column in RANGES || column in VOLUMES || column in LEVELS
    ensures column in Columns(timeframe)
  {}

  lemma AverageStands(timeframe: string, a: Average)
    ensures var (name, n, field) := AverageColumn(a); (name, Over(Rolling(n, Mean), Input(field))) in Columns(timeframe)
  {
    match a
    case SMA_20 =>
      assert AVERAGES[0] == ("sma_20", Over(Rolling(20, Mean), Input(Close)));
      CommonHolds(timeframe, AVERAGES[0]);
    case SMA_50 =>
      assert AVERAGES[1] == ("sma_50", Over(Rolling(50, Mean), Input(Close)));
      CommonHolds(timeframe, AVERAGES[1]);
    case BB_MID =>
      assert BANDS[0] == ("bb_mid", Over(Rolling(20, Mean), Input(Close)));
      CommonHolds(timeframe, BANDS[0]);
    case AVG_VOLUME_20 =>
      assert VOLUMES[1] == ("avg_volume_20", Over(Rolling(20, Mean), Input(Volume)));
      CommonHolds(timeframe, VOLUMES[1]);
  }

  datatype Extremum = SWING_HIGH_10 | SWING_LOW_10 | RANGE_HIGH_20 | RANGE_LOW_20

  /** Its name, its rows and whether it is of the highs. */
  function ExtremeColumn(x: Extremum): (string, nat, bool) {
    match x
    case SWING_HIGH_10 => ("swing_high_10", 10, true)
    case SWING_LOW_10 => ("swing_low_10", 10, false)
    case RANGE_HIGH_20 => ("range_high_20", 20, true)
    case RANGE_LOW_20 => ("range_low_20", 20, false)
  }

  function ExtremeExpr(n: nat, highest: bool): CausalExpr {
    On(Shift(1), Roll(n, if highest then Highest else Lowest, if highest then HIGH else LOW))
  }

  lemma ExtremeStands(timeframe: string, x: Extremum)
    ensures var (name, n, highest) := ExtremeColumn(x); (name, ExtremeExpr(n, highest)) in Columns(timeframe)
  {
    var c := match x case SWING_HIGH_10 => 0 case SWING_LOW_10 => 1 case RANGE_HIGH_20 => 2 case RANGE_LOW_20 => 3;
    var (name, n, highest) := ExtremeColumn(x);
    assert LEVELS[c] == (name, ExtremeExpr(n, highest));
    CommonHolds(timeframe, LEVELS[c]);
    hide Columns;
  }

  lemma ShiftedExtreme(n: nat, highest: bool)
    ensures ExtremeExpr(n, highest) ==
            Over(Shift(1), Over(Rolling(n, if highest then Highest else Lowest), Input(if highest then High else Low)))
  {}

  datatype Exponential = EMA_9 | EMA_20 | EMA_50 | EMA_200

  function ExponentialColumn(x: Exponential): (string, nat) {
    match x
    case EMA_9 => ("ema_9", 9)
    case EMA_20 => ("ema_20", 20)
    case EMA_50 => ("ema_50", 50)
    case EMA_200 => ("ema_200", 200)
  }

  lemma ExponentialStands(timeframe: string, x: Exponential)
    ensures var (name, n) := ExponentialColumn(x); (name, Span(n, CLOSE)) in Columns(timeframe)
  {
    var c := match x case EMA_9 => 2 case EMA_20 => 3 case EMA_50 => 4 case EMA_200 => 5;
    var (name, n) := ExponentialColumn(x);
    assert AVERAGES[c] == (name, Span(n, CLOSE));
    CommonHolds(timeframe, AVERAGES[c]);
    hide Columns;
  }

  lemma OpeningStands(timeframe: string, highest: bool)
    requires timeframe == "1m" || timeframe == "5m" || timeframe == "10m" || timeframe == "15m"
    ensures (if highest then ("opening_range_high", OPENING_HIGH) else ("opening_range_low", OPENING_LOW))
            in Columns(timeframe)
  {
    OpeningsOfTheDay();
    assert INTRADAY[if highest then 2 else 3] in INTRADAY;
  }

  lemma OpeningsOfTheDay()
    ensures |INTRADAY| == 4
    ensures INTRADAY[2] == ("opening_range_high", OPENING_HIGH) && INTRADAY[3] == ("opening_range_low", OPENING_LOW)
  {}

  lemma TrueRangeStands(timeframe: string)
    ensures ("true_range", TRUE_RANGE) in Columns(timeframe)
  {
    assert RANGES[1] == ("true_range", TRUE_RANGE);
    CommonHolds(timeframe, RANGES[1]);
    hide Columns;
  }

  lemma TrueRangeIs()
    ensures var high, low, before := Input(High), Input(Low), Over(Shift(1), Input(Close));
            TRUE_RANGE == Map2(LargerPresent, Map2(Sub, high, low),
                               Map2(LargerPresent, Map1(Absolute, Map2(Sub, high, before)),
                                    Map1(Absolute, Map2(Sub, low, before))))
  {}

  lemma AtrStands(timeframe: string)
    ensures ("atr_14", ATR) in Columns(timeframe)
  {
    assert RANGES[2] == ("atr_14", ATR);
    CommonHolds(timeframe, RANGES[2]);
    hide Columns;
  }

  lemma DeviationStands(timeframe: string)
    ensures ("bb_std", Over(Rolling(20, Deviation), Input(Close))) in Columns(timeframe)
  {
    assert BANDS[1] == ("bb_std", Over(Rolling(20, Deviation), Input(Close)));
    CommonHolds(timeframe, BANDS[1]);
    hide Columns;
  }

  /** How volume is turned into a running balance. */
  const SIGNED_VOLUME: CausalExpr := Times(Of1(Sign, Of1(NanToZero, Diff(1, CLOSE))), VOLUME)

  lemma BalanceStands(timeframe: string)
    ensures ("obv", On(CumSum, SIGNED_VOLUME)) in Columns(timeframe)
  {
    assert VOLUMES[0] == ("obv", On(CumSum, SIGNED_VOLUME));
    CommonHolds(timeframe, VOLUMES[0]);
    hide Columns;
  }

  lemma SignedVolumeIs()
    ensures SIGNED_VOLUME ==
            Map2(Mul, Map1(Sign, Map1(NanToZero, Map2(Sub, Input(Close), Over(Shift(1), Input(Close))))), Input(Volume))
  {}

  lemma RelativeVolumeStands(timeframe: string)
    ensures ("relative_volume", Over0(VOLUME, AVG_VOLUME)) in Columns(timeframe)
    ensures Over0(VOLUME, AVG_VOLUME) == Map2(Div, Input(Volume),
                                              Map1(ZeroToNan, Over(Rolling(20, Mean), Input(Volume))))
  {
    assert VOLUMES[2] == ("relative_volume", Over0(VOLUME, AVG_VOLUME));
    CommonHolds(timeframe, VOLUMES[2]);
    hide Columns;
  }

  lemma VolumeSpikeStands(timeframe: string)
    ensures ("volume_spike", Of2(AtLeast, VOLUME, Times(AVG_VOLUME, Constant(1.5)))) in Columns(timeframe)
  {
    assert VOLUMES[5] == ("volume_spike", Of2(AtLeast, VOLUME, Times(AVG_VOLUME, Constant(1.5))));
    CommonHolds(timeframe, VOLUMES[5]);
    hide Columns;
  }

  lemma VolumeSpikeIs()
    ensures Of2(AtLeast, VOLUME, Times(AVG_VOLUME, Constant(1.5))) ==
            Map2(AtLeast, Input(Volume), Map2(Mul, Over(Rolling(20, Mean), Input(Volume)), Constant(1.5)))
  {}

  lemma AtrPercentStands(timeframe: string)
    ensures ("atr_pct", Percent(Over0(ATR, CLOSE))) in Columns(timeframe)
    ensures Percent(Over0(ATR, CLOSE)) == Map2(Mul, Map2(Div, ATR, Map1(ZeroToNan, Input(Close))), Constant(100.0))
  {
    assert RANGES[3] == ("atr_pct", Percent(Over0(ATR, CLOSE)));
    CommonHolds(timeframe, RANGES[3]);
    hide Columns;
  }

  lemma AtrIsAMean()
    ensures ATR == Over(Rolling(14, Mean), TRUE_RANGE)
  {}
}
