/** Technical indicators as expressions over whole columns, the one-pass form of their operators, and
    the cache that slices one full-frame computation for every prefix. None stands for NaN. Square roots are taken by a
    given function; time frames are lower-case. */
module Indicators {
  import opened Wrappers
  import Calendar

  datatype Row = Row(time: int, high: real, low: real, close: real, volume: real)

  type Series = seq<Option<real>>

  // ---- Operators on whole columns ----------------------------------------------------------------

  datatype Aggregate = Mean | Deviation | Highest | Lowest

  datatype Group = SumBy | MaxBy | MinBy | LastBy

  /** `rolling(n).agg()`, `ewm(alpha, min_periods, adjust=False).mean()`, `shift(k)`, `cumsum()`, and
      the cumulative operators of a `groupby("session_date")`. */
  datatype Op =
    | Rolling(n: nat, agg: Aggregate)
    | Ewm(alpha: real, minPeriods: nat)
    | Shift(k: nat)
    | CumSum
    | PerSession(group: Group)

  function Sum(xs: seq<real>): real {
    if |xs| == 0 then 0.0 else Sum(xs[..|xs| - 1]) + xs[|xs| - 1]
  }

  function SquaresFrom(xs: seq<real>, mean: real): real {
    if |xs| == 0 then 0.0
    else SquaresFrom(xs[..|xs| - 1], mean) + (xs[|xs| - 1] - mean) * (xs[|xs| - 1] - mean)
  }

  function Extreme(xs: seq<real>, highest: bool): (r: real)
    requires |xs| > 0
    ensures r in xs
    ensures forall x | x in xs :: if highest then x <= r else r <= x
  {
    var last := xs[|xs| - 1];
    assert xs == xs[..|xs| - 1] + [last];
    if |xs| == 1 then last
    else
      var rest := Extreme(xs[..|xs| - 1], highest);
      if (if highest then last > rest else last < rest) then last else rest
  }

  predicate AllPresent(xs: Series) {
    forall x | x in xs :: x.Some?
  }

  function Present(xs: Series): seq<real>
    requires AllPresent(xs)
  {
    seq(|xs|, i requires 0 <= i < |xs| => xs[i].value)
  }

  /** A full window without NaN is aggregated; any other is NaN. */
  function AggregateOf(agg: Aggregate, n: nat, window: Series, sqrt: real -> real): Option<real> {
    if |window| < n || n == 0 || !AllPresent(window) then None
    else
      var xs := Present(window);
      var mean := Sum(xs) / n as real;
      match agg
      case Mean => Some(mean)
      case Deviation => if n == 1 then None else Some(sqrt(SquaresFrom(xs, mean) / (n - 1) as real))
      case Highest => Some(Extreme(xs, true))
      case Lowest => Some(Extreme(xs, false))
  }

  function Combine(group: Group, prior: Option<real>, x: real): real {
    if prior.None? then x
    else
      match group
      case SumBy => prior.value + x
      case MaxBy => if x > prior.value then x else prior.value
      case MinBy => if x < prior.value then x else prior.value
      case LastBy => x
  }

  /** What the first i rows fold to for the session of date d. */
  function Folded(group: Group, dates: seq<int>, xs: Series, d: int, i: nat): Option<real>
    requires i <= |dates| == |xs|
  {
    if i == 0 then None
    else
      var before := Folded(group, dates, xs, d, i - 1);
      if dates[i - 1] == d && xs[i - 1].Some? then Some(Combine(group, before, xs[i - 1].value)) else before
  }

  /** The sum of the present values of the first n rows. */
  function SumPresent(xs: Series, n: nat): real
    requires n <= |xs|
  {
    if n == 0 then 0.0 else SumPresent(xs, n - 1) + if xs[n - 1].Some? then xs[n - 1].value else 0.0
  }

  function PresentCount(xs: Series, n: nat): nat
    requires n <= |xs|
  {
    if n == 0 then 0 else PresentCount(xs, n - 1) + if xs[n - 1].Some? then 1 else 0
  }

  /** The last row with a value among the first n. */
  function LastPresent(xs: Series, n: nat): (r: Option<nat>)
    requires n <= |xs|
    ensures r.Some? ==> r.value < n && xs[r.value].Some?
  {
    if n == 0 then None else if xs[n - 1].Some? then Some(n - 1) else LastPresent(xs, n - 1)
  }

  function Pow(b: real, n: nat): real {
    if n == 0 then 1.0 else Pow(b, n - 1) * b
  }

  /** The weight of a mean one row on. */
  function Faded(weight: real, alpha: real): real {
    weight * (1.0 - alpha)
  }

  /** A new value against a mean of that weight; the mean stays where the weights cancel. */
  function Blend(weight: real, prior: real, alpha: real, x: real): real {
    if weight + alpha == 0.0 then prior else (weight * prior + alpha * x) / (weight + alpha)
  }

  /** The exponential mean of the first n rows, with `adjust=False` and `ignore_na=False`: the last
      value against the mean at the value before it, which has decayed once for every row between,
      missing ones included. */
  function EwmMean(alpha: real, xs: Series, n: nat): (r: Option<real>)
    requires n <= |xs|
    ensures r.Some? <==> LastPresent(xs, n).Some?
  {
    match LastPresent(xs, n)
    case None => None
    case Some(p) =>
      match LastPresent(xs, p)
      case None => xs[p]
      case Some(q) =>
        Some(Blend(Pow(1.0 - alpha, p - q), EwmMean(alpha, xs, p).value, alpha, xs[p].value))
  }

  lemma EwmDef(alpha: real, xs: Series, n: nat)
    requires n <= |xs|
    ensures EwmMean(alpha, xs, n) ==
            match LastPresent(xs, n)
            case None => None
            case Some(p) =>
              match LastPresent(xs, p)
              case None => xs[p]
              case Some(q) => Some(Blend(Pow(1.0 - alpha, p - q), EwmMean(alpha, xs, p).value, alpha, xs[p].value))
  {
    hide Blend;
  }

  /** Row i of an operator's column, from the whole of its argument. */
  function ColumnAt(op: Op, dates: seq<int>, xs: Series, i: nat, sqrt: real -> real): Option<real>
    requires i < |dates| == |xs|
  {
    match op
    case Rolling(n, agg) => if i + 1 < n then None else AggregateOf(agg, n, xs[i + 1 - n..i + 1], sqrt)
    case Ewm(alpha, minPeriods) => if PresentCount(xs, i + 1) >= minPeriods then EwmMean(alpha, xs, i + 1) else None
    case Shift(k) => if i < k then None else xs[i - k]
    case CumSum => if xs[i].Some? then Some(SumPresent(xs, i + 1)) else None
    case PerSession(group) => if xs[i].Some? || group.LastBy? then Folded(group, dates, xs, dates[i], i + 1) else None
  }

  function Column(op: Op, dates: seq<int>, xs: Series, sqrt: real -> real): (r: Series)
    requires |dates| == |xs|
    ensures |r| == |xs|
  {
    seq(|xs|, i requires 0 <= i < |xs| => ColumnAt(op, dates, xs, i, sqrt))
  }

  // ---- The prefix law of each operator ---------------------------------------------------------------

  lemma {:induction false} FoldedOfPrefix(group: Group, dates: seq<int>, xs: Series, d: int, i: nat, n: nat)
    requires i <= n <= |dates| == |xs|
    ensures Folded(group, dates[..n], xs[..n], d, i) == Folded(group, dates, xs, d, i)
  {
    hide Combine;
    if i > 0 {
      FoldedOfPrefix(group, dates, xs, d, i - 1, n);
    }
  }

  lemma {:induction false} CountsOfPrefix(xs: Series, i: nat, n: nat)
    requires i <= n <= |xs|
    ensures SumPresent(xs[..n], i) == SumPresent(xs, i)
    ensures PresentCount(xs[..n], i) == PresentCount(xs, i)
    ensures LastPresent(xs[..n], i) == LastPresent(xs, i)
  {
    if i > 0 {
      CountsOfPrefix(xs, i - 1, n);
    }
  }

  lemma {:induction false} EwmOfPrefix(alpha: real, xs: Series, i: nat, n: nat)
    requires i <= n <= |xs|
    ensures EwmMean(alpha, xs[..n], i) == EwmMean(alpha, xs, i)
    decreases i
  {
    hide Pow, EwmMean, LastPresent, Blend;
    CountsOfPrefix(xs, i, n);
    EwmDef(alpha, xs, i);
    EwmDef(alpha, xs[..n], i);
    var last := LastPresent(xs, i);
    if last.Some? {
      CountsOfPrefix(xs, last.value, n);
      EwmOfPrefix(alpha, xs, last.value, n);
    }
  }

  /** No operator looks past its row: its column of a prefix is the prefix of its column. */
  lemma ColumnOfPrefix(op: Op, dates: seq<int>, xs: Series, n: nat, sqrt: real -> real)
    requires n <= |dates| == |xs|
    ensures Column(op, dates[..n], xs[..n], sqrt) == Column(op, dates, xs, sqrt)[..n]
  {
    hide ColumnAt;
    forall i: nat | i < n ensures ColumnAt(op, dates[..n], xs[..n], i, sqrt) == ColumnAt(op, dates, xs, i, sqrt) {
      RowOfPrefix(op, dates, xs, i, n, sqrt);
    }
  }

  lemma RowOfPrefix(op: Op, dates: seq<int>, xs: Series, i: nat, n: nat, sqrt: real -> real)
    requires i < n <= |dates| == |xs|
    ensures ColumnAt(op, dates[..n], xs[..n], i, sqrt) == ColumnAt(op, dates, xs, i, sqrt)
  {
    hide AggregateOf, Folded, SumPresent, PresentCount, EwmMean;
    match op {
      case Rolling(w, _) =>
        if i + 1 >= w {
          assert xs[..n][i + 1 - w..i + 1] == xs[i + 1 - w..i + 1];
        }
      case Ewm(alpha, _) =>
        CountsOfPrefix(xs, i + 1, n);
        EwmOfPrefix(alpha, xs, i + 1, n);
      case Shift(_) =>
      case CumSum => CountsOfPrefix(xs, i + 1, n);
      case PerSession(group) => FoldedOfPrefix(group, dates, xs, dates[i], i + 1, n);
    }
  }

  // ---- Column expressions ------------------------------------------------------------------------

  datatype Field = High | Low | Close | Volume

  datatype Unary = Negate | Absolute | ClipBelowZero | ClipUnit | ZeroToNan | NanToZero | Sign

  /** `KeepIfGreater` is `a.where(a > b, 0.0)`, `LargerPresent` a row maximum that skips NaN, `AtLeast`
      a comparison as 1 or 0, and `Where5` `b.where(a <= 5)`. */
  datatype Binary = Add | Sub | Mul | Div | KeepIfGreater | LargerPresent | AtLeast | Where5

  datatype Expr =
    | Input(field: Field)
    | Constant(c: real)
    | Missing
    | Map1(f: Unary, e: Expr)
    | Map2(g: Binary, a: Expr, b: Expr)
    | Over(op: Op, e: Expr)
    // Looking ahead: `shift(-k)`, and the aggregate of a row's whole session.
    | Ahead(k: nat, e: Expr)
    | WholeSession(group: Group, e: Expr)

  function Read(row: Row, field: Field): real {
    match field
    case High => row.high
    case Low => row.low
    case Close => row.close
    case Volume => row.volume
  }

  function Apply1(f: Unary, x: Option<real>): Option<real> {
    if x.None? then (if f.NanToZero? then Some(0.0) else None)
    else
      match f
      case Negate => Some(-x.value)
      case Absolute => Some(if x.value < 0.0 then -x.value else x.value)
      case ClipBelowZero => Some(if x.value < 0.0 then 0.0 else x.value)
      case ClipUnit => Some(if x.value < 0.0 then 0.0 else if x.value > 1.0 then 1.0 else x.value)
      case ZeroToNan => if x.value == 0.0 then None else x
      case NanToZero => x
      case Sign => Some(if x.value > 0.0 then 1.0 else if x.value < 0.0 then -1.0 else 0.0)
  }

  function Apply2(g: Binary, a: Option<real>, b: Option<real>): Option<real> {
    if g.KeepIfGreater? then (if a.Some? && b.Some? && a.value > b.value then a else Some(0.0))
    else if g.LargerPresent? then (if a.None? || (b.Some? && b.value > a.value) then b else a)
    else if g.AtLeast? then Some(if a.Some? && b.Some? && a.value >= b.value then 1.0 else 0.0)
    else if g.Where5? then (if a.Some? && a.value <= 5.0 then b else None)
    else if a.None? || b.None? then None
    else if g.Add? then Some(a.value + b.value)
    else if g.Sub? then Some(a.value - b.value)
    else if g.Mul? then Some(a.value * b.value)
    else if b.value == 0.0 then None
    else Some(a.value / b.value)
  }

  function Dates(frame: seq<Row>): (r: seq<int>)
    ensures |r| == |frame|
  {
    seq(|frame|, i requires 0 <= i < |frame| => Calendar.DateOf(frame[i].time))
  }

  function Eval(e: Expr, frame: seq<Row>, sqrt: real -> real): (r: Series)
    ensures |r| == |frame|
  {
    match e
    case Input(field) => seq(|frame|, i requires 0 <= i < |frame| => Some(Read(frame[i], field)))
    case Constant(c) => seq(|frame|, i => Some(c))
    case Missing => seq(|frame|, i => None)
    case Map1(f, a) =>
      var xs := Eval(a, frame, sqrt);
      seq(|frame|, i requires 0 <= i < |frame| => Apply1(f, xs[i]))
    case Map2(g, a, b) =>
      var xs, ys := Eval(a, frame, sqrt), Eval(b, frame, sqrt);
      seq(|frame|, i requires 0 <= i < |frame| => Apply2(g, xs[i], ys[i]))
    case Over(op, a) => Column(op, Dates(frame), Eval(a, frame, sqrt), sqrt)
    case Ahead(k, a) =>
      var xs := Eval(a, frame, sqrt);
      seq(|frame|, i requires 0 <= i < |frame| => if i + k < |frame| then xs[i + k] else None)
    case WholeSession(group, a) =>
      var dates, xs := Dates(frame), Eval(a, frame, sqrt);
      seq(|frame|, i requires 0 <= i < |frame| => Folded(group, dates, xs, dates[i], |frame|))
  }

  /** The expression looks ahead nowhere. */
  predicate Causal(e: Expr) {
    match e
    case Input(_) | Constant(_) | Missing => true
    case Map1(_, a) => Causal(a)
    case Map2(_, a, b) => Causal(a) && Causal(b)
    case Over(_, a) => Causal(a)
    case Ahead(_, _) | WholeSession(_, _) => false
  }

  /** Evaluating a causal expression on a prefix is slicing its evaluation. */
  lemma {:induction false} EvalOfPrefix(e: Expr, frame: seq<Row>, n: nat, sqrt: real -> real)
    requires n <= |frame| && Causal(e)
    ensures Eval(e, frame[..n], sqrt) == Eval(e, frame, sqrt)[..n]
  {
    hide Column, Apply1, Apply2, Folded;
    match e
    case Input(_) =>
    case Constant(_) =>
    case Missing =>
    case Map1(f, a) =>
      EvalOfPrefix(a, frame, n, sqrt);
    case Map2(g, a, b) =>
      EvalOfPrefix(a, frame, n, sqrt);
      EvalOfPrefix(b, frame, n, sqrt);
    case Over(op, a) =>
      EvalOfPrefix(a, frame, n, sqrt);
      assert Dates(frame[..n]) == Dates(frame)[..n];
      ColumnOfPrefix(op, Dates(frame), Eval(a, frame, sqrt), n, sqrt);
  }

  // ---- The columns -------------------------------------------------------------------------------

  /** The expressions the enrichment is written in: every column below looks back only. */
  type CausalExpr = e: Expr | Causal(e) witness Missing

  function Of1(f: Unary, a: CausalExpr): CausalExpr { Map1(f, a) }
  function Of2(g: Binary, a: CausalExpr, b: CausalExpr): CausalExpr { Map2(g, a, b) }
  function On(op: Op, a: CausalExpr): CausalExpr { Over(op, a) }
  function Plus(a: CausalExpr, b: CausalExpr): CausalExpr { Of2(Add, a, b) }
  function Minus(a: CausalExpr, b: CausalExpr): CausalExpr { Of2(Sub, a, b) }
  function Times(a: CausalExpr, b: CausalExpr): CausalExpr { Of2(Mul, a, b) }
  function Over0(a: CausalExpr, b: CausalExpr): CausalExpr { Of2(Div, a, Of1(ZeroToNan, b)) }
  function Diff(k: nat, a: CausalExpr): CausalExpr { Minus(a, On(Shift(k), a)) }
  function Roll(n: nat, agg: Aggregate, a: CausalExpr): CausalExpr { On(Rolling(n, agg), a) }
  function Span(n: nat, a: CausalExpr): CausalExpr { On(Ewm(2.0 / (n + 1) as real, 1), a) }
  function Wilder(a: CausalExpr): CausalExpr { On(Ewm(1.0 / 14.0, 1), a) }
  function Percent(a: CausalExpr): CausalExpr { Times(a, Constant(100.0)) }

  const HIGH: CausalExpr := Input(High)
  const LOW: CausalExpr := Input(Low)
  const CLOSE: CausalExpr := Input(Close)
  const VOLUME: CausalExpr := Input(Volume)

  const GAIN: CausalExpr := On(Ewm(1.0 / 14.0, 14), Of1(ClipBelowZero, Diff(1, CLOSE)))
  const LOSS: CausalExpr := On(Ewm(1.0 / 14.0, 14), Of1(ClipBelowZero, Of1(Negate, Diff(1, CLOSE))))
  const RSI: CausalExpr := Minus(Constant(100.0), Of2(Div, Constant(100.0), Plus(Constant(1.0), Over0(GAIN, LOSS))))
  const RSI_LOW: CausalExpr := Roll(14, Lowest, RSI)
  const RSI_HIGH: CausalExpr := Roll(14, Highest, RSI)
  const MACD: CausalExpr := Minus(Span(12, CLOSE), Span(26, CLOSE))
  const BAND: CausalExpr := Times(Roll(20, Deviation, CLOSE), Constant(2.0))
  const MID: CausalExpr := Roll(20, Mean, CLOSE)
  const PREV_CLOSE: CausalExpr := On(Shift(1), CLOSE)
  const TRUE_RANGE: CausalExpr := Of2(LargerPresent, Minus(HIGH, LOW),
                           Of2(LargerPresent, Of1(Absolute, Minus(HIGH, PREV_CLOSE)),
                               Of1(Absolute, Minus(LOW, PREV_CLOSE))))
  const ATR: CausalExpr := Roll(14, Mean, TRUE_RANGE)
  const UP_MOVE: CausalExpr := Of1(ClipBelowZero, Diff(1, HIGH))
  const DOWN_MOVE: CausalExpr := Of1(ClipBelowZero, Of1(Negate, Diff(1, LOW)))
  const PLUS_DM: CausalExpr := Of2(KeepIfGreater, UP_MOVE, DOWN_MOVE)
  const MINUS_DM: CausalExpr := Of2(KeepIfGreater, DOWN_MOVE, PLUS_DM)
  const PLUS_DI: CausalExpr := Times(Constant(100.0), Over0(Wilder(PLUS_DM), Wilder(TRUE_RANGE)))
  const MINUS_DI: CausalExpr := Times(Constant(100.0), Over0(Wilder(MINUS_DM), Wilder(TRUE_RANGE)))
  const DX: CausalExpr := Percent(Over0(Of1(Absolute, Minus(PLUS_DI, MINUS_DI)), Plus(PLUS_DI, MINUS_DI)))
  const AVG_VOLUME: CausalExpr := Roll(20, Mean, VOLUME)
  const DOLLARS: CausalExpr := Times(CLOSE, VOLUME)

  const SESSION_BAR: CausalExpr := On(PerSession(SumBy), Constant(1.0))
  const OPENING_HIGH: CausalExpr := On(PerSession(LastBy), On(PerSession(MaxBy), Of2(Where5, SESSION_BAR, HIGH)))
  const OPENING_LOW: CausalExpr := On(PerSession(LastBy), On(PerSession(MinBy), Of2(Where5, SESSION_BAR, LOW)))

  const AVERAGES: seq<(string, CausalExpr)> := [
    ("sma_20", Roll(20, Mean, CLOSE)), ("sma_50", Roll(50, Mean, CLOSE)),
    ("ema_9", Span(9, CLOSE)), ("ema_20", Span(20, CLOSE)), ("ema_50", Span(50, CLOSE)), ("ema_200", Span(200, CLOSE)),
    ("ema_9_slope", Diff(3, Span(9, CLOSE))), ("ema_20_slope", Diff(5, Span(20, CLOSE))),
    ("ema_50_slope", Diff(8, Span(50, CLOSE)))]

  const OSCILLATORS: seq<(string, CausalExpr)> := [
    ("rsi_14", RSI), ("stoch_rsi", Of1(ClipUnit, Over0(Minus(RSI, RSI_LOW), Minus(RSI_HIGH, RSI_LOW)))),
    ("macd_line", MACD), ("macd_signal", Span(9, MACD)), ("macd_hist", Minus(MACD, Span(9, MACD)))]

  const BANDS: seq<(string, CausalExpr)> := [
    ("bb_mid", MID), ("bb_std", Roll(20, Deviation, CLOSE)), ("bb_upper", Plus(MID, BAND)),
    ("bb_lower", Minus(MID, BAND)),
    ("bb_width_pct", Percent(Over0(Minus(Plus(MID, BAND), Minus(MID, BAND)), MID)))]

  const RANGES: seq<(string, CausalExpr)> := [
    ("prev_close", PREV_CLOSE), ("true_range", TRUE_RANGE), ("atr_14", ATR), ("atr_pct", Percent(Over0(ATR, CLOSE))),
    ("adx_14", Wilder(DX))]

  const VOLUMES: seq<(string, CausalExpr)> := [
    ("obv", On(CumSum, Times(Of1(Sign, Of1(NanToZero, Diff(1, CLOSE))), VOLUME))),
    ("avg_volume_20", AVG_VOLUME), ("relative_volume", Over0(VOLUME, AVG_VOLUME)),
    ("dollar_volume", DOLLARS), ("avg_dollar_volume_20", Roll(20, Mean, DOLLARS)),
    ("volume_spike", Of2(AtLeast, VOLUME, Times(AVG_VOLUME, Constant(1.5))))]

  const LEVELS: seq<(string, CausalExpr)> := [
    ("swing_high_10", On(Shift(1), Roll(10, Highest, HIGH))), ("swing_low_10", On(Shift(1), Roll(10, Lowest, LOW))),
    ("range_high_20", On(Shift(1), Roll(20, Highest, HIGH))), ("range_low_20", On(Shift(1), Roll(20, Lowest, LOW))),
    ("prior_day_high", Roll(1, Highest, On(Shift(1), HIGH))), ("prior_day_low", Roll(1, Lowest, On(Shift(1), LOW)))]

  const COMMON: seq<(string, CausalExpr)> := AVERAGES + OSCILLATORS + BANDS + RANGES + VOLUMES + LEVELS

  const INTRADAY: seq<(string, CausalExpr)> := [
    ("vwap", Of2(Div, On(PerSession(SumBy), DOLLARS), Of1(ZeroToNan, On(PerSession(SumBy), VOLUME)))),
    ("session_bar", SESSION_BAR), ("opening_range_high", OPENING_HIGH), ("opening_range_low", OPENING_LOW)]

  const DAILY: seq<(string, CausalExpr)> := [
    ("vwap", Of2(Div, On(CumSum, DOLLARS), Of1(ZeroToNan, On(CumSum, VOLUME)))),
    ("opening_range_high", Missing), ("opening_range_low", Missing)]

  function Columns(timeframe: string): seq<(string, CausalExpr)> {
    COMMON + if timeframe in {"1m", "5m", "10m", "15m"} then INTRADAY else DAILY
  }

  datatype Enriched = Enriched(rows: seq<Row>, columns: seq<(string, Series)>)

  function EvalAll(columns: seq<(string, CausalExpr)>, frame: seq<Row>, sqrt: real -> real): seq<(string, Series)> {
    seq(|columns|, c requires 0 <= c < |columns| => (columns[c].0, Eval(columns[c].1, frame, sqrt)))
  }

  /** The empty frame comes back as it is, with no column attached. */
  function Enrich(frame: seq<Row>, timeframe: string, sqrt: real -> real): Enriched {
    Enriched(frame, if |frame| == 0 then [] else EvalAll(Columns(timeframe), frame, sqrt))
  }

  function Head(series: Series, n: nat): Series {
    if n <= |series| then series[..n] else series
  }

  /** The first n rows of an enriched frame. */
  function Prefix(en: Enriched, n: nat): Enriched
    requires n <= |en.rows|
  {
    Enriched(en.rows[..n], seq(|en.columns|,
                               c requires 0 <= c < |en.columns| => (en.columns[c].0, Head(en.columns[c].1, n))))
  }

  /** Slicing the full enrichment is enriching the prefix, for every column and prefix. */
  lemma EnrichOfPrefix(frame: seq<Row>, timeframe: string, n: nat, sqrt: real -> real)
    requires 0 < n <= |frame|
    ensures Prefix(Enrich(frame, timeframe, sqrt), n) == Enrich(frame[..n], timeframe, sqrt)
  {
    hide Eval, Columns, Causal;
    var columns := Columns(timeframe);
    forall c | 0 <= c < |columns| ensures Eval(columns[c].1, frame[..n], sqrt) == Head(Eval(columns[c].1, frame, sqrt),
           n) {
      EvalOfPrefix(columns[c].1, frame, n, sqrt);
    }
  }

  // ---- The prefix cache --------------------------------------------------------------------------

  predicate Matches(a: Row, b: Row) {
    a.time == b.time && a.close == b.close
  }

  class PrefixCache {
    const source: seq<Row>
    const sqrt: real -> real
    var byTimeframe: map<string, Enriched>

    ghost predicate Valid()
      reads this
    {
      forall key | key in byTimeframe :: byTimeframe[key] == Enrich(source, key, sqrt)
    }

    constructor (source: seq<Row>, sqrt: real -> real)
      ensures Valid() && this.source == source && this.sqrt == sqrt && byTimeframe == map[]
    {
      this.source := source;
      this.sqrt := sqrt;
      byTimeframe := map[];
    }

    /** A hit is the source's own first rows: it checks the length and the two end rows only. */
    method Lookup(data: seq<Row>, timeframe: string) returns (r: Option<Enriched>)
      requires Valid()
      modifies this
      ensures Valid()
      ensures r.Some? <==>
              && 0 < |data| <= |source|
              && data[0].time == source[0].time && data[0].close == source[0].close
              && data[|data| - 1].time == source[|data| - 1].time && data[|data| - 1].close == source[|data| - 1].close
      ensures r.Some? ==> r.value == Enrich(source[..|data|], timeframe, sqrt)
      ensures byTimeframe.Keys == old(byTimeframe.Keys) + if r.Some? then {timeframe} else {}
    {
      hide Enrich;
      if |data| == 0 || |data| > |source| {
        return None;
      }
      if !Matches(data[0], source[0]) || !Matches(data[|data| - 1], source[|data| - 1]) {
        return None;
      }
      if timeframe !in byTimeframe {
        byTimeframe := byTimeframe[timeframe := Enrich(source, timeframe, sqrt)];
      }
      EnrichOfPrefix(source, timeframe, |data|, sqrt);
      RowsKept(source, timeframe, sqrt);
      r := Some(Prefix(byTimeframe[timeframe], |data|));
    }

    /** Enrichment through the cache is enrichment of the data itself exactly when a hit's data is a
        prefix of the source; every window of a backtest is one. */
    method EnrichTechnicalIndicators(data: seq<Row>, timeframe: string) returns (en: Enriched)
      requires Valid()
      modifies this
      ensures Valid()
      ensures data <= source ==> en == Enrich(data, timeframe, sqrt)
      ensures en == Enrich(data, timeframe, sqrt) <==>
              (data <= source || !(&& 0 < |data| <= |source|
                                   && data[0].time == source[0].time && data[0].close == source[0].close
                                   && data[|data| - 1].time == source[|data| - 1].time
                                   && data[|data| - 1].close == source[|data| - 1].close))
    {
      hide Enrich;
      var cached := Lookup(data, timeframe);
      if cached.Some? {
        RowsKept(data, timeframe, sqrt);
        RowsKept(source[..|data|], timeframe, sqrt);
        return cached.value;
      }
      en := Enrich(data, timeframe, sqrt);
    }
  }

  lemma RowsKept(frame: seq<Row>, timeframe: string, sqrt: real -> real)
    ensures Enrich(frame, timeframe, sqrt).rows == frame
  {}

  // ---- The operators in one pass -------------------------------------------------------------------

  datatype Memory =
    | Empty
    | Buffer(values: Series)
    | Average(value: Option<real>, weight: real, seen: nat)
    | Total(sum: real)
    | Sessions(last: map<int, real>)

  function Keep(values: Series, n: nat): Series {
    if |values| > n then values[|values| - n..] else values
  }

  /** The pandas recurrence with `adjust=False` and `ignore_na=False`: a missing value lets the old
      average decay, and the first value starts it. */
  function EwmStep(alpha: real, m: Memory, x: Option<real>): Memory {
    var prior := if m.Average? then m else Average(None, 1.0, 0);
    var seen := prior.seen + if x.Some? then 1 else 0;
    if prior.value.None? then Average(x, 1.0, seen)
    else
      var weight := Faded(prior.weight, alpha);
      if x.None? then Average(prior.value, weight, seen)
      else Average(Some(Blend(weight, prior.value.value, alpha, x.value)), 1.0, seen)
  }

  /** One row: the new memory and the row's value. */
  function Step(op: Op, m: Memory, date: int, x: Option<real>, sqrt: real -> real): (Memory, Option<real>) {
    match op
    case Rolling(n, agg) =>
      var window := Keep((if m.Buffer? then m.values else []) + [x], n);
      (Buffer(window), AggregateOf(agg, n, window, sqrt))
    case Ewm(alpha, minPeriods) =>
      var next := EwmStep(alpha, m, x);
      (next, if next.Average? && next.seen >= minPeriods then next.value else None)
    case Shift(k) =>
      var values := Keep((if m.Buffer? then m.values else []) + [x], k + 1);
      (Buffer(values), if |values| == k + 1 then values[0] else None)
    case CumSum =>
      var sum := (if m.Total? then m.sum else 0.0) + if x.Some? then x.value else 0.0;
      (Total(sum), if x.Some? then Some(sum) else None)
    case PerSession(group) =>
      var last := if m.Sessions? then m.last else map[];
      var prior := if date in last then Some(last[date]) else None;
      if x.None? then (Sessions(last), if group.LastBy? then prior else None)
      else
        var new' := Combine(group, prior, x.value);
        (Sessions(last[date := new']), Some(new'))
  }

  /** The memory before row i. */
  function MemoryAt(op: Op, dates: seq<int>, xs: Series, i: nat, sqrt: real -> real): Memory
    requires i <= |dates| == |xs|
  {
    if i == 0 then Empty
    else Step(op, MemoryAt(op, dates, xs, i - 1, sqrt), dates[i - 1], xs[i - 1], sqrt).0
  }

  function Scan(op: Op, dates: seq<int>, xs: Series, sqrt: real -> real): (r: Series)
    requires |dates| == |xs|
    ensures |r| == |xs|
  {
    seq(|xs|, i requires 0 <= i < |xs| => Step(op, MemoryAt(op, dates, xs, i, sqrt), dates[i], xs[i], sqrt).1)
  }


  /** The buffer of a rolling or shifting scan is the last values seen. */
  lemma {:induction false} BufferIsRecent(op: Op, dates: seq<int>, xs: Series, i: nat, sqrt: real -> real)
    requires i <= |dates| == |xs| && (op.Rolling? || op.Shift?)
    ensures i == 0 || MemoryAt(op, dates, xs, i, sqrt) == Buffer(Keep(xs[..i], if op.Rolling? then op.n else op.k + 1))
  {
    hide Step, Keep;
    if i > 0 {
      StepBuffer(op, MemoryAt(op, dates, xs, i - 1, sqrt), dates[i - 1], xs[i - 1], sqrt);
      assert xs[..1] == [] + [xs[0]];
    }
    if i > 1 {
      BufferIsRecent(op, dates, xs, i - 1, sqrt);
      KeepGrows(xs, i - 1, if op.Rolling? then op.n else op.k + 1);
    }
  }

  lemma StepBuffer(op: Op, m: Memory, date: int, x: Option<real>, sqrt: real -> real)
    requires op.Rolling? || op.Shift?
    ensures Step(op, m, date, x, sqrt).0 ==
            Buffer(Keep((if m.Buffer? then m.values else []) + [x], if op.Rolling? then op.n else op.k + 1))
  {
    hide AggregateOf;
  }

  lemma KeepGrows(xs: Series, i: nat, n: nat)
    requires i < |xs|
    ensures Keep(Keep(xs[..i], n) + [xs[i]], n) == Keep(xs[..i + 1], n)
  {
    assert xs[..i + 1] == xs[..i] + [xs[i]];
  }

  /** Row i of `rolling(n)` aggregates rows i-n+1 to i, and is NaN before there are n of them. */
  lemma RollingIsAWindow(n: nat, agg: Aggregate, dates: seq<int>, xs: Series, i: nat, sqrt: real -> real)
    requires i < |dates| == |xs| && n > 0
    ensures Scan(Rolling(n, agg), dates, xs, sqrt)[i] ==
            if i + 1 < n then None else AggregateOf(agg, n, xs[i + 1 - n..i + 1], sqrt)
  {
    hide AggregateOf, MemoryAt, EwmStep, Combine;
    BufferedBefore(Rolling(n, agg), dates, xs, i, sqrt);
    var window := Keep(xs[..i + 1], n);
    if i + 1 >= n {
      assert window == xs[i + 1 - n..i + 1];
    } else {
      ShortWindow(agg, n, window, sqrt);
    }
  }

  /** The window row i is computed from. */
  lemma BufferedBefore(op: Op, dates: seq<int>, xs: Series, i: nat, sqrt: real -> real)
    requires i < |dates| == |xs| && (op.Rolling? || op.Shift?)
    ensures var m := MemoryAt(op, dates, xs, i, sqrt);
            var n := if op.Rolling? then op.n else op.k + 1;
            Keep((if m.Buffer? then m.values else []) + [xs[i]], n) == Keep(xs[..i + 1], n)
  {
    hide Step;
    BufferIsRecent(op, dates, xs, i, sqrt);
    KeepGrows(xs, i, if op.Rolling? then op.n else op.k + 1);
    if i == 0 {
      assert xs[..1] == [] + [xs[0]];
    }
  }

  lemma ShortWindow(agg: Aggregate, n: nat, window: Series, sqrt: real -> real)
    requires |window| < n
    ensures AggregateOf(agg, n, window, sqrt) == None
  {}

  lemma ShiftLooksBack(k: nat, dates: seq<int>, xs: Series, i: nat, sqrt: real -> real)
    requires i < |dates| == |xs|
    ensures Scan(Shift(k), dates, xs, sqrt)[i] == if i < k then None else xs[i - k]
  {
    hide AggregateOf, MemoryAt, EwmStep, Combine, Keep;
    BufferedBefore(Shift(k), dates, xs, i, sqrt);
    OldestKept(xs, i, k);
  }

  lemma OldestKept(xs: Series, i: nat, k: nat)
    requires i < |xs|
    ensures var values := Keep(xs[..i + 1], k + 1);
            (if |values| == k + 1 then values[0] else None) == if i < k then None else xs[i - k]
  {}

  lemma {:induction false} SessionMemory(group: Group, dates: seq<int>, xs: Series, i: nat, d: int, sqrt: real -> real)
    requires i <= |dates| == |xs|
    ensures var m := MemoryAt(PerSession(group), dates, xs, i, sqrt);
            var last := if m.Sessions? then m.last else map[];
            Folded(group, dates, xs, d, i) == if d in last then Some(last[d]) else None
  {
    if i > 0 {
      SessionMemory(group, dates, xs, i - 1, d, sqrt);
      SessionMemory(group, dates, xs, i - 1, dates[i - 1], sqrt);
    }
  }

  /** Row i of a grouped cumulative operator folds the present values of its own session up to i. */
  lemma SessionScanIsFold(group: Group, dates: seq<int>, xs: Series, i: nat, sqrt: real -> real)
    requires i < |dates| == |xs|
    ensures Scan(PerSession(group), dates, xs, sqrt)[i] ==
            if xs[i].Some? || group.LastBy? then Folded(group, dates, xs, dates[i], i + 1) else None
  {
    hide AggregateOf, EwmStep, Combine, Keep, MemoryAt;
    SessionMemory(group, dates, xs, i, dates[i], sqrt);
  }

  lemma {:induction false} TotalMemory(dates: seq<int>, xs: Series, i: nat, sqrt: real -> real)
    requires i <= |dates| == |xs|
    ensures MemoryAt(CumSum, dates, xs, i, sqrt) == if i == 0 then Empty else Total(SumPresent(xs, i))
  {
    if i > 0 {
      TotalMemory(dates, xs, i - 1, sqrt);
    }
  }

  /** How far the mean has decayed since the last value. */
  function Decay(alpha: real, xs: Series, i: nat): real
    requires i <= |xs|
  {
    match LastPresent(xs, i)
    case None => 1.0
    case Some(p) => Pow(1.0 - alpha, i - 1 - p)
  }

  lemma {:induction false} AverageMemory(alpha: real, minPeriods: nat, dates: seq<int>, xs: Series, i: nat,
                                         sqrt: real -> real)
    requires i <= |dates| == |xs|
    ensures MemoryAt(Ewm(alpha, minPeriods), dates, xs, i, sqrt) ==
            if i == 0 then Empty else Average(EwmMean(alpha, xs, i), Decay(alpha, xs, i), PresentCount(xs, i))
  {
    hide EwmStep, EwmMean, Decay, Pow, PresentCount;
    if i > 0 {
      AverageMemory(alpha, minPeriods, dates, xs, i - 1, sqrt);
      var m := MemoryAt(Ewm(alpha, minPeriods), dates, xs, i - 1, sqrt);
      assert m.Average? || i == 1;
      EwmStepIsMean(alpha, m, xs, i - 1);
    }
  }

  lemma EwmStepIsMean(alpha: real, m: Memory, xs: Series, i: nat)
    requires i < |xs|
    requires m == (if i == 0 then Empty else Average(EwmMean(alpha, xs, i), Decay(alpha, xs, i), PresentCount(xs, i)))
    ensures EwmStep(alpha, m, xs[i]) == Average(EwmMean(alpha, xs, i + 1), Decay(alpha, xs, i + 1),
                                                PresentCount(xs, i + 1))
  {
    hide EwmMean, Decay, Pow, LastPresent, Blend, Faded;
    EwmNext(alpha, xs, i);
    DecayNext(alpha, xs, i);
    assert PresentCount(xs, i + 1) == PresentCount(xs, i) + if xs[i].Some? then 1 else 0;
    hide PresentCount;
    var prior := if m.Average? then m else Average(None, 1.0, 0);
    assert prior.value == EwmMean(alpha, xs, i) && prior.seen == PresentCount(xs, i);
    if prior.value.Some? {
      assert prior.weight == Decay(alpha, xs, i);
    }
  }

  lemma EwmNext(alpha: real, xs: Series, i: nat)
    requires i < |xs|
    ensures i == 0 ==> EwmMean(alpha, xs, i).None? && PresentCount(xs, i) == 0
    ensures EwmMean(alpha, xs, i + 1) ==
            if xs[i].None? then EwmMean(alpha, xs, i)
            else if EwmMean(alpha, xs, i).None? then xs[i]
            else
              Some(Blend(Faded(Decay(alpha, xs, i), alpha), EwmMean(alpha, xs, i).value, alpha, xs[i].value))
  {
    LastNext(xs, i);
    if LastPresent(xs, i).Some? {
      DecayedWeight(alpha, xs, i);
    }
    hide EwmMean, Pow, LastPresent, Decay, Blend, Faded;
    EwmDef(alpha, xs, i);
    EwmDef(alpha, xs, i + 1);
  }

  lemma LastNext(xs: Series, i: nat)
    requires i < |xs|
    ensures LastPresent(xs, i + 1) == if xs[i].Some? then Some(i) else LastPresent(xs, i)
    ensures i == 0 ==> LastPresent(xs, i).None? && PresentCount(xs, i) == 0
  {}

  lemma DecayedWeight(alpha: real, xs: Series, i: nat)
    requires i < |xs| && LastPresent(xs, i).Some?
    ensures Pow(1.0 - alpha, i - LastPresent(xs, i).value) == Faded(Decay(alpha, xs, i), alpha)
  {
    hide LastPresent;
  }

  lemma DecayNext(alpha: real, xs: Series, i: nat)
    requires i < |xs|
    ensures Decay(alpha, xs, i + 1) ==
            if xs[i].Some? || EwmMean(alpha, xs, i).None? then 1.0 else Faded(Decay(alpha, xs, i), alpha)
  {
    hide EwmMean, LastPresent, Faded;
    LastNext(xs, i);
    if LastPresent(xs, i).Some? {
      DecayedWeight(alpha, xs, i);
    }
  }

  /** The one pass computes the column: every operator's running memory holds enough of the rows before. */
  lemma ScanIsColumn(op: Op, dates: seq<int>, xs: Series, sqrt: real -> real)
    requires |dates| == |xs|
    ensures Scan(op, dates, xs, sqrt) == Column(op, dates, xs, sqrt)
  {
    hide Scan, ColumnAt;
    forall i: nat | i < |xs| ensures Scan(op, dates, xs, sqrt)[i] == ColumnAt(op, dates, xs, i, sqrt) {
      RowInOnePass(op, dates, xs, i, sqrt);
    }
  }

  lemma RowInOnePass(op: Op, dates: seq<int>, xs: Series, i: nat, sqrt: real -> real)
    requires i < |dates| == |xs|
    ensures Scan(op, dates, xs, sqrt)[i] == ColumnAt(op, dates, xs, i, sqrt)
  {
    hide AggregateOf, Scan, Folded, SumPresent, PresentCount, EwmMean;
    match op {
      case Rolling(n, agg) =>
        if n > 0 {
          RollingIsAWindow(n, agg, dates, xs, i, sqrt);
        } else {
          EmptyWindow(agg, dates, xs, i, sqrt);
        }
      case Shift(k) => ShiftLooksBack(k, dates, xs, i, sqrt);
      case PerSession(group) => SessionScanIsFold(group, dates, xs, i, sqrt);
      case CumSum => SumScanIsTotal(dates, xs, i, sqrt);
      case Ewm(alpha, minPeriods) => EwmScanIsMean(alpha, minPeriods, dates, xs, i, sqrt);
    }
  }

  lemma EmptyWindow(agg: Aggregate, dates: seq<int>, xs: Series, i: nat, sqrt: real -> real)
    requires i < |dates| == |xs|
    ensures Scan(Rolling(0, agg), dates, xs, sqrt)[i] == None
    ensures AggregateOf(agg, 0, xs[i + 1..i + 1], sqrt) == None
  {
    hide MemoryAt, EwmStep, Combine;
  }

  lemma SumScanIsTotal(dates: seq<int>, xs: Series, i: nat, sqrt: real -> real)
    requires i < |dates| == |xs|
    ensures Scan(CumSum, dates, xs, sqrt)[i] == if xs[i].Some? then Some(SumPresent(xs, i + 1)) else None
  {
    hide MemoryAt, AggregateOf, EwmStep, Combine, Keep;
    TotalMemory(dates, xs, i, sqrt);
  }

  lemma EwmScanIsMean(alpha: real, minPeriods: nat, dates: seq<int>, xs: Series, i: nat, sqrt: real -> real)
    requires i < |dates| == |xs|
    ensures Scan(Ewm(alpha, minPeriods), dates, xs, sqrt)[i] ==
            if PresentCount(xs, i + 1) >= minPeriods then EwmMean(alpha, xs, i + 1) else None
  {
    hide MemoryAt, EwmStep, EwmMean, Decay, PresentCount, AggregateOf, Combine, Keep;
    AverageMemory(alpha, minPeriods, dates, xs, i, sqrt);
    EwmStepIsMean(alpha, MemoryAt(Ewm(alpha, minPeriods), dates, xs, i, sqrt), xs, i);
  }

  // ---- The exponential mean as a weighted sum ------------------------------------------------------------

  /** The weight of row j in the mean at row i. */
  function Weight(alpha: real, i: nat, j: nat): real
    requires j <= i
  {
    Pow(1.0 - alpha, i - j) * if j == 0 then 1.0 else alpha
  }

  function WeightedSum(alpha: real, xs: Series, i: nat, m: nat): real
    requires m <= i + 1 && i < |xs| && AllPresent(xs)
  {
    if m == 0 then 0.0 else WeightedSum(alpha, xs, i, m - 1) + Weight(alpha, i, m - 1) * xs[m - 1].value
  }

  lemma WeightDecays(alpha: real, i: nat, j: nat, x: real)
    requires j < i
    ensures Weight(alpha, i, j) * x == (1.0 - alpha) * (Weight(alpha, i - 1, j) * x)
  {
    var w, f := Pow(1.0 - alpha, i - 1 - j), if j == 0 then 1.0 else alpha;
    assert Pow(1.0 - alpha, i - j) == w * (1.0 - alpha);
    hide Pow;
    calc {
      w * (1.0 - alpha) * f * x;
      (1.0 - alpha) * (w * f * x);
    }
  }

  lemma {:induction false} SumDecays(alpha: real, xs: Series, i: nat, m: nat)
    requires 0 < i < |xs| && m <= i && AllPresent(xs)
    ensures WeightedSum(alpha, xs, i, m) == (1.0 - alpha) * WeightedSum(alpha, xs, i - 1, m)
  {
    hide Weight;
    if m > 0 {
      SumDecays(alpha, xs, i, m - 1);
      WeightDecays(alpha, i, m - 1, xs[m - 1].value);
      var a, b := WeightedSum(alpha, xs, i - 1, m - 1), Weight(alpha, i - 1, m - 1) * xs[m - 1].value;
      assert (1.0 - alpha) * (a + b) == (1.0 - alpha) * a + (1.0 - alpha) * b;
    }
  }

  lemma OneDecay(alpha: real, prior: real, x: real)
    ensures Blend(Faded(1.0, alpha), prior, alpha, x) == (1.0 - alpha) * prior + alpha * x
  {
    assert Faded(1.0, alpha) + alpha == 1.0;
  }

  /** On a column without gaps the exponential mean at row i is the sum of rows 0 to i, row j weighted by
      (1 - alpha)^(i - j), times alpha but for the first. */
  lemma {:induction false} EwmIsAWeightedSum(alpha: real, xs: Series, i: nat)
    requires i < |xs| && AllPresent(xs)
    ensures EwmMean(alpha, xs, i + 1).Some? && EwmMean(alpha, xs, i + 1).value == WeightedSum(alpha, xs, i, i + 1)
  {
    hide WeightedSum, EwmMean;
    SumEnds(alpha, xs, i);
    NoGap(alpha, xs, i);
    if i > 0 {
      EwmIsAWeightedSum(alpha, xs, i - 1);
      SumDecays(alpha, xs, i, i);
    }
  }

  lemma NoGap(alpha: real, xs: Series, i: nat)
    requires i < |xs| && AllPresent(xs)
    ensures EwmMean(alpha, xs, i + 1).Some?
    ensures i == 0 ==> EwmMean(alpha, xs, i + 1).value == xs[i].value
    ensures i > 0 ==> EwmMean(alpha, xs, i).Some?
                      && EwmMean(alpha, xs, i + 1).value == (1.0 - alpha) * EwmMean(alpha, xs, i).value +
                           alpha * xs[i].value
  {
    hide Blend, Faded, EwmMean, Decay;
    assert xs[i] in xs;
    EwmNext(alpha, xs, i);
    if i > 0 {
      assert xs[i - 1] in xs;
      EwmNext(alpha, xs, i - 1);
      DecayNext(alpha, xs, i - 1);
      OneDecay(alpha, EwmMean(alpha, xs, i).value, xs[i].value);
    }
  }

  lemma {:induction false} LastBeforeAGap(xs: Series, q: nat, p: nat)
    requires q < p <= |xs| && xs[q].Some? && forall j | q < j < p :: xs[j].None?
    ensures LastPresent(xs, p) == Some(q)
    decreases p
  {
    if q + 1 < p {
      LastBeforeAGap(xs, q, p - 1);
    }
  }

  /** Across a gap the mean so far fades by (1 - alpha) a row, and the next value is weighed against what is left
      of it by alpha; where the two weights cancel the mean stays. */
  lemma MeanAcrossAGap(alpha: real, xs: Series, q: nat, p: nat)
    requires q < p < |xs| && xs[q].Some? && xs[p].Some? && forall j | q < j < p :: xs[j].None?
    ensures var weight, before, after := Pow(1.0 - alpha, p - q), EwmMean(alpha, xs, q + 1), EwmMean(alpha, xs, p + 1);
            && before.Some? && after.Some?
            && (weight + alpha != 0.0 ==>
                  after.value * (weight + alpha) == weight * before.value + alpha * xs[p].value)
            && (weight + alpha == 0.0 ==> after == before)
  {
    hide EwmMean, LastPresent, Pow;
    LastBeforeAGap(xs, q, p);
    LastNext(xs, p);
    LastNext(xs, q);
    EwmDef(alpha, xs, p + 1);
    EwmDef(alpha, xs, p);
    EwmDef(alpha, xs, q + 1);
  }

  lemma SumEnds(alpha: real, xs: Series, i: nat)
    requires i < |xs| && AllPresent(xs)
    ensures i == 0 ==> WeightedSum(alpha, xs, i, i + 1) == xs[i].value
    ensures i > 0 ==> WeightedSum(alpha, xs, i, i + 1) == WeightedSum(alpha, xs, i, i) + alpha * xs[i].value
  {
    assert Weight(alpha, i, i) == if i == 0 then 1.0 else alpha;
    hide Weight;
    assert WeightedSum(alpha, xs, i, i + 1) == WeightedSum(alpha, xs, i, i) + Weight(alpha, i, i) * xs[i].value;
  }

  // ---- Looking ahead is not causal ---------------------------------------------------------------------

  /** The opening range as one aggregate of the session's first five bars. */
  const OLD_OPENING_HIGH := WholeSession(MaxBy, Map2(Where5, SESSION_BAR, HIGH))

  /** On the first bar of a session whose second bar is higher, the whole-session opening range is the
      second bar's high, which the first bar could not know: enriching the prefix gives another value. */
  lemma WholeSessionLooksAhead(first: Row, second: Row, sqrt: real -> real)
    requires Calendar.DateOf(first.time) == Calendar.DateOf(second.time) && first.high < second.high
    ensures !Causal(OLD_OPENING_HIGH)
    ensures Eval(OLD_OPENING_HIGH, [first], sqrt) == [Some(first.high)]
    ensures Eval(OLD_OPENING_HIGH, [first, second], sqrt)[..1] == [Some(second.high)]
  {
    OldRangeOn([first], 0, sqrt);
    OldRangeOn([first, second], 0, sqrt);
    hide Eval, Calendar.DateOf;
    var masked := Map2(Where5, SESSION_BAR, HIGH);
    var one, two := Eval(masked, [first], sqrt), Eval(masked, [first, second], sqrt);
    var d1, d2 := Dates([first]), Dates([first, second]);
    MaskedColumn([first], High, 0, sqrt);
    MaskedColumn([first, second], High, 0, sqrt);
    MaskedColumn([first, second], High, 1, sqrt);
    FewBarsInSession(d1, 0);
    FewBarsInSession(d2, 0);
    FewBarsInSession(d2, 1);
    assert Folded(MaxBy, d1, one, d1[0], 1) == Some(first.high);
    assert Folded(MaxBy, d2, two, d2[0], 1) == Some(first.high);
    assert Folded(MaxBy, d2, two, d2[0], 2) == Some(second.high);
  }

  lemma OldRangeOn(frame: seq<Row>, i: nat, sqrt: real -> real)
    requires i < |frame|
    ensures Eval(OLD_OPENING_HIGH, frame, sqrt)[i] ==
            Folded(MaxBy, Dates(frame), Eval(Map2(Where5, SESSION_BAR, HIGH), frame, sqrt), Dates(frame)[i], |frame|)
  {
    hide Dates, Folded, Column, Apply2;
    WholeSessionRow(MaxBy, Map2(Where5, SESSION_BAR, HIGH), frame, i, sqrt);
  }

  lemma WholeSessionRow(group: Group, e: Expr, frame: seq<Row>, i: nat, sqrt: real -> real)
    requires i < |frame|
    ensures Eval(WholeSession(group, e), frame, sqrt)[i] == Folded(group, Dates(frame), Eval(e, frame, sqrt),
            Dates(frame)[i], |frame|)
  {
    hide Dates, Folded, Column, Apply1, Apply2;
  }

  lemma FewBarsInSession(dates: seq<int>, i: nat)
    requires i < |dates| <= 2
    ensures SessionBar(dates, i) <= 5
  {
    var bars := set j: nat | j <= i && dates[j] == dates[i];
    assert bars <= {0, 1};
    AtMostTwo(bars);
  }

  lemma AtMostTwo(bars: set<nat>)
    requires bars <= {0, 1}
    ensures |bars| <= 2
  {
    var rest := {0, 1} - bars;
    assert bars + rest == {0, 1} && bars !! rest;
  }

  // ---- The opening range ---------------------------------------------------------------------------

  /** Bar i's number within its session, from 1. */
  function SessionBar(dates: seq<int>, i: nat): nat
    requires i < |dates|
  {
    |set j: nat | j <= i && dates[j] == dates[i]|
  }

  ghost function RowsOf(dates: seq<int>, d: int, i: nat): set<nat>
    requires i <= |dates|
  {
    set j: nat | j < i && dates[j] == d
  }

  lemma {:induction false} CountingOnes(dates: seq<int>, ones: Series, d: int, i: nat)
    requires i <= |dates| == |ones| && forall j | 0 <= j < |ones| :: ones[j] == Some(1.0)
    ensures Folded(SumBy, dates, ones, d, i) == if RowsOf(dates, d, i) == {} then None
            else Some(|RowsOf(dates, d, i)| as real)
  {
    if i > 0 {
      CountingOnes(dates, ones, d, i - 1);
      assert RowsOf(dates, d, i) == RowsOf(dates, d, i - 1) + (if dates[i - 1] == d then {i - 1} else {});
      assert i - 1 !in RowsOf(dates, d, i - 1);
    } else {
      assert RowsOf(dates, d, 0) == {};
    }
  }

  lemma SessionBarColumn(frame: seq<Row>, i: nat, sqrt: real -> real)
    requires i < |frame|
    ensures Eval(SESSION_BAR, frame, sqrt)[i] == Some(SessionBar(Dates(frame), i) as real)
  {
    hide Folded, Dates;
    var dates, ones := Dates(frame), Eval(Constant(1.0), frame, sqrt);
    assert Eval(SESSION_BAR, frame, sqrt) == Column(PerSession(SumBy), dates, ones, sqrt);
    CountingOnes(dates, ones, dates[i], i + 1);
    assert RowsOf(dates, dates[i], i + 1) == set j: nat | j <= i && dates[j] == dates[i];
    assert i in RowsOf(dates, dates[i], i + 1);
  }

  /** The bars bar i's opening range is taken from: the first five of its session, up to bar i. */
  ghost predicate InRange(dates: seq<int>, j: nat, i: nat)
    requires i < |dates|
  {
    j <= i && dates[j] == dates[i] && SessionBar(dates, j) <= 5
  }

  /** The last value of the grouped extreme, forward-filled, is the extreme itself. */
  lemma {:induction false} FillOfExtreme(group: Group, dates: seq<int>, xs: Series, filled: Series, d: int, i: nat,
                                         sqrt: real -> real)
    requires !group.LastBy? && i <= |dates| == |xs| && filled == Column(PerSession(group), dates, xs, sqrt)
    ensures Folded(LastBy, dates, filled, d, i) == Folded(group, dates, xs, d, i)
  {
    if i > 0 {
      FillOfExtreme(group, dates, xs, filled, d, i - 1, sqrt);
    }
  }

  lemma {:induction false} ExtremeOfFold(group: Group, dates: seq<int>, xs: Series, d: int, i: nat)
    requires (group.MaxBy? || group.MinBy?) && i <= |dates| == |xs|
    ensures var f := Folded(group, dates, xs, d, i);
            && (f.None? <==> forall j: nat | j < i && dates[j] == d :: xs[j].None?)
            && (f.Some? ==> exists j: nat :: j < i && dates[j] == d && xs[j] == f)
            && (f.Some? ==> forall j: nat | j < i && dates[j] == d && xs[j].Some? ::
                              if group.MaxBy? then xs[j].value <= f.value else f.value <= xs[j].value)
  {
    if i > 0 {
      ExtremeOfFold(group, dates, xs, d, i - 1);
      if dates[i - 1] == d && xs[i - 1].Some? {
        var f := Folded(group, dates, xs, d, i);
        if f != xs[i - 1] {
          var j: nat :| j < i - 1 && dates[j] == d && xs[j] == f;
        }
      }
    }
  }

  /** The first bar of a session is in the range of all its bars. */
  lemma FirstBarInRange(dates: seq<int>, i: nat) returns (first: nat)
    requires i < |dates|
    ensures first <= i && InRange(dates, first, i)
  {
    first := i;
    while exists j: nat :: j < first && dates[j] == dates[i]
      invariant first <= i && dates[first] == dates[i]
      decreases first
    {
      var j: nat :| j < first && dates[j] == dates[i];
      first := j;
    }
    assert (set j: nat | j <= first && dates[j] == dates[first]) == {first};
  }

  lemma OpeningColumn(frame: seq<Row>, i: nat, sqrt: real -> real, highest: bool)
    requires i < |frame|
    ensures var xs := Eval(Map2(Where5, SESSION_BAR, Input(if highest then High else Low)), frame, sqrt);
            Eval(if highest then OPENING_HIGH else OPENING_LOW, frame, sqrt) ==
            Column(PerSession(LastBy), Dates(frame),
                   Column(PerSession(if highest then MaxBy else MinBy), Dates(frame), xs, sqrt), sqrt)
  {
    hide Eval, Column, Dates;
    var e := On(PerSession(if highest then MaxBy else MinBy),
                Map2(Where5, SESSION_BAR, Input(if highest then High else Low)));
    OperatorColumn(PerSession(LastBy), e, frame, sqrt);
    OperatorColumn(e.op, e.e, frame, sqrt);
  }

  lemma OperatorColumn(op: Op, e: Expr, frame: seq<Row>, sqrt: real -> real)
    ensures Eval(Over(op, e), frame, sqrt) == Column(op, Dates(frame), Eval(e, frame, sqrt), sqrt)
  {
    hide Column, Dates, Apply1, Apply2, Folded;
  }

  lemma OpeningIsFold(frame: seq<Row>, i: nat, sqrt: real -> real, highest: bool)
    requires i < |frame|
    ensures var xs := Eval(Map2(Where5, SESSION_BAR, Input(if highest then High else Low)), frame, sqrt);
            Eval(if highest then OPENING_HIGH else OPENING_LOW, frame, sqrt)[i] ==
            Folded(if highest then MaxBy else MinBy, Dates(frame), xs, Dates(frame)[i], i + 1)
  {
    hide Eval, Dates, Folded;
    var dates, group := Dates(frame), if highest then MaxBy else MinBy;
    var xs := Eval(Map2(Where5, SESSION_BAR, Input(if highest then High else Low)), frame, sqrt);
    var filled := Column(PerSession(group), dates, xs, sqrt);
    OpeningColumn(frame, i, sqrt, highest);
    FillOfExtreme(group, dates, xs, filled, dates[i], i + 1, sqrt);
    assert Column(PerSession(LastBy), dates, filled, sqrt)[i] == Folded(LastBy, dates, filled, dates[i], i + 1);
  }

  lemma MaskedColumn(frame: seq<Row>, field: Field, j: nat, sqrt: real -> real)
    requires j < |frame|
    ensures Eval(Map2(Where5, SESSION_BAR, Input(field)), frame, sqrt)[j] ==
            if SessionBar(Dates(frame), j) <= 5 then Some(Read(frame[j], field)) else None
  {
    hide Column, Dates;
    SessionBarColumn(frame, j, sqrt);
  }

  /** On every bar the opening range's high is the highest, and its low the lowest, of the first five
      bars of the bar's session seen so far: no later bar of the session is looked at. */
  lemma OpeningRangeIsCausalExtreme(frame: seq<Row>, i: nat, sqrt: real -> real, highest: bool)
    requires i < |frame|
    ensures var dates := Dates(frame);
            var field := if highest then High else Low;
            var range := Eval(if highest then OPENING_HIGH else OPENING_LOW, frame, sqrt)[i];
            && range.Some?
            && (exists j: nat :: InRange(dates, j, i) && Read(frame[j], field) == range.value)
            && (forall j: nat | InRange(dates, j, i) ::
                  if highest then Read(frame[j], field) <= range.value else range.value <= Read(frame[j], field))
  {
    hide Eval, Dates, SessionBar, Folded, Column, Read;
    var dates, field := Dates(frame), if highest then High else Low;
    var group := if highest then MaxBy else MinBy;
    var xs := Eval(Map2(Where5, SESSION_BAR, Input(field)), frame, sqrt);
    forall j: nat | j < |frame| ensures xs[j] == if SessionBar(dates, j) <= 5 then Some(Read(frame[j], field))
           else None {
      MaskedColumn(frame, field, j, sqrt);
    }
    OpeningIsFold(frame, i, sqrt, highest);
    ExtremeOfFold(group, dates, xs, dates[i], i + 1);
    var first := FirstBarInRange(dates, i);
    assert xs[first].Some?;
    var range := Folded(group, dates, xs, dates[i], i + 1);
    var j: nat :| j < i + 1 && dates[j] == dates[i] && xs[j] == range;
    assert InRange(dates, j, i);
  }
}
