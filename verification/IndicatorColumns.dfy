/** What the columns of an enriched frame hold, told from the rows of the frame. */
module IndicatorColumns {
  import opened Wrappers
  import opened Indicators
  import opened IndicatorNames
  import Calendar

  // ---- The columns by name ---------------------------------------------------------------------------------

  /** The enrichment has a column of this name that holds this value at row i. */
  ghost predicate Shows(en: Enriched, name: string, i: nat, value: Option<real>) {
    exists c | 0 <= c < |en.columns| :: HoldsAt(en.columns[c], name, i, value)
  }

  ghost predicate HoldsAt(column: (string, Series), name: string, i: nat, value: Option<real>) {
    column.0 == name && i < |column.1| && column.1[i] == value
  }

  lemma ShowsColumn(frame: seq<Row>, timeframe: string, name: string, e: CausalExpr, i: nat, sqrt: real -> real)
    requires i < |frame| && (name, e) in Columns(timeframe)
    ensures Shows(Enrich(frame, timeframe, sqrt), name, i, Eval(e, frame, sqrt)[i])
  {
    hide Eval, Columns;
    var c: nat :| c < |Columns(timeframe)| && Columns(timeframe)[c] == (name, e);
    assert HoldsAt(Enrich(frame, timeframe, sqrt).columns[c], name, i, Eval(e, frame, sqrt)[i]);
  }

  /** The value of an expression at a row, from those of its parts. */
  lemma RowOfMap1(f: Unary, a: Expr, frame: seq<Row>, i: nat, sqrt: real -> real)
    requires i < |frame|
    ensures Eval(Map1(f, a), frame, sqrt)[i] == Apply1(f, Eval(a, frame, sqrt)[i])
  {
    hide Apply1, Column, Apply2, Folded;
  }

  lemma RowOfMap2(g: Binary, a: Expr, b: Expr, frame: seq<Row>, i: nat, sqrt: real -> real)
    requires i < |frame|
    ensures Eval(Map2(g, a, b), frame, sqrt)[i] == Apply2(g, Eval(a, frame, sqrt)[i], Eval(b, frame, sqrt)[i])
  {
    hide Apply2, Column, Apply1, Folded;
  }

  lemma RowOfInput(field: Field, frame: seq<Row>, i: nat, sqrt: real -> real)
    requires i < |frame|
    ensures Eval(Input(field), frame, sqrt)[i] == Some(Read(frame[i], field))
  {}

  lemma RowOfShift(k: nat, e: Expr, frame: seq<Row>, i: nat, sqrt: real -> real)
    requires i < |frame|
    ensures Eval(Over(Shift(k), e), frame, sqrt)[i] == if i < k then None else Eval(e, frame, sqrt)[i - k]
  {
    hide Eval;
    OperatorColumn(Shift(k), e, frame, sqrt);
    ShiftAt(k, Dates(frame), Eval(e, frame, sqrt), i, sqrt);
    hide Column;
  }

  lemma ShiftAt(k: nat, dates: seq<int>, xs: Series, i: nat, sqrt: real -> real)
    requires i < |dates| == |xs|
    ensures Column(Shift(k), dates, xs, sqrt)[i] == if i < k then None else xs[i - k]
  {}

  lemma RowOfRolling(n: nat, agg: Aggregate, e: Expr, frame: seq<Row>, i: nat, sqrt: real -> real)
    requires i < |frame|
    ensures Eval(Over(Rolling(n, agg), e), frame, sqrt)[i] ==
            if i + 1 < n then None else AggregateOf(agg, n, Eval(e, frame, sqrt)[i + 1 - n..i + 1], sqrt)
  {
    hide Eval;
    OperatorColumn(Rolling(n, agg), e, frame, sqrt);
    RollingAt(n, agg, Dates(frame), Eval(e, frame, sqrt), i, sqrt);
    hide Column, AggregateOf;
  }

  lemma RollingAt(n: nat, agg: Aggregate, dates: seq<int>, xs: Series, i: nat, sqrt: real -> real)
    requires i < |dates| == |xs|
    ensures Column(Rolling(n, agg), dates, xs, sqrt)[i] ==
            if i + 1 < n then None else AggregateOf(agg, n, xs[i + 1 - n..i + 1], sqrt)
  {}

  // ---- Moving averages --------------------------------------------------------------------------------------

  /** The sum of a field over rows lo to hi - 1. */
  function Total(frame: seq<Row>, field: Field, lo: nat, hi: nat): real
    requires lo <= hi <= |frame|
  {
    if lo == hi then 0.0 else Total(frame, field, lo, hi - 1) + Read(frame[hi - 1], field)
  }

  lemma {:induction false} SumIsTotal(frame: seq<Row>, field: Field, xs: seq<real>, lo: nat, hi: nat)
    requires lo <= hi <= |frame| && |xs| == hi - lo
    requires forall j | 0 <= j < |xs| :: xs[j] == Read(frame[lo + j], field)
    ensures Sum(xs) == Total(frame, field, lo, hi)
    decreases hi
  {
    if lo < hi {
      SumIsTotal(frame, field, xs[..|xs| - 1], lo, hi - 1);
    }
  }

  lemma InputWindow(frame: seq<Row>, field: Field, lo: nat, hi: nat, sqrt: real -> real)
    requires lo <= hi <= |frame|
    ensures var window := Eval(Input(field), frame, sqrt)[lo..hi];
            && AllPresent(window) && |Present(window)| == hi - lo
            && forall j | 0 <= j < hi - lo :: Present(window)[j] == Read(frame[lo + j], field)
  {
    hide Read;
  }

  lemma MeanAtRow(frame: seq<Row>, field: Field, n: nat, i: nat, sqrt: real -> real)
    requires i < |frame| && n > 0
    ensures var mean := Eval(Over(Rolling(n, Mean), Input(field)), frame, sqrt)[i];
            if i + 1 < n then mean.None?
            else mean.Some? && mean.value * n as real == Total(frame, field, i + 1 - n, i + 1)
  {
    RowOfRolling(n, Mean, Input(field), frame, i, sqrt);
    if i + 1 >= n {
      InputWindow(frame, field, i + 1 - n, i + 1, sqrt);
      var window := Eval(Input(field), frame, sqrt)[i + 1 - n..i + 1];
      SumIsTotal(frame, field, Present(window), i + 1 - n, i + 1);
      hide Eval, Total, Sum, AllPresent;
    }
  }

  /** The averaging columns: missing until there are enough rows, and then the mean of the field over the last
      twenty or fifty. */
  lemma AveragesAreMeans(frame: seq<Row>, timeframe: string, i: nat, sqrt: real -> real, a: Average)
    returns (mean: Option<real>)
    requires i < |frame|
    ensures var (name, n, field) := AverageColumn(a);
            && Shows(Enrich(frame, timeframe, sqrt), name, i, mean)
            && (mean.Some? <==> i + 1 >= n)
            && (mean.Some? ==> mean.value * n as real == Total(frame, field, i + 1 - n, i + 1))
  {
    var (name, n, field) := AverageColumn(a);
    AverageStands(timeframe, a);
    hide Shows, Enrich, Eval, Total, Columns;
    ShowsColumn(frame, timeframe, name, Over(Rolling(n, Mean), Input(field)), i, sqrt);
    MeanAtRow(frame, field, n, i, sqrt);
    mean := Eval(Over(Rolling(n, Mean), Input(field)), frame, sqrt)[i];
  }

  // ---- Extremes of the rows before -----------------------------------------------------------------------------

  /** The value is the highest or the lowest of the field over rows lo to hi - 1. */
  ghost predicate IsExtreme(frame: seq<Row>, highest: bool, lo: nat, hi: nat, value: real)
    requires lo <= hi <= |frame|
  {
    && (exists j | lo <= j < hi :: (if highest then frame[j].high else frame[j].low) == value)
    && (forall j | lo <= j < hi :: if highest then frame[j].high <= value else value <= frame[j].low)
  }

  lemma WindowExtreme(frame: seq<Row>, n: nat, highest: bool, i: nat, sqrt: real -> real)
    requires i < |frame| && n > 0
    ensures var field, agg := if highest then High else Low, if highest then Highest else Lowest;
            var e := Eval(Over(Rolling(n, agg), Input(field)), frame, sqrt)[i];
            && (e.Some? <==> i + 1 >= n)
            && (e.Some? ==> IsExtreme(frame, highest, i + 1 - n, i + 1, e.value))
  {
    var field, agg := if highest then High else Low, if highest then Highest else Lowest;
    hide Eval, IsExtreme, AggregateOf, Extreme, Present, AllPresent, Read;
    RowOfRolling(n, agg, Input(field), frame, i, sqrt);
    if i + 1 >= n {
      var lo := i + 1 - n;
      InputWindow(frame, field, lo, i + 1, sqrt);
      var window := Eval(Input(field), frame, sqrt)[lo..i + 1];
      AggregateIsExtreme(window, n, highest, sqrt);
      PresentExtreme(frame, highest, lo, i + 1, Present(window));
    }
  }

  lemma AggregateIsExtreme(window: Series, n: nat, highest: bool, sqrt: real -> real)
    requires |window| == n > 0 && AllPresent(window)
    ensures AggregateOf(if highest then Highest else Lowest, n, window, sqrt) == Some(Extreme(Present(window), highest))
  {
    hide Extreme, Present;
  }

  lemma PresentExtreme(frame: seq<Row>, highest: bool, lo: nat, hi: nat, xs: seq<real>)
    requires lo < hi <= |frame| && |xs| == hi - lo
    requires forall j | 0 <= j < hi - lo :: xs[j] == Read(frame[lo + j], if highest then High else Low)
    ensures IsExtreme(frame, highest, lo, hi, Extreme(xs, highest))
  {
    var e := Extreme(xs, highest);
    var k :| 0 <= k < |xs| && xs[k] == e;
    hide Extreme;
    assert Read(frame[lo + k], if highest then High else Low) == e;
    forall j | lo <= j < hi ensures if highest then frame[j].high <= e else e <= frame[j].low {
      assert xs[j - lo] in xs && xs[j - lo] == Read(frame[lo + (j - lo)], if highest then High else Low);
    }
  }

  lemma ExtremeAtRow(frame: seq<Row>, n: nat, highest: bool, i: nat, sqrt: real -> real)
    requires i < |frame| && n > 0
    ensures var e := Eval(ExtremeExpr(n, highest), frame, sqrt)[i];
            && (e.Some? <==> i >= n)
            && (e.Some? ==> IsExtreme(frame, highest, i - n, i, e.value))
  {
    var field, agg := if highest then High else Low, if highest then Highest else Lowest;
    ShiftedExtreme(n, highest);
    hide Eval, IsExtreme, ExtremeExpr;
    RowOfShift(1, Over(Rolling(n, agg), Input(field)), frame, i, sqrt);
    if i >= 1 {
      WindowExtreme(frame, n, highest, i - 1, sqrt);
    }
  }

  lemma ShiftedExtreme(n: nat, highest: bool)
    ensures ExtremeExpr(n, highest) ==
            Over(Shift(1), Over(Rolling(n, if highest then Highest else Lowest), Input(if highest then High else Low)))
  {}

  /** The swing and range columns: missing until there are enough earlier rows, and then the highest high or the
      lowest low of the ten or twenty rows before, the row itself left out. */
  lemma ExtremesAreOfEarlierRows(frame: seq<Row>, timeframe: string, i: nat, sqrt: real -> real, x: Extremum)
    returns (e: Option<real>)
    requires i < |frame|
    ensures var (name, n, highest) := ExtremeColumn(x);
            && Shows(Enrich(frame, timeframe, sqrt), name, i, e)
            && (e.Some? <==> i >= n)
            && (e.Some? ==> IsExtreme(frame, highest, i - n, i, e.value))
  {
    var (name, n, highest) := ExtremeColumn(x);
    ExtremeStands(timeframe, x);
    hide Shows, Enrich, Eval, Columns, ExtremeExpr, IsExtreme;
    ShowsColumn(frame, timeframe, name, ExtremeExpr(n, highest), i, sqrt);
    ExtremeAtRow(frame, n, highest, i, sqrt);
    e := Eval(ExtremeExpr(n, highest), frame, sqrt)[i];
  }

  // ---- The opening range ------------------------------------------------------------------------------------------

  /** The opening-range columns of a minute frame: at every row the highest high and the lowest low of the first
      five bars of the row's UTC date, as far as they have been seen. */
  lemma OpeningRangeColumns(frame: seq<Row>, timeframe: string, i: nat, sqrt: real -> real, highest: bool)
    returns (range: real)
    requires timeframe == "1m" || timeframe == "5m" || timeframe == "10m" || timeframe == "15m"
    requires i < |frame|
    ensures var field := if highest then High else Low;
            && Shows(Enrich(frame, timeframe, sqrt), if highest then "opening_range_high" else "opening_range_low", i,
                     Some(range))
            && (exists j: nat :: OpensWith(frame, j, i) && Read(frame[j], field) == range)
            && (forall j: nat | OpensWith(frame, j, i) ::
                  if highest then Read(frame[j], field) <= range else range <= Read(frame[j], field))
  {
    hide Eval, Shows, Enrich, Columns, Read;
    var e := if highest then OPENING_HIGH else OPENING_LOW;
    OpeningStands(timeframe, highest);
    ShowsColumn(frame, timeframe, if highest then "opening_range_high" else "opening_range_low", e, i, sqrt);
    OpeningRangeIsCausalExtreme(frame, i, sqrt, highest);
    range := Eval(e, frame, sqrt)[i].value;
    forall j: nat ensures OpensWith(frame, j, i) <==> InRange(Dates(frame), j, i) {
      InRangeMeans(frame, j, i);
    }
    hide OpensWith, InRange;
  }

  /** Row j is one of the first five of row i's date and not after it. */
  ghost predicate OpensWith(frame: seq<Row>, j: nat, i: nat)
    requires i < |frame|
  {
    j <= i && frame[j].time / 86_400_000_000 == frame[i].time / 86_400_000_000
    && |set k: nat | k <= j && frame[k].time / 86_400_000_000 == frame[j].time / 86_400_000_000| <= 5
  }

  lemma InRangeMeans(frame: seq<Row>, j: nat, i: nat)
    requires i < |frame|
    ensures OpensWith(frame, j, i) <==> InRange(Dates(frame), j, i)
  {
    if j <= i {
      assert (set k: nat | k <= j && frame[k].time / 86_400_000_000 == frame[j].time / 86_400_000_000) ==
             (set k: nat | k <= j && Dates(frame)[k] == Dates(frame)[j]);
    }
  }

  // ---- Exponential averages ----------------------------------------------------------------------------------------

  /** The average moves from one row to the next by two parts in n + 1 of the way to the close. */
  ghost predicate MovesTowards(before: Option<real>, after: Option<real>, close: real, n: nat)
    requires before.Some? && after.Some?
  {
    (after.value - before.value) * (n + 1) as real == 2.0 * (close - before.value)
  }

  lemma CloseColumn(frame: seq<Row>, sqrt: real -> real)
    ensures var xs := Eval(CLOSE, frame, sqrt);
            AllPresent(xs) && forall i | 0 <= i < |xs| :: xs[i] == Some(frame[i].close)
  {}

  lemma {:induction false} EveryRowCounts(xs: Series, n: nat)
    requires n <= |xs| && AllPresent(xs)
    ensures PresentCount(xs, n) == n
  {
    if n > 0 {
      EveryRowCounts(xs, n - 1);
      assert xs[n - 1] in xs;
    }
  }

  lemma SpanAtRow(frame: seq<Row>, n: nat, i: nat, sqrt: real -> real)
    requires i < |frame|
    ensures Eval(Span(n, CLOSE), frame, sqrt)[i] ==
            EwmMean(2.0 / (n + 1) as real, Eval(CLOSE, frame, sqrt), i + 1)
  {
    hide EwmMean;
    var xs := Eval(CLOSE, frame, sqrt);
    OperatorColumn(Ewm(2.0 / (n + 1) as real, 1), CLOSE, frame, sqrt);
    CloseColumn(frame, sqrt);
    EveryRowCounts(xs, i + 1);
    hide Eval;
  }

  lemma AlphaOfSpan(n: nat, alpha: real, before: real, close: real)
    requires alpha == 2.0 / (n + 1) as real
    ensures ((1.0 - alpha) * before + alpha * close - before) * (n + 1) as real == 2.0 * (close - before)
  {
    var m := (n + 1) as real;
    assert alpha * m == 2.0;
    calc {
      ((1.0 - alpha) * before + alpha * close - before) * m;
      alpha * (close - before) * m;
      (alpha * m) * (close - before);
    }
  }

  /** The exponential averages of the closes start at the first one and move from row to row by two parts in
      n + 1 of the way to the close. */
  lemma ExponentialsFollowTheClose(frame: seq<Row>, timeframe: string, i: nat, sqrt: real -> real, x: Exponential)
    returns (before: Option<real>, after: Option<real>)
    requires i < |frame|
    ensures var (name, n) := ExponentialColumn(x);
            && Shows(Enrich(frame, timeframe, sqrt), name, i, after) && after.Some?
            && (i == 0 ==> after.value == frame[0].close)
            && (i > 0 ==> Shows(Enrich(frame, timeframe, sqrt), name, i - 1, before) && before.Some?
                          && MovesTowards(before, after, frame[i].close, n))
  {
    var (name, n) := ExponentialColumn(x);
    ExponentialStands(timeframe, x);
    hide Shows, Enrich, Eval, Columns, EwmMean, Span;
    var xs, alpha := Eval(CLOSE, frame, sqrt), 2.0 / (n + 1) as real;
    CloseColumn(frame, sqrt);
    ShowsColumn(frame, timeframe, name, Span(n, CLOSE), i, sqrt);
    SpanAtRow(frame, n, i, sqrt);
    after := Eval(Span(n, CLOSE), frame, sqrt)[i];
    before := None;
    NoGap(alpha, xs, i);
    if i > 0 {
      ShowsColumn(frame, timeframe, name, Span(n, CLOSE), i - 1, sqrt);
      SpanAtRow(frame, n, i - 1, sqrt);
      before := Eval(Span(n, CLOSE), frame, sqrt)[i - 1];
      AlphaOfSpan(n, alpha, before.value, frame[i].close);
    }
  }

  // ---- True ranges --------------------------------------------------------------------------------------------------

  /** The whole span a row moved over from the close before it. */
  function Reach(frame: seq<Row>, i: nat): real
    requires i < |frame|
  {
    if i == 0 then frame[0].high - frame[0].low
    else
      var before := frame[i - 1].close;
      (if frame[i].high < before then before else frame[i].high) - (if before < frame[i].low then before
        else frame[i].low)
  }

  lemma {:induction false} TrueRangeAtRow(frame: seq<Row>, i: nat, sqrt: real -> real)
    requires i < |frame| && frame[i].low <= frame[i].high
    ensures Eval(TRUE_RANGE, frame, sqrt)[i] == Some(Reach(frame, i))
  {
    hide Eval;
    TrueRangeIs();
    var high, low, before := Input(High), Input(Low), Over(Shift(1), Input(Close));
    InputsAtRow(frame, i, sqrt);
    MoveAtRow(High, frame, i, sqrt);
    MoveAtRow(Low, frame, i, sqrt);
    RowOfMap2(Sub, high, low, frame, i, sqrt);
    var up, down := Map1(Absolute, Map2(Sub, high, before)), Map1(Absolute, Map2(Sub, low, before));
    RowOfMap2(LargerPresent, up, down, frame, i, sqrt);
    RowOfMap2(LargerPresent, Map2(Sub, high, low), Map2(LargerPresent, up, down), frame, i, sqrt);
    LargestIsReach(frame, i);
  }

  /** The largest of the row's range and its two moves from the close before is its reach. */
  lemma LargestIsReach(frame: seq<Row>, i: nat)
    requires i < |frame| && frame[i].low <= frame[i].high
    ensures var row := frame[i];
            var up := if i == 0 then None
                      else Some(if row.high < frame[i - 1].close then frame[i - 1].close - row.high
                                else row.high - frame[i - 1].close);
            var down := if i == 0 then None
                        else Some(if row.low < frame[i - 1].close then frame[i - 1].close - row.low
                                  else row.low - frame[i - 1].close);
            Apply2(LargerPresent, Some(row.high - row.low), Apply2(LargerPresent, up, down)) == Some(Reach(frame, i))
  {}

  lemma {:induction false} InputsAtRow(frame: seq<Row>, i: nat, sqrt: real -> real)
    requires i < |frame|
    ensures Eval(Input(High), frame, sqrt)[i] == Some(frame[i].high)
    ensures Eval(Input(Low), frame, sqrt)[i] == Some(frame[i].low)
    ensures Eval(Over(Shift(1), Input(Close)), frame, sqrt)[i] == if i == 0 then None else Some(frame[i - 1].close)
  {
    hide Eval;
    RowOfInput(High, frame, i, sqrt);
    RowOfInput(Low, frame, i, sqrt);
    RowOfShift(1, Input(Close), frame, i, sqrt);
    if i > 0 {
      RowOfInput(Close, frame, i - 1, sqrt);
    }
  }

  lemma {:induction false} MoveAtRow(field: Field, frame: seq<Row>, i: nat, sqrt: real -> real)
    requires i < |frame|
    ensures Eval(Map1(Absolute, Map2(Sub, Input(field), Over(Shift(1), Input(Close)))), frame, sqrt)[i] ==
            if i == 0 then None
            else if Read(frame[i], field) < frame[i - 1].close then Some(frame[i - 1].close - Read(frame[i], field))
            else Some(Read(frame[i], field) - frame[i - 1].close)
  {
    hide Eval;
    var move := Map2(Sub, Input(field), Over(Shift(1), Input(Close)));
    RowOfMap1(Absolute, move, frame, i, sqrt);
    RowOfMap2(Sub, Input(field), Over(Shift(1), Input(Close)), frame, i, sqrt);
    RowOfInput(field, frame, i, sqrt);
    InputsAtRow(frame, i, sqrt);
  }

  /** The true range of a row is the whole span it moved over from the close before it. */
  lemma TrueRangeColumn(frame: seq<Row>, timeframe: string, i: nat, sqrt: real -> real)
    requires i < |frame| && frame[i].low <= frame[i].high
    ensures Shows(Enrich(frame, timeframe, sqrt), "true_range", i, Some(Reach(frame, i)))
  {
    TrueRangeStands(timeframe);
    TrueRangeAtRow(frame, i, sqrt);
    hide Shows, Enrich, Eval, Columns, Reach;
    ShowsColumn(frame, timeframe, "true_range", TRUE_RANGE, i, sqrt);
  }

  /** The sum of the reaches of rows lo to hi - 1. */
  function TotalReach(frame: seq<Row>, lo: nat, hi: nat): real
    requires lo <= hi <= |frame|
  {
    if lo == hi then 0.0 else TotalReach(frame, lo, hi - 1) + Reach(frame, hi - 1)
  }

  lemma {:induction false} SumIsTotalReach(frame: seq<Row>, xs: seq<real>, lo: nat, hi: nat)
    requires lo <= hi <= |frame| && |xs| == hi - lo
    requires forall j | 0 <= j < |xs| :: xs[j] == Reach(frame, lo + j)
    ensures Sum(xs) == TotalReach(frame, lo, hi)
    decreases hi
  {
    if lo < hi {
      SumIsTotalReach(frame, xs[..|xs| - 1], lo, hi - 1);
    }
  }

  lemma MeanOfWindow(n: nat, window: Series, sqrt: real -> real)
    requires |window| == n > 0 && AllPresent(window)
    ensures var mean := AggregateOf(Mean, n, window, sqrt); mean.Some? && mean.value * n as real == Sum(Present(window))
  {}

  lemma {:induction false} AtrAtRow(frame: seq<Row>, i: nat, sqrt: real -> real)
    requires i < |frame| && forall j | 0 <= j < |frame| :: frame[j].low <= frame[j].high
    ensures var atr := Eval(ATR, frame, sqrt)[i];
            && (atr.Some? <==> i >= 13)
            && (atr.Some? ==> atr.value * 14.0 == TotalReach(frame, i - 13, i + 1))
  {
    hide Eval, Reach, TotalReach, AggregateOf, Sum;
    AtrIsAMean();
    RowOfRolling(14, Mean, TRUE_RANGE, frame, i, sqrt);
    if i >= 13 {
      var window := Eval(TRUE_RANGE, frame, sqrt)[i - 13..i + 1];
      forall j | 0 <= j < 14 ensures window[j] == Some(Reach(frame, i - 13 + j)) {
        TrueRangeAtRow(frame, i - 13 + j, sqrt);
      }
      MeanOfWindow(14, window, sqrt);
      SumIsTotalReach(frame, Present(window), i - 13, i + 1);
    }
  }

  /** The average true range is missing for thirteen rows, and then the mean reach of the last fourteen. */
  lemma {:induction false} AtrColumn(frame: seq<Row>, timeframe: string, i: nat, sqrt: real -> real)
    returns (atr: Option<real>)
    requires i < |frame| && forall j | 0 <= j < |frame| :: frame[j].low <= frame[j].high
    ensures Shows(Enrich(frame, timeframe, sqrt), "atr_14", i, atr)
    ensures atr.Some? <==> i >= 13
    ensures atr.Some? ==> atr.value * 14.0 == TotalReach(frame, i - 13, i + 1)
  {
    hide Shows, Enrich, Eval, Columns, TotalReach;
    AtrStands(timeframe);
    ShowsColumn(frame, timeframe, "atr_14", ATR, i, sqrt);
    AtrAtRow(frame, i, sqrt);
    atr := Eval(ATR, frame, sqrt)[i];
  }

  // ---- The deviation ----------------------------------------------------------------------------------------------

  function SumOfSquares(xs: seq<real>): real {
    if |xs| == 0 then 0.0 else SumOfSquares(xs[..|xs| - 1]) + xs[|xs| - 1] * xs[|xs| - 1]
  }

  lemma {:induction false} SquaresExpand(xs: seq<real>, mean: real)
    ensures SquaresFrom(xs, mean) == SumOfSquares(xs) - 2.0 * mean * Sum(xs) + |xs| as real * (mean * mean)
  {
    if |xs| > 0 {
      var rest, x := xs[..|xs| - 1], xs[|xs| - 1];
      SquaresExpand(rest, mean);
      assert (x - mean) * (x - mean) == x * x - 2.0 * mean * x + mean * mean;
      assert 2.0 * mean * (Sum(rest) + x) == 2.0 * mean * Sum(rest) + 2.0 * mean * x;
      assert |xs| as real * (mean * mean) == |rest| as real * (mean * mean) + mean * mean;
    }
  }

  /** The sample deviation of a full window is the root of what its squares exceed those of its mean by, over one
      less than its rows. */
  lemma DeviationOfWindow(n: nat, window: Series, sqrt: real -> real) returns (variance: real)
    requires |window| == n > 1 && AllPresent(window)
    ensures AggregateOf(Deviation, n, window, sqrt) == Some(sqrt(variance))
    ensures var mean := Sum(Present(window)) / n as real;
            variance * (n - 1) as real == SumOfSquares(Present(window)) - n as real * (mean * mean)
  {
    hide SquaresFrom, SumOfSquares, Sum;
    var xs := Present(window);
    var mean := Sum(xs) / n as real;
    SquaresExpand(xs, mean);
    variance := SquaresFrom(xs, mean) / (n - 1) as real;
    assert mean * n as real == Sum(xs);
    assert 2.0 * mean * Sum(xs) == 2.0 * (n as real * (mean * mean));
  }

  /** The band's deviation is missing for nineteen rows, and then the sample deviation of the last twenty closes. */
  lemma DeviationColumn(frame: seq<Row>, timeframe: string, i: nat, sqrt: real -> real)
    returns (closes: seq<real>, variance: real)
    requires i < |frame|
    ensures Shows(Enrich(frame, timeframe, sqrt), "bb_std", i, if i >= 19 then Some(sqrt(variance)) else None)
    ensures i >= 19 ==>
              && |closes| == 20 && (forall j | 0 <= j < 20 :: closes[j] == frame[i - 19 + j].close)
              && var mean := Sum(closes) / 20.0; variance * 19.0 == SumOfSquares(closes) - 20.0 * (mean * mean)
  {
    hide Shows, Enrich, Eval, Columns, AggregateOf, Sum, SumOfSquares;
    DeviationStands(timeframe);
    ShowsColumn(frame, timeframe, "bb_std", Over(Rolling(20, Deviation), Input(Close)), i, sqrt);
    RowOfRolling(20, Deviation, Input(Close), frame, i, sqrt);
    closes, variance := [], 0.0;
    if i >= 19 {
      var window := Eval(Input(Close), frame, sqrt)[i - 19..i + 1];
      InputWindow(frame, Close, i - 19, i + 1, sqrt);
      closes := Present(window);
      variance := DeviationOfWindow(20, window, sqrt);
    }
  }

  // ---- Volume -------------------------------------------------------------------------------------------------------

  /** The sign of the move from the close before; the first row has none. */
  function MoveSign(frame: seq<Row>, i: nat): real
    requires i < |frame|
  {
    if i == 0 then 0.0
    else if frame[i].close > frame[i - 1].close then 1.0
    else if frame[i].close < frame[i - 1].close then -1.0
    else 0.0
  }

  lemma {:induction false} SignedVolumeAtRow(frame: seq<Row>, i: nat, sqrt: real -> real)
    requires i < |frame|
    ensures Eval(SIGNED_VOLUME, frame, sqrt)[i] == Some(MoveSign(frame, i) * frame[i].volume)
  {
    hide Eval;
    SignedVolumeIs();
    var move := Map2(Sub, Input(Close), Over(Shift(1), Input(Close)));
    InputsAtRow(frame, i, sqrt);
    RowOfInput(Close, frame, i, sqrt);
    RowOfInput(Volume, frame, i, sqrt);
    RowOfMap2(Sub, Input(Close), Over(Shift(1), Input(Close)), frame, i, sqrt);
    RowOfMap1(NanToZero, move, frame, i, sqrt);
    RowOfMap1(Sign, Map1(NanToZero, move), frame, i, sqrt);
    RowOfMap2(Mul, Map1(Sign, Map1(NanToZero, move)), Input(Volume), frame, i, sqrt);
  }

  /** The volume balance starts at nothing and takes a row's volume with the sign of its move. */
  lemma {:induction false} BalanceColumn(frame: seq<Row>, timeframe: string, i: nat, sqrt: real -> real)
    returns (before: real, after: real)
    requires i < |frame|
    ensures Shows(Enrich(frame, timeframe, sqrt), "obv", i, Some(after))
    ensures i == 0 ==> after == 0.0
    ensures i > 0 ==> Shows(Enrich(frame, timeframe, sqrt), "obv", i - 1, Some(before))
                      && after == before + MoveSign(frame, i) * frame[i].volume
  {
    hide Shows, Enrich, Eval, Columns;
    BalanceStands(timeframe);
    ShowsColumn(frame, timeframe, "obv", On(CumSum, SIGNED_VOLUME), i, sqrt);
    var xs := Eval(SIGNED_VOLUME, frame, sqrt);
    RowOfTotal(SIGNED_VOLUME, frame, i, sqrt);
    SignedVolumeAtRow(frame, i, sqrt);
    after, before := SumPresent(xs, i + 1), SumPresent(xs, i);
    assert after == before + MoveSign(frame, i) * frame[i].volume;
    if i > 0 {
      ShowsColumn(frame, timeframe, "obv", On(CumSum, SIGNED_VOLUME), i - 1, sqrt);
      RowOfTotal(SIGNED_VOLUME, frame, i - 1, sqrt);
      SignedVolumeAtRow(frame, i - 1, sqrt);
    } else {
      assert before == 0.0;
    }
  }

  lemma RowOfTotal(e: Expr, frame: seq<Row>, i: nat, sqrt: real -> real)
    requires i < |frame|
    ensures Eval(Over(CumSum, e), frame, sqrt)[i] ==
            if Eval(e, frame, sqrt)[i].Some? then Some(SumPresent(Eval(e, frame, sqrt), i + 1)) else None
  {
    hide Eval;
    OperatorColumn(CumSum, e, frame, sqrt);
    TotalAt(Dates(frame), Eval(e, frame, sqrt), i, sqrt);
    hide Column, SumPresent;
  }

  lemma TotalAt(dates: seq<int>, xs: Series, i: nat, sqrt: real -> real)
    requires i < |dates| == |xs|
    ensures Column(CumSum, dates, xs, sqrt)[i] == if xs[i].Some? then Some(SumPresent(xs, i + 1)) else None
  {}

  /** The relative volume times the mean volume of the last twenty rows is the row's volume; without that mean, or
      with a mean of zero, there is none. */
  lemma {:induction false} RelativeVolumeColumn(frame: seq<Row>, timeframe: string, i: nat, sqrt: real -> real)
    returns (relative: Option<real>)
    requires i < |frame|
    ensures Shows(Enrich(frame, timeframe, sqrt), "relative_volume", i, relative)
    ensures relative.Some? <==> i >= 19 && Total(frame, Volume, i - 19, i + 1) != 0.0
    ensures relative.Some? ==> relative.value * (Total(frame, Volume, i - 19, i + 1) / 20.0) == frame[i].volume
  {
    hide Shows, Enrich, Eval, Columns, Total;
    var mean := Over(Rolling(20, Mean), Input(Volume));
    RelativeVolumeStands(timeframe);
    ShowsColumn(frame, timeframe, "relative_volume", Over0(VOLUME, AVG_VOLUME), i, sqrt);
    MeanAtRow(frame, Volume, 20, i, sqrt);
    RowOfInput(Volume, frame, i, sqrt);
    RowOfMap1(ZeroToNan, mean, frame, i, sqrt);
    RowOfMap2(Div, Input(Volume), Map1(ZeroToNan, mean), frame, i, sqrt);
    relative := Eval(Over0(VOLUME, AVG_VOLUME), frame, sqrt)[i];
  }

  /** A row is a spike exactly when its volume is one and a half times that mean at least. */
  lemma {:induction false} VolumeSpikeColumn(frame: seq<Row>, timeframe: string, i: nat, sqrt: real -> real)
    requires i < |frame|
    ensures Shows(Enrich(frame, timeframe, sqrt), "volume_spike", i,
                  Some(if i >= 19 && frame[i].volume * 20.0 >= 1.5 * Total(frame, Volume, i - 19, i + 1) then 1.0
                       else 0.0))
  {
    hide Shows, Enrich, Eval, Columns, Total;
    var mean := Over(Rolling(20, Mean), Input(Volume));
    VolumeSpikeStands(timeframe);
    ShowsColumn(frame, timeframe, "volume_spike", Of2(AtLeast, VOLUME, Times(AVG_VOLUME, Constant(1.5))), i, sqrt);
    VolumeSpikeIs();
    MeanAtRow(frame, Volume, 20, i, sqrt);
    RowOfInput(Volume, frame, i, sqrt);
    RowOfConstant(1.5, frame, i, sqrt);
    RowOfMap2(Mul, mean, Constant(1.5), frame, i, sqrt);
    RowOfMap2(AtLeast, Input(Volume), Map2(Mul, mean, Constant(1.5)), frame, i, sqrt);
  }

  lemma RowOfConstant(c: real, frame: seq<Row>, i: nat, sqrt: real -> real)
    requires i < |frame|
    ensures Eval(Constant(c), frame, sqrt)[i] == Some(c)
  {}

  /** The range in percent is a hundred times the average true range over the close, when that is not zero. */
  lemma {:induction false} AtrPercentColumn(frame: seq<Row>, timeframe: string, i: nat, sqrt: real -> real)
    returns (percent: Option<real>)
    requires i < |frame| && forall j | 0 <= j < |frame| :: frame[j].low <= frame[j].high
    ensures Shows(Enrich(frame, timeframe, sqrt), "atr_pct", i, percent)
    ensures percent.Some? <==> i >= 13 && frame[i].close != 0.0
    ensures percent.Some? ==> percent.value * 14.0 * frame[i].close == 100.0 * TotalReach(frame, i - 13, i + 1)
  {
    hide Shows, Enrich, Eval, Columns, TotalReach;
    AtrPercentStands(timeframe);
    ShowsColumn(frame, timeframe, "atr_pct", Percent(Over0(ATR, CLOSE)), i, sqrt);
    AtrAtRow(frame, i, sqrt);
    RowOfInput(Close, frame, i, sqrt);
    RowOfConstant(100.0, frame, i, sqrt);
    RowOfMap1(ZeroToNan, Input(Close), frame, i, sqrt);
    RowOfMap2(Div, ATR, Map1(ZeroToNan, Input(Close)), frame, i, sqrt);
    RowOfMap2(Mul, Map2(Div, ATR, Map1(ZeroToNan, Input(Close))), Constant(100.0), frame, i, sqrt);
    percent := Eval(Percent(Over0(ATR, CLOSE)), frame, sqrt)[i];
    if percent.Some? {
      var atr := Eval(ATR, frame, sqrt)[i].value;
      HundredTimes(atr, frame[i].close, percent.value);
    }
  }

  lemma HundredTimes(atr: real, close: real, percent: real)
    requires close != 0.0 && percent == atr / close * 100.0
    ensures percent * 14.0 * close == 100.0 * (atr * 14.0)
  {
    assert atr / close * close == atr;
  }
}
