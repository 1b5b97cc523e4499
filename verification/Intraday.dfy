/** Session helpers for intraday backtests: the last bar of each New York session and the
    average true range of the sessions before a bar's own. */
module Intraday {
  import opened Wrappers

  datatype Bar = Bar(time: int, open: real, high: real, low: real, close: real)

  /** New York wall-clock time of a UTC instant, in minutes. The time-zone database is not
      modelled: any function stands for it. */
  type NewYork = int -> int

  const SESSION_ATR_PERIOD := 14
  const SESSION_ATR_MIN_PERIODS := 4

  function SessionDate(ny: NewYork, time: int): int {
    ny(time) / 1440
  }

  predicate IsExtendedHours(ny: NewYork, time: int) {
    var minute := ny(time) % 1440;
    minute < 9 * 60 + 30 || minute >= 16 * 60
  }

  /** Time never runs back to an earlier date in New York. */
  ghost predicate DatesMonotone(ny: NewYork) {
    forall a, b :: a <= b ==> SessionDate(ny, a) <= SessionDate(ny, b)
  }

  predicate Sorted(frame: seq<Bar>) {
    forall i, j | 0 <= i < j < |frame| :: frame[i].time <= frame[j].time
  }

  function InsertByTime(bar: Bar, sorted: seq<Bar>): seq<Bar> {
    if |sorted| == 0 || sorted[|sorted| - 1].time <= bar.time then sorted + [bar]
    else InsertByTime(bar, sorted[..|sorted| - 1]) + [sorted[|sorted| - 1]]
  }

  /** The frame in time order, earlier rows first among equal times. */
  function SortByTime(rows: seq<Bar>): seq<Bar> {
    if |rows| == 0 then [] else InsertByTime(rows[|rows| - 1], SortByTime(rows[..|rows| - 1]))
  }

  lemma {:induction false} InsertKeepsRows(bar: Bar, sorted: seq<Bar>)
    ensures multiset(InsertByTime(bar, sorted)) == multiset(sorted) + multiset{bar}
  {
    if |sorted| > 0 && sorted[|sorted| - 1].time > bar.time {
      InsertKeepsRows(bar, sorted[..|sorted| - 1]);
      assert sorted == sorted[..|sorted| - 1] + [sorted[|sorted| - 1]];
    }
  }

  lemma {:induction false} InsertKeepsOrder(bar: Bar, sorted: seq<Bar>)
    requires Sorted(sorted)
    ensures Sorted(InsertByTime(bar, sorted))
  {
    if |sorted| > 0 && sorted[|sorted| - 1].time > bar.time {
      var shorter, last := sorted[..|sorted| - 1], sorted[|sorted| - 1];
      InsertKeepsOrder(bar, shorter);
      InsertKeepsRows(bar, shorter);
      var rest := InsertByTime(bar, shorter);
      forall k | 0 <= k < |rest| ensures rest[k].time <= last.time {
        assert rest[k] in multiset(rest);
      }
    }
  }

  /** The engine's and the splitter's frames are in time order, and hold the rows they were given. */
  lemma {:induction false} SortIsSorted(rows: seq<Bar>)
    ensures Sorted(SortByTime(rows)) && multiset(SortByTime(rows)) == multiset(rows)
  {
    if |rows| > 0 {
      var shorter, last := rows[..|rows| - 1], rows[|rows| - 1];
      SortIsSorted(shorter);
      InsertKeepsOrder(last, SortByTime(shorter));
      InsertKeepsRows(last, SortByTime(shorter));
      assert rows == shorter + [last];
    }
  }

  predicate LastBarOfSession(frame: seq<Bar>, ny: NewYork, i: nat)
    requires i < |frame|
  {
    i + 1 == |frame| || SessionDate(ny, frame[i].time) != SessionDate(ny, frame[i + 1].time)
  }

  // ---- Prior-session average true range ------------------------------------------------------

  datatype Session = Session(date: int, high: real, low: real, close: real)

  function Max(a: real, b: real): real { if a < b then b else a }
  function Min(a: real, b: real): real { if b < a then b else a }
  function Abs(a: real): real { if a < 0.0 then -a else a }

  /** The frame's bars grouped by session, for a frame in time order. */
  function Daily(frame: seq<Bar>, ny: NewYork): (days: seq<Session>)
    ensures (|days| == 0) == (|frame| == 0)
    ensures |frame| > 0 ==> days[|days| - 1].date == SessionDate(ny, frame[|frame| - 1].time)
  {
    if |frame| == 0 then []
    else
      var bar := frame[|frame| - 1];
      var date := SessionDate(ny, bar.time);
      var before := Daily(frame[..|frame| - 1], ny);
      if |before| > 0 && before[|before| - 1].date == date then
        var day := before[|before| - 1];
        before[..|before| - 1] + [Session(date, Max(day.high, bar.high), Min(day.low, bar.low), bar.close)]
      else
        before + [Session(date, bar.high, bar.low, bar.close)]
  }

  /** The sessions before the one dated `date`. */
  function PriorTo(days: seq<Session>, date: int): seq<Session> {
    if |days| == 0 then []
    else if days[|days| - 1].date == date then days[..|days| - 1]
    else PriorTo(days[..|days| - 1], date)
  }

  function TrueRange(days: seq<Session>, j: nat): real
    requires j < |days|
  {
    var range := days[j].high - days[j].low;
    if j == 0 then range
    else Max(range, Max(Abs(days[j].high - days[j - 1].close), Abs(days[j].low - days[j - 1].close)))
  }

  function SumTrueRange(days: seq<Session>, lo: nat, hi: nat): real
    requires lo <= hi <= |days|
  {
    if lo == hi then 0.0 else SumTrueRange(days, lo, hi - 1) + TrueRange(days, hi - 1)
  }

  /** Mean true range of the last 14 sessions, None with fewer than four. */
  function AverageTrueRange(days: seq<Session>): Option<real> {
    var n := |days|;
    if n < SESSION_ATR_MIN_PERIODS then None
    else
      var lo := if n > SESSION_ATR_PERIOD then n - SESSION_ATR_PERIOD else 0;
      Some(SumTrueRange(days, lo, n) / (n - lo) as real)
  }

  function SessionAtr(frame: seq<Bar>, ny: NewYork, i: nat): Option<real>
    requires i < |frame|
  {
    AverageTrueRange(PriorTo(Daily(frame, ny), SessionDate(ny, frame[i].time)))
  }

  /** A true range is the whole span a session moved over from the close before it. */
  lemma TrueRangeIsTheSpan(days: seq<Session>, j: nat)
    requires j < |days| && days[j].low <= days[j].high
    ensures TrueRange(days, 0) == days[0].high - days[0].low
    ensures j > 0 ==>
              var before := days[j - 1].close;
              TrueRange(days, j) == (if days[j].high < before then before else days[j].high)
                                    - (if before < days[j].low then before else days[j].low)
  {}

  lemma {:induction false} SumWithin(days: seq<Session>, lo: nat, hi: nat, least: real, most: real)
    requires lo <= hi <= |days|
    requires forall j | lo <= j < hi :: least <= TrueRange(days, j) <= most
    ensures (hi - lo) as real * least <= SumTrueRange(days, lo, hi) <= (hi - lo) as real * most
  {
    hide TrueRange;
    if lo < hi {
      SumWithin(days, lo, hi - 1, least, most);
      assert (hi - lo) as real * least == (hi - 1 - lo) as real * least + least;
      assert (hi - lo) as real * most == (hi - 1 - lo) as real * most + most;
    }
  }

  /** The average takes four sessions, and lies between any bounds of the true ranges of the last fourteen. */
  lemma AverageIsOfTheLastFourteen(days: seq<Session>, least: real, most: real)
    requires forall j | 0 <= j < |days| && j >= |days| - 14 :: least <= TrueRange(days, j) <= most
    ensures AverageTrueRange(days).Some? <==> |days| >= 4
    ensures AverageTrueRange(days).Some? ==> least <= AverageTrueRange(days).value <= most
  {
    hide TrueRange;
    var n := |days|;
    var lo := if n > 14 then n - 14 else 0;
    SumWithin(days, lo, n, least, most);
    if n >= 4 {
      MeanWithin(SumTrueRange(days, lo, n), (n - lo) as real, least, most);
    }
  }

  lemma MeanWithin(sum: real, count: real, least: real, most: real)
    requires count > 0.0 && count * least <= sum <= count * most
    ensures least <= sum / count <= most
  {}

  lemma {:induction false} SumDropsItsFirst(days: seq<Session>, lo: nat, hi: nat)
    requires lo < hi <= |days|
    ensures SumTrueRange(days, lo, hi) == TrueRange(days, lo) + SumTrueRange(days, lo + 1, hi)
  {
    if lo + 1 < hi {
      SumDropsItsFirst(days, lo, hi - 1);
    }
  }

  lemma {:induction false} SumOfPrefix(days: seq<Session>, n: nat, lo: nat, hi: nat)
    requires lo <= hi <= n <= |days|
    ensures SumTrueRange(days[..n], lo, hi) == SumTrueRange(days, lo, hi)
  {
    if lo < hi {
      SumOfPrefix(days, n, lo, hi - 1);
    }
  }

  /** A further session moves fourteen times the average by its own true range less that of the session
      fourteen before it. */
  lemma AverageRolls(days: seq<Session>)
    requires |days| > 14
    ensures var before := days[..|days| - 1];
            14.0 * AverageTrueRange(days).value ==
            14.0 * AverageTrueRange(before).value + TrueRange(days, |days| - 1) - TrueRange(days, |days| - 15)
  {
    var n := |days|;
    FourteenAverages(days);
    FourteenAverages(days[..n - 1]);
    SumOfPrefix(days, n - 1, n - 15, n - 1);
    SumDropsItsFirst(days, n - 15, n);
    hide TrueRange, AverageTrueRange;
  }

  lemma FourteenAverages(days: seq<Session>)
    requires |days| >= 14
    ensures AverageTrueRange(days).Some?
            && 14.0 * AverageTrueRange(days).value == SumTrueRange(days, |days| - 14, |days|)
  {
    hide SumTrueRange;
  }

  ghost predicate InSession(bar: Bar, ny: NewYork, day: Session) {
    ny(bar.time) / 1440 == day.date
  }

  /** The session's extremes are reached by its bars and not exceeded, and it closes with its last bar. */
  ghost predicate Summarises(day: Session, frame: seq<Bar>, ny: NewYork) {
    && (forall bar | bar in frame && InSession(bar, ny, day) :: day.low <= bar.low && bar.high <= day.high)
    && (exists bar :: bar in frame && InSession(bar, ny, day) && bar.high == day.high)
    && (exists bar :: bar in frame && InSession(bar, ny, day) && bar.low == day.low)
    && (exists k :: LastOf(day, frame, ny, k) && frame[k].close == day.close)
  }

  ghost predicate LastOf(day: Session, frame: seq<Bar>, ny: NewYork, k: int) {
    0 <= k < |frame| && InSession(frame[k], ny, day) && forall j | k < j < |frame| :: !InSession(frame[j], ny, day)
  }

  ghost predicate Ascending(days: seq<Session>) {
    forall d, d' | 0 <= d < d' < |days| :: days[d].date < days[d'].date
  }

  ghost predicate AllSummarise(days: seq<Session>, frame: seq<Bar>, ny: NewYork) {
    forall d | 0 <= d < |days| :: Summarises(days[d], frame, ny)
  }

  ghost predicate Dated(days: seq<Session>, date: int) {
    exists d :: 0 <= d < |days| && days[d].date == date
  }

  /** In a frame in time order there is one session for every date with a bar, in order, and each sums up
      its bars. */
  lemma {:induction false} SessionsSummarise(frame: seq<Bar>, ny: NewYork)
    requires Sorted(frame) && DatesMonotone(ny)
    ensures Ascending(Daily(frame, ny)) && AllSummarise(Daily(frame, ny), frame, ny)
    ensures forall k | 0 <= k < |frame| :: Dated(Daily(frame, ny), ny(frame[k].time) / 1440)
  {
    if |frame| > 0 {
      hide Daily, Ascending, AllSummarise, Dated;
      SessionsSummarise(frame[..|frame| - 1], ny);
      LastBarJoins(frame, ny);
    }
  }

  /** The sessions the last bar leaves as they were. */
  function Kept(frame: seq<Bar>, ny: NewYork): seq<Session>
    requires |frame| > 0
  {
    var before, date := Daily(frame[..|frame| - 1], ny), SessionDate(ny, frame[|frame| - 1].time);
    if |before| > 0 && before[|before| - 1].date == date then before[..|before| - 1] else before
  }

  lemma LastBarJoins(frame: seq<Bar>, ny: NewYork)
    requires |frame| > 0 && Sorted(frame) && DatesMonotone(ny)
    requires var shorter := frame[..|frame| - 1];
             && Ascending(Daily(shorter, ny)) && AllSummarise(Daily(shorter, ny), shorter, ny)
             && forall k | 0 <= k < |shorter| :: Dated(Daily(shorter, ny), ny(shorter[k].time) / 1440)
    ensures Ascending(Daily(frame, ny)) && AllSummarise(Daily(frame, ny), frame, ny)
    ensures forall k | 0 <= k < |frame| :: Dated(Daily(frame, ny), ny(frame[k].time) / 1440)
  {
    hide Summarises, Dated, Daily, Kept;
    var n := |frame|;
    var bar, shorter := frame[n - 1], frame[..n - 1];
    var days, before, kept := Daily(frame, ny), Daily(shorter, ny), Kept(frame, ny);
    assert frame == shorter + [bar];
    LastSession(frame, ny);
    EarlierDates(frame, ny);
    forall d | 0 <= d < |kept| ensures Summarises(kept[d], frame, ny) {
      assert Summarises(before[d], shorter, ny);
      OtherSessionsStay(kept[d], shorter, bar, ny);
    }
    LastSessionSummarises(frame, ny);
    DatesStay(kept, before, days, SessionDate(ny, bar.time));
    forall k | 0 <= k < n ensures Dated(days, ny(frame[k].time) / 1440) {
      assert k < n - 1 ==> Dated(before, ny(shorter[k].time) / 1440);
    }
  }

  lemma LastSession(frame: seq<Bar>, ny: NewYork)
    requires |frame| > 0
    ensures var days, before, kept := Daily(frame, ny), Daily(frame[..|frame| - 1], ny), Kept(frame, ny);
            var date := SessionDate(ny, frame[|frame| - 1].time);
            && |days| > 0 && days == kept + [days[|days| - 1]] && days[|days| - 1].date == date
            && (kept == before || (|before| > 0 && kept == before[..|before| - 1] && before[|before| - 1].date == date))
  {}

  lemma EarlierDates(frame: seq<Bar>, ny: NewYork)
    requires |frame| > 0 && Sorted(frame) && DatesMonotone(ny) && Ascending(Daily(frame[..|frame| - 1], ny))
    ensures forall d | 0 <= d < |Kept(frame, ny)| :: Kept(frame, ny)[d].date < SessionDate(ny, frame[|frame| - 1].time)
  {
    var before := Daily(frame[..|frame| - 1], ny);
    hide Daily;
    assert |before| > 0 ==> before[|before| - 1].date <= SessionDate(ny, frame[|frame| - 1].time);
    forall d | 0 <= d < |Kept(frame, ny)|
      ensures Kept(frame, ny)[d].date < SessionDate(ny, frame[|frame| - 1].time)
    {
      assert Kept(frame, ny)[d] == before[d] && (d < |before| - 1 ==> before[d].date < before[|before| - 1].date);
    }
  }

  lemma LastSessionSummarises(frame: seq<Bar>, ny: NewYork)
    requires |frame| > 0
    requires var shorter := frame[..|frame| - 1];
             && Sorted(frame) && DatesMonotone(ny) && Ascending(Daily(shorter, ny))
             && AllSummarise(Daily(shorter, ny), shorter, ny)
             && forall k | 0 <= k < |shorter| :: Dated(Daily(shorter, ny), ny(shorter[k].time) / 1440)
    ensures Summarises(Daily(frame, ny)[|Daily(frame, ny)| - 1], frame, ny)
  {
    hide Summarises;
    var bar, shorter := frame[|frame| - 1], frame[..|frame| - 1];
    var days, before := Daily(frame, ny), Daily(shorter, ny);
    var date := SessionDate(ny, bar.time);
    assert frame == shorter + [bar];
    if |before| > 0 && before[|before| - 1].date == date {
      NextBarSummarises(before[|before| - 1], days[|days| - 1], shorter, bar, ny);
    } else {
      EarlierDates(frame, ny);
      assert Kept(frame, ny) == before;
      forall k | 0 <= k < |shorter| ensures ny(shorter[k].time) / 1440 != date {
        assert Dated(before, ny(shorter[k].time) / 1440);
      }
      FirstBarSummarises(days[|days| - 1], shorter, bar, ny);
    }
  }

  lemma DatesStay(kept: seq<Session>, before: seq<Session>, days: seq<Session>, date: int)
    requires |days| > 0 && days == kept + [days[|days| - 1]] && days[|days| - 1].date == date
    requires kept == before || (|before| > 0 && kept == before[..|before| - 1] && before[|before| - 1].date == date)
    ensures forall at :: Dated(before, at) ==> Dated(days, at)
    ensures Dated(days, date)
  {
    forall at | Dated(before, at) ensures Dated(days, at) {
      var d :| 0 <= d < |before| && before[d].date == at;
      assert days[d].date == at;
    }
    assert days[|days| - 1].date == date;
  }

  lemma OtherSessionsStay(day: Session, shorter: seq<Bar>, bar: Bar, ny: NewYork)
    requires Summarises(day, shorter, ny) && !InSession(bar, ny, day)
    ensures Summarises(day, shorter + [bar], ny)
  {
    var frame := shorter + [bar];
    var k :| LastOf(day, shorter, ny, k) && shorter[k].close == day.close;
    assert LastOf(day, frame, ny, k) && frame[k].close == day.close;
  }

  lemma FirstBarSummarises(day: Session, shorter: seq<Bar>, bar: Bar, ny: NewYork)
    requires day == Session(SessionDate(ny, bar.time), bar.high, bar.low, bar.close)
    requires forall k | 0 <= k < |shorter| :: !InSession(shorter[k], ny, day)
    ensures Summarises(day, shorter + [bar], ny)
  {
    var frame := shorter + [bar];
    assert bar in frame && InSession(bar, ny, day);
    assert LastOf(day, frame, ny, |shorter|) && frame[|shorter|].close == day.close;
  }

  lemma NextBarSummarises(was: Session, day: Session, shorter: seq<Bar>, bar: Bar, ny: NewYork)
    requires Summarises(was, shorter, ny) && was.date == SessionDate(ny, bar.time)
    requires day == Session(was.date, Max(was.high, bar.high), Min(was.low, bar.low), bar.close)
    ensures Summarises(day, shorter + [bar], ny)
  {
    var frame := shorter + [bar];
    var top :| top in shorter && InSession(top, ny, was) && top.high == was.high;
    var bottom :| bottom in shorter && InSession(bottom, ny, was) && bottom.low == was.low;
    assert top in frame && bottom in frame && bar in frame && InSession(bar, ny, day);
    assert InSession(top, ny, day) && InSession(bottom, ny, day);
    forall b | b in frame && InSession(b, ny, day) ensures day.low <= b.low && b.high <= day.high {
      assert InSession(b, ny, was);
    }
    assert LastOf(day, frame, ny, |shorter|) && frame[|shorter|].close == day.close;
  }

  /** Bars after bar i do not change which sessions count as before it. */
  lemma {:induction false} LaterBarsDoNotMatter(frame: seq<Bar>, ny: NewYork, i: nat)
    requires Sorted(frame) && DatesMonotone(ny) && i < |frame|
    ensures PriorTo(Daily(frame, ny), SessionDate(ny, frame[i].time)) ==
            PriorTo(Daily(frame[..i + 1], ny), SessionDate(ny, frame[i].time))
  {
    var n := |frame|;
    if i + 1 == n {
      assert frame[..n] == frame;
    } else {
      var shorter := frame[..n - 1];
      var date, last := SessionDate(ny, frame[i].time), SessionDate(ny, frame[n - 1].time);
      var days, before := Daily(frame, ny), Daily(shorter, ny);
      LaterBarsDoNotMatter(shorter, ny, i);
      assert shorter[..i + 1] == frame[..i + 1];
      assert date <= SessionDate(ny, shorter[n - 2].time) <= last;
      if before[|before| - 1].date == last {
        assert days[..|days| - 1] == before[..|before| - 1];
      } else {
        assert days[..|days| - 1] == before;
      }
    }
  }

  /** The average a bar sees is built from the bars before its session and nothing else. */
  lemma SessionAtrUsesCompletedSessions(frame: seq<Bar>, ny: NewYork, first: nat, i: nat)
    requires Sorted(frame) && DatesMonotone(ny)
    requires first <= i < |frame|
    requires SessionDate(ny, frame[first].time) == SessionDate(ny, frame[i].time)
    requires first > 0 ==> SessionDate(ny, frame[first - 1].time) != SessionDate(ny, frame[first].time)
    ensures SessionAtr(frame, ny, i) == AverageTrueRange(Daily(frame[..first], ny))
  {
    LaterBarsDoNotMatter(frame, ny, first);
    var upTo := frame[..first + 1];
    assert upTo[..|upTo| - 1] == frame[..first];
    var days := Daily(upTo, ny);
    assert days[..|days| - 1] == Daily(frame[..first], ny);
  }

  // ---- Stop floor ----------------------------------------------------------------------------

  /** Widen a long stop to `minDistance` below the fill, keeping the signal's reward to risk. */
  function FlooredStopAndTarget(fill: real, signalPrice: real, stop: real, target: Option<real>, minDistance: real)
    : (real, Option<real>)
  {
    if minDistance <= 0.0 || fill - stop >= minDistance then (stop, target)
    else
      var newStop := fill - minDistance;
      if target.Some? && signalPrice - stop > 0.0 then
        (newStop, Some(fill + (target.value - signalPrice) / (signalPrice - stop) * minDistance))
      else (newStop, target)
  }

  /** The result is never tighter than either the floor or the signal's own stop, and a widened
      plan risks and aims in the signal's own proportion. */
  lemma FloorKeepsRewardToRisk(fill: real, signalPrice: real, stop: real, target: Option<real>, minDistance: real)
    ensures var (s, t) := FlooredStopAndTarget(fill, signalPrice, stop, target, minDistance);
            && (minDistance > 0.0 ==> fill - s >= minDistance)
            && s <= stop
            && (s == stop ==> t == target)
            && (s < stop && target.Some? && signalPrice > stop ==>
                  (t.value - fill) * (signalPrice - stop) == (target.value - signalPrice) * (fill - s))
  {
    var (s, t) := FlooredStopAndTarget(fill, signalPrice, stop, target, minDistance);
    if s < stop && target.Some? && signalPrice > stop {
      var risk, reward := signalPrice - stop, target.value - signalPrice;
      assert reward / risk * risk == reward;
      calc {
        (t.value - fill) * risk;
        (reward / risk * minDistance) * risk;
        (reward / risk * risk) * minDistance;
        reward * (fill - s);
      }
    }
  }
}
