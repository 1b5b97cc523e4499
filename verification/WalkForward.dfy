/** Rolling walk-forward folds with an embargo and a sealed holdout, and the warm-up history a
    fold's run is given. Instants are microseconds, day counts are whole days. */
module WalkForward {
  import opened Wrappers
  import opened Calendar
  import opened Intraday
  import Engine

  datatype Splitter = Splitter(trainDays: int, testDays: int, stepDays: int, embargoDays: int, holdoutDays: int)

  datatype Window = Window(trainStart: int, trainEnd: int, testStart: int, testEnd: int, train: seq<Bar>,
                           test: seq<Bar>)

  function MinTime(frame: seq<Bar>): int
    requires |frame| > 0
  {
    var last := frame[|frame| - 1].time;
    if |frame| == 1 then last else
      var rest := MinTime(frame[..|frame| - 1]);
      if last < rest then last else rest
  }

  function MaxTime(frame: seq<Bar>): int
    requires |frame| > 0
  {
    var last := frame[|frame| - 1].time;
    if |frame| == 1 then last else
      var rest := MaxTime(frame[..|frame| - 1]);
      if last > rest then last else rest
  }

  lemma {:induction false} TimesWithin(frame: seq<Bar>)
    requires |frame| > 0
    ensures forall b | b in frame :: MinTime(frame) <= b.time <= MaxTime(frame)
    ensures exists b :: b in frame && b.time == MinTime(frame)
    ensures exists b :: b in frame && b.time == MaxTime(frame)
  {
    assert frame == frame[..|frame| - 1] + [frame[|frame| - 1]];
    if |frame| > 1 {
      TimesWithin(frame[..|frame| - 1]);
    }
  }

  /** The rows with `lo <= time < hi`, in order. */
  function Rows(frame: seq<Bar>, lo: int, hi: int): (r: seq<Bar>)
    ensures forall b :: b in r <==> b in frame && lo <= b.time < hi
  {
    if |frame| == 0 then []
    else
      var last := frame[|frame| - 1];
      assert frame == frame[..|frame| - 1] + [last];
      var r := Rows(frame[..|frame| - 1], lo, hi);
      if lo <= last.time < hi then r + [last] else r
  }

  /** Train rows are taken from a half-open interval and test rows from a closed one. */
  function Slice(frame: seq<Bar>, trainStart: int, trainEnd: int, testStart: int,
                 testEnd: int): Result<Option<Window>> {
    var train := Rows(frame, trainStart, trainEnd);
    var test := Rows(frame, testStart, testEnd + 1);
    if |train| == 0 || |test| == 0 then Ok(None)
    else if MaxTime(train) >= MinTime(test) then Err("walk-forward slice produced overlapping train/test")
    else if trainEnd > testStart then Err("train_end must be <= test_start")
    else if testEnd < testStart then Err("test_end must be >= test_start")
    else Ok(Some(Window(trainStart, trainEnd, testStart, testEnd, train, test)))
  }

  lemma NonEmpty(rows: seq<Bar>)
    ensures |rows| > 0 <==> exists b :: b in rows
  {
    if |rows| > 0 {
      assert rows[0] in rows;
    }
  }

  lemma SliceOfOrderedIntervals(frame: seq<Bar>, trainStart: int, trainEnd: int, testStart: int, testEnd: int)
    requires trainEnd <= testStart
    ensures Slice(frame, trainStart, trainEnd, testStart, testEnd).Ok?
    ensures Slice(frame, trainStart, trainEnd, testStart, testEnd).value.Some? <==>
            (exists b :: b in frame && trainStart <= b.time < trainEnd)
              && (exists b :: b in frame && testStart <= b.time <= testEnd)
  {
    var train, test := Rows(frame, trainStart, trainEnd), Rows(frame, testStart, testEnd + 1);
    NonEmpty(train);
    NonEmpty(test);
    if |train| > 0 && |test| > 0 {
      TimesWithin(train);
      TimesWithin(test);
    }
  }

  lemma SliceOfCrossedIntervals(frame: seq<Bar>, trainStart: int, trainEnd: int, testStart: int, testEnd: int)
    requires trainEnd > testStart
    ensures Slice(frame, trainStart, trainEnd, testStart, testEnd).Err? <==>
            (exists b :: b in frame && trainStart <= b.time < trainEnd)
              && (exists b :: b in frame && testStart <= b.time <= testEnd)
  {
    NonEmpty(Rows(frame, trainStart, trainEnd));
    NonEmpty(Rows(frame, testStart, testEnd + 1));
  }

  predicate ValidSplitter(sp: Splitter) {
    sp.trainDays > 0 && sp.testDays > 0 && sp.stepDays > 0 && sp.embargoDays >= 0 && sp.holdoutDays >= 0
  }

  function ConfigError(sp: Splitter): (problem: Option<string>)
    ensures problem.None? <==> ValidSplitter(sp)
  {
    if sp.trainDays <= 0 then Some("train_days must be positive")
    else if sp.testDays <= 0 then Some("test_days must be positive")
    else if sp.stepDays <= 0 then Some("step_days must be positive")
    else if sp.embargoDays < 0 then Some("embargo_days must be non-negative")
    else if sp.holdoutDays < 0 then Some("holdout_days must be non-negative")
    else None
  }

  /** The k-th candidate: the first one moved on by k steps. */
  function TrainStart(sp: Splitter, first: int, k: int): int { first + k * sp.stepDays * DAY }
  function TrainEnd(sp: Splitter, first: int, k: int): int { TrainStart(sp, first, k) + sp.trainDays * DAY }
  function TestStart(sp: Splitter, first: int, k: int): int { TrainEnd(sp, first, k) + sp.embargoDays * DAY }
  function TestEnd(sp: Splitter, first: int, k: int): int { TestStart(sp, first, k) + sp.testDays * DAY }

  function HoldoutBoundary(sp: Splitter, frame: seq<Bar>): int
    requires |frame| > 0
  {
    MaxTime(frame) - sp.holdoutDays * DAY
  }

  /** How many candidates end by the holdout boundary. */
  function FoldCount(sp: Splitter, frame: seq<Bar>): nat
    requires ValidSplitter(sp)
  {
    if |frame| == 0 then 0
    else
      var room := HoldoutBoundary(sp, frame) - TestEnd(sp, MinTime(frame), 0);
      if room < 0 then 0 else room / (sp.stepDays * DAY) + 1
  }

  function FoldAt(sp: Splitter, frame: seq<Bar>, k: int): Result<Option<Window>>
    requires |frame| > 0
  {
    var first := MinTime(frame);
    Slice(frame, TrainStart(sp, first, k), TrainEnd(sp, first, k), TestStart(sp, first, k), TestEnd(sp, first, k))
  }

  /** The folds among the first n candidates: a candidate with no train or no test row is skipped. */
  function FoldsTo(sp: Splitter, frame: seq<Bar>, n: nat): seq<Window>
    requires |frame| > 0
  {
    if n == 0 then []
    else
      var fold := FoldAt(sp, frame, n - 1);
      FoldsTo(sp, frame, n - 1) + if fold.Ok? && fold.value.Some? then [fold.value.value] else []
  }

  lemma StepsAdd(sp: Splitter, first: int, k: int)
    ensures TrainStart(sp, first, k + 1) == TrainStart(sp, first, k) + sp.stepDays * DAY
  {
    assert (k + 1) * sp.stepDays == k * sp.stepDays + sp.stepDays;
  }

  lemma TrainStartsAtFirst(sp: Splitter, first: int)
    ensures TrainStart(sp, first, 0) == first
  {}

  /** The loop runs exactly `FoldCount` times: a candidate is tried iff it ends by the boundary. */
  lemma FoldCountIsExact(sp: Splitter, frame: seq<Bar>, k: nat)
    requires ValidSplitter(sp) && |frame| > 0
    ensures k < FoldCount(sp, frame) <==> TestEnd(sp, MinTime(frame), k) <= HoldoutBoundary(sp, frame)
  {
    var step := sp.stepDays * DAY;
    var room := HoldoutBoundary(sp, frame) - TestEnd(sp, MinTime(frame), 0);
    assert k * sp.stepDays * DAY == k * step;
    assert TestEnd(sp, MinTime(frame), k) == TestEnd(sp, MinTime(frame), 0) + k * step;
    if room >= 0 {
      QuotientIsExact(room, step, k);
    } else {
      assert k * step >= 0;
    }
  }

  lemma QuotientIsExact(room: nat, step: nat, k: nat)
    requires step > 0
    ensures k <= room / step <==> k * step <= room
  {
    var q := room / step;
    assert q * step <= room < (q + 1) * step;
    if k <= q {
      assert k * step <= q * step;
    } else {
      assert (q + 1) * step <= k * step;
    }
  }

  /** What the loop needs of its k-th turn. */
  lemma Turn(sp: Splitter, frame: seq<Bar>, k: nat, testStart: int, testEnd: int)
    requires ValidSplitter(sp) && |frame| > 0
    requires testStart == TrainEnd(sp, MinTime(frame), k) + sp.embargoDays * DAY
             && testEnd == testStart + sp.testDays * DAY
    ensures testEnd > HoldoutBoundary(sp, frame) <==> k >= FoldCount(sp, frame)
    ensures var first := MinTime(frame);
            var fold := Slice(frame, TrainStart(sp, first, k), TrainEnd(sp, first, k), testStart, testEnd);
            fold.Ok? && FoldsTo(sp, frame, k + 1) == FoldsTo(sp, frame, k) + if fold.value.Some? then [fold.value.value]
              else []
    ensures TrainEnd(sp, MinTime(frame), k + 1) == TrainEnd(sp, MinTime(frame), k) + sp.stepDays * DAY
    ensures TrainStart(sp, MinTime(frame), k + 1) == TrainEnd(sp, MinTime(frame), k + 1) - sp.trainDays * DAY
  {
    hide TrainStart, Slice, Rows, MinTime, FoldCount, HoldoutBoundary;
    FoldCountIsExact(sp, frame, k);
    SliceOfOrderedIntervals(frame, TrainStart(sp, MinTime(frame), k), TrainEnd(sp, MinTime(frame), k), testStart,
                            testEnd);
    StepsAdd(sp, MinTime(frame), k);
  }

  /** The splitter's loop. A bad configuration raises before anything is sliced; a good one never
      raises, and yields its folds in order. */
  method Split(sp: Splitter, frame: seq<Bar>) returns (r: Result<seq<Window>>)
    ensures r.Ok? <==> ValidSplitter(sp)
    ensures r.Ok? ==> r.value == if |frame| == 0 then [] else FoldsTo(sp, frame, FoldCount(sp, frame))
  {
    hide TrainStart, Slice, FoldsTo, MinTime, MaxTime, FoldCount;
    var problem := ConfigError(sp);
    if problem.Some? { return Err(problem.value); }
    if |frame| == 0 { return Ok([]); }

    var holdoutBoundary := HoldoutBoundary(sp, frame);
    var trainStart := MinTime(frame);
    var trainEnd := trainStart + sp.trainDays * DAY;
    var folds := [];
    ghost var first, k := trainStart, 0;
    TrainStartsAtFirst(sp, first);
    NoFoldsYet(sp, frame);
    while true
      invariant 0 <= k <= FoldCount(sp, frame)
      invariant trainStart == TrainStart(sp, first, k) && trainEnd == TrainEnd(sp, first, k)
      invariant folds == FoldsTo(sp, frame, k)
      decreases FoldCount(sp, frame) - k
    {
      var testStart := trainEnd + sp.embargoDays * DAY;
      var testEnd := testStart + sp.testDays * DAY;
      Turn(sp, frame, k, testStart, testEnd);
      if testEnd > holdoutBoundary {
        break;
      }
      var fold := Slice(frame, trainStart, trainEnd, testStart, testEnd);
      if fold.value.Some? {
        folds := folds + [fold.value.value];
      }
      trainEnd := trainEnd + sp.stepDays * DAY;
      trainStart := trainEnd - sp.trainDays * DAY;
      k := k + 1;
    }
    r := Ok(folds);
  }

  lemma NoFoldsYet(sp: Splitter, frame: seq<Bar>)
    requires |frame| > 0
    ensures FoldsTo(sp, frame, 0) == []
  {}

  // ---- What a fold is --------------------------------------------------------------------------

  ghost predicate IsFold(sp: Splitter, frame: seq<Bar>, w: Window, k: nat)
    requires |frame| > 0
  {
    var first := MinTime(frame);
    && w.trainStart == TrainStart(sp, first, k) && w.trainEnd == TrainEnd(sp, first, k)
    && w.testStart == TestStart(sp, first, k) && w.testEnd == TestEnd(sp, first, k)
    && w.testEnd <= HoldoutBoundary(sp, frame)
    && (forall b :: b in w.train <==> b in frame && w.trainStart <= b.time < w.trainEnd)
    && (forall b :: b in w.test <==> b in frame && w.testStart <= b.time <= w.testEnd)
  }

  lemma FoldRows(sp: Splitter, frame: seq<Bar>, k: nat)
    requires |frame| > 0 && FoldAt(sp, frame, k).Ok? && FoldAt(sp, frame, k).value.Some?
    ensures var w := FoldAt(sp, frame, k).value.value;
            && (forall b :: b in w.train <==> b in frame && w.trainStart <= b.time < w.trainEnd)
            && (forall b :: b in w.test <==> b in frame && w.testStart <= b.time <= w.testEnd)
  {
    hide TrainStart;
  }

  /** Every fold is the k-th candidate for some k, with exactly the rows of its two intervals. */
  lemma {:induction false} FoldsAreCandidates(sp: Splitter, frame: seq<Bar>, n: nat)
    requires ValidSplitter(sp) && |frame| > 0 && n <= FoldCount(sp, frame)
    ensures forall w | w in FoldsTo(sp, frame, n) :: exists k: nat :: k < n && IsFold(sp, frame, w, k)
  {
    hide TrainStart, Rows, FoldCount, HoldoutBoundary;
    if n > 0 {
      FoldsAreCandidates(sp, frame, n - 1);
      FoldCountIsExact(sp, frame, n - 1);
      var fold := FoldAt(sp, frame, n - 1);
      if fold.Ok? && fold.value.Some? {
        FoldRows(sp, frame, n - 1);
        assert IsFold(sp, frame, fold.value.value, n - 1);
      }
    }
  }

  /** No leakage: a test row is more than the embargo after every train row of its fold, and no row
      of a fold lies past the holdout boundary. */
  lemma FoldsDoNotLeak(sp: Splitter, frame: seq<Bar>, w: Window, k: nat)
    requires ValidSplitter(sp) && |frame| > 0 && IsFold(sp, frame, w, k)
    ensures forall a, b | a in w.train && b in w.test :: b.time - a.time > sp.embargoDays * DAY
    ensures forall b | b in w.train || b in w.test :: b.time <= HoldoutBoundary(sp, frame)
  {}

  ghost predicate InTest(sp: Splitter, first: int, k: int, t: int) {
    TestStart(sp, first, k) <= t <= TestEnd(sp, first, k)
  }

  lemma TestsAreShifted(sp: Splitter, first: int, j: int, k: int)
    ensures TestStart(sp, first, k) == TestStart(sp, first, j) + (k - j) * sp.stepDays * DAY
  {
    assert k * sp.stepDays == j * sp.stepDays + (k - j) * sp.stepDays;
  }

  /** Two folds' test intervals share an instant exactly when they are at most `testDays` apart. */
  lemma TestOverlapExact(sp: Splitter, first: int, j: nat, k: nat)
    requires ValidSplitter(sp) && j < k
    ensures (exists t :: InTest(sp, first, j, t) && InTest(sp, first, k, t)) <==> (k - j) * sp.stepDays <= sp.testDays
  {
    hide TestStart;
    TestsAreShifted(sp, first, j, k);
    assert (k - j) * sp.stepDays >= 0;
    if (k - j) * sp.stepDays <= sp.testDays {
      assert InTest(sp, first, k, TestStart(sp, first, k));
      assert InTest(sp, first, j, TestStart(sp, first, k));
    }
  }

  lemma Steps(few: int, many: int, days: int)
    requires few <= many && days >= 0
    ensures few * days <= many * days
  {}

  /** A step longer than the test makes the test sets disjoint; an equal step lets only neighbours
      touch, in the one instant that ends the earlier test and starts the later. */
  lemma TestSetsTouchAtMostOnce(sp: Splitter, first: int, j: nat, k: nat, t: int)
    requires ValidSplitter(sp) && j < k && sp.stepDays >= sp.testDays
    requires InTest(sp, first, j, t) && InTest(sp, first, k, t)
    ensures sp.stepDays == sp.testDays && k == j + 1 && t == TestEnd(sp, first, j) == TestStart(sp, first, k)
  {
    hide TestStart;
    TestsAreShifted(sp, first, j, k);
    if k == j + 1 {
      assert (k - j) * sp.stepDays == sp.stepDays;
    } else {
      Steps(2, k - j, sp.stepDays);
    }
  }

  // ---- The sealed holdout ----------------------------------------------------------------------

  function HoldoutWindow(sp: Splitter, frame: seq<Bar>): Result<Option<Window>> {
    if |frame| == 0 || sp.holdoutDays <= 0 then Ok(None)
    else
      var start := HoldoutBoundary(sp, frame);
      var trainEnd := start - sp.embargoDays * DAY;
      Slice(frame, trainEnd - sp.trainDays * DAY, trainEnd, start + sp.embargoDays * DAY, MaxTime(frame))
  }

  /** Fold rows come before the holdout's test rows: strictly with an embargo, and with none at
      most the boundary instant is shared. */
  lemma FoldsStayOutOfTheHoldout(sp: Splitter, frame: seq<Bar>, w: Window, k: nat)
    requires ValidSplitter(sp) && |frame| > 0 && IsFold(sp, frame, w, k)
    requires HoldoutWindow(sp, frame).Ok? && HoldoutWindow(sp, frame).value.Some?
    ensures forall a, b | (a in w.train || a in w.test) && b in HoldoutWindow(sp, frame).value.value.test ::
              a.time <= b.time && (a.time == b.time ==> sp.embargoDays == 0 && a.time == HoldoutBoundary(sp, frame))
  {}

  /** Unlike `split`, the holdout never checks the embargo: it raises exactly for a negative one
      that finds rows on both sides. */
  lemma HoldoutRaisesExactly(sp: Splitter, frame: seq<Bar>)
    requires |frame| > 0 && sp.holdoutDays > 0
    ensures var start, gap := HoldoutBoundary(sp, frame), sp.embargoDays * DAY;
            HoldoutWindow(sp, frame).Err? <==>
              && sp.embargoDays < 0
              && (exists b :: b in frame && start - gap - sp.trainDays * DAY <= b.time < start - gap)
              && (exists b :: b in frame && start + gap <= b.time)
  {
    hide Slice, Rows, MinTime, MaxTime;
    var start, gap := HoldoutBoundary(sp, frame), sp.embargoDays * DAY;
    TimesWithin(frame);
    if sp.embargoDays >= 0 {
      SliceOfOrderedIntervals(frame, start - gap - sp.trainDays * DAY, start - gap, start + gap, MaxTime(frame));
    } else {
      SliceOfCrossedIntervals(frame, start - gap - sp.trainDays * DAY, start - gap, start + gap, MaxTime(frame));
    }
  }

  // ---- The frame a fold is run on --------------------------------------------------------------

  /** Train rows, or every earlier row when the strategy needs more of them, then the test rows. */
  function WithWarmup(w: Window, history: seq<Bar>, requiredBars: nat): seq<Bar>
    requires |history| > 0
  {
    (if requiredBars > |w.train| then Rows(history, MinTime(history), w.trainEnd) else w.train) + w.test
  }

  lemma Warmup(w: Window, history: seq<Bar>, requiredBars: nat)
    requires |history| > 0
    ensures forall b :: b in WithWarmup(w, history, requiredBars) <==>
              b in w.test || (if requiredBars > |w.train| then b in history && b.time < w.trainEnd else b in w.train)
  {
    TimesWithin(history);
  }

  /** A fold's run evaluates its test rows and nothing else, whatever the warm-up: the strategy sees
      no row of the embargo and none after the test window. */
  lemma FoldRunEvaluatesTheTestRows(sp: Splitter, history: seq<Bar>, w: Window, k: nat, requiredBars: nat,
                                    env: Engine.Env)
    requires ValidSplitter(sp) && |history| > 0 && IsFold(sp, history, w, k)
    requires env.frame == SortByTime(WithWarmup(w, history, requiredBars)) && env.windowStart == Some(w.testStart)
    ensures Sorted(env.frame)
    ensures forall i: nat | i < |env.frame| :: Engine.Evaluated(env, i) <==> env.frame[i] in w.test
    ensures forall i: nat | i < |env.frame| && !Engine.Evaluated(env, i) :: env.frame[i].time < w.trainEnd
    ensures forall b :: b in env.frame <==>
              b in w.test || (if requiredBars > |w.train| then b in history && b.time < w.trainEnd else b in w.train)
  {
    Warmup(w, history, requiredBars);
    var rows := WithWarmup(w, history, requiredBars);
    SortIsSorted(rows);
    forall b ensures b in env.frame <==> b in rows {
      assert b in env.frame <==> b in multiset(env.frame);
      assert b in rows <==> b in multiset(rows);
    }
    forall i: nat | i < |env.frame|
      ensures Engine.Evaluated(env, i) <==> env.frame[i] in w.test
      ensures !Engine.Evaluated(env, i) ==> env.frame[i].time < w.trainEnd
    {
      assert env.frame[i] in rows;
    }
  }
}
