/** One recorder over a whole walk-forward evaluation: every fold, the holdout, and their re-runs. Two
    windows of different folds can share the recorder's key; exactly when that gives a wrong signal. */
module WalkForwardSignals {
  import opened Wrappers
  import opened Calendar
  import opened Intraday
  import opened Engine
  import opened WalkForward
  import opened VenueCosts

  // ---- Frames as sets of rows ------------------------------------------------------------------------

  /** No two rows have one time. */
  predicate Distinct(rows: seq<Bar>) {
    forall i, j | 0 <= i < j < |rows| :: rows[i].time != rows[j].time
  }

  predicate Strict(frame: seq<Bar>) {
    forall i, j | 0 <= i < j < |frame| :: frame[i].time < frame[j].time
  }

  ghost function RowSet(rows: seq<Bar>): set<Bar> {
    set b | b in rows
  }

  lemma {:induction false} CardOfDistinct(rows: seq<Bar>)
    requires Distinct(rows)
    ensures |RowSet(rows)| == |rows|
  {
    if |rows| > 0 {
      var n := |rows| - 1;
      CardOfDistinct(rows[..n]);
      assert rows == rows[..n] + [rows[n]];
      assert RowSet(rows) == RowSet(rows[..n]) + {rows[n]};
      assert rows[n] !in rows[..n];
    } else {
      assert RowSet(rows) == {};
    }
  }

  /** A frame in strict time order is told by its rows. */
  lemma {:induction false} StrictIsItsRows(a: seq<Bar>, b: seq<Bar>)
    requires Strict(a) && Strict(b) && RowSet(a) == RowSet(b)
    ensures a == b
    decreases |a|
  {
    CardOfDistinct(a);
    CardOfDistinct(b);
    if |a| > 0 {
      var n := |a| - 1;
      SameLast(a, b);
      assert a == a[..n] + [a[n]] && b == b[..n] + [b[n]];
      WithoutLast(a);
      WithoutLast(b);
      StrictIsItsRows(a[..n], b[..n]);
    }
  }

  lemma SameLast(a: seq<Bar>, b: seq<Bar>)
    requires Strict(a) && Strict(b) && RowSet(a) == RowSet(b) && |a| == |b| > 0
    ensures a[|a| - 1] == b[|b| - 1]
  {
    var x, y := a[|a| - 1], b[|b| - 1];
    assert x in RowSet(a) && y in RowSet(b);
    var i :| 0 <= i < |b| && b[i] == x;
    var j :| 0 <= j < |a| && a[j] == y;
  }

  lemma WithoutLast(a: seq<Bar>)
    requires Strict(a) && |a| > 0
    ensures RowSet(a[..|a| - 1]) == RowSet(a) - {a[|a| - 1]}
  {
    var n := |a| - 1;
    assert a == a[..n] + [a[n]];
    assert a[n] !in a[..n];
  }

  lemma {:induction false} RowsAreDistinct(frame: seq<Bar>, lo: int, hi: int)
    requires Distinct(frame)
    ensures Distinct(Rows(frame, lo, hi))
  {
    if |frame| > 0 {
      RowsAreDistinct(frame[..|frame| - 1], lo, hi);
      var r := Rows(frame[..|frame| - 1], lo, hi);
      forall i | 0 <= i < |r| ensures r[i].time != frame[|frame| - 1].time {
        assert r[i] in frame[..|frame| - 1];
      }
    }
  }

  lemma SortedIsStrict(rows: seq<Bar>)
    requires Distinct(rows)
    ensures Strict(SortByTime(rows)) && RowSet(SortByTime(rows)) == RowSet(rows)
  {
    SortIsSorted(rows);
    var sorted := SortByTime(rows);
    forall b ensures b in sorted <==> b in rows {
      assert b in sorted <==> b in multiset(sorted);
      assert b in rows <==> b in multiset(rows);
    }
    forall i, j | 0 <= i < j < |sorted| ensures sorted[i].time < sorted[j].time {
      if sorted[i].time == sorted[j].time {
        TwiceInSorted(rows, sorted, i, j);
      }
    }
  }

  lemma TwiceInSorted(rows: seq<Bar>, sorted: seq<Bar>, i: nat, j: nat)
    requires multiset(sorted) == multiset(rows) && Distinct(rows) && i < j < |sorted|
    ensures sorted[i].time != sorted[j].time
  {
    CardOfDistinct(rows);
    assert sorted == sorted[..i] + [sorted[i]] + sorted[i + 1..j] + [sorted[j]] + sorted[j + 1..];
    assert sorted[i] in multiset(rows) && sorted[j] in multiset(rows);
    if sorted[i] == sorted[j] {
      assert multiset(sorted)[sorted[i]] >= 2;
      OnceInDistinct(rows, sorted[i]);
    } else {
      var x :| 0 <= x < |rows| && rows[x] == sorted[i];
      var y :| 0 <= y < |rows| && rows[y] == sorted[j];
    }
  }

  lemma {:induction false} OnceInDistinct(rows: seq<Bar>, b: Bar)
    requires Distinct(rows)
    ensures multiset(rows)[b] <= 1
  {
    if |rows| > 0 {
      var n := |rows| - 1;
      assert rows == rows[..n] + [rows[n]];
      OnceInDistinct(rows[..n], b);
      assert rows[n] !in rows[..n];
      assert rows[n] !in multiset(rows[..n]);
    }
  }

  // ---- The frame of a window -------------------------------------------------------------------------

  /** A window as the splitter slices one out of the history. */
  ghost predicate SlicedFrom(w: Window, history: seq<Bar>) {
    && w.train == Rows(history, w.trainStart, w.trainEnd) && w.test == Rows(history, w.testStart, w.testEnd + 1)
    && |w.train| > 0 && |w.test| > 0 && w.trainEnd <= w.testStart
  }

  /** Folds and the holdout are such windows. */
  lemma FoldsAreSliced(sp: Splitter, history: seq<Bar>, k: nat)
    requires |history| > 0 && sp.embargoDays >= 0
    ensures FoldAt(sp, history, k).Ok? && FoldAt(sp, history, k).value.Some? ==>
            SlicedFrom(FoldAt(sp, history, k).value.value, history)
    ensures HoldoutWindow(sp, history).Ok? && HoldoutWindow(sp, history).value.Some? ==>
              SlicedFrom(HoldoutWindow(sp, history).value.value, history)
  {
    hide Rows, TrainStart, MinTime, MaxTime;
  }

  /** The run of a window: on its train and test rows, evaluated from its test start. Only minute bars
      are recorded, and their warm-up is the train window. */
  ghost predicate RunsOn(env: Env, w: Window, history: seq<Bar>)
    requires |history| > 0
  {
    env.frame == SortByTime(WithWarmup(w, history, 0)) && env.windowStart == Some(w.testStart)
  }

  /** The history's rows that the strategy sees on the window's test row of time t. */
  ghost function Seen(w: Window, history: seq<Bar>, t: int): set<Bar>
    requires |history| > 0
  {
    set b | b in history && (w.trainStart <= b.time < w.trainEnd || w.testStart <= b.time <= t)
  }

  ghost function Embargoed(w: Window, history: seq<Bar>): set<Bar> {
    set b | b in history && w.trainEnd <= b.time < w.testStart
  }

  lemma WarmRows(w: Window, history: seq<Bar>)
    requires |history| > 0 && Distinct(history) && SlicedFrom(w, history)
    ensures Distinct(WithWarmup(w, history, 0))
    ensures RowSet(WithWarmup(w, history, 0)) == Seen(w, history, w.testEnd)
  {
    hide MinTime;
    var lo := w.trainStart;
    RowsAreDistinct(history, lo, w.trainEnd);
    RowsAreDistinct(history, w.testStart, w.testEnd + 1);
    var warm := Rows(history, lo, w.trainEnd);
    assert WithWarmup(w, history, 0) == warm + w.test;
    forall i, j | 0 <= i < |warm| && 0 <= j < |w.test| ensures warm[i].time != w.test[j].time {
      assert warm[i] in Rows(history, lo, w.trainEnd) && w.test[j] in Rows(history, w.testStart, w.testEnd + 1);
      assert warm[i].time < w.trainEnd && w.testStart <= w.test[j].time;
    }
    assert forall b :: b in w.test <==> b in history && w.testStart <= b.time < w.testEnd + 1;
  }

  /** The window of a bar of the run: the rows seen by its time. */
  lemma WindowRows(env: Env, w: Window, history: seq<Bar>, i: nat)
    requires |history| > 0 && Distinct(history) && SlicedFrom(w, history) && RunsOn(env, w, history)
    requires i < |env.frame| && Evaluated(env, i)
    ensures Strict(env.frame) && Strict(env.frame[..i + 1])
            && RowSet(env.frame[..i + 1]) == Seen(w, history, env.frame[i].time)
    ensures |env.frame[..i + 1]| == |Seen(w, history, env.frame[i].time)|
    ensures env.frame[i] in w.test
  {
    hide SortByTime, WithWarmup, MinTime, Rows;
    var rows := WithWarmup(w, history, 0);
    WarmRows(w, history);
    SortedIsStrict(rows);
    PrefixRows(env.frame, i);
    CardOfDistinct(env.frame[..i + 1]);
    assert env.frame[i] in RowSet(rows);
    InTestRows(w, history, env.frame[i]);
    var t := env.frame[i].time;
    assert env.frame[i] in Seen(w, history, w.testEnd);
    forall b ensures b in RowSet(env.frame[..i + 1]) <==> b in Seen(w, history, t) {
      assert b in env.frame <==> b in RowSet(env.frame);
      assert b in RowSet(env.frame) <==> b in Seen(w, history, w.testEnd);
    }
  }

  lemma InTestRows(w: Window, history: seq<Bar>, b: Bar)
    requires SlicedFrom(w, history) && b in history
    ensures b in w.test <==> w.testStart <= b.time <= w.testEnd
    ensures b in w.train <==> w.trainStart <= b.time < w.trainEnd
  {}

  lemma PrefixRows(frame: seq<Bar>, i: nat)
    requires Strict(frame) && i < |frame|
    ensures Strict(frame[..i + 1])
    ensures RowSet(frame[..i + 1]) == set b | b in frame && b.time <= frame[i].time
  {
    forall b | b in frame && b.time <= frame[i].time ensures b in frame[..i + 1] {
      var j :| 0 <= j < |frame| && frame[j] == b;
      assert j <= i;
      assert frame[..i + 1][j] == b;
    }
  }

  // ---- Windows that share a key ----------------------------------------------------------------------

  /** Some window of the one run shares its key with another window of the other. */
  ghost predicate Collide(symbol: string, f: Env, g: Env) {
    exists i: nat :: SharesKey(symbol, f, g, i) && f.frame[..i + 1] != g.frame[..i + 1]
  }

  ghost function Between(history: seq<Bar>, a: int, t: int): set<Bar> {
    set b | b in history && a <= b.time <= t
  }

  lemma FirstOfFrame(env: Env, w: Window, history: seq<Bar>)
    requires |history| > 0 && Distinct(history) && SlicedFrom(w, history) && RunsOn(env, w, history)
    ensures |env.frame| > 0 && env.frame[0] in history
    ensures w.trainStart <= env.frame[0].time < w.trainEnd
    ensures forall b | b in history && w.trainStart <= b.time < w.trainEnd ::
            env.frame[0].time <= b.time
  {
    hide SortByTime, WithWarmup, Rows;
    WarmRows(w, history);
    SortedIsStrict(WithWarmup(w, history, 0));
    assert w.train[0] in w.train;
    TimesWithin(history);
    var all := Seen(w, history, w.testEnd);
    hide MinTime;
    TrainIsSeen(w, history);
    assert w.train[0] in RowSet(env.frame);
    var j :| 0 <= j < |env.frame| && env.frame[j] == w.train[0];
    assert env.frame[0] in RowSet(env.frame);
    forall b | b in all ensures env.frame[0].time <= b.time {
      assert b in RowSet(env.frame);
      var x :| 0 <= x < |env.frame| && env.frame[x] == b;
    }
  }

  lemma TrainIsSeen(w: Window, history: seq<Bar>)
    requires |history| > 0 && SlicedFrom(w, history)
    ensures w.train[0] in Seen(w, history, w.testEnd) && w.train[0].time < w.trainEnd
  {
    assert w.train[0] in Rows(history, w.trainStart, w.trainEnd);
    TimesWithin(history);
  }

  /** What is seen at time t is every row since the run's first but the embargoed ones. */
  lemma SeenIsBetween(env: Env, w: Window, history: seq<Bar>, t: int)
    requires |history| > 0 && Distinct(history) && SlicedFrom(w, history) && RunsOn(env, w, history)
             && t >= w.testStart
    ensures |env.frame| > 0
    ensures var a := env.frame[0].time;
            && Seen(w, history, t) == Between(history, a, t) - Embargoed(w, history)
            && Embargoed(w, history) <= Between(history, a, t)
            && |Seen(w, history, t)| == |Between(history, a, t)| - |Embargoed(w, history)|
  {
    FirstOfFrame(env, w, history);
    hide RunsOn, SortByTime, WithWarmup, MinTime, Rows;
    var a := env.frame[0].time;
    var seen, all, out := Seen(w, history, t), Between(history, a, t), Embargoed(w, history);
    assert seen == all - out;
    assert seen + out == all && seen !! out;
  }

  /** Over any two windows of one history whose rows have distinct times: a recording of the one answers
      wrongly for the other, for some strategy, if and only if they have a test row in common, their
      warm-ups start at the same row, and their embargoes hide equally many rows but not the same. */
  lemma CollideExactly(symbol: string, history: seq<Bar>, v: Window, w: Window, f: Env, g: Env)
    requires |history| > 0 && Distinct(history) && SlicedFrom(v, history) && SlicedFrom(w, history)
    requires RunsOn(f, v, history) && RunsOn(g, w, history)
    ensures |f.frame| > 0 && |g.frame| > 0
    ensures Collide(symbol, f, g) <==>
            && (exists b :: b in v.test && b in w.test) && f.frame[0] == g.frame[0]
            && |Embargoed(v, history)| == |Embargoed(w, history)| && Embargoed(v, history) != Embargoed(w, history)
  {
    hide SortByTime, WithWarmup, MinTime, Rows, Seen, Embargoed, Between, SlicedFrom, RunsOn, Collide;
    FirstOfFrame(f, v, history);
    FirstOfFrame(g, w, history);
    if Collide(symbol, f, g) {
      CollisionMeans(symbol, history, v, w, f, g);
    } else if (exists b :: b in v.test && b in w.test) && f.frame[0] == g.frame[0]
              && |Embargoed(v, history)| == |Embargoed(w, history)| && Embargoed(v, history) != Embargoed(w, history) {
      CollisionArises(symbol, history, v, w, f, g);
    }
  }

  lemma SameRow(history: seq<Bar>, a: Bar, b: Bar)
    requires Distinct(history) && a in history && b in history && a.time == b.time
    ensures a == b
  {}

  lemma CollisionMeans(symbol: string, history: seq<Bar>, v: Window, w: Window, f: Env, g: Env)
    requires |history| > 0 && Distinct(history) && SlicedFrom(v, history) && SlicedFrom(w, history)
    requires RunsOn(f, v, history) && RunsOn(g, w, history) && Collide(symbol, f, g)
    ensures |f.frame| > 0 && |g.frame| > 0
    ensures (exists b :: b in v.test && b in w.test) && f.frame[0] == g.frame[0]
    ensures |Embargoed(v, history)| == |Embargoed(w, history)| && Embargoed(v, history) != Embargoed(w, history)
  {
    hide SortByTime, WithWarmup, MinTime, Rows, Seen, Embargoed, Between, RunsOn, SlicedFrom;
    var i: nat :| SharesKey(symbol, f, g, i) && f.frame[..i + 1] != g.frame[..i + 1];
    var t := f.frame[i].time;
    assert KeyOf(symbol, f.frame[..i + 1]).last == t && KeyOf(symbol, g.frame[..i + 1]).last == g.frame[i].time;
    assert f.frame[..i + 1][0] == f.frame[0] && g.frame[..i + 1][0] == g.frame[0];
    WindowRows(f, v, history, i);
    WindowRows(g, w, history, i);
    TestRowIsRow(v, history, f.frame[i]);
    TestRowIsRow(w, history, g.frame[i]);
    FirstOfFrame(f, v, history);
    FirstOfFrame(g, w, history);
    SameRow(history, f.frame[i], g.frame[i]);
    SameRow(history, f.frame[0], g.frame[0]);
    SeenIsBetween(f, v, history, t);
    SeenIsBetween(g, w, history, t);
    if Embargoed(v, history) == Embargoed(w, history) {
      StrictIsItsRows(f.frame[..i + 1], g.frame[..i + 1]);
    }
  }

  lemma TestRowIsRow(w: Window, history: seq<Bar>, b: Bar)
    requires SlicedFrom(w, history) && b in w.test
    ensures b in history && w.testStart <= b.time <= w.testEnd
  {
    assert b in Rows(history, w.testStart, w.testEnd + 1);
  }

  /** The window of a test row of the run. */
  lemma IndexOfTestRow(env: Env, w: Window, history: seq<Bar>, b: Bar) returns (i: nat)
    requires |history| > 0 && Distinct(history) && SlicedFrom(w, history) && RunsOn(env, w, history)
             && b in w.test
    ensures i < |env.frame| && env.frame[i] == b && Evaluated(env, i)
    ensures i + 1 == |Seen(w, history, b.time)|
  {
    hide SortByTime, WithWarmup, MinTime, Rows;
    WarmRows(w, history);
    SortedIsStrict(WithWarmup(w, history, 0));
    TestRowIsRow(w, history, b);
    assert b in Seen(w, history, w.testEnd);
    assert b in RowSet(env.frame);
    i :| 0 <= i < |env.frame| && env.frame[i] == b;
    WindowRows(env, w, history, i);
  }

  lemma CollisionArises(symbol: string, history: seq<Bar>, v: Window, w: Window, f: Env, g: Env)
    requires |history| > 0 && Distinct(history) && SlicedFrom(v, history) && SlicedFrom(w, history)
    requires RunsOn(f, v, history) && RunsOn(g, w, history)
    requires (exists b :: b in v.test && b in w.test) && |f.frame| > 0 && |g.frame| > 0 && f.frame[0] == g.frame[0]
    requires |Embargoed(v, history)| == |Embargoed(w, history)| && Embargoed(v, history) != Embargoed(w, history)
    ensures Collide(symbol, f, g)
  {
    hide SortByTime, WithWarmup, MinTime, Rows, Seen, Embargoed, Between, RunsOn, SlicedFrom;
    var b :| b in v.test && b in w.test;
    var i := IndexOfTestRow(f, v, history, b);
    var j := IndexOfTestRow(g, w, history, b);
    TestRowIsRow(v, history, b);
    TestRowIsRow(w, history, b);
    SeenIsBetween(f, v, history, b.time);
    SeenIsBetween(g, w, history, b.time);
    assert i == j;
    WindowRows(f, v, history, i);
    WindowRows(g, w, history, i);
    KeyOfWindow(symbol, f.frame, g.frame, i);
    assert SharesKey(symbol, f, g, i);
    var all := Between(history, f.frame[0].time, b.time);
    SameRest(all, Embargoed(v, history), Embargoed(w, history));
    assert RowSet(f.frame[..i + 1]) != RowSet(g.frame[..i + 1]);
  }

  lemma KeyOfWindow(symbol: string, a: seq<Bar>, b: seq<Bar>, i: nat)
    requires i < |a| && i < |b| && a[0] == b[0] && a[i] == b[i]
    ensures KeyOf(symbol, a[..i + 1]) == KeyOf(symbol, b[..i + 1])
  {}

  lemma SameRest(all: set<Bar>, x: set<Bar>, y: set<Bar>)
    requires x <= all && y <= all && x != y
    ensures all - x != all - y
  {
    assert all - (all - x) == x && all - (all - y) == y;
  }

  // ---- Which windows of a walk-forward run collide ---------------------------------------------------

  /** The window is the k-th candidate, and a fold. */
  ghost predicate IsFoldAt(sp: Splitter, history: seq<Bar>, k: nat, w: Window)
    requires |history| > 0
  {
    FoldAt(sp, history, k) == Ok(Some(w)) && w.testEnd <= HoldoutBoundary(sp, history)
  }

  lemma FoldFields(sp: Splitter, history: seq<Bar>, k: nat, w: Window)
    requires |history| > 0 && ValidSplitter(sp) && IsFoldAt(sp, history, k, w)
    ensures SlicedFrom(w, history)
    ensures var first := MinTime(history);
            && w.trainStart == TrainStart(sp, first, k) && w.trainEnd == TrainEnd(sp, first, k)
            && w.testStart == TestStart(sp, first, k) && w.testEnd == TestEnd(sp, first, k)
    ensures IsFold(sp, history, w, k)
  {
    hide Rows, TrainStart, MinTime, MaxTime;
    FoldsAreSliced(sp, history, k);
    FoldRows(sp, history, k);
  }

  /** The tests are shorter than the step, there is no embargo, or the train windows are no longer than
      the step. */
  predicate KeepsApart(sp: Splitter) {
    sp.stepDays > sp.testDays || sp.embargoDays == 0 || sp.trainDays <= sp.stepDays
  }

  /** Under such settings folds never collide. */
  lemma FoldsDoNotCollide(symbol: string, sp: Splitter, history: seq<Bar>,
                          j: nat, k: nat, v: Window, w: Window, f: Env, g: Env)
    requires |history| > 0 && Distinct(history) && ValidSplitter(sp) && j < k
    requires IsFoldAt(sp, history, j, v) && IsFoldAt(sp, history, k, w)
    requires RunsOn(f, v, history) && RunsOn(g, w, history)
    requires KeepsApart(sp)
    ensures !Collide(symbol, f, g)
  {
    hide RunsOn, Rows, TestStart, TestEnd, SlicedFrom, MinTime, IsFoldAt, HoldoutBoundary;
    var first := MinTime(history);
    FoldFields(sp, history, j, v);
    FoldFields(sp, history, k, w);
    CollideExactly(symbol, history, v, w, f, g);
    if sp.stepDays > sp.testDays {
      TestOverlapExact(sp, first, j, k);
      Steps(1, k - j, sp.stepDays);
      forall b ensures !(b in v.test && b in w.test) {
        SharedInstant(sp, history, j, k, v, w, b);
      }
    } else if sp.embargoDays == 0 {
      NoEmbargo(sp, first, j);
      NoEmbargo(sp, first, k);
      assert Embargoed(v, history) == {} && Embargoed(w, history) == {};
    } else {
      FirstOfFrame(f, v, history);
      FirstOfFrame(g, w, history);
      Steps(j + 1, k, sp.stepDays);
      assert (j + 1) * sp.stepDays == j * sp.stepDays + sp.stepDays;
    }
  }

  lemma SharedInstant(sp: Splitter, history: seq<Bar>, j: nat, k: nat, v: Window, w: Window, b: Bar)
    requires |history| > 0 && ValidSplitter(sp) && IsFoldAt(sp, history, j, v) && IsFoldAt(sp, history, k, w)
    ensures b in v.test && b in w.test ==>
              exists t :: InTest(sp, MinTime(history), j, t) && InTest(sp, MinTime(history), k, t)
  {
    hide Rows, TestStart, TestEnd, SlicedFrom, MinTime, IsFoldAt;
    FoldFields(sp, history, j, v);
    FoldFields(sp, history, k, w);
    if b in v.test && b in w.test {
      TestRowIsRow(v, history, b);
      TestRowIsRow(w, history, b);
      assert InTest(sp, MinTime(history), j, b.time) && InTest(sp, MinTime(history), k, b.time);
    }
  }

  lemma NoEmbargo(sp: Splitter, first: int, k: int)
    requires sp.embargoDays == 0
    ensures TestStart(sp, first, k) == TrainEnd(sp, first, k)
  {}

  /** No fold collides with the holdout. */
  lemma HoldoutDoesNotCollide(symbol: string, sp: Splitter, history: seq<Bar>,
                              k: nat, v: Window, w: Window, f: Env, g: Env)
    requires |history| > 0 && Distinct(history) && ValidSplitter(sp)
    requires IsFoldAt(sp, history, k, v) && HoldoutWindow(sp, history) == Ok(Some(w))
    requires RunsOn(f, v, history) && RunsOn(g, w, history)
    ensures !Collide(symbol, f, g)
  {
    hide RunsOn, Rows, SlicedFrom, MinTime, MaxTime, TrainStart;
    FoldFields(sp, history, k, v);
    FoldsAreSliced(sp, history, k);
    CollideExactly(symbol, history, v, w, f, g);
    if sp.embargoDays == 0 {
      assert Embargoed(v, history) == {} && Embargoed(w, history) == {};
    } else {
      FoldsStayOutOfTheHoldout(sp, history, v, k);
    }
  }

  // ---- Exactly the settings under which none do ------------------------------------------------------

  /** A run of one of the history's folds, or of its holdout. */
  ghost predicate RunOf(env: Env, sp: Splitter, history: seq<Bar>, w: Window)
    requires |history| > 0
  {
    ((exists k: nat :: IsFoldAt(sp, history, k, w)) || HoldoutWindow(sp, history) == Ok(Some(w)))
      && RunsOn(env, w, history)
  }

  ghost predicate Walks(env: Env, sp: Splitter, history: seq<Bar>)
    requires |history| > 0
  {
    exists w :: RunOf(env, sp, history, w)
  }

  lemma CollideBothWays(symbol: string, f: Env, g: Env)
    ensures Collide(symbol, f, g) <==> Collide(symbol, g, f)
  {
    CollideBack(symbol, f, g);
    CollideBack(symbol, g, f);
  }

  lemma CollideBack(symbol: string, f: Env, g: Env)
    ensures Collide(symbol, f, g) ==> Collide(symbol, g, f)
  {
    hide KeyOf;
    if i: nat :| SharesKey(symbol, f, g, i) && f.frame[..i + 1] != g.frame[..i + 1] {
      assert SharesKey(symbol, g, f, i);
    }
  }

  /** Any two runs, of folds or the holdout, in any order, again or under another configuration. */
  lemma RunsDoNotCollide(symbol: string, sp: Splitter, history: seq<Bar>, f: Env, g: Env)
    requires |history| > 0 && Distinct(history) && ValidSplitter(sp) && KeepsApart(sp)
    requires Walks(f, sp, history) && Walks(g, sp, history)
    ensures !Collide(symbol, f, g)
  {
    hide Collide, RunsOn, IsFoldAt, HoldoutWindow, KeepsApart;
    var v :| RunOf(f, sp, history, v);
    var w :| RunOf(g, sp, history, w);
    if v == w {
      SameWindow(symbol, history, v, f, g);
    } else if HoldoutWindow(sp, history) == Ok(Some(w)) {
      var j: nat :| IsFoldAt(sp, history, j, v);
      HoldoutDoesNotCollide(symbol, sp, history, j, v, w, f, g);
    } else if HoldoutWindow(sp, history) == Ok(Some(v)) {
      var k: nat :| IsFoldAt(sp, history, k, w);
      HoldoutDoesNotCollide(symbol, sp, history, k, w, v, g, f);
      CollideBothWays(symbol, f, g);
    } else {
      var j: nat, k: nat :| IsFoldAt(sp, history, j, v) && IsFoldAt(sp, history, k, w);
      FoldsInAnyOrder(symbol, sp, history, j, k, v, w, f, g);
    }
  }

  lemma SameWindow(symbol: string, history: seq<Bar>, w: Window, f: Env, g: Env)
    requires |history| > 0 && RunsOn(f, w, history) && RunsOn(g, w, history)
    ensures !Collide(symbol, f, g)
  {
    hide SortByTime, WithWarmup;
    SameFrameDoesNotCollide(symbol, f, g);
  }

  lemma FoldsInAnyOrder(symbol: string, sp: Splitter, history: seq<Bar>,
                        j: nat, k: nat, v: Window, w: Window, f: Env, g: Env)
    requires |history| > 0 && Distinct(history) && ValidSplitter(sp) && KeepsApart(sp) && v != w
    requires IsFoldAt(sp, history, j, v) && IsFoldAt(sp, history, k, w)
    requires RunsOn(f, v, history) && RunsOn(g, w, history)
    ensures !Collide(symbol, f, g)
  {
    assert j != k;
    hide Collide, RunsOn, IsFoldAt, KeepsApart;
    if j < k {
      FoldsDoNotCollide(symbol, sp, history, j, k, v, w, f, g);
    } else {
      FoldsDoNotCollide(symbol, sp, history, k, j, w, v, g, f);
      CollideBothWays(symbol, f, g);
    }
  }

  /** Runs of one frame never collide, whatever their configurations. */
  lemma SameFrameDoesNotCollide(symbol: string, f: Env, g: Env)
    requires f.frame == g.frame
    ensures !Collide(symbol, f, g)
  {}

  function At(time: int): Bar { Bar(time, 1.0, 1.0, 1.0, 1.0) }

  /** Under any other settings, a history with a gap: no row in the second window's train start, so that
      it and the third one start alike; one row in the embargo of each; and one on the instant that the
      second test ends after and the third begins. The first row starts the folds, the last ends them. */
  function Gapped(sp: Splitter): seq<Bar> {
    var third := TestStart(sp, 0, 2);
    [At(0), At(TrainStart(sp, 0, 2)), At(TrainEnd(sp, 0, 1)), At(third - 1), At(third),
     At(TestEnd(sp, 0, 2) + sp.holdoutDays * DAY)]
  }

  /** The days of the second and third window. */
  lemma GappedTimes(sp: Splitter)
    requires ValidSplitter(sp) && !KeepsApart(sp)
    ensures var s, t, g, e := sp.stepDays * DAY, sp.trainDays * DAY, sp.embargoDays * DAY, sp.testDays * DAY;
            && 0 < s < t && s <= e && g >= DAY
            && TrainStart(sp, 0, 0) == 0 && TrainStart(sp, 0, 1) == s && TrainStart(sp, 0, 2) == 2 * s
            && TrainEnd(sp, 0, 1) == s + t && TestStart(sp, 0, 1) == s + t + g && TestEnd(sp, 0, 1) == s + t + g + e
            && TrainEnd(sp, 0, 2) == 2 * s + t && TestStart(sp, 0, 2) == 2 * s + t + g
            && TestEnd(sp, 0, 2) == 2 * s + t + g + e
  {}

  lemma GappedSpan(sp: Splitter)
    requires ValidSplitter(sp) && !KeepsApart(sp)
    ensures Strict(Gapped(sp)) && Distinct(Gapped(sp)) && MinTime(Gapped(sp)) == 0
    ensures HoldoutBoundary(sp, Gapped(sp)) == TestEnd(sp, 0, 2) && TestEnd(sp, 0, 1) < TestEnd(sp, 0, 2)
  {
    GappedTimes(sp);
    hide TrainStart, TrainEnd, TestStart, TestEnd, MinTime, MaxTime, KeepsApart;
    var rows := Gapped(sp);
    TimesWithin(rows);
    assert rows[0] in rows && rows[5] in rows;
  }

  /** A candidate with a train row and a test row that ends by the holdout boundary is a fold. */
  lemma FoldOf(sp: Splitter, history: seq<Bar>, k: nat, a: Bar, b: Bar) returns (w: Window)
    requires |history| > 0 && ValidSplitter(sp) && a in history && b in history
    requires var first := MinTime(history);
             && TrainStart(sp, first, k) <= a.time < TrainEnd(sp, first, k)
             && TestStart(sp, first, k) <= b.time <= TestEnd(sp, first, k) <= HoldoutBoundary(sp, history)
    ensures IsFoldAt(sp, history, k, w)
  {
    var first := MinTime(history);
    hide TrainStart, MinTime, HoldoutBoundary, Slice;
    SliceOfOrderedIntervals(history, TrainStart(sp, first, k), TrainEnd(sp, first, k),
                            TestStart(sp, first, k), TestEnd(sp, first, k));
    w := FoldAt(sp, history, k).value.value;
    SliceEnds(history, TrainStart(sp, first, k), TrainEnd(sp, first, k), TestStart(sp, first, k),
              TestEnd(sp, first, k));
  }

  lemma GappedFolds(sp: Splitter) returns (v: Window, w: Window)
    requires ValidSplitter(sp) && !KeepsApart(sp)
    ensures IsFoldAt(sp, Gapped(sp), 1, v) && IsFoldAt(sp, Gapped(sp), 2, w)
  {
    GappedTimes(sp);
    GappedSpan(sp);
    hide TrainStart, TrainEnd, TestStart, TestEnd, MinTime, KeepsApart, HoldoutBoundary, Strict, Distinct, IsFoldAt;
    var rows := Gapped(sp);
    v := FoldOf(sp, rows, 1, rows[1], rows[4]);
    w := FoldOf(sp, rows, 2, rows[1], rows[4]);
  }

  lemma SliceEnds(history: seq<Bar>, trainStart: int, trainEnd: int, testStart: int, testEnd: int)
    requires Slice(history, trainStart, trainEnd, testStart, testEnd).Ok?
             && Slice(history, trainStart, trainEnd, testStart, testEnd).value.Some?
    ensures Slice(history, trainStart, trainEnd, testStart, testEnd).value.value.testEnd == testEnd
  {
    hide Rows;
  }

  lemma HidesOne(history: seq<Bar>, w: Window, x: nat)
    requires x < |history| && forall i | 0 <= i < |history| :: w.trainEnd <= history[i].time < w.testStart <==> i == x
    ensures Embargoed(w, history) == {history[x]}
  {}

  lemma StartsAt(env: Env, w: Window, history: seq<Bar>, x: nat)
    requires |history| > 0 && Distinct(history) && SlicedFrom(w, history) && RunsOn(env, w, history) && x < |history|
    requires w.trainStart <= history[x].time < w.trainEnd
    requires forall i | 0 <= i < |history| && w.trainStart <= history[i].time :: history[x].time <= history[i].time
    ensures |env.frame| > 0 && env.frame[0] == history[x]
  {
    hide RunsOn, SlicedFrom;
    FirstOfFrame(env, w, history);
    assert history[x] in history;
    SameRow(history, env.frame[0], history[x]);
  }

  lemma OneHiddenEach(symbol: string, history: seq<Bar>, v: Window, w: Window, f: Env, g: Env, x: Bar, y: Bar, b: Bar)
    requires |history| > 0 && Distinct(history) && SlicedFrom(v, history) && SlicedFrom(w, history)
    requires RunsOn(f, v, history) && RunsOn(g, w, history) && b in v.test && b in w.test
    requires |f.frame| > 0 && |g.frame| > 0 && f.frame[0] == g.frame[0]
    requires x != y && Embargoed(v, history) == {x} && Embargoed(w, history) == {y}
    ensures Collide(symbol, f, g)
  {
    hide RunsOn, Embargoed, SlicedFrom, Distinct, Collide;
    CollideExactly(symbol, history, v, w, f, g);
  }

  /** What the second and third window of the gapped history see of it. */
  lemma GappedSeen(sp: Splitter, v: Window, w: Window)
    requires ValidSplitter(sp) && !KeepsApart(sp)
    requires IsFoldAt(sp, Gapped(sp), 1, v) && IsFoldAt(sp, Gapped(sp), 2, w)
    ensures var rows := Gapped(sp);
            && SlicedFrom(v, rows) && SlicedFrom(w, rows) && rows[4] in v.test && rows[4] in w.test
            && Embargoed(v, rows) == {rows[2]} && Embargoed(w, rows) == {rows[3]} && rows[2] != rows[3]
            && v.trainStart <= rows[1].time < v.trainEnd && w.trainStart <= rows[1].time < w.trainEnd
            && rows[0].time < v.trainStart && rows[0].time < w.trainStart
  {
    var rows := Gapped(sp);
    GappedTimes(sp);
    GappedSpan(sp);
    FoldFields(sp, rows, 1, v);
    FoldFields(sp, rows, 2, w);
    hide TrainStart, TrainEnd, TestStart, TestEnd, MinTime, IsFoldAt, IsFold, HoldoutBoundary, KeepsApart;
    hide SlicedFrom, Embargoed, Strict, Distinct;
    HidesOne(rows, v, 2);
    HidesOne(rows, w, 3);
    InTestRows(v, rows, rows[4]);
    InTestRows(w, rows, rows[4]);
  }

  /** On the gapped history any run of the second fold collides with any of the third. */
  lemma GappedCollide(symbol: string, sp: Splitter, v: Window, w: Window, f: Env, g: Env)
    requires ValidSplitter(sp) && !KeepsApart(sp)
    requires IsFoldAt(sp, Gapped(sp), 1, v) && IsFoldAt(sp, Gapped(sp), 2, w)
    requires RunsOn(f, v, Gapped(sp)) && RunsOn(g, w, Gapped(sp))
    ensures Collide(symbol, f, g)
  {
    assert |Gapped(sp)| == 6;
    hide Gapped, RunsOn, IsFoldAt, MinTime, MaxTime, Collide, KeepsApart, SlicedFrom, Embargoed, Strict, Distinct;
    GappedSeen(sp, v, w);
    GappedSpan(sp);
    SixRowsCollide(symbol, Gapped(sp), v, w, f, g);
  }

  lemma SixRowsCollide(symbol: string, rows: seq<Bar>, v: Window, w: Window, f: Env, g: Env)
    requires |rows| == 6 && Strict(rows) && Distinct(rows) && SlicedFrom(v, rows) && SlicedFrom(w, rows)
    requires RunsOn(f, v, rows) && RunsOn(g, w, rows) && rows[4] in v.test && rows[4] in w.test
    requires Embargoed(v, rows) == {rows[2]} && Embargoed(w, rows) == {rows[3]} && rows[2] != rows[3]
    requires v.trainStart <= rows[1].time < v.trainEnd && w.trainStart <= rows[1].time < w.trainEnd
    requires rows[0].time < v.trainStart && rows[0].time < w.trainStart
    ensures Collide(symbol, f, g)
  {
    assert forall i | 1 < i < 6 :: rows[1].time < rows[i].time;
    hide RunsOn, Collide, SlicedFrom, Embargoed, Strict, Distinct;
    StartsAt(f, v, rows, 1);
    StartsAt(g, w, rows, 1);
    OneHiddenEach(symbol, rows, v, w, f, g, rows[2], rows[3], rows[4]);
  }

  /** The recorder that has served the one run answers the other as the strategy would, whatever the
      strategy. */
  ghost predicate Answers(symbol: string, f: Env, g: Env) {
    forall strategy: Strategy, m: Recording | Recorded(map[], m, strategy, symbol, f, |f.frame|) ::
      Faithful(m, strategy, symbol, g)
  }

  lemma AnswersExactly(symbol: string, f: Env, g: Env)
    ensures Answers(symbol, f, g) <==> !Collide(symbol, f, g)
  {
    hide SharesKey, Recorded, Faithful;
    FaithfulForEveryStrategyExactly(symbol, f, g);
  }

  /** Exactly under these settings one recorder can serve a walk-forward evaluation: on every history, what
      it recorded for any run of a fold or the holdout answers every other run as the strategy would. */
  lemma OneRecorderServesExactly(symbol: string, sp: Splitter, strategy: Strategy, config: Config, ny: NewYork)
    requires ValidSplitter(sp)
    ensures KeepsApart(sp) <==>
            forall history, f, g | |history| > 0 && Distinct(history) && Walks(f, sp, history)
                   && Walks(g, sp, history) ::
              Answers(symbol, f, g)
  {
    hide KeepsApart, Walks, Answers, Distinct;
    if KeepsApart(sp) {
      forall history, f, g | |history| > 0 && Distinct(history) && Walks(f, sp, history) && Walks(g, sp, history)
        ensures Answers(symbol, f, g)
      {
        RunsDoNotCollide(symbol, sp, history, f, g);
        AnswersExactly(symbol, f, g);
      }
    } else {
      var f, g := SomeRunsCollide(symbol, sp, strategy, config, ny);
      AnswersExactly(symbol, f, g);
      GappedSpan(sp);
    }
  }

  lemma FoldRunWalks(sp: Splitter, history: seq<Bar>, k: nat, w: Window, strategy: Strategy, config: Config,
                     ny: NewYork)
    requires |history| > 0 && IsFoldAt(sp, history, k, w)
    ensures RunsOn(RunEnv(w, history, strategy, config, ny), w, history)
    ensures Walks(RunEnv(w, history, strategy, config, ny), sp, history)
  {
    hide IsFoldAt, HoldoutWindow, SortByTime, WithWarmup;
    assert RunOf(RunEnv(w, history, strategy, config, ny), sp, history, w);
  }

  lemma SomeRunsCollide(symbol: string, sp: Splitter, strategy: Strategy, config: Config, ny: NewYork)
    returns (f: Env, g: Env)
    requires ValidSplitter(sp) && !KeepsApart(sp)
    ensures Walks(f, sp, Gapped(sp)) && Walks(g, sp, Gapped(sp)) && Collide(symbol, f, g)
  {
    assert |Gapped(sp)| > 0;
    hide KeepsApart, IsFoldAt, Collide, Gapped, SortByTime, WithWarmup, Walks, RunsOn;
    var v, w := GappedFolds(sp);
    f, g := RunEnv(v, Gapped(sp), strategy, config, ny), RunEnv(w, Gapped(sp), strategy, config, ny);
    FoldRunWalks(sp, Gapped(sp), 1, v, strategy, config, ny);
    FoldRunWalks(sp, Gapped(sp), 2, w, strategy, config, ny);
    GappedCollide(symbol, sp, v, w, f, g);
  }

  /** A run of a window under a configuration. */
  function RunEnv(w: Window, history: seq<Bar>, strategy: Strategy, config: Config, ny: NewYork): Env
    requires |history| > 0
  {
    Env(SortByTime(WithWarmup(w, history, 0)), strategy, config, Some(w.testStart), ny)
  }

  // ---- One recorder over all the runs ----------------------------------------------------------------

  /** The recording's entry is what the strategy says on a window of one of the runs. */
  ghost predicate AskedAt(envs: seq<Env>, strategy: Strategy, symbol: string, key: Key, signal: Option<Signal>, e: nat,
                          i: nat) {
    && e < |envs| && i < |envs[e].frame| && Evaluated(envs[e], i)
    && KeyOf(symbol, envs[e].frame[..i + 1]) == key && signal == strategy(envs[e].frame[..i + 1])
  }

  ghost predicate MadeOn(m: Recording, strategy: Strategy, symbol: string, envs: seq<Env>) {
    forall key | key in m :: exists e: nat, i: nat :: AskedAt(envs, strategy, symbol, key, m[key], e, i)
  }

  /** A recording made on runs that do not collide with this one is faithful on it. */
  lemma MadeOnIsFaithful(m: Recording, strategy: Strategy, symbol: string, envs: seq<Env>, env: Env)
    requires MadeOn(m, strategy, symbol, envs) && forall e: nat | e < |envs| :: !Collide(symbol, envs[e], env)
    ensures Faithful(m, strategy, symbol, env)
  {
    hide KeyOf;
    forall i: nat | i < |env.frame| && Evaluated(env, i)
      ensures Recall(m, strategy, symbol, env.frame[..i + 1]) == strategy(env.frame[..i + 1])
    {
      var key := KeyOf(symbol, env.frame[..i + 1]);
      if key in m {
        var e: nat, j: nat :| AskedAt(envs, strategy, symbol, key, m[key], e, j);
        assert i == j;
        assert SharesKey(symbol, envs[e], env, i);
      }
    }
  }

  /** What a run adds is the strategy's on its own windows. */
  lemma RunAdds(before: Recording, after: Recording, strategy: Strategy, symbol: string, envs: seq<Env>, e: nat, n: nat)
    requires MadeOn(before, strategy, symbol, envs) && e < |envs| && n <= |envs[e].frame|
    requires Recorded(before, after, strategy, symbol, envs[e], n)
    ensures MadeOn(after, strategy, symbol, envs)
  {
    hide KeyOf;
    var env := envs[e];
    forall key | key in after ensures exists d: nat, i: nat :: AskedAt(envs, strategy, symbol, key, after[key], d, i) {
      if key in before {
        var d: nat, i: nat :| AskedAt(envs, strategy, symbol, key, before[key], d, i);
      } else {
        assert AskedBefore(symbol, env, n, key);
        var i: nat :| i < n && Evaluated(env, i) && KeyOf(symbol, env.frame[..i + 1]) == key;
        assert Answered(before, after, strategy, symbol, env.frame[..i + 1]);
        assert AskedAt(envs, strategy, symbol, key, after[key], e, i);
      }
    }
  }

  /** One recorder over the runs of all folds, of the holdout and of every re-run of them under another
      configuration: each run is that of the strategy itself, as long as none collides with one before. */
  method EvaluateOnOneRecorder(recorder: RecordedSignals, symbol: string, envs: seq<Env>)
    returns (results: seq<Result<Outcome>>)
    requires recorder.signals == map[] && forall e: nat | e < |envs| :: envs[e].strategy == recorder.strategy
    requires forall d: nat, e: nat | d < e < |envs| :: !Collide(symbol, envs[d], envs[e])
    modifies recorder
    ensures |results| == |envs| && forall e: nat | e < |envs| :: results[e] == RunAll(envs[e])
    ensures MadeOn(recorder.signals, recorder.strategy, symbol, envs)
  {
    hide RunAll, Recall, RunTo, Faithful, Recorded, Unrecorded, Windows, Collide, AskedAt;
    results := [];
    ghost var strategy := recorder.strategy;
    while |results| < |envs|
      invariant |results| <= |envs| && MadeOn(recorder.signals, strategy, symbol, envs[..|results|])
      invariant forall e: nat | e < |results| :: results[e] == RunAll(envs[e])
    {
      var e := |results|;
      ghost var before := recorder.signals;
      MadeOnIsFaithful(before, strategy, symbol, envs[..e], envs[e]);
      MadeOnMore(before, strategy, symbol, envs[..e], envs[..e + 1]);
      ReplayEqualsReevaluation(before, symbol, envs[e], envs[e].config);
      var r, bars := RunRecorded(recorder, symbol, envs[e]);
      RunAdds(before, recorder.signals, strategy, symbol, envs[..e + 1], e, bars);
      results := results + [r];
    }
    assert envs[..|envs|] == envs;
  }

  lemma MadeOnMore(m: Recording, strategy: Strategy, symbol: string, envs: seq<Env>, more: seq<Env>)
    requires MadeOn(m, strategy, symbol, envs) && envs <= more
    ensures MadeOn(m, strategy, symbol, more)
  {
    forall key | key in m ensures exists e: nat, i: nat :: AskedAt(more, strategy, symbol, key, m[key], e, i) {
      var e: nat, i: nat :| AskedAt(envs, strategy, symbol, key, m[key], e, i);
      assert AskedAt(more, strategy, symbol, key, m[key], e, i);
    }
  }

  /** The windows of an evaluation: the folds in order, then the holdout if there is one. */
  function AllWindows(sp: Splitter, history: seq<Bar>): (r: seq<Window>)
    requires ValidSplitter(sp)
    ensures |r| > 0 ==> |history| > 0
  {
    if |history| == 0 then []
    else
      var holdout := HoldoutWindow(sp, history);
      FoldsTo(sp, history, FoldCount(sp, history)) + if holdout.Ok? && holdout.value.Some? then [holdout.value.value]
        else []
  }

  /** Its runs: all windows under the first configuration, then again under each other one. */
  function Planned(windows: seq<Window>, history: seq<Bar>, strategy: Strategy, configs: seq<Config>,
                   ny: NewYork): seq<Env>
    requires |windows| > 0 ==> |history| > 0
  {
    if |configs| == 0 then []
    else
      seq(|windows|, i requires 0 <= i < |windows| => RunEnv(windows[i], history, strategy, configs[0], ny))
      + Planned(windows, history, strategy, configs[1..], ny)
  }

  ghost predicate WindowOf(sp: Splitter, history: seq<Bar>, w: Window)
    requires |history| > 0
  {
    (exists k: nat :: IsFoldAt(sp, history, k, w)) || HoldoutWindow(sp, history) == Ok(Some(w))
  }

  lemma TriedIsFoldAt(sp: Splitter, history: seq<Bar>, k: nat)
    requires ValidSplitter(sp) && |history| > 0 && k < FoldCount(sp, history)
    requires FoldAt(sp, history, k).Ok? && FoldAt(sp, history, k).value.Some?
    ensures IsFoldAt(sp, history, k, FoldAt(sp, history, k).value.value)
  {
    hide FoldCount, HoldoutBoundary, TestStart, TestEnd, TrainEnd, TrainStart, MinTime, Slice;
    FoldCountIsExact(sp, history, k);
    var first := MinTime(history);
    SliceEnds(history, TrainStart(sp, first, k), TrainEnd(sp, first, k), TestStart(sp, first, k),
              TestEnd(sp, first, k));
  }

  lemma {:induction false} FoldsAreFoldAt(sp: Splitter, history: seq<Bar>, n: nat)
    requires ValidSplitter(sp) && |history| > 0 && n <= FoldCount(sp, history)
    ensures forall w | w in FoldsTo(sp, history, n) :: exists k: nat :: IsFoldAt(sp, history, k, w)
  {
    hide FoldAt, IsFoldAt, FoldCount;
    if n > 0 {
      FoldsAreFoldAt(sp, history, n - 1);
      var fold := FoldAt(sp, history, n - 1);
      if fold.Ok? && fold.value.Some? {
        TriedIsFoldAt(sp, history, n - 1);
      }
    }
  }

  lemma WindowsAreOf(sp: Splitter, history: seq<Bar>)
    requires ValidSplitter(sp) && |history| > 0
    ensures forall w | w in AllWindows(sp, history) :: WindowOf(sp, history, w)
  {
    hide IsFoldAt, HoldoutWindow, FoldsTo, FoldCount;
    FoldsAreFoldAt(sp, history, FoldCount(sp, history));
  }

  lemma {:induction false} PlannedWalk(sp: Splitter, windows: seq<Window>, history: seq<Bar>, strategy: Strategy,
                                       configs: seq<Config>, ny: NewYork)
    requires |history| > 0 && forall w | w in windows :: WindowOf(sp, history, w)
    ensures forall e: nat | e < |Planned(windows, history, strategy, configs, ny)| ::
              var env := Planned(windows, history, strategy, configs, ny)[e];
              Walks(env, sp, history) && env.strategy == strategy
  {
    hide WindowOf, Walks, RunEnv;
    if |configs| > 0 {
      PlannedWalk(sp, windows, history, strategy, configs[1..], ny);
      forall i: nat | i < |windows|
        ensures var env := RunEnv(windows[i], history, strategy, configs[0], ny);
                Walks(env, sp, history) && env.strategy == strategy
      {
        assert windows[i] in windows;
        WindowWalks(sp, windows[i], history, strategy, configs[0], ny);
      }
    }
  }

  lemma WindowWalks(sp: Splitter, w: Window, history: seq<Bar>, strategy: Strategy, config: Config, ny: NewYork)
    requires |history| > 0 && WindowOf(sp, history, w)
    ensures Walks(RunEnv(w, history, strategy, config, ny), sp, history)
    ensures RunEnv(w, history, strategy, config, ny).strategy == strategy
  {
    hide IsFoldAt, HoldoutWindow, SortByTime, WithWarmup;
    assert RunOf(RunEnv(w, history, strategy, config, ny), sp, history, w);
  }

  lemma NothingPlanned(history: seq<Bar>, strategy: Strategy, configs: seq<Config>, ny: NewYork)
    ensures Planned([], history, strategy, configs, ny) == []
  {}

  /** A walk-forward evaluation on one recorder, under settings that keep the folds apart: every fold and
      the holdout, under every configuration, get the result of the strategy itself. */
  method EvaluateWalkForward(recorder: RecordedSignals, symbol: string, sp: Splitter, history: seq<Bar>,
                             configs: seq<Config>, ny: NewYork) returns (r: Result<seq<Result<Outcome>>>)
    requires recorder.signals == map[] && KeepsApart(sp) && Distinct(history)
    modifies recorder
    ensures r.Ok? <==> ValidSplitter(sp)
    ensures r.Ok? ==>
              var runs := PlannedRuns(sp, history, recorder.strategy, configs, ny);
              |r.value| == |runs| && forall e: nat | e < |runs| :: r.value[e] == RunAll(runs[e])
  {
    hide *;
    var runs := PlanRuns(sp, history, recorder.strategy, configs, ny);
    if runs.Err? {
      return Err(runs.error);
    }
    PlannedRunsAreApart(symbol, sp, history, recorder.strategy, configs, ny);
    var results := EvaluateOnOneRecorder(recorder, symbol, runs.value);
    r := Ok(results);
  }

  function PlannedRuns(sp: Splitter, history: seq<Bar>, strategy: Strategy, configs: seq<Config>, ny: NewYork): seq<Env>
    requires ValidSplitter(sp)
  {
    Planned(AllWindows(sp, history), history, strategy, configs, ny)
  }

  method PlanRuns(sp: Splitter, history: seq<Bar>, strategy: Strategy, configs: seq<Config>, ny: NewYork)
    returns (r: Result<seq<Env>>)
    ensures r.Ok? <==> ValidSplitter(sp)
    ensures r.Ok? ==> r.value == PlannedRuns(sp, history, strategy, configs, ny)
  {
    hide FoldsTo, FoldCount, HoldoutWindow;
    var folds := Split(sp, history);
    if folds.Err? {
      return Err(folds.error);
    }
    var windows := folds.value;
    if |history| > 0 {
      var holdout := HoldoutWindow(sp, history);
      if holdout.Ok? && holdout.value.Some? {
        windows := windows + [holdout.value.value];
      }
    }
    assert windows == AllWindows(sp, history);
    r := Ok(Planned(windows, history, strategy, configs, ny));
  }

  lemma PlannedRunsAreApart(symbol: string, sp: Splitter, history: seq<Bar>, strategy: Strategy,
                            configs: seq<Config>, ny: NewYork)
    requires ValidSplitter(sp) && KeepsApart(sp) && Distinct(history)
    ensures var runs := PlannedRuns(sp, history, strategy, configs, ny);
            && (forall e: nat | e < |runs| :: runs[e].strategy == strategy)
            && (forall d: nat, e: nat | d < e < |runs| :: !Collide(symbol, runs[d], runs[e]))
  {
    hide Walks, Collide, KeepsApart, Distinct, Planned, WindowOf, FoldsTo, FoldCount, HoldoutWindow;
    if |history| == 0 {
      NothingPlanned(history, strategy, configs, ny);
    } else {
      WindowsAreOf(sp, history);
      hide AllWindows;
      PlannedWalk(sp, AllWindows(sp, history), history, strategy, configs, ny);
      var runs := Planned(AllWindows(sp, history), history, strategy, configs, ny);
      forall d: nat, e: nat | d < e < |runs| ensures !Collide(symbol, runs[d], runs[e]) {
        RunsDoNotCollide(symbol, sp, history, runs[d], runs[e]);
      }
    }
  }
}
