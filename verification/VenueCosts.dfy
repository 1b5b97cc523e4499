/** Recorded signals: a strategy evaluated once per window and replayed for every other cost
    profile of the same bars. */
module VenueCosts {
  import opened Wrappers
  import opened Costs
  import opened Intraday
  import opened Engine

  /** The recorder's key: it tells two windows of one symbol apart only by their length and their
      first and last timestamps. */
  datatype Key = Key(symbol: string, bars: nat, first: int, last: int)

  function KeyOf(symbol: string, window: seq<Bar>): Key
    requires |window| > 0
    ensures KeyOf(symbol, window).bars == |window|
  {
    Key(symbol, |window|, window[0].time, window[|window| - 1].time)
  }

  type Recording = map<Key, Option<Signal>>

  /** What the recorder answers from recording m. */
  function Recall(m: Recording, strategy: Strategy, symbol: string, window: seq<Bar>): Option<Signal> {
    if |window| > 0 && KeyOf(symbol, window) in m then m[KeyOf(symbol, window)] else strategy(window)
  }

  /** The number of bars before n whose window the strategy still has to be run on. */
  ghost function Unrecorded(m: Recording, symbol: string, env: Env, n: nat): nat
    requires n <= |env.frame|
  {
    if n == 0 then 0
    else Unrecorded(m, symbol, env, n - 1) +
         if Evaluated(env, n - 1) && KeyOf(symbol, env.frame[..n]) !in m then 1 else 0
  }

  class RecordedSignals {
    const strategy: Strategy
    var signals: Recording
    // The windows it was asked about, and how often it ran the strategy.
    ghost var requests: seq<seq<Bar>>
    ghost var evaluations: nat

    constructor (strategy: Strategy)
      ensures this.strategy == strategy && signals == map[] && requests == [] && evaluations == 0
    {
      this.strategy := strategy;
      signals := map[];
      requests, evaluations := [], 0;
    }

    method GenerateSignal(window: seq<Bar>, symbol: string) returns (signal: Option<Signal>)
      requires |window| > 0
      modifies this
      ensures signal == Recall(old(signals), strategy, symbol, window)
      ensures signals == old(signals)[KeyOf(symbol, window) := signal]
      ensures requests == old(requests) + [window]
      ensures evaluations == old(evaluations) + if KeyOf(symbol, window) in old(signals) then 0 else 1
    {
      var key := KeyOf(symbol, window);
      requests := requests + [window];
      if key !in signals {
        signal := strategy(window);
        signals := signals[key := signal];
        evaluations := evaluations + 1;
      }
      signal := signals[key];
    }
  }

  // ---- Replay equals re-evaluation -------------------------------------------------------------

  /** A run reads its strategy only through the signals of its evaluated bars. */
  lemma {:induction false} RunReadsOnlyEvaluatedSignals(a: Env, b: Env, n: nat)
    requires n <= |a.frame| && b == a.(strategy := b.strategy)
    requires forall i: nat | i < |a.frame| && Evaluated(a, i) :: SignalAt(a, i) == SignalAt(b, i)
    ensures RunTo(a, n) == RunTo(b, n)
  {
    hide Exits, Enter;
    if n > 0 {
      RunReadsOnlyEvaluatedSignals(a, b, n - 1);
      if Evaluated(a, n - 1) && RunTo(a, n - 1).Ok? {
        StepReadsOneSignal(a, b, RunTo(a, n - 1).value, n - 1);
      }
    }
  }

  lemma StepReadsOneSignal(a: Env, b: Env, s: State, i: nat)
    requires i < |a.frame| && b == a.(strategy := b.strategy)
    requires SignalAt(a, i) == SignalAt(b, i)
    ensures Exits(a, s, i) == Exits(b, s, i)
    ensures Exits(a, s, i).Ok? ==> Enter(a, Exits(a, s, i).value, i) == Enter(b, Exits(b, s, i).value, i)
  {
    hide SignalAt, EvaluateExit, AttemptEntry, OpensPosition, LastBarOfSession, SessionAtr, Realized, TradeRecord,
         CostModel.ExitFillPrice;
    assert PlannedExit(a, s, i) == PlannedExit(b, s, i);
    assert forall j: nat | j < |a.frame| :: AtSessionEnd(a, j) == AtSessionEnd(b, j);
    if Exits(a, s, i).Ok? {
      var flat := Exits(a, s, i).value;
      var q := Queued(a, flat, i);
      assert q == Queued(b, flat, i);
      assert EntrySignal(a, q, i) == EntrySignal(b, q, i);
      assert MinStopDistance(a, i) == MinStopDistance(b, i);
    }
  }

  /** A recording that holds, for every evaluated bar of the run, what the strategy says there. */
  ghost predicate Faithful(m: Recording, strategy: Strategy, symbol: string, env: Env) {
    forall i: nat | i < |env.frame| && Evaluated(env, i) ::
           Recall(m, strategy, symbol, env.frame[..i + 1]) == strategy(env.frame[..i + 1])
  }

  /** A run over recorded signals under any other configuration is the run of the strategy itself. */
  lemma ReplayEqualsReevaluation(m: Recording, symbol: string, env: Env, other: Config)
    requires Faithful(m, env.strategy, symbol, env)
    ensures RunAll(env.(config := other, strategy := (w: seq<Bar>) => Recall(m, env.strategy, symbol, w))) ==
            RunAll(env.(config := other))
  {
    hide Step, Close, CostModel.ExitFillPrice;
    var live := env.(config := other);
    var replay := live.(strategy := (w: seq<Bar>) => Recall(m, env.strategy, symbol, w));
    forall i: nat | i < |live.frame| && Evaluated(live, i) ensures SignalAt(live, i) == SignalAt(replay, i) {
      assert Evaluated(env, i);
    }
    RunReadsOnlyEvaluatedSignals(live, replay, |live.frame|);
    assert RunTo(live, |live.frame|) == RunTo(replay, |replay.frame|);
  }

  // ---- The engine on a recorder ---------------------------------------------------------------

  /** The windows of the evaluated bars before n, in order. */
  ghost function Windows(env: Env, n: nat): seq<seq<Bar>>
    requires n <= |env.frame|
  {
    if n == 0 then [] else Windows(env, n - 1) + if Evaluated(env, n - 1) then [env.frame[..n]] else []
  }

  /** The run whose strategy answers from recording m where it can. */
  function Recalling(m: Recording, strategy: Strategy, symbol: string, env: Env): Env {
    env.(strategy := (w: seq<Bar>) => Recall(m, strategy, symbol, w))
  }

  /** What a run leaves in the recorder once it has asked about the evaluated bars before n: one entry
      each, with the answer given; the entries before stay, and new ones are of windows of those bars. */
  ghost predicate Recorded(before: Recording, after: Recording, strategy: Strategy, symbol: string, env: Env, n: nat)
    requires n <= |env.frame|
  {
    && (forall i: nat | i < n && Evaluated(env, i) :: Answered(before, after, strategy, symbol, env.frame[..i + 1]))
    && Extends(before, after)
    && (forall k | k in after && k !in before :: AskedBefore(symbol, env, n, k))
  }

  predicate Answered(before: Recording, after: Recording, strategy: Strategy, symbol: string, window: seq<Bar>) {
    |window| > 0 && KeyOf(symbol, window) in after
      && after[KeyOf(symbol, window)] == Recall(before, strategy, symbol, window)
  }

  ghost predicate Extends(before: Recording, after: Recording) {
    forall k | k in before :: k in after && after[k] == before[k]
  }

  ghost predicate AskedBefore(symbol: string, env: Env, n: nat, k: Key)
    requires n <= |env.frame|
  {
    exists i: nat :: i < n && Evaluated(env, i) && KeyOf(symbol, env.frame[..i + 1]) == k
  }

  /** A window's key is its own among the windows of one frame, so recording the bars before n does not
      change the answer for bar n. */
  lemma StillUnanswered(before: Recording, now: Recording, strategy: Strategy, symbol: string, env: Env, n: nat)
    requires n < |env.frame| && Recorded(before, now, strategy, symbol, env, n)
    ensures Recall(now, strategy, symbol, env.frame[..n + 1]) == Recall(before, strategy, symbol, env.frame[..n + 1])
    ensures KeyOf(symbol, env.frame[..n + 1]) in now <==> KeyOf(symbol, env.frame[..n + 1]) in before
  {
    var key := KeyOf(symbol, env.frame[..n + 1]);
    assert key.bars == n + 1;
  }

  lemma RecordedNext(before: Recording, now: Recording, strategy: Strategy, symbol: string, env: Env, n: nat)
    requires n < |env.frame| && Recorded(before, now, strategy, symbol, env, n)
    ensures var key := KeyOf(symbol, env.frame[..n + 1]);
            if Evaluated(env, n)
            then Recorded(before, now[key := Recall(before, strategy, symbol, env.frame[..n + 1])], strategy, symbol,
                          env, n + 1)
            else Recorded(before, now, strategy, symbol, env, n + 1)
  {
    hide KeyOf, Recall, Evaluated;
    var key := KeyOf(symbol, env.frame[..n + 1]);
    var after := if Evaluated(env, n) then now[key := Recall(before, strategy, symbol, env.frame[..n + 1])] else now;
    StillUnanswered(before, now, strategy, symbol, env, n);
    RecalledIfHeld(before, strategy, symbol, env.frame[..n + 1]);
    forall i: nat | i < n + 1 && Evaluated(env, i)
      ensures Answered(before, after, strategy, symbol, env.frame[..i + 1]) {
      if i < n {
        assert Answered(before, now, strategy, symbol, env.frame[..i + 1]);
        KeysDiffer(symbol, env.frame[..i + 1], env.frame[..n + 1]);
      }
    }
    forall k | k in after && k !in before ensures AskedBefore(symbol, env, n + 1, k) {
      if k != key || !Evaluated(env, n) {
        assert AskedBefore(symbol, env, n, k);
      }
    }
  }

  lemma KeysDiffer(symbol: string, a: seq<Bar>, b: seq<Bar>)
    requires 0 < |a| < |b|
    ensures KeyOf(symbol, a) != KeyOf(symbol, b)
  {
    assert KeyOf(symbol, a).bars < KeyOf(symbol, b).bars;
  }

  lemma RecalledIfHeld(m: Recording, strategy: Strategy, symbol: string, window: seq<Bar>)
    requires |window| > 0
    ensures KeyOf(symbol, window) in m ==> Recall(m, strategy, symbol, window) == m[KeyOf(symbol, window)]
  {}

  /** The engine's loop over a recorder: where it would run its strategy it asks the recorder, on every
      evaluated bar and only there, whatever its position and settings. Its result is the run whose
      strategy is the recording as it was; the requests, the strategy runs and the entries it leaves
      are those of the bars it reached, all of them unless it raised. */
  method RunRecorded(recorder: RecordedSignals, symbol: string, env: Env) returns (r: Result<Outcome>, bars: nat)
    modifies recorder
    ensures bars <= |env.frame|
    ensures var live := Recalling(old(recorder.signals), recorder.strategy, symbol, env);
            && r == RunAll(live)
            && (bars < |env.frame| ==> RunTo(live, bars).Err?)
            && (r.Ok? ==> bars == |env.frame|)
    ensures recorder.requests == old(recorder.requests) + Windows(env, bars)
    ensures recorder.evaluations == old(recorder.evaluations) + Unrecorded(old(recorder.signals), symbol, env, bars)
    ensures Recorded(old(recorder.signals), recorder.signals, recorder.strategy, symbol, env, bars)
  {
    hide Step, Finish, Recall, Recorded, KeyOf;
    ghost var before := recorder.signals;
    ghost var live := Recalling(before, recorder.strategy, symbol, env);
    NothingRecorded(before, recorder.strategy, symbol, env);
    var s := Initial(env);
    bars := 0;
    while bars < |env.frame|
      invariant bars <= |env.frame|
      invariant RunTo(live, bars) == Ok(s)
      invariant recorder.requests == old(recorder.requests) + Windows(env, bars)
      invariant recorder.evaluations == old(recorder.evaluations) + Unrecorded(before, symbol, env, bars)
      invariant Recorded(before, recorder.signals, recorder.strategy, symbol, env, bars)
    {
      var i := bars;
      bars := bars + 1;
      assert RunTo(live, i + 1) == Step(live, s, i);
      RecordedNext(before, recorder.signals, recorder.strategy, symbol, env, i);
      if env.windowStart.Some? && env.frame[i].time < env.windowStart.value {
        SkippedBar(live, s, i);
        continue;
      }
      StillUnanswered(before, recorder.signals, recorder.strategy, symbol, env, i);
      var signal := recorder.GenerateSignal(env.frame[..i + 1], symbol);
      var shown := env.(strategy := (w: seq<Bar>) => signal);
      StepReadsSignal(live, shown, s, i);
      var next := RunBar(shown, i, signal, s);
      if next.Err? {
        ErrorsPersist(live, i + 1, |env.frame|);
        return Err(next.error), bars;
      }
      s := next.value;
    }
    r := CloseOut(env, s);
    FinishReadsNoSignal(live, env, s);
  }

  lemma NothingRecorded(m: Recording, strategy: Strategy, symbol: string, env: Env)
    ensures Recorded(m, m, strategy, symbol, env, 0)
  {}

  lemma StepReadsSignal(a: Env, b: Env, s: State, i: nat)
    requires i < |a.frame| && b == a.(strategy := b.strategy) && SignalAt(a, i) == SignalAt(b, i)
    ensures Step(a, s, i) == Step(b, s, i)
  {
    hide Exits, Enter, SignalAt;
    StepReadsOneSignal(a, b, s, i);
  }

  lemma FinishReadsNoSignal(a: Env, b: Env, s: State)
    requires b == a.(strategy := b.strategy)
    ensures Finish(a, s) == Finish(b, s)
  {
    hide Close, CostModel.ExitFillPrice;
  }

  /** A faithful recording stays faithful under a run that adds to it. */
  lemma RecordingStaysFaithful(before: Recording, after: Recording, symbol: string, env: Env, n: nat)
    requires n <= |env.frame| && Faithful(before, env.strategy, symbol, env)
             && Recorded(before, after, env.strategy, symbol, env, n)
    ensures Faithful(after, env.strategy, symbol, env)
  {
    forall i: nat | i < |env.frame| && Evaluated(env, i)
      ensures Recall(after, env.strategy, symbol, env.frame[..i + 1]) == (env.strategy)(env.frame[..i + 1])
    {
      var key := KeyOf(symbol, env.frame[..i + 1]);
      assert Recall(before, env.strategy, symbol, env.frame[..i + 1]) == (env.strategy)(env.frame[..i + 1]);
      if key in after && key !in before {
        var j: nat :| j < n && Evaluated(env, j) && KeyOf(symbol, env.frame[..j + 1]) == key;
        assert j == i;
      }
    }
  }

  /** Two runs of the engine over one recorder, the second under another configuration: both are the
      runs of the strategy itself, and once the first has reached the end of the frame the second runs
      the strategy on no window. */
  method RecordThenReplay(recorder: RecordedSignals, symbol: string, env: Env, other: Config)
    returns (first: Result<Outcome>, second: Result<Outcome>)
    requires recorder.strategy == env.strategy && Faithful(recorder.signals, env.strategy, symbol, env)
    modifies recorder
    ensures first == RunAll(env) && second == RunAll(env.(config := other))
    ensures first.Ok? ==>
              recorder.evaluations == old(recorder.evaluations) +
                Unrecorded(old(recorder.signals), symbol, env, |env.frame|)
    ensures first.Ok? && second.Ok? ==>
              recorder.requests == old(recorder.requests) + Windows(env, |env.frame|) + Windows(env, |env.frame|)
    ensures Faithful(recorder.signals, env.strategy, symbol, env)
  {
    hide RunAll, Recall, RunTo, Faithful, Recorded, Unrecorded, Windows;
    ghost var empty := recorder.signals;
    var again := env.(config := other);
    var reached, replayed;
    first, reached := RunRecorded(recorder, symbol, env);
    ghost var m := recorder.signals;
    ReplayEqualsReevaluation(empty, symbol, env, env.config);
    RecordingStaysFaithful(empty, m, symbol, env, reached);
    second, replayed := RunRecorded(recorder, symbol, again);
    ReplayEqualsReevaluation(m, symbol, env, other);
    SameBars(m, recorder.signals, symbol, env, again, replayed);
    RecordingStaysFaithful(m, recorder.signals, symbol, env, replayed);
    if first.Ok? {
      AllRecorded(empty, m, symbol, env);
      SameEvaluated(env, again);
      NothingLeftToEvaluate(m, symbol, again, replayed);
    }
  }

  lemma AllRecorded(before: Recording, after: Recording, symbol: string, env: Env)
    requires Recorded(before, after, env.strategy, symbol, env, |env.frame|)
    ensures forall i: nat | i < |env.frame| && Evaluated(env, i) :: KeyOf(symbol, env.frame[..i + 1]) in after
  {
    hide Recall;
  }

  lemma SameEvaluated(a: Env, b: Env)
    requires b == a.(config := b.config)
    ensures forall i: nat | i < |a.frame| :: Evaluated(a, i) == Evaluated(b, i)
  {}

  /** What is asked and recorded does not depend on the configuration. */
  lemma SameBars(before: Recording, after: Recording, symbol: string, a: Env, b: Env, n: nat)
    requires b == a.(config := b.config) && n <= |a.frame|
    ensures Windows(a, n) == Windows(b, n) && Unrecorded(before, symbol, a, n) == Unrecorded(before, symbol, b, n)
    ensures Recorded(before, after, a.strategy, symbol, a, n) == Recorded(before, after, b.strategy, symbol, b, n)
  {
    SameEvaluated(a, b);
    SameRequests(before, symbol, a, b, n);
    hide Evaluated, KeyOf, Answered;
    forall k ensures AskedBefore(symbol, a, n, k) == AskedBefore(symbol, b, n, k) {}
    hide AskedBefore;
  }

  lemma {:induction false} SameRequests(before: Recording, symbol: string, a: Env, b: Env, n: nat)
    requires b == a.(config := b.config) && n <= |a.frame|
    ensures Windows(a, n) == Windows(b, n) && Unrecorded(before, symbol, a, n) == Unrecorded(before, symbol, b, n)
  {
    hide KeyOf;
    if n > 0 {
      SameRequests(before, symbol, a, b, n - 1);
    }
  }

  /** Once a frame is recorded, another pass over it runs the strategy on no window. */
  lemma {:induction false} NothingLeftToEvaluate(m: Recording, symbol: string, env: Env, n: nat)
    requires n <= |env.frame|
    requires forall i: nat | i < |env.frame| && Evaluated(env, i) :: KeyOf(symbol, env.frame[..i + 1]) in m
    ensures Unrecorded(m, symbol, env, n) == 0
  {
    if n > 0 {
      NothingLeftToEvaluate(m, symbol, env, n - 1);
    }
  }

  /** Across frames the key is too coarse: two windows that share length and end timestamps share
      a key, and the second is answered with the first one's signal. */
  lemma StaleSignalAcrossFrames()
    ensures var f, g := [Bar(0, 1.0, 1.0, 1.0, 1.0)], [Bar(0, 2.0, 2.0, 2.0, 2.0)];
            var buy := Some(Signal(Buy, None, None, None, false, None));
            var strategy: Strategy := (w: seq<Bar>) => if |w| > 0 && w[0].close > 1.0 then buy else None;
            && KeyOf("X", f) == KeyOf("X", g)
            && Recall(map[KeyOf("X", f) := strategy(f)], strategy, "X", g) != strategy(g)
  {
    assert KeyOf("X", [Bar(0, 1.0, 1.0, 1.0, 1.0)]) == Key("X", 1, 0, 0);
  }

  /** A recording made on frame f is faithful on frame g exactly when the strategy gives the same
      signal on every evaluated window of g whose key f's evaluated windows also produced. */
  lemma FaithfulAcrossFrames(m: Recording, symbol: string, f: Env, g: Env)
    requires f.strategy == g.strategy
    requires forall k | k in m :: exists i: nat ::
             i < |f.frame| && Evaluated(f, i) && KeyOf(symbol, f.frame[..i + 1]) == k
    requires forall i: nat | i < |f.frame| && Evaluated(f, i) ::
               KeyOf(symbol, f.frame[..i + 1]) in m && m[KeyOf(symbol, f.frame[..i + 1])] == SignalAt(f, i)
    ensures Faithful(m, g.strategy, symbol, g) <==>
            forall i: nat | i < |g.frame| && i < |f.frame| && Evaluated(g, i) && Evaluated(f, i) ::
              KeyOf(symbol, f.frame[..i + 1]) == KeyOf(symbol, g.frame[..i + 1]) ==> SignalAt(f, i) == SignalAt(g, i)
  {
    forall i: nat | i < |g.frame| && Evaluated(g, i) && KeyOf(symbol, g.frame[..i + 1]) in m
      ensures i < |f.frame| && Evaluated(f, i) && KeyOf(symbol, f.frame[..i + 1]) == KeyOf(symbol, g.frame[..i + 1])
    {
      var j: nat :| j < |f.frame| && Evaluated(f, j)
          && KeyOf(symbol, f.frame[..j + 1]) == KeyOf(symbol, g.frame[..i + 1]);
      assert j == i;
    }
  }

  lemma {:induction false} RecordingOf(strategy: Strategy, symbol: string, f: Env, n: nat) returns (m: Recording)
    requires n <= |f.frame|
    ensures Recorded(map[], m, strategy, symbol, f, n)
  {
    hide Recorded, KeyOf, Recall, Evaluated;
    if n == 0 {
      m := map[];
      NothingRecorded(m, strategy, symbol, f);
    } else {
      m := RecordingOf(strategy, symbol, f, n - 1);
      RecordedNext(map[], m, strategy, symbol, f, n - 1);
      if Evaluated(f, n - 1) {
        m := m[KeyOf(symbol, f.frame[..n]) := Recall(map[], strategy, symbol, f.frame[..n])];
      }
    }
  }

  /** The evaluated windows of the two frames that end at bar i share a key. */
  predicate SharesKey(symbol: string, f: Env, g: Env, i: nat) {
    i < |f.frame| && i < |g.frame| && Evaluated(f, i) && Evaluated(g, i)
      && KeyOf(symbol, f.frame[..i + 1]) == KeyOf(symbol, g.frame[..i + 1])
  }

  /** A recording made on frame f answers for frame g as the strategy would, whatever the strategy,
      exactly when every two evaluated windows of theirs that share a key are equal. */
  lemma FaithfulForEveryStrategyExactly(symbol: string, f: Env, g: Env)
    ensures (forall strategy: Strategy, m: Recording | Recorded(map[], m, strategy, symbol, f, |f.frame|) ::
             Faithful(m, strategy, symbol, g))
            <==> (forall i: nat | SharesKey(symbol, f, g, i) :: f.frame[..i + 1] == g.frame[..i + 1])
  {
    if forall i: nat | SharesKey(symbol, f, g, i) :: f.frame[..i + 1] == g.frame[..i + 1] {
      forall strategy: Strategy, m: Recording | Recorded(map[], m, strategy, symbol, f, |f.frame|)
        ensures Faithful(m, strategy, symbol, g) {
        EqualWindowsAreFaithful(m, strategy, symbol, f, g);
      }
    } else {
      var i: nat :| SharesKey(symbol, f, g, i) && f.frame[..i + 1] != g.frame[..i + 1];
      var buy := Some(Signal(Buy, None, None, None, false, None));
      var strategy: Strategy := (w: seq<Bar>) => if w == f.frame[..i + 1] then buy else None;
      var m := RecordingOf(strategy, symbol, f, |f.frame|);
      assert Answered(map[], m, strategy, symbol, f.frame[..i + 1]);
      assert Recall(m, strategy, symbol, g.frame[..i + 1]) == buy;
      assert !Faithful(m, strategy, symbol, g);
    }
  }

  lemma EqualWindowsAreFaithful(m: Recording, strategy: Strategy, symbol: string, f: Env, g: Env)
    requires Recorded(map[], m, strategy, symbol, f, |f.frame|)
    requires forall i: nat | SharesKey(symbol, f, g, i) :: f.frame[..i + 1] == g.frame[..i + 1]
    ensures Faithful(m, strategy, symbol, g)
  {
    forall i: nat | i < |g.frame| && Evaluated(g, i)
      ensures Recall(m, strategy, symbol, g.frame[..i + 1]) == strategy(g.frame[..i + 1])
    {
      var key := KeyOf(symbol, g.frame[..i + 1]);
      if key in m {
        assert AskedBefore(symbol, f, |f.frame|, key);
        var j: nat :| j < |f.frame| && Evaluated(f, j) && KeyOf(symbol, f.frame[..j + 1]) == key;
        assert j == i && SharesKey(symbol, f, g, i);
        assert Answered(map[], m, strategy, symbol, f.frame[..i + 1]);
      }
    }
  }
}
