/** The delay queue of the engine refines a direct rule over the run, with no queue in it. */
module EngineDelay {
  import opened Wrappers
  import opened Intraday
  import opened Engine
  import EngineCash

  lemma {:induction false} PrefixOk(env: Env, i: nat, n: nat)
    requires i <= n <= |env.frame| && RunTo(env, n).Ok?
    ensures RunTo(env, i).Ok?
  {
    if RunTo(env, i).Err? {
      ErrorsPersist(env, i, n);
    }
  }

  /** Bar j was evaluated and left no trade open once its exits were done. */
  ghost predicate FlatAt(env: Env, j: nat)
    requires j < |env.frame|
  {
    && Evaluated(env, j) && RunTo(env, j).Ok?
    && Exits(env, RunTo(env, j).value, j).Ok?
    && Exits(env, RunTo(env, j).value, j).value.open.None?
  }

  /** Bar j's entry order was accepted: flat after its exits, in a trade at the end of the bar. */
  ghost predicate OpenedAt(env: Env, j: nat)
    requires j < |env.frame|
  {
    FlatAt(env, j) && RunTo(env, j + 1).Ok? && RunTo(env, j + 1).value.open.Some?
  }

  /** What the engine does with a delay of k, said without its queue. */
  ghost predicate DirectRule(env: Env, i: nat)
    requires i < |env.frame|
  {
    var k := Delay(env.config);
    && FlatAt(env, i) && !AtSessionEnd(env, i)
    && i >= k && FlatAt(env, i - k)
    && (forall j | i - k <= j < i :: !OpenedAt(env, j) && !AtSessionEnd(env, j))
    && SignalAt(env, i - k).Some?
    && OpensPosition(SignalAt(env, i - k).value, env.config.shortEntries)
  }

  lemma EvaluatedFromOn(env: Env, i: nat, j: nat)
    requires Sorted(env.frame) && i <= j < |env.frame| && Evaluated(env, i)
    ensures Evaluated(env, j)
  {}

  /** The queue after bar n-1: an unbroken run of evaluated bars ending at n-1, cut off only by the
      delay, the start of the window or the last entry. */
  ghost predicate QueueHolds(env: Env, q: seq<Pending>, n: nat)
    requires n <= |env.frame|
  {
    && |q| <= n && |q| <= Delay(env.config) + 1
    && (forall m | 0 <= m < |q| :: QueueItem(env, q[m], n - |q| + m))
    && (|q| == Delay(env.config) + 1 || |q| == n || !Evaluated(env, n - |q| - 1) || OpenedAt(env, n - |q| - 1))
  }

  ghost predicate QueueItem(env: Env, p: Pending, j: nat)
    requires j < |env.frame|
  {
    && p.index == j && Evaluated(env, j) && !OpenedAt(env, j)
    && p.signal == if FlatAt(env, j) then SignalAt(env, j) else None
  }

  lemma ExitsKeepQueue(env: Env, s: State, i: nat)
    requires i < |env.frame| && Exits(env, s, i).Ok?
    ensures Exits(env, s, i).value.recent == s.recent
    ensures s.open.None? ==> Exits(env, s, i).value == s
  {
    hide EvaluateExit, Realized, TradeRecord, AtSessionEnd;
  }

  /** Pushing bar i on a queue that holds the bars before it. */
  lemma PushHolds(env: Env, q: seq<Pending>, i: nat)
    requires Sorted(env.frame) && i < |env.frame| && QueueHolds(env, q, i)
    requires Evaluated(env, i)
    ensures var q' := Push(q, Delay(env.config) + 1, Pending(i, if FlatAt(env, i) then SignalAt(env, i) else None));
            && 0 < |q'| <= i + 1 && |q'| <= Delay(env.config) + 1
            && (forall m | 0 <= m < |q'| - 1 :: QueueItem(env, q'[m], i + 1 - |q'| + m))
            && q'[|q'| - 1] == Pending(i, if FlatAt(env, i) then SignalAt(env, i) else None)
            && (|q'| == Delay(env.config) + 1 || |q'| == i + 1 || !Evaluated(env, i - |q'|) || OpenedAt(env, i - |q'|))
  {
    hide FlatAt, OpenedAt, SignalAt, Evaluated, QueueItem;
    var k := Delay(env.config) + 1;
    var item := Pending(i, if FlatAt(env, i) then SignalAt(env, i) else None);
    var q' := Push(q, k, item);
    forall m | 0 <= m < |q'| - 1 ensures QueueItem(env, q'[m], i + 1 - |q'| + m) {
      if |q| >= k {
        assert q'[m] == q[m + 1];
        assert QueueItem(env, q[m + 1], i - |q| + (m + 1));
      } else {
        assert q'[m] == q[m];
        assert QueueItem(env, q[m], i - |q| + m);
      }
    }
  }

  lemma {:induction false} QueueContents(env: Env, n: nat)
    requires Sorted(env.frame) && n <= |env.frame| && RunTo(env, n).Ok?
    ensures QueueHolds(env, RunTo(env, n).value.recent, n)
  {
    hide EvaluateExit, PlannedExit, AttemptEntry, MarkToMarket, EntrySignal, Push, AtSessionEnd, QueueItem, Enter,
         Delay;
    if n > 0 {
      var i := n - 1;
      QueueContents(env, i);
      var s, s' := RunTo(env, i).value, RunTo(env, n).value;
      if !Evaluated(env, i) {
        NothingQueuedYet(env, s.recent, i);
      } else {
        ExitsKeepQueue(env, s, i);
        var flat := Exits(env, s, i).value;
        assert FlatAt(env, i) <==> flat.open.None?;
        PushHolds(env, s.recent, i);
        EnterQueue(env, flat, i);
        if OpenedAt(env, i) {
          assert s'.recent == [];
        } else {
          QueueAfterBar(env, Queued(env, flat, i), i);
        }
      }
    }
  }

  lemma QueuedBarsGoOn(env: Env, q: seq<Pending>, i: nat)
    requires Sorted(env.frame) && i < |env.frame| && QueueHolds(env, q, i)
    ensures |q| > 0 ==> Evaluated(env, i)
  {
    if |q| > 0 {
      assert QueueItem(env, q[0], i - |q| + 0);
      EvaluatedFromOn(env, i - |q|, i);
    }
  }

  lemma NothingQueuedYet(env: Env, q: seq<Pending>, i: nat)
    requires Sorted(env.frame) && i < |env.frame| && QueueHolds(env, q, i) && !Evaluated(env, i)
    ensures q == [] && QueueHolds(env, q, i + 1)
  {
    hide FlatAt, OpenedAt, SignalAt, QueueItem, Evaluated;
    QueuedBarsGoOn(env, q, i);
  }

  lemma QueueAfterBar(env: Env, q': seq<Pending>, i: nat)
    requires i < |env.frame| && Evaluated(env, i) && !OpenedAt(env, i)
    requires 0 < |q'| <= i + 1 && |q'| <= Delay(env.config) + 1
    requires forall m | 0 <= m < |q'| - 1 :: QueueItem(env, q'[m], i + 1 - |q'| + m)
    requires q'[|q'| - 1] == Pending(i, if FlatAt(env, i) then SignalAt(env, i) else None)
    requires |q'| == Delay(env.config) + 1 || |q'| == i + 1 || !Evaluated(env, i - |q'|) || OpenedAt(env, i - |q'|)
    ensures QueueHolds(env, q', i + 1)
  {
    hide FlatAt, OpenedAt, SignalAt, Evaluated;
    forall m | 0 <= m < |q'| ensures QueueItem(env, q'[m], i + 1 - |q'| + m) {
      if m == |q'| - 1 {
        assert QueueItem(env, q'[m], i);
      }
    }
  }

  /** A bar ends in a trade it did not have after its exits only through its entry. */
  lemma EnterQueue(env: Env, flat: State, i: nat)
    requires i < |env.frame| && Enter(env, flat, i).Ok?
    ensures var s' := Enter(env, flat, i).value;
            if flat.open.None? && s'.open.Some? then s'.recent == [] else s'.recent == Queued(env, flat, i)
    ensures flat.open.Some? ==> Enter(env, flat, i).value.open == flat.open
  {
    hide AttemptEntry, EntrySignal, OpensPosition, AtSessionEnd, MarkToMarket, Push;
  }

  /** The queue decides exactly as the direct rule does, and acts on the signal of k bars back. */
  lemma DelayRule(env: Env, i: nat)
    requires Sorted(env.frame) && i < |env.frame| && Evaluated(env, i) && RunTo(env, i + 1).Ok?
    ensures Exits(env, RunTo(env, i).value, i).Ok?
    ensures var flat := Exits(env, RunTo(env, i).value, i).value;
            && (TriesToOpen(env, flat, i) <==> DirectRule(env, i))
            && (DirectRule(env, i) ==> EntrySignal(env, Queued(env, flat, i), i) == SignalAt(env,
              i - Delay(env.config)))
  {
    hide EvaluateExit, PlannedExit, AttemptEntry, MarkToMarket, EntrySignal, Push, AtSessionEnd, OpenedAt, QueueHolds,
         QueueItem, SignalAt;
    var s := RunTo(env, i).value;
    var flat := Exits(env, s, i).value;
    QueueContents(env, i);
    ExitsKeepQueue(env, s, i);
    assert FlatAt(env, i) <==> flat.open.None?;
    PushHolds(env, s.recent, i);
    QueueDecides(env, Queued(env, flat, i), i);
  }

  lemma QueueDecides(env: Env, q: seq<Pending>, i: nat)
    requires Sorted(env.frame) && i < |env.frame| && Evaluated(env, i)
    requires 0 < |q| <= i + 1 && |q| <= Delay(env.config) + 1
    requires forall m | 0 <= m < |q| - 1 :: QueueItem(env, q[m], i + 1 - |q| + m)
    requires q[|q| - 1] == Pending(i, if FlatAt(env, i) then SignalAt(env, i) else None)
    requires |q| == Delay(env.config) + 1 || |q| == i + 1 || !Evaluated(env, i - |q|) || OpenedAt(env, i - |q|)
    ensures var k := Delay(env.config);
            var direct := i >= k && FlatAt(env, i - k)
                && (forall j | i - k <= j < i :: !OpenedAt(env, j) && !AtSessionEnd(env, j));
            && (direct ==> EntrySignal(env, q, i) == SignalAt(env, i - k))
            && (EntrySignal(env, q, i).Some? ==> direct)
  {
    hide FlatAt, SignalAt, AtSessionEnd;
    var k := Delay(env.config);
    assert q[0].index == i + 1 - |q| by {
      if |q| > 1 { assert QueueItem(env, q[0], i + 1 - |q| + 0); }
    }
    forall j | i + 1 - |q| <= j < i ensures !OpenedAt(env, j) && Evaluated(env, j) {
      assert QueueItem(env, q[j - (i + 1 - |q|)], i + 1 - |q| + (j - (i + 1 - |q|)));
    }
    if |q| == k + 1 {
      assert k > 0 ==> QueueItem(env, q[0], i + 1 - |q| + 0);
    } else if i >= k {
      if !Evaluated(env, i - |q|) {
        FlatBarsGoOn(env, i - k, i - |q|);
      } else {
        assert OpenedAt(env, i - |q|) && i - k <= i - |q| < i;
      }
    }
  }

  lemma FlatBarsGoOn(env: Env, j: nat, l: nat)
    requires Sorted(env.frame) && j <= l < |env.frame|
    ensures FlatAt(env, j) ==> Evaluated(env, l)
  {}

  /** Every trade fills at the open of the bar after the one that opened it, so k + 1 bars after its
      signal, and from the signal on every bar was flat: no signal seen while a position was open
      or an order pending ever opens a trade. */
  lemma NoEntryFromABusySignal(env: Env, i: nat)
    requires Sorted(env.frame) && i < |env.frame| && OpenedAt(env, i)
    ensures i >= Delay(env.config) && i + 1 < |env.frame|
    ensures forall j | i - Delay(env.config) <= j <= i :: FlatAt(env, j)
    ensures var t := RunTo(env, i + 1).value.open.value;
            && t.entryBarIndex == i + 1 && t.entryTime == env.frame[i + 1].time
            && env.config.costs.EntryFillPrice(env.frame[i + 1].open, t.side,
                                               IsExtended(env.config, env.ny, t.entryTime)) == Ok(t.entryPrice)
  {
    hide EvaluateExit, PlannedExit, Enter, AtSessionEnd, EntrySignal, IsExtended, OpensPosition;
    DelayRule(env, i);
    var flat := Exits(env, RunTo(env, i).value, i).value;
    var k := Delay(env.config);
    OpenedThroughEntry(env, flat, i);
    assert DirectRule(env, i);
    FlatThroughout(env, i - k, i);
  }

  lemma OpenedThroughEntry(env: Env, flat: State, i: nat)
    requires i < |env.frame| && flat.open.None? && Enter(env, flat, i).Ok? && Enter(env, flat, i).value.open.Some?
    ensures TriesToOpen(env, flat, i) && i + 1 < |env.frame|
    ensures var t := Enter(env, flat, i).value.open.value;
            && t.entryBarIndex == i + 1 && t.entryTime == env.frame[i + 1].time
            && env.config.costs.EntryFillPrice(env.frame[i + 1].open, t.side,
                                               IsExtended(env.config, env.ny, t.entryTime)) == Ok(t.entryPrice)
  {
    hide AttemptEntry, EntrySignal, OpensPosition, AtSessionEnd, MarkToMarket, IsExtended;
    EngineCash.EntryIsFair(env, EntrySignal(env, Queued(env, flat, i), i).value, env.frame[i + 1], flat.cash, i + 1,
                           MinStopDistance(env, i));
  }

  lemma {:induction false} FlatThroughout(env: Env, a: nat, i: nat)
    requires Sorted(env.frame) && a <= i < |env.frame| && FlatAt(env, a) && RunTo(env, i + 1).Ok?
    requires forall j | a <= j < i :: !OpenedAt(env, j)
    ensures forall j | a <= j <= i :: FlatAt(env, j)
    decreases i
  {
    hide EvaluateExit, PlannedExit, Enter, AtSessionEnd, Evaluated;
    if a < i {
      PrefixOk(env, i, i + 1);
      FlatThroughout(env, a, i - 1);
      EvaluatedFromOn(env, a, i);
      var s := RunTo(env, i).value;
      assert !OpenedAt(env, i - 1) && FlatAt(env, i - 1);
      assert s.open.None?;
      assert Exits(env, s, i).Ok?;
      ExitsKeepQueue(env, s, i);
      assert FlatAt(env, i);
    }
  }
}
