/** The engine looks ahead by exactly one open: what it holds after bar i is decided by the bars up
    to i and the next bar's time and open. */
module EngineCausality {
  import opened Wrappers
  import opened Costs
  import opened Intraday
  import opened Engine

  /** Two runs that share everything but the bars after i, where they agree only on whether there
      is a next bar, when it is and where it opens. */
  ghost predicate SameUpTo(a: Env, b: Env, i: nat) {
    && b == a.(frame := b.frame)
    && i < |a.frame| && i < |b.frame|
    && a.frame[..i + 1] == b.frame[..i + 1]
    && (i + 1 < |a.frame| <==> i + 1 < |b.frame|)
    && (i + 1 < |a.frame| ==>
          a.frame[i + 1].time == b.frame[i + 1].time && a.frame[i + 1].open == b.frame[i + 1].open)
  }

  lemma SameUpToEarlier(a: Env, b: Env, i: nat, j: nat)
    requires SameUpTo(a, b, i) && j <= i
    ensures SameUpTo(a, b, j)
  {
    assert a.frame[..j + 1] == a.frame[..i + 1][..j + 1];
    assert b.frame[..j + 1] == b.frame[..i + 1][..j + 1];
    if j < i {
      assert a.frame[..i + 1][j + 1] == b.frame[..i + 1][j + 1];
    }
  }

  lemma SessionEndsAgree(a: Env, b: Env, i: nat, j: nat)
    requires SameUpTo(a, b, i) && j <= i
    ensures a.frame[j] == b.frame[j]
    ensures AtSessionEnd(a, j) == AtSessionEnd(b, j)
  {
    SameUpToEarlier(a, b, i, j);
    assert a.frame[..j + 1][j] == b.frame[..j + 1][j];
  }

  lemma FloorsAgree(a: Env, b: Env, i: nat)
    requires SameUpTo(a, b, i) && Sorted(a.frame) && Sorted(b.frame) && DatesMonotone(a.ny)
    ensures MinStopDistance(a, i) == MinStopDistance(b, i)
  {
    hide Daily, PriorTo, AverageTrueRange;
    SessionEndsAgree(a, b, i, i);
    LaterBarsDoNotMatter(a.frame, a.ny, i);
    LaterBarsDoNotMatter(b.frame, b.ny, i);
  }

  lemma ExitsAgree(a: Env, b: Env, s: State, i: nat)
    requires SameUpTo(a, b, i)
    ensures Exits(a, s, i) == Exits(b, s, i)
  {
    hide Realized, TradeRecord, AtSessionEnd, CostModel.ExitFillPrice, IsExtended;
    SessionEndsAgree(a, b, i, i);
    assert PlannedExit(a, s, i) == PlannedExit(b, s, i);
  }

  lemma EntrySignalsAgree(a: Env, b: Env, q: seq<Pending>, i: nat)
    requires SameUpTo(a, b, i) && |q| > 0
    ensures EntrySignal(a, q, i) == EntrySignal(b, q, i)
  {
    hide AtSessionEnd;
    forall j: nat | j <= i ensures AtSessionEnd(a, j) == AtSessionEnd(b, j) {
      SessionEndsAgree(a, b, i, j);
    }
  }

  /** An order reads the open and the time of the bar it fills on, never its high, low or close. */
  lemma OrdersReadTheOpen(signal: Signal, p: Bar, q: Bar, cash: real, c: Config, i: nat, floor: real, ny: NewYork)
    requires p.open == q.open && p.time == q.time
    ensures AttemptEntry(signal, p, cash, c, i, floor, ny) == AttemptEntry(signal, q, cash, c, i, floor, ny)
  {
    hide FillAt;
  }

  lemma EnterAgrees(a: Env, b: Env, s: State, i: nat)
    requires SameUpTo(a, b, i) && Sorted(a.frame) && Sorted(b.frame) && DatesMonotone(a.ny)
    ensures Enter(a, s, i) == Enter(b, s, i)
  {
    hide AtSessionEnd, MinStopDistance, EntrySignal, AttemptEntry, OpensPosition;
    SessionEndsAgree(a, b, i, i);
    FloorsAgree(a, b, i);
    var q := Queued(a, s, i);
    assert q == Queued(b, s, i);
    EntrySignalsAgree(a, b, q, i);
    assert TriesToOpen(a, s, i) == TriesToOpen(b, s, i);
    if TriesToOpen(a, s, i) && i + 1 < |a.frame| {
      OrdersReadTheOpen(EntrySignal(a, q, i).value, a.frame[i + 1], b.frame[i + 1], s.cash, a.config, i + 1,
                        MinStopDistance(a, i), a.ny);
      assert Entered(a, s, i) == Entered(b, s, i);
    }
  }

  /** Cash, open trade, closed trades, equity points and the delay queue after bar i, or the error
      that stopped the run, are the same for both frames: session ends, the delay and the
      prior-session floor included. */
  lemma {:induction false} EngineIsCausal(a: Env, b: Env, i: nat)
    requires SameUpTo(a, b, i) && Sorted(a.frame) && Sorted(b.frame) && DatesMonotone(a.ny)
    ensures RunTo(a, i + 1) == RunTo(b, i + 1)
  {
    hide Exits, Enter;
    if i > 0 {
      SameUpToEarlier(a, b, i, i - 1);
      EngineIsCausal(a, b, i - 1);
    } else {
      assert RunTo(a, 0) == RunTo(b, 0);
    }
    SessionEndsAgree(a, b, i, i);
    if RunTo(a, i).Ok? {
      var s := RunTo(a, i).value;
      ExitsAgree(a, b, s, i);
      if Exits(a, s, i).Ok? {
        EnterAgrees(a, b, Exits(a, s, i).value, i);
      }
    }
  }
}
