/** What every run of the scheduler keeps: no live worker is taken for a hung one, no job starts early
    beside its own earlier run, a superseded thread soon ends; and what happens when a job has no
    bound. */
module SchedulerSafety {
  import opened Wrappers
  import opened Scheduler

  // ---- The watchdog and a live worker ---------------------------------------------------------------------

  /** How old the heartbeat can be, by what the thread is doing. */
  predicate Beating(c: Config, s: State, p: Phase)
    requires PhaseFits(c, s, p)
  {
    match p
    case Exited => true
    case Waiting(until) => s.now <= until <= s.lastBeat + c.tick
    case Joining(_, i, r) => s.runs[r].startedAt <= s.lastBeat && s.now <= s.runs[r].startedAt + c.Timeout(i)
    case _ => s.now <= s.lastBeat + c.stale
  }

  /** Only the current thread lives, and it beats. */
  predicate Steady(c: Config, s: State)
    requires WellFormed(c, s)
  {
    && (forall g: nat | g + 1 < |s.threads| :: s.threads[g].Exited?)
    && (s.Started() ==> Beating(c, s, s.threads[|s.threads| - 1]))
    && s.lastBeat <= s.now
    && HungHeartbeatStale !in s.restarts
  }

  lemma SteadyStep(c: Config, s: State, a: Action)
    requires c.Valid() && c.Bounded() && WellFormed(c, s) && Steady(c, s) && Enabled(c, s, a)
    ensures Steady(c, Apply(c, s, a))
  {
    hide TakeJob, LeaveJob;
    if a.Thread? {
      hide Enabled;
      SteadyMove(c, s, a.g, a.fatal);
    } else {
      hide MoveThread;
    }
  }

  lemma SteadyMove(c: Config, s: State, g: nat, fatal: bool)
    requires c.Valid() && c.Bounded() && WellFormed(c, s) && Steady(c, s)
    requires g < |s.threads| && CanMove(c, s, s.threads[g])
    ensures WellFormed(c, MoveThread(c, s, g, fatal)) && Steady(c, MoveThread(c, s, g, fatal))
  {
    hide TakeJob, LeaveJob;
    assert s.Current(g);
    if s.threads[g].Joining? {
      SteadyLeave(c, s, g, fatal);
    } else if s.threads[g].Ticking? && s.threads[g].job < |c.jobs| {
      SteadyTake(c, s, g);
    }
  }

  lemma SteadyTake(c: Config, s: State, g: nat)
    requires c.Valid() && c.Bounded() && WellFormed(c, s) && Steady(c, s)
    requires g < |s.threads| && s.threads[g].Ticking? && s.threads[g].job < |c.jobs|
    ensures WellFormed(c, TakeJob(c, s, g)) && Steady(c, TakeJob(c, s, g))
  {
    hide IsDue, PreviousRunAlive;
    assert s.Current(g);
  }

  lemma SteadyLeave(c: Config, s: State, g: nat, fatal: bool)
    requires c.Valid() && c.Bounded() && WellFormed(c, s) && Steady(c, s)
    requires g < |s.threads| && s.threads[g].Joining? && CanMove(c, s, s.threads[g])
    ensures WellFormed(c, LeaveJob(c, s, g, fatal)) && Steady(c, LeaveJob(c, s, g, fatal))
  {
    assert s.Current(g);
  }

  /** No spurious self-heal: with every job's timeout positive and within the watchdog's patience, no
      run of the machine ever restarts a live worker, and no superseded thread is ever left alive. */
  lemma {:induction false} NoSpuriousRestart(c: Config, s: State, actions: seq<Action>)
    requires c.Valid() && c.Bounded() && WellFormed(c, s) && Steady(c, s) && Runs(c, s, actions)
    ensures Steady(c, After(c, s, actions))
    decreases |actions|
  {
    hide Steady, Apply, Enabled, WellFormed;
    if |actions| > 0 {
      SteadyStep(c, s, actions[0]);
      NoSpuriousRestart(c, Apply(c, s, actions[0]), actions[1..]);
    }
  }

  const IDLE := Job(None, None)

  /** The first tick after the first start, at its k-th job, with the earlier jobs run and done. */
  ghost predicate FirstTickAt(c: Config, s: State, k: nat) {
    && WellFormed(c, s) && s.now == 0 && !s.stopped && s.lastBeat == 0 && s.restarts == []
    && s.threads == [Ticking(0, k)] && k <= |c.jobs|
    && (forall i | k <= i < |c.jobs| :: s.jobs[i] == IDLE)
    && (forall i | 0 <= i < |c.jobs| :: s.jobs[i].overrun.None?)
  }

  lemma FirstTickBegins(c: Config) returns (actions: seq<Action>, s: State)
    ensures WellFormed(c, Initial(c, 0)) && Leads(c, Initial(c, 0), actions, s) && FirstTickAt(c, s, 0)
  {
    hide Leads;
    s := Initial(c, 0);
    actions := [];
    LeadsNowhere(c, s);
    actions, s := Do(c, Initial(c, 0), actions, s, Start);
    assert s.threads == [Begun];
    actions, s := Do(c, Initial(c, 0), actions, s, Thread(0, false));
    assert s.threads == [Checking];
    actions, s := Do(c, Initial(c, 0), actions, s, Thread(0, false));
    assert s.threads == [Cleared];
    actions, s := Do(c, Initial(c, 0), actions, s, Thread(0, false));
  }

  lemma FirstTickGoesOn(c: Config, actions0: seq<Action>, s0: State, k: nat) returns (actions: seq<Action>, s: State)
    requires Leads(c, Initial(c, 0), actions0, s0) && k < |c.jobs| && FirstTickAt(c, s0, k)
    ensures Leads(c, Initial(c, 0), actions, s) && FirstTickAt(c, s, k + 1)
  {
    hide Leads;
    actions, s := Do(c, Initial(c, 0), actions0, s0, Thread(0, false));
    assert s.threads == [Joining(0, k, |s0.runs|)];
    actions, s := Do(c, Initial(c, 0), actions, s, Finish(|s0.runs|));
    actions, s := Do(c, Initial(c, 0), actions, s, Thread(0, false));
  }

  lemma {:induction false} ReachesEveryJob(c: Config, k: nat) returns (actions: seq<Action>, s: State)
    requires k <= |c.jobs|
    ensures WellFormed(c, Initial(c, 0)) && Leads(c, Initial(c, 0), actions, s) && FirstTickAt(c, s, k)
  {
    hide Leads, FirstTickAt;
    if k == 0 {
      actions, s := FirstTickBegins(c);
    } else {
      actions, s := ReachesEveryJob(c, k - 1);
      actions, s := FirstTickGoesOn(c, actions, s, k - 1);
    }
  }

  /** A job without a timeout, or with one longer than the watchdog's patience, lets the watchdog
      replace a live worker. */
  lemma UnboundedJobIsTakenForAHang(c: Config, i: nat) returns (actions: seq<Action>)
    requires c.Valid() && c.selfHeal && i < |c.jobs| && !(0 < c.Timeout(i) <= c.stale)
    ensures WellFormed(c, Initial(c, 0)) && Runs(c, Initial(c, 0), actions)
    ensures HungHeartbeatStale in After(c, Initial(c, 0), actions).restarts
  {
    var s;
    actions, s := HangAtJob(c, i);
    LeadsMeans(c, Initial(c, 0), actions, s);
  }

  lemma HangAtJob(c: Config, i: nat) returns (actions: seq<Action>, s: State)
    requires c.Valid() && c.selfHeal && i < |c.jobs| && !(0 < c.Timeout(i) <= c.stale)
    ensures Leads(c, Initial(c, 0), actions, s) && HungHeartbeatStale in s.restarts
    ensures WellFormed(c, s) && !s.stopped && |s.threads| == 2 && s.threads[1] == Begun
    ensures |s.runs| > 0 && s.threads[0] == Joining(0, i, |s.runs| - 1) && s.runs[|s.runs| - 1] == Run(i, 0, None, None)
    ensures s.jobs[i] == IDLE && forall j | 0 <= j <= i :: s.jobs[j].overrun.None?
  {
    hide Leads;
    actions, s := ReachesEveryJob(c, i);
    actions, s := Do(c, Initial(c, 0), actions, s, Thread(0, false));
    assert s.lastBeat == 0 && |s.threads| == 1 && s.threads[0].Joining?;
    actions, s := Do(c, Initial(c, 0), actions, s, Pass(c.stale + 1));
    actions, s := Do(c, Initial(c, 0), actions, s, EnsureAlive);
  }

  /** The watchdog never takes a live worker for a hung one exactly when it is off or every job's
      effective timeout is positive and within its patience. */
  lemma WatchdogSparesLiveWorkersExactly(c: Config)
    requires c.Valid()
    ensures (!c.selfHeal || c.Bounded()) <==>
            (forall now: int, actions: seq<Action> | WellFormed(c, Initial(c, now))
             && Runs(c, Initial(c, now), actions) ::
               HungHeartbeatStale !in After(c, Initial(c, now), actions).restarts)
  {
    if !c.selfHeal {
      forall now: int, actions: seq<Action> | WellFormed(c, Initial(c, now)) && Runs(c, Initial(c, now), actions)
        ensures HungHeartbeatStale !in After(c, Initial(c, now), actions).restarts
      {
        OffNeverHung(c, Initial(c, now), actions);
      }
    } else if c.Bounded() {
      forall now: int, actions: seq<Action> | WellFormed(c, Initial(c, now)) && Runs(c, Initial(c, now), actions)
        ensures HungHeartbeatStale !in After(c, Initial(c, now), actions).restarts
      {
        NoSpuriousRestart(c, Initial(c, now), actions);
      }
    } else {
      var i: nat :| i < |c.jobs| && !(0 < c.Timeout(i) <= c.stale);
      var actions := UnboundedJobIsTakenForAHang(c, i);
    }
  }

  lemma {:induction false} OffNeverHung(c: Config, s: State, actions: seq<Action>)
    requires !c.selfHeal && WellFormed(c, s) && Runs(c, s, actions) && HungHeartbeatStale !in s.restarts
    ensures HungHeartbeatStale !in After(c, s, actions).restarts
    decreases |actions|
  {
    if |actions| > 0 {
      OffNeverHungStep(c, s, actions[0]);
      hide Apply, Enabled, WellFormed;
      OffNeverHung(c, Apply(c, s, actions[0]), actions[1..]);
    }
  }

  lemma OffNeverHungStep(c: Config, s: State, a: Action)
    requires !c.selfHeal && WellFormed(c, s) && Enabled(c, s, a) && HungHeartbeatStale !in s.restarts
    ensures HungHeartbeatStale !in Apply(c, s, a).restarts
  {}

  // ---- No early overlap ------------------------------------------------------------------------------

  /** Two runs of one job, in the order they started: the later one starts after the earlier one
      ended, or the grace period after it timed out. */
  predicate Apart(c: Config, earlier: Run, later: Run) {
    || (earlier.doneAt.Some? && earlier.doneAt.value <= later.startedAt)
    || (earlier.timedOutAt.Some? && earlier.timedOutAt.value + c.grace <= later.startedAt)
  }

  /** What is known of a run that still runs: a worker waits for it, or it timed out and either
      blocks its job or has outlived the grace period. */
  predicate Accounted(c: Config, s: State, r: nat)
    requires WellFormed(c, s) && r < |s.runs|
  {
    var run := s.runs[r];
    if run.timedOutAt.None? then s.Started() && s.threads[|s.threads| - 1].Joining?
       && s.threads[|s.threads| - 1].run == r
    else s.jobs[run.job].overrun == Some(Overrun(r, run.timedOutAt.value)) || run.timedOutAt.value + c.grace <= s.now
  }

  predicate CurrentPhaseAgrees(c: Config, s: State)
    requires WellFormed(c, s)
  {
    s.Started() ==>
      var p := s.threads[|s.threads| - 1];
      && (p.Ticking? ==> p.tickAt <= s.now)
      && (p.Joining? ==>
            p.tickAt <= s.now && s.runs[p.run].job == p.job && s.runs[p.run].timedOutAt.None?
            && s.jobs[p.job].overrun.None?)
  }

  ghost predicate NoEarlyOverlap(c: Config, s: State)
    requires WellFormed(c, s)
  {
    && (forall r: nat | r < |s.runs| :: s.runs[r].startedAt <= s.now)
    && (forall r: nat | r < |s.runs| && s.runs[r].Alive() :: Accounted(c, s, r))
    && (forall r: nat | r < |s.runs| && !s.runs[r].Alive() :: s.runs[r].doneAt.value <= s.now)
    && CurrentPhaseAgrees(c, s)
  }

  ghost predicate AllApart(c: Config, s: State) {
    forall e: nat, l: nat | e < l < |s.runs| && s.runs[e].job == s.runs[l].job :: Apart(c, s.runs[e], s.runs[l])
  }

  /** A due job that starts: every earlier run of it has ended or outlived the grace period. */
  lemma TakeJobKeepsApart(c: Config, s: State, g: nat)
    requires WellFormed(c, s) && s.Current(g) && s.threads[g].Ticking? && s.threads[g].job < |c.jobs|
    requires NoEarlyOverlap(c, s) && AllApart(c, s)
    ensures WellFormed(c, TakeJob(c, s, g)) && NoEarlyOverlap(c, TakeJob(c, s, g)) && AllApart(c, TakeJob(c, s, g))
  {
    hide IsDue, Apart;
    var r := TakeJob(c, s, g);
    var p := s.threads[g];
    if |r.runs| > |s.runs| {
      var n := |s.runs|;
      forall e: nat | e < n && s.runs[e].job == p.job ensures Apart(c, r.runs[e], r.runs[n]) {
        EarlierRunIsOver(c, s, g, e);
      }
      assert forall e: nat, l: nat | e < l < n && s.runs[e].job == s.runs[l].job :: Apart(c, s.runs[e], s.runs[l]);
      forall k: nat | k < |r.runs| && r.runs[k].Alive() ensures Accounted(c, r, k) {
        if k < n {
          assert Accounted(c, s, k);
          if s.runs[k].job == p.job {
            EarlierRunIsOver(c, s, g, k);
            AloneApart(c, s.runs[k], s.now);
          }
        }
      }
    }
  }

  lemma AloneApart(c: Config, run: Run, now: int)
    requires run.Alive()
    ensures Apart(c, run, Run(run.job, now, None, None)) ==>
            run.timedOutAt.Some? && run.timedOutAt.value + c.grace <= now
  {}

  lemma EarlierRunIsOver(c: Config, s: State, g: nat, e: nat)
    requires WellFormed(c, s) && s.Current(g) && s.threads[g].Ticking? && s.threads[g].job < |c.jobs|
    requires NoEarlyOverlap(c, s) && e < |s.runs| && s.runs[e].job == s.threads[g].job
    requires !PreviousRunAlive(c, s, s.jobs[s.threads[g].job], s.threads[g].tickAt)
    ensures Apart(c, s.runs[e], Run(s.threads[g].job, s.now, None, None))
  {
    if s.runs[e].Alive() {
      assert Accounted(c, s, e);
    }
  }

  /** A run's end, its timeout and the clock leave the order of runs as it was. */
  lemma ApartLasts(c: Config, s: State, r: State)
    requires AllApart(c, s) && |r.runs| == |s.runs|
    requires forall k: nat | k < |s.runs| :: Later(s.runs[k], r.runs[k])
    ensures AllApart(c, r)
  {
    forall e: nat, l: nat | e < l < |r.runs| && r.runs[e].job == r.runs[l].job ensures Apart(c, r.runs[e], r.runs[l]) {
      assert Later(s.runs[e], r.runs[e]) && Later(s.runs[l], r.runs[l]);
      assert Apart(c, s.runs[e], s.runs[l]);
    }
  }

  predicate Later(before: Run, after: Run) {
    && after.job == before.job && after.startedAt == before.startedAt
    && (before.doneAt.Some? ==> after.doneAt == before.doneAt)
    && (before.timedOutAt.Some? ==> after.timedOutAt == before.timedOutAt)
  }

  lemma LeaveJobKeepsApart(c: Config, s: State, g: nat, fatal: bool)
    requires WellFormed(c, s) && s.Current(g) && s.threads[g].Joining?
    requires NoEarlyOverlap(c, s) && AllApart(c, s)
    ensures WellFormed(c, LeaveJob(c, s, g, fatal)) && NoEarlyOverlap(c, LeaveJob(c, s, g, fatal))
            && AllApart(c, LeaveJob(c, s, g, fatal))
  {
    var r := LeaveJob(c, s, g, fatal);
    ApartLasts(c, s, r);
    hide AllApart, Apart;
    forall k: nat | k < |r.runs| && r.runs[k].Alive() ensures Accounted(c, r, k) {
      LeaveJobAccounts(c, s, g, fatal, k);
    }
    hide Accounted;
  }

  lemma LeaveJobAccounts(c: Config, s: State, g: nat, fatal: bool, k: nat)
    requires WellFormed(c, s) && s.Current(g) && s.threads[g].Joining?
    requires NoEarlyOverlap(c, s) && k < |s.runs| && s.runs[k].Alive()
    ensures WellFormed(c, LeaveJob(c, s, g, fatal)) && k < |LeaveJob(c, s, g, fatal).runs|
            && Accounted(c, LeaveJob(c, s, g, fatal), k)
  {
    assert Accounted(c, s, k);
    assert CurrentPhaseAgrees(c, s);
    hide NoEarlyOverlap;
  }

  /** Every superseded thread has ended. */
  predicate OneWorker(s: State) {
    forall g: nat | g + 1 < |s.threads| :: s.threads[g].Exited?
  }

  /** The settings spare live workers, and only the current thread lives. */
  predicate Calm(c: Config, s: State)
    requires WellFormed(c, s)
  {
    if c.selfHeal then c.Bounded() && Steady(c, s) else OneWorker(s)
  }

  lemma CalmStep(c: Config, s: State, a: Action)
    requires c.Valid() && WellFormed(c, s) && Calm(c, s) && Enabled(c, s, a)
    ensures Calm(c, Apply(c, s, a))
  {
    if c.selfHeal {
      SteadyStep(c, s, a);
    } else {
      hide IsDue, PreviousRunAlive, HeartbeatStale;
    }
  }

  lemma LiveIsSpared(c: Config, s: State)
    requires c.Valid() && WellFormed(c, s) && Calm(c, s) && s.CurrentAlive()
    ensures !(c.selfHeal && HeartbeatStale(c, s)) && OneWorker(s)
  {}

  lemma DeadIsAlone(c: Config, s: State)
    requires WellFormed(c, s) && Calm(c, s)
    ensures OneWorker(s)
  {}

  lemma OtherStepsKeepApart(c: Config, s: State, a: Action)
    requires c.Valid() && WellFormed(c, s) && Calm(c, s) && Enabled(c, s, a) && NoEarlyOverlap(c, s) && AllApart(c, s)
    requires a.Thread? ==> !s.threads[a.g].Joining? && !(s.threads[a.g].Ticking? && s.threads[a.g].job < |c.jobs|)
    ensures NoEarlyOverlap(c, Apply(c, s, a)) && AllApart(c, Apply(c, s, a))
  {
    DeadIsAlone(c, s);
    if s.CurrentAlive() {
      LiveIsSpared(c, s);
    }
    hide TakeJob, LeaveJob, HeartbeatStale, IsDue, PreviousRunAlive, Config.Timeout, Apart, Calm;
    var r := Apply(c, s, a);
    match a {
      case Start | Stop | EnsureAlive => ThreadsOnlyStep(c, s, r);
      case Thread(g, _) => ThreadsOnlyStep(c, s, r);
      case Finish(n) => FinishStep(c, s, n, r);
      case Pass(time) => PassStep(c, s, time, r);
    }
  }

  /** A step that moves at most the threads keeps every run accounted for, if none was being waited for. */
  lemma ThreadsOnlyStep(c: Config, s: State, r: State)
    requires WellFormed(c, s) && WellFormed(c, r) && NoEarlyOverlap(c, s) && AllApart(c, s)
    requires r.runs == s.runs && r.jobs == s.jobs && r.now == s.now
    requires r.threads == s.threads
             || (CurrentPhaseAgrees(c, r) && !(s.Started() && s.threads[|s.threads| - 1].Joining?))
    ensures NoEarlyOverlap(c, r) && AllApart(c, r)
  {
    hide Apart;
    forall k: nat | k < |r.runs| && r.runs[k].Alive() ensures Accounted(c, r, k) {
      assert s.runs[k].Alive();
      assert Accounted(c, s, k);
    }
  }

  lemma FinishStep(c: Config, s: State, n: nat, r: State)
    requires WellFormed(c, s) && WellFormed(c, r) && NoEarlyOverlap(c, s) && AllApart(c, s)
    requires n < |s.runs| && s.runs[n].Alive() && r == s.(runs := s.runs[n := s.runs[n].(doneAt := Some(s.now))])
    ensures NoEarlyOverlap(c, r) && AllApart(c, r)
  {
    ApartLasts(c, s, r);
    hide Apart, AllApart;
    forall k: nat | k < |r.runs| && r.runs[k].Alive() ensures Accounted(c, r, k) {
      assert s.runs[k].Alive();
      assert Accounted(c, s, k);
    }
  }

  lemma PassStep(c: Config, s: State, time: int, r: State)
    requires WellFormed(c, s) && WellFormed(c, r) && NoEarlyOverlap(c, s) && AllApart(c, s)
    requires time >= s.now && r == s.(now := time)
    ensures NoEarlyOverlap(c, r) && AllApart(c, r)
  {
    hide Apart;
    forall k: nat | k < |r.runs| && r.runs[k].Alive() ensures Accounted(c, r, k) {
      assert s.runs[k].Alive();
      assert Accounted(c, s, k);
    }
  }

  lemma OverlapStep(c: Config, s: State, a: Action)
    requires c.Valid() && WellFormed(c, s) && Calm(c, s) && Enabled(c, s, a)
    requires NoEarlyOverlap(c, s) && AllApart(c, s)
    ensures NoEarlyOverlap(c, Apply(c, s, a)) && AllApart(c, Apply(c, s, a))
  {
    DeadIsAlone(c, s);
    hide NoEarlyOverlap, AllApart, TakeJob, LeaveJob, Ensured, Calm;
    if a.Thread? && s.threads[a.g].Joining? {
      LeaveJobKeepsApart(c, s, a.g, a.fatal);
    } else if a.Thread? && s.threads[a.g].Ticking? && s.threads[a.g].job < |c.jobs| {
      TakeJobKeepsApart(c, s, a.g);
    } else {
      OtherStepsKeepApart(c, s, a);
    }
  }

  /** From any state with one live worker that the watchdog spares, over every run: each run of a job
      starts after every earlier run of that job has ended or been timed out for the grace period. */
  lemma {:induction false} NoJobStartsEarlyBesideItself(c: Config, s: State, actions: seq<Action>)
    requires c.Valid() && WellFormed(c, s) && Calm(c, s) && NoEarlyOverlap(c, s) && AllApart(c, s)
    requires Runs(c, s, actions)
    ensures Calm(c, After(c, s, actions)) && NoEarlyOverlap(c, After(c, s, actions))
            && AllApart(c, After(c, s, actions))
    decreases |actions|
  {
    hide Calm, Apply, Enabled, WellFormed, NoEarlyOverlap, AllApart;
    if |actions| > 0 {
      CalmStep(c, s, actions[0]);
      OverlapStep(c, s, actions[0]);
      NoJobStartsEarlyBesideItself(c, Apply(c, s, actions[0]), actions[1..]);
    }
  }

  // ---- A superseded thread ----------------------------------------------------------------------------

  /** How many ticks thread g begins along a list of actions. */
  function TicksBegun(c: Config, s: State, actions: seq<Action>, g: nat): nat
    requires WellFormed(c, s) && Runs(c, s, actions)
    decreases |actions|
  {
    if |actions| == 0 then 0
    else
      var begins := actions[0].Thread? && actions[0].g == g && s.threads[g].Cleared?;
      (if begins then 1 else 0) + TicksBegun(c, Apply(c, s, actions[0]), actions[1..], g)
  }

  /** Whatever the settings, a superseded thread begins at most one more tick, and only if it had
      already passed the loop's check. */
  lemma {:induction false} SupersededBeginsAtMostOneTick(c: Config, s: State, actions: seq<Action>, g: nat)
    requires WellFormed(c, s) && Runs(c, s, actions) && g + 1 < |s.threads|
    ensures TicksBegun(c, s, actions, g) <= if s.threads[g].Cleared? then 1 else 0
    decreases |actions|
  {
    hide Apply, Enabled, WellFormed;
    if |actions| > 0 {
      SupersededStep(c, s, actions[0], g);
      SupersededBeginsAtMostOneTick(c, Apply(c, s, actions[0]), actions[1..], g);
    }
  }

  lemma SupersededStep(c: Config, s: State, a: Action, g: nat)
    requires WellFormed(c, s) && Enabled(c, s, a) && g + 1 < |s.threads|
    ensures var r := Apply(c, s, a);
            && g + 1 < |r.threads|
            && (r.threads[g].Cleared? ==> s.threads[g].Cleared? && !(a.Thread? && a.g == g))
  {}

  /** From a fresh worker, with self-healing off or every job bounded, whatever happens: one live worker
      thread at most, no restart of a live one, and no job started early beside its own earlier run. */
  lemma SparedSchedulerIsSafe(c: Config, now: int, actions: seq<Action>)
    requires c.Valid() && (!c.selfHeal || c.Bounded()) && WellFormed(c, Initial(c, now))
             && Runs(c, Initial(c, now), actions)
    ensures var s := After(c, Initial(c, now), actions);
            && HungHeartbeatStale !in s.restarts && OneWorker(s) && AllApart(c, s)
  {
    hide Apply, Enabled, NoEarlyOverlap, AllApart;
    NothingRunYet(c, now);
    NoJobStartsEarlyBesideItself(c, Initial(c, now), actions);
    if !c.selfHeal {
      OffNeverHung(c, Initial(c, now), actions);
    } else {
      NoSpuriousRestart(c, Initial(c, now), actions);
    }
  }

  // ---- When a job can run beside itself ----------------------------------------------------------------

  /** A replacement at its k-th job while the thread it superseded still waits for job i: the jobs from
      i on were never finished, and none is blocked. */
  ghost predicate ReplacementAt(c: Config, s: State, i: nat, k: nat) {
    && WellFormed(c, s) && !s.stopped && i < |c.jobs| && k <= i
    && |s.threads| == 2 && s.threads[0].Joining? && s.threads[0].job == i && s.threads[1] == Ticking(s.now, k)
    && (var r := s.threads[0].run; s.runs[r].job == i && s.runs[r].Alive() && s.runs[r].timedOutAt.None?)
    && s.jobs[i].lastRun.None?
    && (forall j | 0 <= j <= i :: s.jobs[j].overrun.None?)
  }

  lemma {:induction false} HangLeavesItsRun(c: Config, i: nat) returns (actions: seq<Action>, s: State)
    requires c.Valid() && c.selfHeal && i < |c.jobs| && !(0 < c.Timeout(i) <= c.stale)
    ensures Leads(c, Initial(c, 0), actions, s) && ReplacementAt(c, s, i, 0)
  {
    hide Leads;
    actions, s := HangAtJob(c, i);
    assert s.threads == [Joining(0, i, |s.runs| - 1), Begun];
    actions, s := Do(c, Initial(c, 0), actions, s, Thread(1, false));
    actions, s := Do(c, Initial(c, 0), actions, s, Thread(1, false));
    actions, s := Do(c, Initial(c, 0), actions, s, Thread(1, false));
  }

  lemma ReplacementGoesOn(c: Config, actions0: seq<Action>, s0: State, i: nat, k: nat)
    returns (actions: seq<Action>, s: State)
    requires Leads(c, Initial(c, 0), actions0, s0) && ReplacementAt(c, s0, i, k) && k < i
    ensures Leads(c, Initial(c, 0), actions, s) && ReplacementAt(c, s, i, k + 1)
  {
    hide Leads;
    actions, s := Do(c, Initial(c, 0), actions0, s0, Thread(1, false));
    if s.threads[1].Joining? {
      assert s.threads[1] == Joining(s0.now, k, |s0.runs|);
      actions, s := Do(c, Initial(c, 0), actions, s, Finish(|s0.runs|));
      actions, s := Do(c, Initial(c, 0), actions, s, Thread(1, false));
    }
  }

  lemma {:induction false} ReplacementReaches(c: Config, i: nat, k: nat) returns (actions: seq<Action>, s: State)
    requires c.Valid() && c.selfHeal && i < |c.jobs| && !(0 < c.Timeout(i) <= c.stale) && k <= i
    ensures Leads(c, Initial(c, 0), actions, s) && ReplacementAt(c, s, i, k)
  {
    hide Leads, ReplacementAt;
    if k == 0 {
      actions, s := HangLeavesItsRun(c, i);
    } else {
      actions, s := ReplacementReaches(c, i, k - 1);
      actions, s := ReplacementGoesOn(c, actions, s, i, k - 1);
    }
  }

  /** A job without a timeout, or with one longer than the watchdog's patience, can be started by the
      replacement while its own first run goes on. */
  lemma UnboundedJobRunsBesideItself(c: Config, i: nat) returns (actions: seq<Action>)
    requires c.Valid() && c.selfHeal && i < |c.jobs| && !(0 < c.Timeout(i) <= c.stale)
    ensures WellFormed(c, Initial(c, 0)) && Runs(c, Initial(c, 0), actions)
    ensures !AllApart(c, After(c, Initial(c, 0), actions))
  {
    var s;
    actions, s := StartsBesideItself(c, i);
    LeadsMeans(c, Initial(c, 0), actions, s);
  }

  lemma StartsBesideItself(c: Config, i: nat) returns (actions: seq<Action>, s: State)
    requires c.Valid() && c.selfHeal && i < |c.jobs| && !(0 < c.Timeout(i) <= c.stale)
    ensures Leads(c, Initial(c, 0), actions, s) && !AllApart(c, s)
  {
    hide Leads;
    var before;
    actions, before := ReplacementReaches(c, i, i);
    actions, s := Do(c, Initial(c, 0), actions, before, Thread(1, false));
    var e, l := before.threads[0].run, |before.runs|;
    assert s.runs[e].job == s.runs[l].job && !Apart(c, s.runs[e], s.runs[l]);
  }

  /** No job ever starts early beside its own earlier run, over every run of the machine, exactly when
      self-healing is off or every job's effective timeout is positive and within the watchdog's
      patience. */
  lemma NoDoubleRunExactly(c: Config)
    requires c.Valid()
    ensures (!c.selfHeal || c.Bounded()) <==>
            (forall now: int, actions: seq<Action> | WellFormed(c, Initial(c, now))
             && Runs(c, Initial(c, now), actions) ::
               AllApart(c, After(c, Initial(c, now), actions)))
  {
    hide AllApart;
    if !c.selfHeal || c.Bounded() {
      forall now: int, actions: seq<Action> | WellFormed(c, Initial(c, now)) && Runs(c, Initial(c, now), actions)
        ensures AllApart(c, After(c, Initial(c, now), actions))
      {
        SparedSchedulerIsSafe(c, now, actions);
      }
    } else {
      var i: nat :| i < |c.jobs| && !(0 < c.Timeout(i) <= c.stale);
      var actions := UnboundedJobRunsBesideItself(c, i);
    }
  }

  lemma NothingRunYet(c: Config, now: int)
    ensures WellFormed(c, Initial(c, now)) && NoEarlyOverlap(c, Initial(c, now)) && AllApart(c, Initial(c, now))
  {}

  /** The state the actions lead to from the start at time zero. */
  ghost predicate Reaches(c: Config, actions: seq<Action>, s: State) {
    Leads(c, Initial(c, 0), actions, s)
  }

  lemma ReachesNext(c: Config, actions: seq<Action>, s: State, a: Action, r: State)
    requires Reaches(c, actions, s) && WellFormed(c, s) && Enabled(c, s, a) && r == Apply(c, s, a)
    ensures Reaches(c, actions + [a], r)
  {
    hide Apply, Enabled, Leads;
    LeadsNext(c, Initial(c, 0), actions, s, a);
  }

  const TEN_SECOND_JOB := JobSpec(10_000_000, None)
  const TWO_JOBS := Config([TEN_SECOND_JOB, TEN_SECOND_JOB], 5_000_000, 15_000_000, 120_000_000, None, true)

  /** The shape of the states below: the second thread, if any, was started at 16 s after a hang. */
  function TwoJobState(now: int, jobs: seq<Job>, runs: seq<Run>, threads: seq<Phase>, ticks: nat): State {
    State(now, false, jobs, runs, threads, now, ticks, if |threads| == 2 then [HungHeartbeatStale] else [])
  }

  lemma FirstJobHangs()
    ensures Reaches(TWO_JOBS, [Start] + [Thread(0, false)] + [Thread(0, false)] + [Thread(0, false)] +
                    [Thread(0, false)],
                    TwoJobState(0, [IDLE, IDLE], [Run(0, 0, None, None)], [Joining(0, 0, 0)], 1))
  {
    hide Reaches, Runs, After;
    var c, idle := TWO_JOBS, [IDLE, IDLE];
    var s0 := TwoJobState(0, idle, [], [], 0);
    assert Reaches(c, [], s0) by { StartsIdle(); }
    var s1 := TwoJobState(0, idle, [], [Begun], 0);
    ReachesNext(c, [], s0, Start, s1);
    var s2 := TwoJobState(0, idle, [], [Checking], 1);
    assert [] + [Start] == [Start];
    ReachesNext(c, [Start], s1, Thread(0, false), s2);
    var s3 := TwoJobState(0, idle, [], [Cleared], 1);
    ReachesNext(c, [Start] + [Thread(0, false)], s2, Thread(0, false), s3);
    var s4 := TwoJobState(0, idle, [], [Ticking(0, 0)], 1);
    ReachesNext(c, [Start] + [Thread(0, false)] + [Thread(0, false)], s3, Thread(0, false), s4);
    ReachesNext(c, [Start] + [Thread(0, false)] + [Thread(0, false)] + [Thread(0, false)], s4, Thread(0, false),
                TwoJobState(0, idle, [Run(0, 0, None, None)], [Joining(0, 0, 0)], 1));
  }

  lemma StartsIdle()
    ensures Reaches(TWO_JOBS, [], TwoJobState(0, [IDLE, IDLE], [], [], 0))
  {
    assert Initial(TWO_JOBS, 0).jobs == [IDLE, IDLE];
  }

  /** From 16 s of silence to the replacement at its first job. */
  lemma ReplacementTicks(actions: seq<Action>)
    requires Reaches(TWO_JOBS, actions, TwoJobState(0, [IDLE, IDLE], [Run(0, 0, None, None)], [Joining(0, 0, 0)], 1))
    ensures Reaches(TWO_JOBS, actions + [Pass(16_000_000)] + [EnsureAlive] + [Thread(1, false)] + [Thread(1, false)] +
                    [Thread(1, false)],
                    TwoJobState(16_000_000, [IDLE, IDLE], [Run(0, 0, None, None)],
                                [Joining(0, 0, 0), Ticking(16_000_000, 0)], 2))
  {
    hide Reaches, Runs, After;
    var c, idle, at, runs, hung := TWO_JOBS, [IDLE, IDLE], 16_000_000, [Run(0, 0, None, None)], Joining(0, 0, 0);
    var s0 := TwoJobState(0, idle, runs, [hung], 1);
    var s1 := s0.(now := at);
    ReachesNext(c, actions, s0, Pass(at), s1);
    var s2 := TwoJobState(at, idle, runs, [hung, Begun], 1);
    ReachesNext(c, actions + [Pass(at)], s1, EnsureAlive, s2);
    var as2 := actions + [Pass(at)] + [EnsureAlive];
    var s3 := TwoJobState(at, idle, runs, [hung, Checking], 2);
    ReachesNext(c, as2, s2, Thread(1, false), s3);
    var s4 := TwoJobState(at, idle, runs, [hung, Cleared], 2);
    ReachesNext(c, as2 + [Thread(1, false)], s3, Thread(1, false), s4);
    ReachesNext(c, as2 + [Thread(1, false)] + [Thread(1, false)], s4, Thread(1, false),
                TwoJobState(at, idle, runs, [hung, Ticking(at, 0)], 2));
  }

  /** The replacement runs the first job and starts the second. */
  lemma ReplacementStartsSecondJob(actions: seq<Action>)
    requires Reaches(TWO_JOBS, actions,
                     TwoJobState(16_000_000, [IDLE, IDLE], [Run(0, 0, None, None)],
                                 [Joining(0, 0, 0), Ticking(16_000_000, 0)], 2))
    ensures Reaches(TWO_JOBS, actions + [Thread(1, false)] + [Finish(1)] + [Thread(1, false)] + [Thread(1, false)],
                    TwoJobState(16_000_000, [Job(Some(16_000_000), None), IDLE],
                                [Run(0, 0, None, None), Run(0, 16_000_000, Some(16_000_000), None),
                                 Run(1, 16_000_000, None, None)],
                                [Joining(0, 0, 0), Joining(16_000_000, 1, 2)], 2))
  {
    hide Reaches, Runs, After;
    var c, idle, at, first, hung := TWO_JOBS, [IDLE, IDLE], 16_000_000, Run(0, 0, None, None), Joining(0, 0, 0);
    var s0 := TwoJobState(at, idle, [first], [hung, Ticking(at, 0)], 2);
    var s1 := TwoJobState(at, idle, [first, Run(0, at, None, None)], [hung, Joining(at, 0, 1)], 2);
    ReachesNext(c, actions, s0, Thread(1, false), s1);
    var again := Run(0, at, Some(at), None);
    var s2 := TwoJobState(at, idle, [first, again], [hung, Joining(at, 0, 1)], 2);
    ReachesNext(c, actions + [Thread(1, false)], s1, Finish(1), s2);
    var jobs := [Job(Some(at), None), IDLE];
    var s3 := TwoJobState(at, jobs, [first, again], [hung, Ticking(at, 1)], 2);
    ReachesNext(c, actions + [Thread(1, false)] + [Finish(1)], s2, Thread(1, false), s3);
    ReachesNext(c, actions + [Thread(1, false)] + [Finish(1)] + [Thread(1, false)], s3, Thread(1, false),
                TwoJobState(at, jobs, [first, again, Run(1, at, None, None)], [hung, Joining(at, 1, 2)], 2));
  }

  /** The first job returns on the superseded thread, which goes on to the second job. */
  lemma SupersededGoesOn(actions: seq<Action>)
    requires Reaches(TWO_JOBS, actions,
                     TwoJobState(16_000_000, [Job(Some(16_000_000), None), IDLE],
                                 [Run(0, 0, None, None), Run(0, 16_000_000, Some(16_000_000), None),
                                  Run(1, 16_000_000, None, None)],
                                 [Joining(0, 0, 0), Joining(16_000_000, 1, 2)], 2))
    ensures Reaches(TWO_JOBS, actions + [Finish(0)] + [Thread(0, false)] + [Thread(0, false)],
                    TwoJobState(16_000_000, [Job(Some(0), None), IDLE],
                                [Run(0, 0, Some(16_000_000), None), Run(0, 16_000_000, Some(16_000_000), None),
                                 Run(1, 16_000_000, None, None), Run(1, 16_000_000, None, None)],
                                [Joining(0, 1, 3), Joining(16_000_000, 1, 2)], 2))
  {
    hide Reaches, Runs, After;
    var c, at := TWO_JOBS, 16_000_000;
    var again, second, joins := Run(0, at, Some(at), None), Run(1, at, None, None), Joining(at, 1, 2);
    var s0 := TwoJobState(at, [Job(Some(at), None), IDLE], [Run(0, 0, None, None), again, second],
                          [Joining(0, 0, 0), joins], 2);
    var runs := [Run(0, 0, Some(at), None), again, second];
    var s1 := TwoJobState(at, [Job(Some(at), None), IDLE], runs, [Joining(0, 0, 0), joins], 2);
    ReachesNext(c, actions, s0, Finish(0), s1);
    var jobs := [Job(Some(0), None), IDLE];
    var s2 := TwoJobState(at, jobs, runs, [Ticking(0, 1), joins], 2);
    ReachesNext(c, actions + [Finish(0)], s1, Thread(0, false), s2);
    ReachesNext(c, actions + [Finish(0)] + [Thread(0, false)], s2, Thread(0, false),
                TwoJobState(at, jobs, [Run(0, 0, Some(at), None), again, second, Run(1, at, None, None)],
                            [Joining(0, 1, 3), joins], 2));
  }

  /** Two jobs without a timeout. The first hangs, the watchdog replaces the thread, and once the
      first job returns the superseded thread goes on with its tick: it starts the second job while
      the replacement runs it, and sets the first job's last run back. */
  lemma SupersededThreadDoubleRuns() returns (actions: seq<Action>, s: State)
    ensures TWO_JOBS.Valid() && TWO_JOBS.selfHeal && Reaches(TWO_JOBS, actions, s)
    ensures s.restarts == [HungHeartbeatStale] && s.threads == [Joining(0, 1, 3), Joining(16_000_000, 1, 2)]
    ensures |s.runs| == 4 && s.runs[2].job == s.runs[3].job == 1 && s.runs[2].Alive() && s.runs[3].Alive()
    ensures s.jobs[0].lastRun == Some(0) && s.runs[1].job == 0 && s.runs[1].doneAt == Some(16_000_000)
  {
    hide Reaches, Runs, After;
    actions := [Start] + [Thread(0, false)] + [Thread(0, false)] + [Thread(0, false)] + [Thread(0, false)];
    FirstJobHangs();
    ReplacementTicks(actions);
    actions := actions + [Pass(16_000_000)] + [EnsureAlive] + [Thread(1, false)] + [Thread(1, false)] +
      [Thread(1, false)];
    ReplacementStartsSecondJob(actions);
    actions := actions + [Thread(1, false)] + [Finish(1)] + [Thread(1, false)] + [Thread(1, false)];
    SupersededGoesOn(actions);
    actions := actions + [Finish(0)] + [Thread(0, false)] + [Thread(0, false)];
    s := TwoJobState(16_000_000, [Job(Some(0), None), IDLE],
                     [Run(0, 0, Some(16_000_000), None), Run(0, 16_000_000, Some(16_000_000), None),
                      Run(1, 16_000_000, None, None), Run(1, 16_000_000, None, None)],
                     [Joining(0, 1, 3), Joining(16_000_000, 1, 2)], 2);
  }
}
