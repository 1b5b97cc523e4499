/** When a job runs: its cadence over every run of the scheduler, and when a run is given up. */
module SchedulerCadence {
  import opened Wrappers
  import opened Scheduler
  import opened SchedulerSafety

  // ---- One visit of a job ---------------------------------------------------------------------------------

  /** Job i may start in a tick that read the clock at `tickAt`: it never ran or its interval has passed
      since the tick of its last run, and no abandoned run of it that still goes on holds it back within
      the grace period. */
  ghost predicate Ready(c: Config, s: State, tickAt: int, i: nat)
    requires WellFormed(c, s) && i < |c.jobs|
  {
    var job := s.jobs[i];
    && (job.lastRun.None? || tickAt - job.lastRun.value >= c.jobs[i].interval)
    && !(job.overrun.Some? && s.runs[job.overrun.value.run].doneAt.None?
         && tickAt - job.overrun.value.since < c.grace)
  }

  /** Thread g, in the tick of that clock reading, has come to job i. */
  ghost predicate Visits(s: State, g: nat, tickAt: int, i: nat) {
    g < |s.threads| && s.threads[g] == Ticking(tickAt, i)
  }

  /** The step of thread g on which it starts job i. */
  ghost predicate Starts(c: Config, s: State, a: Action, g: nat, tickAt: int, i: nat)
    requires WellFormed(c, s) && Enabled(c, s, a)
  {
    a.Thread? && a.g == g && Visits(s, g, tickAt, i) && i < |c.jobs|
    && Apply(c, s, a).runs == s.runs + [Run(i, s.now, None, None)]
  }

  /** A visit starts the job exactly when it is ready, and else goes on to the next one; so a tick that
      is not cut off by a fatal error runs every ready job. */
  lemma VisitStartsExactly(c: Config, s: State, a: Action, g: nat, tickAt: int, i: nat)
    requires WellFormed(c, s) && Enabled(c, s, a) && a.Thread? && a.g == g && Visits(s, g, tickAt, i) && i < |c.jobs|
    ensures Starts(c, s, a, g, tickAt, i) <==> Ready(c, s, tickAt, i)
    ensures var r := Apply(c, s, a);
            r.threads[g] == if Ready(c, s, tickAt, i) then Joining(tickAt, i, |s.runs|) else Ticking(tickAt, i + 1)
    ensures !Ready(c, s, tickAt, i) ==> Apply(c, s, a) == s.(threads := s.threads[g := Ticking(tickAt, i + 1)])
  {}

  // ---- Two starts of one job ------------------------------------------------------------------------------

  /** Thread h stops waiting for a run of job i on this step. */
  ghost predicate Leaves(s: State, a: Action, h: nat, i: nat) {
    a.Thread? && a.g == h && h < |s.threads| && s.threads[h].Joining? && s.threads[h].job == i
  }

  /** No thread but g stops waiting for a run of job i on these steps. */
  ghost predicate Undisturbed(c: Config, s: State, actions: seq<Action>, g: nat, i: nat)
    requires WellFormed(c, s) && Runs(c, s, actions)
    decreases |actions|
  {
    |actions| == 0 || ((forall h: nat | h != g :: !Leaves(s, actions[0], h, i))
                       && Undisturbed(c, Apply(c, s, actions[0]), actions[1..], g, i))
  }

  /** The clock and thread g's ticks have come to `tickAt`, and job i has been run by then or is being run. */
  ghost predicate Since(s: State, g: nat, tickAt: int, i: nat)
  {
    && i < |s.jobs| && g < |s.threads| && s.now >= tickAt
    && (s.threads[g].Ticking? || s.threads[g].Joining? ==> s.threads[g].tickAt >= tickAt)
    && ((s.jobs[i].lastRun.Some? && s.jobs[i].lastRun.value >= tickAt)
        || (s.threads[g].Joining? && s.threads[g].job == i))
  }

  lemma SinceStep(c: Config, s: State, a: Action, g: nat, tickAt: int, i: nat)
    requires WellFormed(c, s) && Enabled(c, s, a) && Since(s, g, tickAt, i)
    requires forall h: nat | h != g :: !Leaves(s, a, h, i)
    ensures Since(Apply(c, s, a), g, tickAt, i)
  {
    hide TakeJob, LeaveJob;
    if a.Thread? {
      hide Enabled, Since;
      assert a.g != g ==> !Leaves(s, a, a.g, i);
      SinceMove(c, s, a.g, a.fatal, g, tickAt, i);
    } else {
      hide MoveThread, HeartbeatStale;
    }
  }

  lemma SinceMove(c: Config, s: State, h: nat, fatal: bool, g: nat, tickAt: int, i: nat)
    requires WellFormed(c, s) && h < |s.threads| && Since(s, g, tickAt, i)
    requires h != g && s.threads[h].Joining? ==> s.threads[h].job != i
    ensures Since(MoveThread(c, s, h, fatal), g, tickAt, i)
  {
    hide TakeJob, LeaveJob;
    if s.threads[h].Joining? {
      SinceLeave(c, s, h, fatal, g, tickAt, i);
    } else if s.threads[h].Ticking? && s.threads[h].job < |c.jobs| {
      SinceTake(c, s, h, g, tickAt, i);
    }
  }

  lemma SinceTake(c: Config, s: State, h: nat, g: nat, tickAt: int, i: nat)
    requires WellFormed(c, s) && h < |s.threads| && s.threads[h].Ticking? && s.threads[h].job < |c.jobs|
    requires Since(s, g, tickAt, i)
    ensures Since(TakeJob(c, s, h), g, tickAt, i)
  {
    hide IsDue, PreviousRunAlive;
  }

  lemma SinceLeave(c: Config, s: State, h: nat, fatal: bool, g: nat, tickAt: int, i: nat)
    requires WellFormed(c, s) && h < |s.threads| && s.threads[h].Joining? && Since(s, g, tickAt, i)
    requires h != g ==> s.threads[h].job != i
    ensures Since(LeaveJob(c, s, h, fatal), g, tickAt, i)
  {}

  lemma {:induction false} SinceLasts(c: Config, s: State, actions: seq<Action>, g: nat, tickAt: int, i: nat)
    requires WellFormed(c, s) && Runs(c, s, actions) && Undisturbed(c, s, actions, g, i) && Since(s, g, tickAt, i)
    ensures Since(After(c, s, actions), g, tickAt, i)
    decreases |actions|
  {
    hide Apply, Enabled, WellFormed, Since, Leaves;
    if |actions| > 0 {
      SinceStep(c, s, actions[0], g, tickAt, i);
      SinceLasts(c, Apply(c, s, actions[0]), actions[1..], g, tickAt, i);
    }
  }

  /** Two starts of a job by one thread are at least its interval of tick time apart, under any settings,
      unless another thread stopped waiting for a run of that job in between. */
  lemma StartsOfAThreadAreApart(c: Config, s: State, a: Action, between: seq<Action>, b: Action, g: nat, i: nat,
                                first: int, second: int)
    requires WellFormed(c, s) && Enabled(c, s, a) && Runs(c, Apply(c, s, a), between) && s.now >= first
    requires Undisturbed(c, Apply(c, s, a), between, g, i)
    requires Starts(c, s, a, g, first, i)
    requires var r := After(c, Apply(c, s, a), between); Enabled(c, r, b) && Starts(c, r, b, g, second, i)
    ensures second - first >= c.jobs[i].interval
  {
    VisitStartsExactly(c, s, a, g, first, i);
    var r := After(c, Apply(c, s, a), between);
    assert Since(Apply(c, s, a), g, first, i);
    SinceLasts(c, Apply(c, s, a), between, g, first, i);
    VisitStartsExactly(c, r, b, g, second, i);
  }

  /** The current thread has come to `tickAt`, and job i has been run by then or is being run by it. */
  ghost predicate SinceAlone(s: State, tickAt: int, i: nat) {
    && i < |s.jobs| && s.now >= tickAt && |s.threads| > 0
    && var p := s.threads[|s.threads| - 1];
       && (p.Ticking? || p.Joining? ==> p.tickAt >= tickAt)
       && ((s.jobs[i].lastRun.Some? && s.jobs[i].lastRun.value >= tickAt) || (p.Joining? && p.job == i))
  }

  lemma SinceAloneStep(c: Config, s: State, a: Action, tickAt: int, i: nat)
    requires c.Valid() && WellFormed(c, s) && Calm(c, s) && Enabled(c, s, a) && SinceAlone(s, tickAt, i)
    ensures SinceAlone(Apply(c, s, a), tickAt, i)
  {
    DeadIsAlone(c, s);
    if s.CurrentAlive() {
      LiveIsSpared(c, s);
    }
    hide IsDue, PreviousRunAlive, HeartbeatStale, Calm;
  }

  lemma {:induction false} SinceAloneLasts(c: Config, s: State, actions: seq<Action>, tickAt: int, i: nat)
    requires c.Valid() && WellFormed(c, s) && Calm(c, s) && Runs(c, s, actions) && SinceAlone(s, tickAt, i)
    ensures SinceAlone(After(c, s, actions), tickAt, i) && Calm(c, After(c, s, actions))
    decreases |actions|
  {
    hide Apply, Enabled, WellFormed, SinceAlone, Calm;
    if |actions| > 0 {
      SinceAloneStep(c, s, actions[0], tickAt, i);
      CalmStep(c, s, actions[0]);
      SinceAloneLasts(c, Apply(c, s, actions[0]), actions[1..], tickAt, i);
    }
  }

  /** With self-healing off or every job bounded, any two starts of a job are at least its interval of tick
      time apart, whichever threads make them. */
  lemma StartsAreApart(c: Config, s: State, a: Action, between: seq<Action>, b: Action, g: nat, h: nat, i: nat,
                       first: int, second: int)
    requires c.Valid() && WellFormed(c, s) && Calm(c, s) && s.now >= first
    requires Enabled(c, s, a) && Runs(c, Apply(c, s, a), between) && Starts(c, s, a, g, first, i)
    requires var r := After(c, Apply(c, s, a), between); Enabled(c, r, b) && Starts(c, r, b, h, second, i)
    ensures second - first >= c.jobs[i].interval
  {
    DeadIsAlone(c, s);
    VisitStartsExactly(c, s, a, g, first, i);
    CalmStep(c, s, a);
    var r := After(c, Apply(c, s, a), between);
    assert SinceAlone(Apply(c, s, a), first, i);
    SinceAloneLasts(c, Apply(c, s, a), between, first, i);
    DeadIsAlone(c, r);
    VisitStartsExactly(c, r, b, h, second, i);
  }


  /** A tick's clock reading is never ahead of the clock. */
  ghost predicate TicksArePast(s: State) {
    forall g: nat | g < |s.threads| && (s.threads[g].Ticking? || s.threads[g].Joining?) :: s.threads[g].tickAt <= s.now
  }

  lemma TicksArePastStep(c: Config, s: State, a: Action)
    requires WellFormed(c, s) && Enabled(c, s, a) && TicksArePast(s)
    ensures TicksArePast(Apply(c, s, a))
  {
    hide IsDue, PreviousRunAlive, HeartbeatStale;
  }

  lemma {:induction false} TicksStayPast(c: Config, s: State, actions: seq<Action>)
    requires WellFormed(c, s) && Runs(c, s, actions) && TicksArePast(s)
    ensures TicksArePast(After(c, s, actions))
    decreases |actions|
  {
    hide Apply, Enabled, WellFormed, TicksArePast;
    if |actions| > 0 {
      TicksArePastStep(c, s, actions[0]);
      TicksStayPast(c, Apply(c, s, actions[0]), actions[1..]);
    }
  }

  lemma {:induction false} CalmLasts(c: Config, s: State, actions: seq<Action>)
    requires c.Valid() && WellFormed(c, s) && Calm(c, s) && Runs(c, s, actions)
    ensures Calm(c, After(c, s, actions))
    decreases |actions|
  {
    hide Apply, Enabled, WellFormed, Calm;
    if |actions| > 0 {
      CalmStep(c, s, actions[0]);
      CalmLasts(c, Apply(c, s, actions[0]), actions[1..]);
    }
  }

  /** The cadence of a worker that nothing takes for hung: from the start on, two starts of a job are at
      least its interval of tick time apart. */
  lemma CadenceIsKept(c: Config, now: int, before: seq<Action>, a: Action, between: seq<Action>, b: Action, g: nat,
                      h: nat, i: nat, first: int, second: int)
    requires c.Valid() && (!c.selfHeal || c.Bounded()) && WellFormed(c, Initial(c, now))
    requires Runs(c, Initial(c, now), before)
    requires var s := After(c, Initial(c, now), before);
             && Enabled(c, s, a) && Runs(c, Apply(c, s, a), between) && Starts(c, s, a, g, first, i)
             && var r := After(c, Apply(c, s, a), between); Enabled(c, r, b) && Starts(c, r, b, h, second, i)
    ensures second - first >= c.jobs[i].interval
  {
    var s := After(c, Initial(c, now), before);
    CalmAtFirst(c, now);
    hide Calm, Runs, After, Apply, Enabled;
    CalmLasts(c, Initial(c, now), before);
    TicksStayPast(c, Initial(c, now), before);
    StartsAreApart(c, s, a, between, b, g, h, i, first, second);
  }

  lemma CalmAtFirst(c: Config, now: int)
    requires !c.selfHeal || c.Bounded()
    ensures WellFormed(c, Initial(c, now)) && Calm(c, Initial(c, now)) && TicksArePast(Initial(c, now))
  {}

  const ONE_JOB := Config([TEN_SECOND_JOB], 5_000_000, 15_000_000, 120_000_000, None, true)

  /** What the replacement's start at 16 s finds: the superseded thread waiting for the first run. */
  ghost predicate HungBeside(s: State) {
    && s.now == 16_000_000 && !s.stopped && s.jobs == [IDLE] && s.runs == [Run(0, 0, None, None)]
    && s.threads == [Joining(0, 0, 0), Ticking(16_000_000, 0)]
  }

  lemma Hangs() returns (actions: seq<Action>, s: State)
    ensures Leads(ONE_JOB, Initial(ONE_JOB, 0), actions, s) && WellFormed(ONE_JOB, s)
    ensures s == State(0, false, [IDLE], [Run(0, 0, None, None)], [Joining(0, 0, 0)], 0, 1, [])
  {
    hide Leads;
    var c, start := ONE_JOB, Initial(ONE_JOB, 0);
    LeadsNowhere(c, start);
    actions, s := [], start;
    actions, s := Do(c, start, actions, s, Start);
    actions, s := Do(c, start, actions, s, Thread(0, false));
    actions, s := Do(c, start, actions, s, Thread(0, false));
    actions, s := Do(c, start, actions, s, Thread(0, false));
    assert s == State(0, false, [IDLE], [], [Ticking(0, 0)], 0, 1, []);
    actions, s := Do(c, start, actions, s, Thread(0, false));
  }

  lemma HangsBeside() returns (actions: seq<Action>, s: State)
    ensures Leads(ONE_JOB, Initial(ONE_JOB, 0), actions, s) && HungBeside(s)
  {
    hide Leads, Initial;
    var c, start := ONE_JOB, Initial(ONE_JOB, 0);
    actions, s := Hangs();
    actions, s := Do(c, start, actions, s, Pass(16_000_000));
    actions, s := Do(c, start, actions, s, EnsureAlive);
    assert s.threads == [Joining(0, 0, 0), Begun];
    actions, s := Do(c, start, actions, s, Thread(1, false));
    assert s.threads == [Joining(0, 0, 0), Checking];
    actions, s := Do(c, start, actions, s, Thread(1, false));
    assert s.threads == [Joining(0, 0, 0), Cleared];
    actions, s := Do(c, start, actions, s, Thread(1, false));
  }

  /** The first run returns after the second, and its thread sets the job's last run back to 0. */
  lemma SetsItBack(s0: State) returns (actions: seq<Action>, s: State)
    requires WellFormed(ONE_JOB, s0) && s0.now == 16_000_000 && !s0.stopped
    requires s0.jobs == [IDLE] && s0.runs == [Run(0, 0, None, None), Run(0, 16_000_000, None, None)]
    requires s0.threads == [Joining(0, 0, 0), Joining(16_000_000, 0, 1)]
    ensures Leads(ONE_JOB, s0, actions, s) && !s.stopped
    ensures s.jobs == [Job(Some(0), None)] && s.threads == [Exited, Ticking(21_000_000, 0)]
  {
    hide Leads;
    var c := ONE_JOB;
    LeadsNowhere(c, s0);
    actions, s := [], s0;
    actions, s := Do(c, s0, actions, s, Finish(1));
    actions, s := Do(c, s0, actions, s, Thread(1, false));
    assert s.jobs == [Job(Some(16_000_000), None)] && s.threads == [Joining(0, 0, 0), Ticking(16_000_000, 1)];
    actions, s := Do(c, s0, actions, s, Thread(1, false));
    assert s.threads == [Joining(0, 0, 0), Waiting(21_000_000)];
    actions, s := Do(c, s0, actions, s, Finish(0));
    actions, s := Do(c, s0, actions, s, Thread(0, false));
    assert s.jobs == [Job(Some(0), None)] && s.threads == [Ticking(0, 1), Waiting(21_000_000)];
    actions, s := Do(c, s0, actions, s, Thread(0, false));
    assert s.threads == [Waiting(21_000_000), Waiting(21_000_000)];
    actions, s := Do(c, s0, actions, s, Pass(21_000_000));
    actions, s := Do(c, s0, actions, s, Thread(0, false));
    actions, s := Do(c, s0, actions, s, Thread(0, false));
    assert s.threads == [Exited, Waiting(21_000_000)];
    actions, s := Do(c, s0, actions, s, Thread(1, false));
    actions, s := Do(c, s0, actions, s, Thread(1, false));
    actions, s := Do(c, s0, actions, s, Thread(1, false));
  }

  /** A ten-second job without a limit hangs and is started again by the replacement at 16 s. The first run
      returns after the second one and sets the job's last run back, and the replacement starts the job
      once more at 21 s, five seconds after its own last start. */
  lemma SupersededThreadHurriesTheJob() returns (before: seq<Action>, between: seq<Action>)
    ensures WellFormed(ONE_JOB, Initial(ONE_JOB, 0)) && Runs(ONE_JOB, Initial(ONE_JOB, 0), before)
    ensures var s, a := After(ONE_JOB, Initial(ONE_JOB, 0), before), Thread(1, false);
            && Enabled(ONE_JOB, s, a) && Starts(ONE_JOB, s, a, 1, 16_000_000, 0)
            && Runs(ONE_JOB, Apply(ONE_JOB, s, a), between)
            && var r := After(ONE_JOB, Apply(ONE_JOB, s, a), between);
               Enabled(ONE_JOB, r, a) && Starts(ONE_JOB, r, a, 1, 21_000_000, 0)
  {
    var s, r;
    before, s := HangsBeside();
    LeadsMeans(ONE_JOB, Initial(ONE_JOB, 0), before, s);
    hide Runs, After;
    VisitStartsExactly(ONE_JOB, s, Thread(1, false), 1, 16_000_000, 0);
    var s1 := Apply(ONE_JOB, s, Thread(1, false));
    assert s1.threads == [Joining(0, 0, 0), Joining(16_000_000, 0, 1)];
    between, r := SetsItBack(s1);
    LeadsMeans(ONE_JOB, s1, between, r);
    VisitStartsExactly(ONE_JOB, r, Thread(1, false), 1, 21_000_000, 0);
  }

  // ---- When a run is given up -------------------------------------------------------------------------------

  /** A job's own time limit when it has one, else the default one; zero or none is no limit. */
  ghost function Limit(c: Config, i: nat): int
    requires i < |c.jobs|
  {
    match (c.jobs[i].timeout, c.defaultTimeout)
    case (Some(own), Some(other)) => if own == 0 then other else own
    case (Some(own), None) => own
    case (None, Some(other)) => other
    case (None, None) => 0
  }

  ghost predicate WaitedFor(s: State, r: nat) {
    exists g: nat :: g < |s.threads| && s.threads[g].Joining? && s.threads[g].run == r
  }

  /** A run is given up at its job's limit to the tick, when it has one and has not ended by then, and
      never else. */
  ghost predicate GivenUpOnTime(c: Config, s: State, r: nat)
    requires WellFormed(c, s) && r < |s.runs|
  {
    var run, limit := s.runs[r], Limit(c, s.runs[r].job);
    if run.timedOutAt.Some? then limit > 0 && run.timedOutAt.value == run.startedAt + limit
    else limit > 0 ==> (if run.doneAt.Some? then run.doneAt.value else s.now) <= run.startedAt + limit
  }

  ghost predicate AllOnTime(c: Config, s: State)
    requires WellFormed(c, s)
  {
    forall r: nat | r < |s.runs| :: GivenUpOnTime(c, s, r)
  }

  /** A waiting thread waits for a run of its job that was not given up, and every run that goes on and was
      not given up is waited for by one thread. */
  ghost predicate Awaited(c: Config, s: State)
    requires WellFormed(c, s)
  {
    && (forall g: nat | g < |s.threads| && s.threads[g].Joining? ::
          s.runs[s.threads[g].run].job == s.threads[g].job && s.runs[s.threads[g].run].timedOutAt.None?)
    && (forall r: nat | r < |s.runs| && s.runs[r].doneAt.None? && s.runs[r].timedOutAt.None? :: WaitedFor(s, r))
    && (forall g: nat, h: nat | g < h < |s.threads| && s.threads[g].Joining? && s.threads[h].Joining? ::
          s.threads[g].run != s.threads[h].run)
  }

  lemma LimitIsTheTimeout(c: Config, i: nat)
    requires i < |c.jobs|
    ensures c.Timeout(i) == Limit(c, i)
  {}

  lemma OnTimeStep(c: Config, s: State, a: Action)
    requires WellFormed(c, s) && Enabled(c, s, a) && AllOnTime(c, s) && Awaited(c, s)
    ensures AllOnTime(c, Apply(c, s, a)) && Awaited(c, Apply(c, s, a))
  {
    hide MoveThread, Limit, HeartbeatStale;
    var t := Apply(c, s, a);
    match a
    case Thread(g, fatal) => OnTimeMove(c, s, g, fatal);
    case Pass(time) =>
      PassIsOnTime(c, s, time);
    case Finish(r) =>
      FinishIsOnTime(c, s, r);
    case _ =>
      SameThreadsAwait(c, s, t);
  }

  /** A step that changes no run and starts or ends no wait. */
  lemma SameThreadsAwait(c: Config, s: State, t: State)
    requires WellFormed(c, s) && WellFormed(c, t) && AllOnTime(c, s) && Awaited(c, s)
    requires t.runs == s.runs && t.now == s.now && |s.threads| <= |t.threads|
    requires forall g: nat | g < |s.threads| ::
             s.threads[g] == t.threads[g] || (!s.threads[g].Joining? && !t.threads[g].Joining?)
    requires forall g: nat | |s.threads| <= g < |t.threads| :: !t.threads[g].Joining?
    ensures AllOnTime(c, t) && Awaited(c, t)
  {
    hide Limit, WellFormed;
    forall r: nat | r < |t.runs| ensures GivenUpOnTime(c, t, r) {
      assert GivenUpOnTime(c, s, r);
    }
    forall r: nat | WaitedFor(s, r) ensures WaitedFor(t, r) {
      var g: nat :| g < |s.threads| && s.threads[g].Joining? && s.threads[g].run == r;
      assert t.threads[g].Joining?;
    }
  }

  lemma PassIsOnTime(c: Config, s: State, time: int)
    requires WellFormed(c, s) && Enabled(c, s, Pass(time)) && AllOnTime(c, s) && Awaited(c, s)
    ensures AllOnTime(c, s.(now := time)) && Awaited(c, s.(now := time))
  {
    var t := s.(now := time);
    hide Limit;
    forall r: nat | r < |t.runs| ensures GivenUpOnTime(c, t, r) {
      assert GivenUpOnTime(c, s, r);
      if s.runs[r].timedOutAt.None? && s.runs[r].doneAt.None? {
        assert WaitedFor(s, r);
        var g: nat :| g < |s.threads| && s.threads[g].Joining? && s.threads[g].run == r;
        assert LetsPass(c, s, s.threads[g], time);
        LimitIsTheTimeout(c, s.threads[g].job);
      }
    }
    forall r: nat | WaitedFor(s, r) ensures WaitedFor(t, r) {
      var g: nat :| g < |s.threads| && s.threads[g].Joining? && s.threads[g].run == r;
      assert t.threads[g].Joining?;
    }
  }

  lemma FinishIsOnTime(c: Config, s: State, n: nat)
    requires WellFormed(c, s) && Enabled(c, s, Finish(n)) && AllOnTime(c, s) && Awaited(c, s)
    ensures AllOnTime(c, Apply(c, s, Finish(n))) && Awaited(c, Apply(c, s, Finish(n)))
  {
    var t := Apply(c, s, Finish(n));
    hide Limit;
    forall r: nat | r < |t.runs| ensures GivenUpOnTime(c, t, r) {
      assert GivenUpOnTime(c, s, r);
    }
    forall r: nat | WaitedFor(s, r) ensures WaitedFor(t, r) {
      var g: nat :| g < |s.threads| && s.threads[g].Joining? && s.threads[g].run == r;
      assert t.threads[g].Joining?;
    }
  }

  lemma OnTimeMove(c: Config, s: State, g: nat, fatal: bool)
    requires WellFormed(c, s) && g < |s.threads| && CanMove(c, s, s.threads[g]) && AllOnTime(c, s) && Awaited(c, s)
    ensures WellFormed(c, MoveThread(c, s, g, fatal))
    ensures AllOnTime(c, MoveThread(c, s, g, fatal)) && Awaited(c, MoveThread(c, s, g, fatal))
  {
    hide TakeJob, LeaveJob, AllOnTime, Awaited, Limit;
    MoveFits(c, s, g, fatal);
    if s.threads[g].Joining? {
      LeaveIsOnTime(c, s, g, fatal);
    } else if s.threads[g].Ticking? && s.threads[g].job < |c.jobs| {
      TakeIsOnTime(c, s, g);
    } else {
      SameThreadsAwait(c, s, MoveThread(c, s, g, fatal));
    }
  }

  lemma TakeIsOnTime(c: Config, s: State, g: nat)
    requires WellFormed(c, s) && g < |s.threads| && s.threads[g].Ticking? && s.threads[g].job < |c.jobs|
    requires AllOnTime(c, s) && Awaited(c, s)
    ensures WellFormed(c, TakeJob(c, s, g))
    ensures AllOnTime(c, TakeJob(c, s, g)) && Awaited(c, TakeJob(c, s, g))
  {
    hide IsDue, PreviousRunAlive, Limit;
    var t := TakeJob(c, s, g);
    TakeJobFits(c, s, g);
    forall r: nat | r < |t.runs| ensures GivenUpOnTime(c, t, r) {
      assert r < |s.runs| ==> GivenUpOnTime(c, s, r);
    }
    forall r: nat | WaitedFor(s, r) ensures WaitedFor(t, r) {
      var h: nat :| h < |s.threads| && s.threads[h].Joining? && s.threads[h].run == r;
      assert t.threads[h].Joining?;
    }
    assert t.threads[g].Joining? ==> WaitedFor(t, |s.runs|);
  }

  lemma LeaveIsOnTime(c: Config, s: State, g: nat, fatal: bool)
    requires WellFormed(c, s) && g < |s.threads| && s.threads[g].Joining? && CanMove(c, s, s.threads[g])
    requires AllOnTime(c, s) && Awaited(c, s)
    ensures WellFormed(c, LeaveJob(c, s, g, fatal))
    ensures AllOnTime(c, LeaveJob(c, s, g, fatal)) && Awaited(c, LeaveJob(c, s, g, fatal))
  {
    hide Limit;
    var t, left := LeaveJob(c, s, g, fatal), s.threads[g].run;
    LeaveJobFits(c, s, g, fatal);
    LimitIsTheTimeout(c, s.threads[g].job);
    forall r: nat | r < |t.runs| ensures GivenUpOnTime(c, t, r) {
      assert GivenUpOnTime(c, s, r);
    }
    forall r: nat | r != left && WaitedFor(s, r) ensures WaitedFor(t, r) {
      var h: nat :| h < |s.threads| && s.threads[h].Joining? && s.threads[h].run == r;
      assert t.threads[h].Joining?;
    }
  }

  lemma {:induction false} StaysOnTime(c: Config, s: State, actions: seq<Action>)
    requires WellFormed(c, s) && Runs(c, s, actions) && AllOnTime(c, s) && Awaited(c, s)
    ensures AllOnTime(c, After(c, s, actions)) && Awaited(c, After(c, s, actions))
    decreases |actions|
  {
    hide Apply, Enabled, WellFormed, AllOnTime, Awaited;
    if |actions| > 0 {
      OnTimeStep(c, s, actions[0]);
      StaysOnTime(c, Apply(c, s, actions[0]), actions[1..]);
    }
  }

  /** Under any settings, over every run: a job's run is given up exactly at the job's own limit or the
      default one, and only when it has one and has not ended by then. */
  lemma RunsAreGivenUpOnTime(c: Config, now: int, actions: seq<Action>)
    requires WellFormed(c, Initial(c, now)) && Runs(c, Initial(c, now), actions)
    ensures AllOnTime(c, After(c, Initial(c, now), actions))
  {
    hide Apply, Enabled;
    StaysOnTime(c, Initial(c, now), actions);
  }
}
