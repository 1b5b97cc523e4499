/** The background scheduler: one supervised thread at a time that runs the due jobs, timed-out jobs
    left running on abandoned threads, and a watchdog that replaces a dead or silent thread.

    Times are microseconds. The machine takes one step at a time; bookkeeping takes no time, so the
    clock moves only while every live worker thread sleeps or waits for a job that still runs, and
    never past the end of that sleep or of that job's timeout. */
module Scheduler {
  import opened Wrappers

  const SECOND := 1_000_000

  datatype JobSpec = JobSpec(interval: int, timeout: Option<int>)

  /** Settings as the constructor leaves them. */
  datatype Config = Config(jobs: seq<JobSpec>, tick: int, stale: int, grace: int, defaultTimeout: Option<int>,
                           selfHeal: bool) {
    predicate Valid() { tick >= SECOND && stale >= 3 * tick }

    /** A job's own timeout unless it is unset or zero, else the default; none is zero. */
    function Timeout(i: nat): int
      requires i < |jobs|
    {
      if jobs[i].timeout.Some? && jobs[i].timeout.value != 0 then jobs[i].timeout.value
      else if defaultTimeout.Some? then defaultTimeout.value
      else 0
    }

    /** Every job runs on a thread of its own and is given up before the watchdog's patience ends. */
    predicate Bounded() {
      forall i: nat | i < |jobs| :: 0 < Timeout(i) <= stale
    }
  }

  datatype Overrun = Overrun(run: nat, since: int)
  datatype Job = Job(lastRun: Option<int>, overrun: Option<Overrun>)

  /** One run of a job, kept after it ends. */
  datatype Run = Run(job: nat, startedAt: int, doneAt: Option<int>, timedOutAt: Option<int>) {
    predicate Alive() { doneAt.None? }
  }

  /** Where a worker thread stands. `Cleared` is between the loop's check and the tick's clock reading. */
  datatype Phase =
    | Begun
    | Checking
    | Cleared
    | Ticking(tickAt: int, job: nat)
    | Joining(tickAt: int, job: nat, run: nat)
    | Waiting(until: int)
    | Exited

  datatype Reason = HungHeartbeatStale | ThreadDied

  /** Thread g is the one started under generation g; the current one is the last. */
  datatype State = State(now: int, stopped: bool, jobs: seq<Job>, runs: seq<Run>, threads: seq<Phase>,
                         lastBeat: int, ticks: nat, restarts: seq<Reason>) {
    predicate Started() { |threads| > 0 }

    predicate CurrentAlive() { Started() && !threads[|threads| - 1].Exited? }

    predicate Current(g: nat) { g + 1 == |threads| }
  }

  datatype Action =
    | Start
    | Stop
    | EnsureAlive
    | Thread(g: nat, fatal: bool)
    | Finish(run: nat)
    | Pass(time: int)

  function Initial(c: Config, now: int): State {
    State(now, false, seq(|c.jobs|, _ => Job(None, None)), [], [], now, 0, [])
  }

  // ---- The decisions of the source --------------------------------------------------------------------

  predicate IsDue(spec: JobSpec, job: Job, tickAt: int) {
    job.lastRun.None? || tickAt - job.lastRun.value >= spec.interval
  }

  /** An abandoned run of the job still blocks it. */
  predicate PreviousRunAlive(c: Config, s: State, job: Job, tickAt: int) {
    && job.overrun.Some? && job.overrun.value.run < |s.runs| && s.runs[job.overrun.value.run].Alive()
    && tickAt - job.overrun.value.since < c.grace
  }

  predicate HeartbeatStale(c: Config, s: State) {
    s.now - s.lastBeat > c.stale
  }

  function Spawn(s: State): State {
    s.(lastBeat := s.now, threads := s.threads + [Begun])
  }

  function Restart(s: State, reason: Reason): State {
    Spawn(s.(restarts := s.restarts + [reason]))
  }

  function Ensured(c: Config, s: State): State {
    if s.stopped || !s.Started() then s
    else if !s.CurrentAlive() then Restart(s, ThreadDied)
    else if c.selfHeal && HeartbeatStale(c, s) then Restart(s, HungHeartbeatStale)
    else s
  }

  /** The job body of a tick: skip it, or beat and start a run. */
  function TakeJob(c: Config, s: State, g: nat): State
    requires g < |s.threads| && s.threads[g].Ticking? && s.threads[g].job < |c.jobs| == |s.jobs|
  {
    var p := s.threads[g];
    var i := p.job;
    if !IsDue(c.jobs[i], s.jobs[i], p.tickAt) || PreviousRunAlive(c, s, s.jobs[i], p.tickAt) then
      s.(threads := s.threads[g := Ticking(p.tickAt, i + 1)])
    else
      s.(lastBeat := s.now,
         jobs := s.jobs[i := s.jobs[i].(overrun := None)],
         runs := s.runs + [Run(i, s.now, None, None)],
         threads := s.threads[g := Joining(p.tickAt, i, |s.runs|)])
  }

  /** The job's thread ended, or its timeout came first and it is left running. */
  function LeaveJob(c: Config, s: State, g: nat, fatal: bool): State
    requires g < |s.threads| && s.threads[g].Joining? && s.threads[g].job < |s.jobs| && s.threads[g].run < |s.runs|
  {
    var p := s.threads[g];
    var job := s.jobs[p.job].(lastRun := Some(p.tickAt));
    if !s.runs[p.run].Alive() then
      s.(jobs := s.jobs[p.job := job],
         threads := s.threads[g := if fatal then Exited else Ticking(p.tickAt, p.job + 1)])
    else
      s.(jobs := s.jobs[p.job := if c.grace > 0 then job.(overrun := Some(Overrun(p.run, s.now))) else job],
         runs := s.runs[p.run := s.runs[p.run].(timedOutAt := Some(s.now))],
         threads := s.threads[g := Ticking(p.tickAt, p.job + 1)])
  }

  /** Indices in range. */
  predicate WellFormed(c: Config, s: State) {
    && |s.jobs| == |c.jobs|
    && (forall r: nat | r < |s.runs| :: s.runs[r].job < |c.jobs|)
    && (forall g: nat | g < |s.threads| :: PhaseFits(c, s, s.threads[g]))
    && (forall i: nat | i < |s.jobs| && s.jobs[i].overrun.Some? :: s.jobs[i].overrun.value.run < |s.runs|)
  }

  predicate PhaseFits(c: Config, s: State, p: Phase) {
    && (p.Ticking? ==> p.job <= |c.jobs|)
    && (p.Joining? ==> p.job < |c.jobs| && p.run < |s.runs|)
  }

  /** The thread can move now. A fatal error is one a job raises that is not an ordinary exception. */
  predicate CanMove(c: Config, s: State, p: Phase)
    requires PhaseFits(c, s, p)
  {
    match p
    case Exited => false
    case Waiting(until) => s.stopped || s.now >= until
    case Joining(_, i, r) => !s.runs[r].Alive() || (c.Timeout(i) > 0 && s.now >= s.runs[r].startedAt + c.Timeout(i))
    case _ => true
  }

  /** The clock may move to `time` past this thread. */
  predicate LetsPass(c: Config, s: State, p: Phase, time: int)
    requires PhaseFits(c, s, p)
  {
    match p
    case Exited => true
    case Waiting(until) => !s.stopped && time <= until
    case Joining(_, i, r) => s.runs[r].Alive() && (c.Timeout(i) > 0 ==> time <= s.runs[r].startedAt + c.Timeout(i))
    case _ => false
  }

  function MoveThread(c: Config, s: State, g: nat, fatal: bool): State
    requires WellFormed(c, s) && g < |s.threads|
  {
    match s.threads[g]
    case Begun => s.(lastBeat := s.now, ticks := s.ticks + 1, threads := s.threads[g := Checking])
    case Checking => s.(threads := s.threads[g := if s.stopped || !s.Current(g) then Exited else Cleared])
    case Cleared => s.(threads := s.threads[g := Ticking(s.now, 0)])
    case Ticking(_, i) =>
      if i == |c.jobs| then s.(lastBeat := s.now, ticks := s.ticks + 1,
                               threads := s.threads[g := Waiting(s.now + c.tick)])
      else TakeJob(c, s, g)
    case Joining(_, _, _) => LeaveJob(c, s, g, fatal)
    case Waiting(_) => s.(threads := s.threads[g := Checking])
    case Exited => s
  }

  predicate Enabled(c: Config, s: State, a: Action)
    requires WellFormed(c, s)
  {
    match a
    case Start | Stop | EnsureAlive => true
    case Thread(g, fatal) => g < |s.threads| && CanMove(c, s, s.threads[g])
    case Finish(r) => r < |s.runs| && s.runs[r].Alive()
    case Pass(time) => time >= s.now && forall g: nat | g < |s.threads| :: LetsPass(c, s, s.threads[g], time)
  }

  function Next(c: Config, s: State, a: Action): State
    requires WellFormed(c, s) && Enabled(c, s, a)
  {
    match a
    case Start => if s.CurrentAlive() then s else Spawn(s.(stopped := false))
    case Stop => s.(stopped := true)
    case EnsureAlive => Ensured(c, s)
    case Thread(g, fatal) => MoveThread(c, s, g, fatal)
    case Finish(r) => s.(runs := s.runs[r := s.runs[r].(doneAt := Some(s.now))])
    case Pass(time) => s.(now := time)
  }

  lemma TakeJobFits(c: Config, s: State, g: nat)
    requires WellFormed(c, s) && g < |s.threads| && s.threads[g].Ticking? && s.threads[g].job < |c.jobs|
    ensures WellFormed(c, TakeJob(c, s, g))
  {
    hide IsDue, PreviousRunAlive;
  }

  lemma LeaveJobFits(c: Config, s: State, g: nat, fatal: bool)
    requires WellFormed(c, s) && g < |s.threads| && s.threads[g].Joining?
    ensures WellFormed(c, LeaveJob(c, s, g, fatal))
  {}

  lemma MoveFits(c: Config, s: State, g: nat, fatal: bool)
    requires WellFormed(c, s) && g < |s.threads|
    ensures WellFormed(c, MoveThread(c, s, g, fatal))
  {
    hide TakeJob, LeaveJob;
    if s.threads[g].Joining? {
      LeaveJobFits(c, s, g, fatal);
    } else if s.threads[g].Ticking? && s.threads[g].job < |c.jobs| {
      TakeJobFits(c, s, g);
    }
  }

  lemma NextFits(c: Config, s: State, a: Action)
    requires WellFormed(c, s) && Enabled(c, s, a)
    ensures WellFormed(c, Next(c, s, a))
  {
    hide TakeJob, LeaveJob, MoveThread, HeartbeatStale;
    if a.Thread? {
      MoveFits(c, s, a.g, a.fatal);
    }
  }

  function Apply(c: Config, s: State, a: Action): (r: State)
    requires WellFormed(c, s) && Enabled(c, s, a)
    ensures WellFormed(c, r)
  {
    NextFits(c, s, a);
    Next(c, s, a)
  }

  // ---- Runs of the machine ---------------------------------------------------------------------------

  /** Every action of the list is enabled where it stands. */
  predicate Runs(c: Config, s: State, actions: seq<Action>)
    requires WellFormed(c, s)
    decreases |actions|
  {
    |actions| == 0 || (Enabled(c, s, actions[0]) && Runs(c, Apply(c, s, actions[0]), actions[1..]))
  }

  function After(c: Config, s: State, actions: seq<Action>): (r: State)
    requires WellFormed(c, s) && Runs(c, s, actions)
    ensures WellFormed(c, r)
    decreases |actions|
  {
    if |actions| == 0 then s else After(c, Apply(c, s, actions[0]), actions[1..])
  }

  /** A list of actions followed by one more. */
  lemma {:induction false} OneMore(c: Config, s: State, actions: seq<Action>, a: Action)
    requires WellFormed(c, s) && Runs(c, s, actions) && Enabled(c, After(c, s, actions), a)
    ensures Runs(c, s, actions + [a])
    ensures After(c, s, actions + [a]) == Apply(c, After(c, s, actions), a)
    decreases |actions|
  {
    hide Apply, Enabled, WellFormed;
    if |actions| == 0 {
      assert actions + [a] == [a];
      assert [a][1..] == [];
    } else {
      OneMore(c, Apply(c, s, actions[0]), actions[1..], a);
      assert (actions + [a])[1..] == actions[1..] + [a];
    }
  }

  /** The actions are a run from s, and r is where it ends. */
  ghost predicate Leads(c: Config, s: State, actions: seq<Action>, r: State) {
    WellFormed(c, s) && Runs(c, s, actions) && r == After(c, s, actions)
  }

  lemma LeadsNext(c: Config, s: State, actions: seq<Action>, r: State, a: Action)
    requires Leads(c, s, actions, r) && WellFormed(c, r) && Enabled(c, r, a)
    ensures Leads(c, s, actions + [a], Apply(c, r, a))
  {
    hide Apply, Enabled;
    OneMore(c, s, actions, a);
  }

  lemma LeadsNowhere(c: Config, s: State)
    requires WellFormed(c, s)
    ensures Leads(c, s, [], s)
  {}

  lemma Do(c: Config, s: State, actions: seq<Action>, r: State, a: Action) returns (longer: seq<Action>, next: State)
    requires Leads(c, s, actions, r) && WellFormed(c, r) && Enabled(c, r, a)
    ensures longer == actions + [a] && next == Apply(c, r, a) && Leads(c, s, longer, next)
  {
    hide Leads, Apply, Enabled;
    LeadsNext(c, s, actions, r, a);
    longer := actions + [a];
    next := Apply(c, r, a);
  }

  lemma LeadsMeans(c: Config, s: State, actions: seq<Action>, r: State)
    requires Leads(c, s, actions, r)
    ensures WellFormed(c, s) && Runs(c, s, actions) && After(c, s, actions) == r
  {
    hide WellFormed;
  }

  lemma {:induction false} OneAfterOther(c: Config, s: State, a: seq<Action>, b: seq<Action>)
    requires WellFormed(c, s) && Runs(c, s, a) && Runs(c, After(c, s, a), b)
    ensures Runs(c, s, a + b) && After(c, s, a + b) == After(c, After(c, s, a), b)
    decreases |a|
  {
    hide Apply, Enabled, WellFormed;
    if |a| == 0 {
      assert a + b == b;
    } else {
      OneAfterOther(c, Apply(c, s, a[0]), a[1..], b);
      assert (a + b)[1..] == a[1..] + b;
    }
  }

  lemma LeadsJoin(c: Config, s: State, a: seq<Action>, m: State, b: seq<Action>, r: State) returns (joined: seq<Action>)
    requires Leads(c, s, a, m) && Leads(c, m, b, r)
    ensures joined == a + b && Leads(c, s, joined, r)
  {
    OneAfterOther(c, s, a, b);
    joined := a + b;
  }
}
