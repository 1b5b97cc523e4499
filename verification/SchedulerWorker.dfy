/** The worker's own code, method by method, as steps and runs of the scheduler's machine. */
module SchedulerWorker {
  import opened Wrappers
  import opened Scheduler
  import SchedulerCadence

  /** How a job's run goes on from its start. */
  datatype Outcome = Ends(duration: nat, how: Ending) | Hangs

  /** A job returns, raises an ordinary exception, which the tick records and goes on from, or raises a
      fatal one, which ends the worker thread. */
  datatype Ending = Returned | Raised | Fatal

  /** The worker thread alone: every superseded thread has ended and it is at its k-th job. */
  predicate Alone(c: Config, s: State, tickAt: int, k: nat) {
    && WellFormed(c, s) && !s.stopped && s.Started() && s.threads[|s.threads| - 1] == Ticking(tickAt, k)
    && k <= |c.jobs|
    && (forall g: nat | g + 1 < |s.threads| :: s.threads[g].Exited?)
  }

  /** The jobs a tick runs, when nothing but the tick touches the jobs. */
  function DueFrom(c: Config, s: State, tickAt: int, k: nat): seq<nat>
    requires |s.jobs| == |c.jobs| && k <= |c.jobs|
    decreases |c.jobs| - k
  {
    if k == |c.jobs| then []
    else (if Takes(c, s, tickAt, k) then [k] else []) + DueFrom(c, s, tickAt, k + 1)
  }

  predicate Takes(c: Config, s: State, tickAt: int, i: nat)
    requires i < |c.jobs| == |s.jobs|
  {
    IsDue(c.jobs[i], s.jobs[i], tickAt) && !PreviousRunAlive(c, s, s.jobs[i], tickAt)
  }

  /** A tick's jobs are those that are ready, in order. */
  lemma {:induction false} DueAreTheReady(c: Config, s: State, tickAt: int, k: nat)
    requires WellFormed(c, s) && k <= |c.jobs|
    ensures var due := DueFrom(c, s, tickAt, k);
            && (forall i: nat :: i in due <==> k <= i < |c.jobs| && SchedulerCadence.Ready(c, s, tickAt, i))
            && (forall m, n | 0 <= m < n < |due| :: due[m] < due[n])
    decreases |c.jobs| - k
  {
    if k < |c.jobs| {
      assert Takes(c, s, tickAt, k) <==> SchedulerCadence.Ready(c, s, tickAt, k);
      hide Takes, SchedulerCadence.Ready;
      DueAreTheReady(c, s, tickAt, k + 1);
      var rest := DueFrom(c, s, tickAt, k + 1);
      forall m | 0 <= m < |rest| ensures rest[m] > k {
        assert rest[m] in rest;
      }
    }
  }

  /** The jobs run are those that were ready when the tick began, in order, or the first of them when a
      fatal error ended it. */
  ghost predicate RunsTheReady(c: Config, s: State, tickAt: int, ran: seq<nat>, died: bool)
    requires WellFormed(c, s)
  {
    exists ready :: ListsTheReady(c, s, tickAt, ready) && if died then ran <= ready else ran == ready
  }

  ghost predicate ListsTheReady(c: Config, s: State, tickAt: int, ready: seq<nat>)
    requires WellFormed(c, s)
  {
    && (forall i: nat :: i in ready <==> i < |c.jobs| && SchedulerCadence.Ready(c, s, tickAt, i))
    && (forall m, n | 0 <= m < n < |ready| :: ready[m] < ready[n])
  }

  lemma ReadyRan(c: Config, s: State, tickAt: int, ran: seq<nat>, died: bool)
    requires WellFormed(c, s)
    requires if died then ran <= DueFrom(c, s, tickAt, 0) else ran == DueFrom(c, s, tickAt, 0)
    ensures RunsTheReady(c, s, tickAt, ran, died)
  {
    DueAreTheReady(c, s, tickAt, 0);
    hide DueFrom, SchedulerCadence.Ready;
    assert ListsTheReady(c, s, tickAt, DueFrom(c, s, tickAt, 0));
  }

  predicate EndsInTime(c: Config, i: nat, outcome: Outcome)
    requires i < |c.jobs|
  {
    outcome.Ends? && (c.Timeout(i) <= 0 || outcome.duration <= c.Timeout(i))
  }

  /** The job is taken and its fatal error reaches the worker thread. */
  predicate Dies(c: Config, s: State, tickAt: int, i: nat, outcome: Outcome)
    requires i < |c.jobs| == |s.jobs|
  {
    Takes(c, s, tickAt, i) && EndsInTime(c, i, outcome) && outcome.how.Fatal?
  }

  /** The worker alone, after its i-th job: skipped, run to its end, or left running at its timeout. */
  function AfterJob(c: Config, s: State, tickAt: int, i: nat, outcome: Outcome): State
    requires Alone(c, s, tickAt, i) && i < |c.jobs|
    requires c.Timeout(i) <= 0 ==> outcome.Ends?
  {
    var threads := s.threads[|s.threads| - 1 := if Dies(c, s, tickAt, i, outcome) then Exited
                             else Ticking(tickAt, i + 1)];
    if !Takes(c, s, tickAt, i) then s.(threads := threads)
    else if EndsInTime(c, i, outcome) then
      var end := s.now + outcome.duration;
      s.(now := end, lastBeat := s.now, jobs := s.jobs[i := Job(Some(tickAt), None)],
         runs := s.runs + [Run(i, s.now, Some(end), None)], threads := threads)
    else
      var end := s.now + c.Timeout(i);
      s.(now := end, lastBeat := s.now,
         jobs := s.jobs[i := Job(Some(tickAt), if c.grace > 0 then Some(Overrun(|s.runs|, end)) else None)],
         runs := s.runs + [Run(i, s.now, None, Some(end))], threads := threads)
  }

  lemma OverrunsFit(c: Config, s: State, i: nat)
    requires WellFormed(c, s) && i < |c.jobs|
    ensures |s.jobs| == |c.jobs| && (s.jobs[i].overrun.Some? ==> s.jobs[i].overrun.value.run < |s.runs|)
  {}

  /** The closed form of a job step is a run of the machine, and leaves the later jobs as they were. */
  lemma JobIsARun(c: Config, s: State, tickAt: int, i: nat, outcome: Outcome) returns (trace: seq<Action>)
    requires Alone(c, s, tickAt, i) && i < |c.jobs|
    requires c.Timeout(i) <= 0 ==> outcome.Ends?
    ensures Leads(c, s, trace, AfterJob(c, s, tickAt, i, outcome))
  {
    hide Leads;
    var g := |s.threads| - 1;
    var r;
    if !Takes(c, s, tickAt, i) {
      LeadsNowhere(c, s);
      trace, r := Do(c, s, [], s, Thread(g, false));
    } else if EndsInTime(c, i, outcome) {
      trace, r := RanToItsEnd(c, s, g, s.now + outcome.duration, outcome.how.Fatal?);
    } else {
      trace, r := RanPastItsTimeout(c, s, g);
    }
  }

  lemma JobLeavesAlone(c: Config, s: State, tickAt: int, i: nat, outcome: Outcome)
    requires Alone(c, s, tickAt, i) && i < |c.jobs|
    requires c.Timeout(i) <= 0 ==> outcome.Ends?
    ensures var r := AfterJob(c, s, tickAt, i, outcome);
            && (if Dies(c, s, tickAt, i, outcome) then r.threads[|s.threads| - 1].Exited?
                else Alone(c, r, tickAt, i + 1))
            && |r.threads| == |s.threads| && s.runs <= r.runs && |r.jobs| == |c.jobs|
            && (forall j | 0 <= j < |c.jobs| && j != i :: r.jobs[j] == s.jobs[j])
  {
    hide Takes, EndsInTime, Config.Timeout;
  }

  /** Whether a job is taken does not change while the tick runs other jobs. */
  lemma TakesLasts(c: Config, s: State, r: State, tickAt: int, i: nat)
    requires WellFormed(c, s) && |r.jobs| == |c.jobs| && i < |c.jobs|
    requires r.jobs[i] == s.jobs[i] && s.runs <= r.runs
    ensures Takes(c, r, tickAt, i) == Takes(c, s, tickAt, i)
  {}

  lemma RanToItsEnd(c: Config, s: State, g: nat, end: int, fatal: bool) returns (trace: seq<Action>, r: State)
    requires WellFormed(c, s) && s.Current(g) && s.threads[g].Ticking?
             && Alone(c, s, s.threads[g].tickAt, s.threads[g].job)
    requires s.threads[g].job < |c.jobs|
    requires IsDue(c.jobs[s.threads[g].job], s.jobs[s.threads[g].job], s.threads[g].tickAt)
    requires !PreviousRunAlive(c, s, s.jobs[s.threads[g].job], s.threads[g].tickAt)
    requires end >= s.now && (c.Timeout(s.threads[g].job) > 0 ==> end <= s.now + c.Timeout(s.threads[g].job))
    ensures Leads(c, s, trace, r)
    ensures var i, at := s.threads[g].job, s.threads[g].tickAt;
            r == s.(now := end, lastBeat := s.now, jobs := s.jobs[i := Job(Some(at), None)],
                    runs := s.runs + [Run(i, s.now, Some(end), None)],
                    threads := s.threads[g := if fatal then Exited else Ticking(at, i + 1)])
  {
    hide Leads, IsDue, PreviousRunAlive, Config.Timeout;
    var i, at, n := s.threads[g].job, s.threads[g].tickAt, |s.runs|;
    LeadsNowhere(c, s);
    var idle := s.jobs[i := s.jobs[i].(overrun := None)];
    var joining := s.threads[g := Joining(at, i, n)];
    trace, r := Do(c, s, [], s, Thread(g, false));
    assert r == s.(lastBeat := s.now, jobs := idle, runs := s.runs + [Run(i, s.now, None, None)], threads := joining);
    trace, r := Do(c, s, trace, r, Pass(end));
    trace, r := Do(c, s, trace, r, Finish(n));
    assert r == s.(now := end, lastBeat := s.now, jobs := idle, runs := s.runs + [Run(i, s.now, Some(end), None)],
                   threads := joining);
    trace, r := Do(c, s, trace, r, Thread(g, fatal));
  }

  lemma RanPastItsTimeout(c: Config, s: State, g: nat) returns (trace: seq<Action>, r: State)
    requires WellFormed(c, s) && s.Current(g) && s.threads[g].Ticking?
             && Alone(c, s, s.threads[g].tickAt, s.threads[g].job)
    requires s.threads[g].job < |c.jobs| && c.Timeout(s.threads[g].job) > 0
    requires IsDue(c.jobs[s.threads[g].job], s.jobs[s.threads[g].job], s.threads[g].tickAt)
    requires !PreviousRunAlive(c, s, s.jobs[s.threads[g].job], s.threads[g].tickAt)
    ensures Leads(c, s, trace, r)
    ensures var i, at := s.threads[g].job, s.threads[g].tickAt;
            var end := s.now + c.Timeout(i);
            r == s.(now := end, lastBeat := s.now,
                    jobs := s.jobs[i := Job(Some(at), if c.grace > 0 then Some(Overrun(|s.runs|, end)) else None)],
                    runs := s.runs + [Run(i, s.now, None, Some(end))], threads := s.threads[g := Ticking(at, i + 1)])
  {
    hide Leads, IsDue, PreviousRunAlive, Config.Timeout;
    var i, at, n := s.threads[g].job, s.threads[g].tickAt, |s.runs|;
    var end := s.now + c.Timeout(i);
    LeadsNowhere(c, s);
    trace, r := Do(c, s, [], s, Thread(g, false));
    assert r == s.(lastBeat := s.now, jobs := s.jobs[i := s.jobs[i].(overrun := None)],
                   runs := s.runs + [Run(i, s.now, None, None)], threads := s.threads[g := Joining(at, i, n)]);
    trace, r := Do(c, s, trace, r, Pass(end));
    trace, r := Do(c, s, trace, r, Thread(g, false));
  }

  /** What a tick has done before its i-th job. */
  ghost predicate TickSoFar(c: Config, s0: State, s: State, trace: seq<Action>, tickAt: int, i: nat, ran: seq<nat>) {
    && WellFormed(c, s0) && Alone(c, s, tickAt, i) && Leads(c, s0, trace, s)
    && ran + DueFrom(c, s0, tickAt, i) == DueFrom(c, s0, tickAt, 0)
    && (forall j | i <= j < |c.jobs| :: s.jobs[j] == s0.jobs[j])
    && s0.runs <= s.runs
  }

  lemma TickStarts(c: Config, s: State, tickAt: int)
    requires Alone(c, s, tickAt, 0)
    ensures TickSoFar(c, s, s, [], tickAt, 0, [])
  {
    hide Leads, DueFrom;
    LeadsNowhere(c, s);
    assert [] + DueFrom(c, s, tickAt, 0) == DueFrom(c, s, tickAt, 0);
  }

  lemma TickIsAlone(c: Config, s0: State, s: State, trace: seq<Action>, tickAt: int, i: nat, ran: seq<nat>)
    requires TickSoFar(c, s0, s, trace, tickAt, i, ran)
    ensures Alone(c, s, tickAt, i)
  {
    hide Alone, Leads, DueFrom;
  }

  lemma NextJob(c: Config, s0: State, s: State, trace: seq<Action>, tickAt: int, i: nat, outcome: Outcome,
                ran: seq<nat>) returns (longer: seq<Action>)
    requires TickSoFar(c, s0, s, trace, tickAt, i, ran) && Alone(c, s, tickAt, i) && i < |c.jobs|
    requires (c.Timeout(i) <= 0 ==> outcome.Ends?) && !Dies(c, s, tickAt, i, outcome)
    ensures TickSoFar(c, s0, AfterJob(c, s, tickAt, i, outcome), longer, tickAt, i + 1,
                      if Takes(c, s, tickAt, i) then ran + [i] else ran)
  {
    assert |s.jobs| == |s0.jobs| == |c.jobs| && s.jobs[i] == s0.jobs[i];
    hide AfterJob, Config.Timeout, Takes, Dies, WellFormed, Alone, Leads;
    TakesLasts(c, s0, s, tickAt, i);
    JobLeavesAlone(c, s, tickAt, i, outcome);
    var step := JobIsARun(c, s, tickAt, i, outcome);
    longer := LeadsJoin(c, s0, trace, s, step, AfterJob(c, s, tickAt, i, outcome));
    DueJoins(c, s0, tickAt, i, ran);
  }

  /** A tick that a fatal error ends: it ran the first of the jobs it would have run. */
  lemma DyingJob(c: Config, s0: State, s: State, trace: seq<Action>, tickAt: int, i: nat, outcome: Outcome,
                 ran: seq<nat>) returns (longer: seq<Action>)
    requires TickSoFar(c, s0, s, trace, tickAt, i, ran) && Alone(c, s, tickAt, i) && i < |c.jobs|
    requires (c.Timeout(i) <= 0 ==> outcome.Ends?) && Dies(c, s, tickAt, i, outcome)
    ensures Leads(c, s0, longer, AfterJob(c, s, tickAt, i, outcome)) && ran + [i] <= DueFrom(c, s0, tickAt, 0)
  {
    assert |s.jobs| == |s0.jobs| == |c.jobs| && s.jobs[i] == s0.jobs[i] && Takes(c, s, tickAt, i);
    hide AfterJob, Config.Timeout, Takes, Dies, WellFormed, Alone, Leads;
    TakesLasts(c, s0, s, tickAt, i);
    var step := JobIsARun(c, s, tickAt, i, outcome);
    longer := LeadsJoin(c, s0, trace, s, step, AfterJob(c, s, tickAt, i, outcome));
    DueJoins(c, s0, tickAt, i, ran);
  }

  lemma DueJoins(c: Config, s: State, tickAt: int, k: nat, ran: seq<nat>)
    requires |s.jobs| == |c.jobs| && k < |c.jobs|
    ensures ran + DueFrom(c, s, tickAt, k) == (if Takes(c, s, tickAt, k) then ran + [k] else ran) +
            DueFrom(c, s, tickAt, k + 1)
  {
    hide Takes;
    var rest := DueFrom(c, s, tickAt, k + 1);
    if Takes(c, s, tickAt, k) {
      assert ran + ([k] + rest) == ran + [k] + rest;
    } else {
      assert [] + rest == rest;
    }
  }

  lemma EndOfTick(c: Config, s0: State, s: State, trace: seq<Action>, tickAt: int, ran: seq<nat>)
    returns (longer: seq<Action>)
    requires TickSoFar(c, s0, s, trace, tickAt, |c.jobs|, ran)
    ensures ran == DueFrom(c, s0, tickAt, 0) && |s.threads| > 0
    ensures Leads(c, s0, longer, s.(lastBeat := s.now, ticks := s.ticks + 1,
                                    threads := s.threads[|s.threads| - 1 := Waiting(s.now + c.tick)]))
  {
    hide Leads;
    assert DueFrom(c, s0, tickAt, |c.jobs|) == [];
    var r;
    longer, r := Do(c, s0, trace, s, Thread(|s.threads| - 1, false));
  }

  class Worker {
    const c: Config
    var stopped: bool
    var jobs: seq<Job>
    var lastBeat: int
    var ticks: nat
    var restarts: seq<Reason>
    // The operating system's side: the job runs and worker threads there have been.
    var runs: seq<Run>
    var threads: seq<Phase>

    function View(now: int): State
      reads this
    {
      State(now, stopped, jobs, runs, threads, lastBeat, ticks, restarts)
    }

    constructor (jobs: seq<JobSpec>, tick: int, stale: int, grace: int, defaultTimeout: Option<int>, selfHeal: bool,
                 now: int)
      ensures c.Valid() && c.jobs == jobs && c.grace == grace && c.selfHeal == selfHeal
      ensures c.tick == (if tick >= SECOND then tick else SECOND)
      ensures c.stale == (if stale >= 3 * c.tick then stale else 3 * c.tick)
      ensures View(now) == Initial(c, now)
    {
      var t := if tick >= SECOND then tick else SECOND;
      this.c := Config(jobs, t, if stale >= 3 * t then stale else 3 * t, grace, defaultTimeout, selfHeal);
      this.stopped, this.lastBeat, this.ticks, this.restarts, this.runs, this.threads := false, now, 0, [], [], [];
      this.jobs := seq(|jobs|, _ => Job(None, None));
    }

    method StartWorker(now: int)
      requires WellFormed(c, View(now))
      modifies this
      ensures View(now) == Apply(c, old(View(now)), Start)
    {
      if |threads| > 0 && !threads[|threads| - 1].Exited? {
        return;
      }
      stopped := false;
      lastBeat := now;
      threads := threads + [Begun];
    }

    method RestartLocked(now: int, reason: Reason)
      modifies this
      ensures View(now) == Restart(old(View(now)), reason)
    {
      restarts := restarts + [reason];
      lastBeat := now;
      threads := threads + [Begun];
    }

    method EnsureWorkerAlive(now: int) returns (restarted: bool)
      requires WellFormed(c, View(now))
      modifies this
      ensures View(now) == Apply(c, old(View(now)), EnsureAlive)
      ensures restarted <==> |restarts| == |old(restarts)| + 1
      ensures restarted <==> !old(stopped) && |old(threads)| > 0 &&
                             (old(threads)[|old(threads)| - 1].Exited? || (c.selfHeal && now - old(lastBeat) > c.stale))
    {
      if stopped || |threads| == 0 {
        return false;
      }
      var alive := !threads[|threads| - 1].Exited?;
      var hung := c.selfHeal && alive && now - lastBeat > c.stale;
      if alive && !hung {
        return false;
      }
      RestartLocked(now, if hung then HungHeartbeatStale else ThreadDied);
      return true;
    }

    /** Whether an abandoned run still blocks job i; forgets one that ended or outlived the grace period. */
    method PreviousAlive(i: nat, now: int, tickAt: int) returns (blocked: bool)
      requires i < |jobs| && (jobs[i].overrun.Some? ==> jobs[i].overrun.value.run < |runs|)
      modifies this`jobs
      ensures blocked == PreviousRunAlive(c, old(View(now)), old(jobs)[i], tickAt)
      ensures jobs == if blocked then old(jobs) else old(jobs)[i := old(jobs)[i].(overrun := None)]
    {
      if jobs[i].overrun.None? {
        return false;
      }
      var waited := tickAt - jobs[i].overrun.value.since;
      if runs[jobs[i].overrun.value.run].doneAt.Some? {
        jobs := jobs[i := jobs[i].(overrun := None)];
        return false;
      }
      if waited >= c.grace {
        jobs := jobs[i := jobs[i].(overrun := None)];
        return false;
      }
      return true;
    }

    /** One job of a tick: skip it, or beat, run it and wait for it or for its timeout. */
    method RunOne(clock0: int, tickAt: int, i: nat, outcome: Outcome) returns (ran: bool, died: bool, clock: int)
      requires Alone(c, View(clock0), tickAt, i) && i < |c.jobs|
      requires c.Timeout(i) <= 0 ==> outcome.Ends?
      modifies this
      ensures View(clock) == AfterJob(c, old(View(clock0)), tickAt, i, outcome)
      ensures ran == Takes(c, old(View(clock0)), tickAt, i) && died == Dies(c, old(View(clock0)), tickAt, i, outcome)
    {
      hide Config.Timeout, WellFormed;
      assert jobs[i].overrun.Some? ==> jobs[i].overrun.value.run < |runs| by { OverrunsFit(c, View(clock0), i); }
      var g := |threads| - 1;
      ran, died, clock := false, false, clock0;
      var job := jobs[i];
      if job.lastRun.Some? && tickAt - job.lastRun.value < c.jobs[i].interval {
        threads := threads[g := Ticking(tickAt, i + 1)];
        return;
      }
      var blocked := PreviousAlive(i, clock, tickAt);
      if blocked {
        threads := threads[g := Ticking(tickAt, i + 1)];
        return;
      }
      ran := true;
      var run := |runs|;
      lastBeat := clock;
      var timeout := c.Timeout(i);
      if outcome.Ends? && (timeout <= 0 || outcome.duration <= timeout) {
        clock := clock + outcome.duration;
        runs := runs + [Run(i, clock0, Some(clock), None)];
        died := outcome.how.Fatal?;
      } else {
        clock := clock + timeout;
        runs := runs + [Run(i, clock0, None, Some(clock))];
        if c.grace > 0 {
          jobs := jobs[i := jobs[i].(overrun := Some(Overrun(run, clock)))];
        }
      }
      jobs := jobs[i := jobs[i].(lastRun := Some(tickAt))];
      threads := threads[g := if died then Exited else Ticking(tickAt, i + 1)];
    }

    /** A whole tick, on a worker that nothing disturbs meanwhile: it is a run of the machine, and it
        runs exactly the jobs that were due and not blocked when it began. A job that raises changes
        nothing in that; a fatal error ends the thread there, after the first of those jobs. */
    method RunDueJobs(tickAt: int, outcomes: seq<Outcome>)
      returns (ran: seq<nat>, died: bool, clock: int, ghost trace: seq<Action>)
      requires Alone(c, View(tickAt), tickAt, 0) && |outcomes| == |c.jobs|
      requires forall i: nat | i < |c.jobs| && c.Timeout(i) <= 0 :: outcomes[i].Ends?
      modifies this
      ensures WellFormed(c, old(View(tickAt))) && Runs(c, old(View(tickAt)), trace)
              && View(clock) == After(c, old(View(tickAt)), trace)
      ensures if died then ran <= DueFrom(c, old(View(tickAt)), tickAt, 0)
              else ran == DueFrom(c, old(View(tickAt)), tickAt, 0)
      ensures RunsTheReady(c, old(View(tickAt)), tickAt, ran, died)
      ensures |threads| > 0 && threads[|threads| - 1] == if died then Exited else Waiting(clock + c.tick)
    {
      ghost var s0 := View(tickAt);
      TickStarts(c, s0, tickAt);
      hide TickSoFar, AfterJob, Config.Timeout, Takes, Dies, DueFrom, Alone, Leads, Runs, After, WellFormed,
           RunsTheReady;
      ran, died, clock, trace := [], false, tickAt, [];
      var i := 0;
      while i < |c.jobs|
        invariant 0 <= i <= |c.jobs| && TickSoFar(c, s0, View(clock), trace, tickAt, i, ran)
      {
        ghost var before := View(clock);
        TickIsAlone(c, s0, before, trace, tickAt, i, ran);
        JobLeavesAlone(c, before, tickAt, i, outcomes[i]);
        var did;
        did, died, clock := RunOne(clock, tickAt, i, outcomes[i]);
        if died {
          trace := DyingJob(c, s0, before, trace, tickAt, i, outcomes[i], ran);
          LeadsMeans(c, s0, trace, View(clock));
          ran := ran + [i];
          ReadyRan(c, s0, tickAt, ran, died);
          return;
        }
        trace := NextJob(c, s0, before, trace, tickAt, i, outcomes[i], ran);
        if did {
          ran := ran + [i];
        }
        i := i + 1;
      }
      trace := EndOfTick(c, s0, View(clock), trace, tickAt, ran);
      var g := |threads| - 1;
      lastBeat := clock;
      ticks := ticks + 1;
      threads := threads[g := Waiting(clock + c.tick)];
      LeadsMeans(c, s0, trace, View(clock));
      ReadyRan(c, s0, tickAt, ran, died);
    }
  }
}
