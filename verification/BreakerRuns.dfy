/** What every run of the automation controls keeps when its actions follow one another, crashes
    included. */
module BreakerRuns {
  import opened Wrappers
  import opened Calendar
  import opened Breaker

  // ---- A tripped breaker blocks execution ------------------------------------------------------------------

  /** The events that can leave the breaker without a reason. */
  predicate Lifts(e: Event) {
    match e.action
    case ClearBreaker => true
    case Trip(why) => why == ""
    case Reconcile(result) => result.Failed? && Join(result.issues) == ""
    case TryRecover(_, result) => result.Clean? || (result.Failed? && Join(result.issues) == "")
    case _ => false
  }

  lemma {:induction false} CircuitStays(k: Keys, ws: seq<Write>)
    requires k.circuit != "" && forall i | 0 <= i < |ws| && ws[i].Circuit? :: ws[i].text != ""
    ensures PutAll(k, ws).circuit != ""
    decreases |ws|
  {
    if |ws| > 0 {
      CircuitStays(Put(k, ws[0]), ws[1..]);
    }
  }

  lemma NoEmptyCircuit(s: Settings, k: Keys, e: Event)
    requires !Lifts(e)
    ensures forall i | 0 <= i < |Landed(s, k, e)| && Landed(s, k, e)[i].Circuit? :: Landed(s, k, e)[i].text != ""
  {
    hide TripsBreaker, Join, Probes, Or;
  }

  /** Once the breaker has a reason, execution stays blocked through pauses, bare resumes, kill
      switches, failing sweeps and crashes, until the breaker is cleared. */
  lemma {:induction false} BreakerHoldsUntilCleared(s: Settings, k: Keys, events: seq<Event>, n: nat)
    requires k.circuit != "" && n <= |events| && forall i | 0 <= i < n :: !Lifts(events[i])
    ensures KeysAt(s, k, events, n).circuit != "" && ExecutionBlocked(s, KeysAt(s, k, events, n))
  {
    hide Landed, Lifts;
    if n > 0 {
      BreakerHoldsUntilCleared(s, k, events, n - 1);
      var before := KeysAt(s, k, events, n - 1);
      NoEmptyCircuit(s, before, events[n - 1]);
      CircuitStays(before, Landed(s, before, events[n - 1]));
    }
  }

  /** A trip that is cut anywhere after its first write already blocks execution. */
  lemma TripFailsClosed(s: Settings, k: Keys, why: string, cut: Option<nat>)
    requires why != "" && (cut.Some? ==> cut.value > 0)
    ensures ExecutionBlocked(s, After(s, k, Event(Trip(why), cut)))
  {
    var ws := Landed(s, k, Event(Trip(why), cut));
    hide KillWrites;
    assert ws[0] == Circuit(why);
    assert forall i | 0 < i < |ws| :: !ws[i].Circuit? by { KillHasNoCircuit(BREAKER_PREFIX + " " + why); }
    CircuitStays(Put(k, ws[0]), ws[1..]);
  }

  lemma KillHasNoCircuit(why: string)
    ensures forall i | 0 <= i < |KillWrites(why)| :: !KillWrites(why)[i].Circuit?
  {}

  // ---- The failure count is the failing streak ----------------------------------------------------------------

  /** The sweep an event ran, if any: a recovery attempt runs one only when it probes. */
  function SweepRun(s: Settings, k: Keys, e: Event): Sweep {
    match e.action
    case Reconcile(result) => result
    case TryRecover(now, result) => if Probes(s, k, now) then result else NotRun
    case _ => NotRun
  }

  /** Which of the sweeps so far failed. */
  function Outcomes(s: Settings, k: Keys, events: seq<Event>, n: nat): seq<bool>
    requires n <= |events|
  {
    if n == 0 then []
    else
      var run := SweepRun(s, KeysAt(s, k, events, n - 1), events[n - 1]);
      Outcomes(s, k, events, n - 1) + if run.NotRun? then [] else [run.Failed?]
  }

  function FailingStreak(failed: seq<bool>): nat {
    if |failed| == 0 || !failed[|failed| - 1] then 0 else FailingStreak(failed[..|failed| - 1]) + 1
  }

  ghost predicate Complete(events: seq<Event>, n: nat) {
    forall i | 0 <= i < n && i < |events| :: events[i].cut.None?
  }

  lemma {:induction false} FailuresUntouched(k: Keys, ws: seq<Write>)
    requires forall i | 0 <= i < |ws| :: !ws[i].Failures?
    ensures PutAll(k, ws).failures == k.failures
    decreases |ws|
  {
    if |ws| > 0 {
      FailuresUntouched(Put(k, ws[0]), ws[1..]);
    }
  }

  lemma FailuresAfter(s: Settings, k: Keys, e: Event)
    requires e.cut.None?
    ensures var run := SweepRun(s, k, e);
            After(s, k, e).failures == if run.NotRun? then k.failures else if run.Clean? then 0 else k.failures + 1
  {
    hide Probes, TripsBreaker, Join, Or, SweepWrites;
    match e.action {
      case Reconcile(result) => SweepPut(s, k, result);
      case TryRecover(now, result) => RecoverPut(s, k, now, result);
      case _ => FailuresUntouched(k, Writes(s, k, e.action));
    }
  }

  lemma {:induction false} FailureCountIsStreak(s: Settings, k: Keys, events: seq<Event>, n: nat)
    requires k.failures == 0 && n <= |events| && Complete(events, n)
    ensures KeysAt(s, k, events, n).failures == FailingStreak(Outcomes(s, k, events, n))
  {
    hide After, SweepRun;
    if n > 0 {
      FailureCountIsStreak(s, k, events, n - 1);
      FailuresAfter(s, KeysAt(s, k, events, n - 1), events[n - 1]);
      var run := SweepRun(s, KeysAt(s, k, events, n - 1), events[n - 1]);
      var before := Outcomes(s, k, events, n - 1);
      if !run.NotRun? {
        assert (before + [run.Failed?])[..|before|] == before;
      } else {
        assert before + [] == before;
      }
    }
  }

  /** A streak that reaches the threshold has tripped the breaker with the issues of its last sweep. */
  lemma StreakTripsAtThreshold(s: Settings, k: Keys, events: seq<Event>, n: nat)
    requires k.failures == 0 && 0 < n <= |events| && Complete(events, n)
    requires SweepRun(s, KeysAt(s, k, events, n - 1), events[n - 1]).Failed?
    ensures var issues := SweepRun(s, KeysAt(s, k, events, n - 1), events[n - 1]).issues;
            var now := KeysAt(s, k, events, n);
            Immediate(issues) || FailingStreak(Outcomes(s, k, events, n)) >= (if s.threshold > 1 then s.threshold
              else 1) ==>
              now.kill && now.paused == Some(true) && now.circuit == Join(issues)
                && now.reason == BREAKER_PREFIX + " " + Join(issues)
  {
    var before, e := KeysAt(s, k, events, n - 1), events[n - 1];
    FailureCountIsStreak(s, k, events, n);
    FailuresAfter(s, before, e);
    var result := SweepRun(s, before, e);
    hide Probes, Join, SweepWrites, Immediate, FailingStreak, Outcomes;
    if e.action.Reconcile? {
      SweepPut(s, before, result);
    } else {
      RecoverPut(s, before, e.action.now, result);
    }
  }

  // ---- Self-healing is bounded ------------------------------------------------------------------------------

  lemma Unmarked(text: string)
    requires |text| > 0 && text[0] != 'c'
    ensures !(BREAKER_PREFIX <= text)
  {
    assert BREAKER_PREFIX[0] == 'c';
  }

  /** The event is a recovery that resumed on that day. */
  predicate Resumed(s: Settings, k: Keys, e: Event, day: int) {
    e.action.TryRecover? && Probes(s, k, e.action.now) && e.action.result.Clean? && DateOf(e.action.now) == day
  }

  function ResumedTimes(s: Settings, k: Keys, events: seq<Event>, n: nat, day: int): nat
    requires n <= |events|
  {
    if n == 0 then 0
    else ResumedTimes(s, k, events, n - 1, day) + if Resumed(s, KeysAt(s, k, events, n - 1), events[n - 1], day) then 1
      else 0
  }

  lemma {:induction false} ResumesUntouched(k: Keys, ws: seq<Write>)
    requires forall i | 0 <= i < |ws| :: !ws[i].Resumes?
    ensures PutAll(k, ws).resumes == k.resumes
    decreases |ws|
  {
    if |ws| > 0 {
      ResumesUntouched(Put(k, ws[0]), ws[1..]);
    }
  }

  lemma ResumesAfter(s: Settings, k: Keys, e: Event, day: int)
    requires e.cut.None?
    ensures ResumesOn(After(s, k, e), day) == ResumesOn(k, day) + if Resumed(s, k, e, day) then 1 else 0
  {
    hide Probes, TripsBreaker, Join, Or, SweepWrites, DateOf;
    match e.action {
      case Reconcile(result) => SweepPut(s, k, result);
      case TryRecover(now, result) => RecoverPut(s, k, now, result);
      case _ => ResumesUntouched(k, Writes(s, k, e.action));
    }
  }

  /** On every day self-healing resumes at most the configured number of times. */
  lemma {:induction false} DailyCapHolds(s: Settings, k: Keys, events: seq<Event>, n: nat, day: int)
    requires k.resumes == map[] && n <= |events| && Complete(events, n)
    ensures ResumesOn(KeysAt(s, k, events, n), day) == ResumedTimes(s, k, events, n, day) <= s.maxResumes
  {
    hide After, DateOf, NeverResumes;
    if n > 0 {
      DailyCapHolds(s, k, events, n - 1, day);
      ResumesAfter(s, KeysAt(s, k, events, n - 1), events[n - 1], day);
    }
  }

  /** The event wrote a probe time, even if a crash cut it later. */
  predicate Probed(s: Settings, k: Keys, e: Event) {
    e.action.TryRecover? && Probes(s, k, e.action.now) && e.cut != Some(0)
  }

  lemma {:induction false} ProbeUntouched(k: Keys, ws: seq<Write>)
    requires forall i | 0 <= i < |ws| :: !ws[i].Probe?
    ensures PutAll(k, ws).lastProbe == k.lastProbe
    decreases |ws|
  {
    if |ws| > 0 {
      ProbeUntouched(Put(k, ws[0]), ws[1..]);
    }
  }

  lemma NoProbeWrites(s: Settings, k: Keys, a: Action)
    ensures forall i | 0 < i < |Writes(s, k, a)| :: !Writes(s, k, a)[i].Probe?
    ensures |Writes(s, k, a)| > 0 && Writes(s, k, a)[0].Probe? ==>
            a.TryRecover? && Probes(s, k, a.now) && Writes(s, k, a)[0].time == a.now
    ensures a.TryRecover? && Probes(s, k, a.now) ==> |Writes(s, k, a)| > 0 && Writes(s, k, a)[0].Probe?
  {
    hide TripsBreaker, Join, Probes, Or;
  }

  lemma LastProbeAfter(s: Settings, k: Keys, e: Event)
    ensures After(s, k, e).lastProbe == if Probed(s, k, e) then Some(e.action.now) else k.lastProbe
  {
    NoProbeWrites(s, k, e.action);
    var ws := Landed(s, k, e);
    hide Writes, Probes;
    if |ws| > 0 && ws[0].Probe? {
      ProbeUntouched(Put(k, ws[0]), ws[1..]);
    } else {
      ProbeUntouched(k, ws);
    }
  }

  /** After a probe the stored probe time is never earlier. */
  lemma {:induction false} ProbeTimeGrows(s: Settings, k: Keys, events: seq<Event>, i: nat, n: nat)
    requires i < n <= |events| && Probed(s, KeysAt(s, k, events, i), events[i])
    ensures var last := KeysAt(s, k, events, n).lastProbe; last.Some? && last.value >= events[i].action.now
    decreases n
  {
    hide After, NeverResumes, DateOf;
    var before := KeysAt(s, k, events, n - 1);
    LastProbeAfter(s, before, events[n - 1]);
    if i < n - 1 {
      ProbeTimeGrows(s, k, events, i, n - 1);
    }
  }

  /** Any two probes are at least the interval apart. */
  lemma ProbesAreSpaced(s: Settings, k: Keys, events: seq<Event>, i: nat, j: nat)
    requires i < j < |events| && Probed(s, KeysAt(s, k, events, i), events[i])
             && Probed(s, KeysAt(s, k, events, j), events[j])
    ensures events[j].action.now >= events[i].action.now + s.probeInterval
  {
    hide After, KeysAt, NeverResumes;
    ProbeTimeGrows(s, k, events, i, j);
  }
}
