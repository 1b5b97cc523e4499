/** What self-healing can undo, by whole actions: the markers that keep it out, the pauses and trips it
    overrides, and how often it resumes on a day when crashes cut it short. */
module BreakerHealing {
  import opened Wrappers
  import opened Calendar
  import opened Breaker
  import opened BreakerRuns

  // ---- Markers in a reason ---------------------------------------------------------------------------

  lemma {:induction false} JoinHolds(issues: seq<string>, i: nat) returns (at: nat)
    requires i < |issues|
    ensures At(Join(issues), issues[i], at)
    decreases |issues|
  {
    if |issues| == 1 {
      return 0;
    }
    if i == 0 {
      assert Join(issues)[..|issues[0]|] == issues[0];
      return 0;
    }
    var rest := JoinHolds(issues[1..], i - 1);
    at := |issues[0]| + 1 + rest;
    var tail := Join(issues[1..]);
    assert Join(issues) == issues[0] + ";" + tail;
    assert Join(issues)[at..at + |issues[i]|] == tail[rest..rest + |issues[i]|];
  }

  lemma PartOfPart(text: string, part: string, head: string, at: nat)
    requires At(text, part, at) && head <= part
    ensures At(text, head, at)
  {
    assert text[at..at + |head|] == text[at..at + |part|][..|head|];
  }

  lemma MarkerCarries(issues: seq<string>, i: nat)
    requires i < |issues| && IMMEDIATE_PREFIXES[0] <= issues[i]
    ensures NeverResumes(Join(issues))
  {
    var at := JoinHolds(issues, i);
    assert NEVER_RESUME_MARKERS[0] <= IMMEDIATE_PREFIXES[0];
    PartOfPart(Join(issues), issues[i], NEVER_RESUME_MARKERS[0], at);
    assert Contains(Join(issues), NEVER_RESUME_MARKERS[0]);
  }

  lemma WrongAccountTrips(s: Settings, k: Keys, issues: seq<string>, i: nat, verified: Option<bool>)
    requires i < |issues| && IMMEDIATE_PREFIXES[0] <= issues[i]
    ensures TripsBreaker(s, k, Failed(issues, verified))
  {
    assert Immediate(issues);
  }

  lemma WrongAccountIsMarked(issues: seq<string>, i: nat)
    requires i < |issues| && IMMEDIATE_PREFIXES[0] <= issues[i]
    ensures NeverResumes(Join(issues))
  {
    MarkerCarries(issues, i);
  }

  lemma TradingBlockIsMarked(issues: seq<string>, i: nat)
    requires i < |issues| && issues[i] == NEVER_RESUME_MARKERS[1]
    ensures NeverResumes(Join(issues))
  {
    var at := JoinHolds(issues, i);
    assert Contains(Join(issues), NEVER_RESUME_MARKERS[1]);
  }

  const BARE_POSITION := "missing_bracket_protection:X"

  lemma BarePositionIsUnmarked()
    ensures !NeverResumes(BARE_POSITION)
  {
    forall m, i: nat | 0 <= m < |NEVER_RESUME_MARKERS| && i <= |BARE_POSITION|
      ensures !At(BARE_POSITION, NEVER_RESUME_MARKERS[m], i) {
      PartAt(BARE_POSITION, NEVER_RESUME_MARKERS[m], i, 0);
      PartAt(BARE_POSITION, NEVER_RESUME_MARKERS[m], i, 2);
    }
  }

  lemma PartAt(text: string, part: string, i: nat, j: nat)
    ensures At(text, part, i) && j < |part| ==> i + j < |text| && text[i + j] == part[j]
  {
    if At(text, part, i) && j < |part| {
      assert text[i..i + |part|][j] == text[i + j];
    }
  }

  // ---- When self-healing can act ---------------------------------------------------------------------

  /** The settings let self-healing act at all. */
  predicate Heals(s: Settings) {
    s.selfHeals && s.paperMode && !s.realTrading && !s.killSwitch && s.maxResumes > 0
  }

  /** A trip with this reason lets self-healing act. */
  predicate Frees(why: string) {
    why != "" && !NeverResumes(why)
  }

  lemma {:induction false} FreshDay(days: set<int>, lo: int) returns (day: int)
    ensures day >= lo && day !in days
    decreases days
  {
    if lo !in days {
      return lo;
    }
    day := FreshDay(days - {lo}, lo + 1);
  }

  lemma DayStarts(day: int)
    ensures DateOf(day * DAY) == day
  {}

  /** Once unlocked, self-healing acts at some later time. */
  lemma UnlockedProbes(s: Settings, k: Keys) returns (now: int)
    requires Heals(s) && Frees(k.circuit) && BREAKER_PREFIX <= k.reason
    ensures Probes(s, k, now)
  {
    hide NeverResumes, DateOf;
    var earliest := if k.lastProbe.Some? then k.lastProbe.value + s.probeInterval else 0;
    var day := FreshDay(k.resumes.Keys, if earliest > 0 then earliest else 0);
    now := day * DAY;
    DayStarts(day);
    assert now >= earliest;
  }

  /** The lock can be lost: a wrong account, then a sweep that finds a bare position, then a clean
      recovery. The second trip overwrites the first one's reason, and the bot resumes. */
  lemma WrongAccountIsForgotten(s: Settings, k: Keys) returns (now: int)
    requires Heals(s)
    ensures var mismatch := After(s, k, Event(Reconcile(Failed(["account_mismatch:abc"], Some(false))), None));
            var bare := After(s, mismatch, Event(Reconcile(Failed([BARE_POSITION], Some(true))), None));
            && mismatch.circuit == "account_mismatch:abc" && bare.circuit == BARE_POSITION
            && bare.paused == Some(true)
            && After(s, bare, Event(TryRecover(now, Clean), None)).paused == Some(false)
  {
    var first, second := ["account_mismatch:abc"], [BARE_POSITION];
    assert IMMEDIATE_PREFIXES[0] <= first[0] && IMMEDIATE_PREFIXES[2] <= second[0];
    assert Immediate(first) && Immediate(second);
    BarePositionIsUnmarked();
    hide NeverResumes, Immediate, SweepWrites, PutAll;
    SweepPut(s, k, Failed(first, Some(false)));
    var mismatch := After(s, k, Event(Reconcile(Failed(first, Some(false))), None));
    SweepPut(s, mismatch, Failed(second, Some(true)));
    var bare := After(s, mismatch, Event(Reconcile(Failed(second, Some(true))), None));
    now := UnlockedProbes(s, bare);
    RecoverPut(s, bare, now, Clean);
  }

  // ---- An operator's pause -----------------------------------------------------------------------------------

  /** Only a resume, by hand or by self-healing, lifts a pause. */
  lemma PauseStays(s: Settings, k: Keys, e: Event)
    requires e.cut.None? && k.paused == Some(true) && !e.action.Resume?
    ensures After(s, k, e).paused == Some(true) <==>
            !(e.action.TryRecover? && e.action.result.Clean? && Probes(s, k, e.action.now))
  {
    hide Probes, SweepWrites, TripsBreaker, Join;
    match e.action {
      case Pause(why) => PutTwo(k, Paused(true), Reason(Or(why, "paused manually")));
      case KillSwitch(why) => KillPut(k, why);
      case Trip(why) => TripPut(k, why);
      case ClearBreaker => PutOne(k, Circuit(""));
      case Reconcile(result) => SweepPut(s, k, result);
      case TryRecover(now, result) => RecoverPut(s, k, now, result);
    }
  }

  /** An honest pause that nothing cut short: a sweep trips the breaker over it, and the recovery that
      follows lifts the operator's pause with the breaker's own. */
  lemma HonestPauseIsOverridden(s: Settings, k: Keys) returns (now: int)
    requires Heals(s)
    ensures var held := After(s, k, Event(Pause("hold"), None));
            var tripped := After(s, held, Event(Reconcile(Failed([BARE_POSITION], Some(true))), None));
            && held.paused == Some(true) && held.reason == "hold"
            && After(s, tripped, Event(TryRecover(now, Clean), None)).paused == Some(false)
  {
    var issues := [BARE_POSITION];
    assert IMMEDIATE_PREFIXES[2] <= issues[0];
    assert Immediate(issues);
    BarePositionIsUnmarked();
    hide NeverResumes, Immediate, SweepWrites, PutAll;
    PutTwo(k, Paused(true), Reason("hold"));
    var held := After(s, k, Event(Pause("hold"), None));
    assert held == k.(paused := Some(true), reason := "hold");
    SweepPut(s, held, Failed(issues, Some(true)));
    var tripped := After(s, held, Event(Reconcile(Failed(issues, Some(true))), None));
    assert tripped.circuit == BARE_POSITION;
    now := UnlockedProbes(s, tripped);
    RecoverPut(s, tripped, now, Clean);
    assert After(s, tripped, Event(TryRecover(now, Clean), None)).paused == Some(false);
  }

  /** Self-healing would act but for who made the last change. */
  predicate ReadyToHeal(s: Settings, k: Keys, now: int) {
    Probes(s, k.(reason := BREAKER_PREFIX), now)
  }

  /** A clean recovery lifts an operator's pause exactly when its reason carries the breaker's prefix
      and self-healing is otherwise ready to act. */
  lemma PosingPauseIsOverriddenExactly(s: Settings, k: Keys, why: string, now: int)
    ensures var paused := After(s, k, Event(Pause(why), None));
            && paused.paused == Some(true)
            && (After(s, paused, Event(TryRecover(now, Clean), None)).paused == Some(false) <==>
                  BREAKER_PREFIX <= why && ReadyToHeal(s, k, now))
  {
    hide NeverResumes, DateOf;
    PutTwo(k, Paused(true), Reason(Or(why, "paused manually")));
    Unmarked("paused manually");
    var paused := After(s, k, Event(Pause(why), None));
    assert Probes(s, paused, now) <==> BREAKER_PREFIX <= why && ReadyToHeal(s, k, now);
    hide Probes;
    PauseStays(s, paused, Event(TryRecover(now, Clean), None));
    RecoverPut(s, paused, now, Clean);
  }

  /** An operator's pause cut before its reason is written is lifted exactly when self-healing would
      have acted without it. */
  lemma CutPauseIsOverridden(s: Settings, k: Keys, why: string, now: int)
    ensures var paused := After(s, k, Event(Pause(why), Some(1)));
            && paused.paused == Some(true)
            && (After(s, paused, Event(TryRecover(now, Clean), None)).paused == Some(false) <==> Probes(s, k, now))
  {
    var ws := Writes(s, k, Pause(why));
    assert ws[..1] == [Paused(true)];
    PutOne(k, Paused(true));
    RecoverPut(s, k.(paused := Some(true)), now, Clean);
  }

  // ---- The daily cap and crashes ---------------------------------------------------------------------------

  /** A recovery lifted the pause, even if a crash cut it after that. */
  predicate Lifted(s: Settings, k: Keys, e: Event, day: int) {
    Resumed(s, k, e, day) && Paused(false) in Landed(s, k, e)
  }

  /** It lifted the pause and a crash cut it before it counted the resume. */
  predicate CountLost(s: Settings, k: Keys, e: Event, day: int) {
    Resumed(s, k, e, day) && e.cut.Some? && 5 <= e.cut.value < 8
  }

  function LiftedTimes(s: Settings, k: Keys, events: seq<Event>, n: nat, day: int): nat
    requires n <= |events|
  {
    if n == 0 then 0
    else LiftedTimes(s, k, events, n - 1, day) + if Lifted(s, KeysAt(s, k, events, n - 1), events[n - 1], day) then 1
      else 0
  }

  function LostTimes(s: Settings, k: Keys, events: seq<Event>, n: nat, day: int): nat
    requires n <= |events|
  {
    if n == 0 then 0
    else LostTimes(s, k, events, n - 1, day) + if CountLost(s, KeysAt(s, k, events, n - 1), events[n - 1], day) then 1
      else 0
  }

  lemma RecoveryWrites(s: Settings, k: Keys, now: int)
    requires Probes(s, k, now)
    ensures RecoverWrites(s, k, now, Clean) ==
            [Probe(now), Verified(true), Failures(0), Circuit(""), Paused(false), Kill(false),
             Reason("auto-recovered: reconciliation clean after " + k.circuit),
               Resumes(DateOf(now), ResumesOn(k, DateOf(now)) + 1)]
  {
    hide Probes, DateOf;
  }

  lemma NoResumesWritten(s: Settings, k: Keys, a: Action)
    requires !(a.TryRecover? && Probes(s, k, a.now) && a.result.Clean?)
    ensures forall i | 0 <= i < |Writes(s, k, a)| :: !Writes(s, k, a)[i].Resumes?
  {
    hide TripsBreaker, Join, Probes, Or, DateOf;
  }

  lemma CountAfterCrash(s: Settings, k: Keys, e: Event, day: int)
    ensures ResumesOn(After(s, k, e), day) + (if CountLost(s, k, e, day) then 1 else 0) ==
            ResumesOn(k, day) + (if Lifted(s, k, e, day) then 1 else 0)
  {
    hide DateOf, NeverResumes, Writes, PutAll;
    if e.action.TryRecover? && Probes(s, k, e.action.now) && e.action.result.Clean? {
      hide Probes;
      RecoveryCounts(s, k, e, day);
    } else {
      NoResumesWritten(s, k, e.action);
      hide Probes;
      ResumesUntouched(k, Landed(s, k, e));
    }
  }

  lemma RecoveryCounts(s: Settings, k: Keys, e: Event, day: int)
    requires e.action.TryRecover? && Probes(s, k, e.action.now) && e.action.result.Clean?
    ensures ResumesOn(After(s, k, e), day) + (if CountLost(s, k, e, day) then 1 else 0) ==
            ResumesOn(k, day) + (if Lifted(s, k, e, day) then 1 else 0)
  {
    var ws := Landed(s, k, e);
    RecoveryWrites(s, k, e.action.now);
    hide DateOf, Probes, RecoverWrites, PutAll;
    if e.cut.None? || e.cut.value >= 8 {
      assert ws[4] == Paused(false);
      PutAllJoins(k, ws[..7], [ws[7]]);
      assert ws == ws[..7] + [ws[7]];
      ResumesUntouched(k, ws[..7]);
      PutOne(PutAll(k, ws[..7]), ws[7]);
    } else {
      ResumesUntouched(k, ws);
      if e.cut.value >= 5 {
        assert ws[4] == Paused(false);
      }
    }
  }

  /** Through crashes: the stored count stays within the cap, and self-healing lifted the pause as often
      as was counted plus as often as a crash lost the count. So the cap holds of the lifts themselves
      exactly as far as no count is lost. */
  lemma {:induction false} CapHoldsUpToLostCounts(s: Settings, k: Keys, events: seq<Event>, n: nat, day: int)
    requires n <= |events|
    ensures LiftedTimes(s, k, events, n, day) + ResumesOn(k, day) == ResumesOn(KeysAt(s, k, events, n), day) +
            LostTimes(s, k, events, n, day)
    ensures ResumesOn(KeysAt(s, k, events, n), day) <= if s.maxResumes > ResumesOn(k, day) then s.maxResumes
            else ResumesOn(k, day)
  {
    hide After, DateOf, NeverResumes, Lifted, CountLost, ResumesOn;
    if n > 0 {
      CapHoldsUpToLostCounts(s, k, events, n - 1, day);
      var before := KeysAt(s, k, events, n - 1);
      CountAfterCrash(s, before, events[n - 1], day);
      LiftNeedsRoom(s, before, events[n - 1], day);
    }
  }

  lemma LiftNeedsRoom(s: Settings, k: Keys, e: Event, day: int)
    ensures Lifted(s, k, e, day) ==> ResumesOn(k, day) < s.maxResumes
  {
    hide Landed, NeverResumes, DateOf;
  }

  /** A crash between the lift and the count beats the cap: with one resume a day allowed, two trips
      and two recoveries of one day lift the pause twice. */
  lemma CrashBeatsTheDailyCap(s: Settings, k: Keys)
    requires Heals(s) && s.maxResumes == 1 && s.probeInterval < DAY && k.lastProbe.None? && k.resumes == map[]
    ensures var events := [Event(Trip("x"), None), Event(TryRecover(0, Clean), Some(6)), Event(Trip("x"), None),
                           Event(TryRecover(s.probeInterval, Clean), None)];
            LiftedTimes(s, k, events, 4, 0) == 2
  {
    var events := [Event(Trip("x"), None), Event(TryRecover(0, Clean), Some(6)), Event(Trip("x"), None),
                   Event(TryRecover(s.probeInterval, Clean), None)];
    assert !NeverResumes("x");
    assert DateOf(0) == 0 && DateOf(s.probeInterval) == 0;
    hide NeverResumes, DateOf, PutAll, Writes;
    var k1 := TrippedBy(s, k, "x");
    var k2 := CutRecovery(s, k1, 0);
    var k3 := TrippedBy(s, k2, "x");
    assert KeysAt(s, k, events, 0) == k;
    assert KeysAt(s, k, events, 1) == k1;
    assert KeysAt(s, k, events, 2) == k2;
    assert KeysAt(s, k, events, 3) == k3;
    WholeRecoveryLifts(s, k3, s.probeInterval);
    assert !Lifted(s, k, events[0], 0) && !Lifted(s, k2, events[2], 0);
    hide Lifted, KeysAt;
    LiftedNext(s, k, events, 1, 0);
    LiftedNext(s, k, events, 2, 0);
    LiftedNext(s, k, events, 3, 0);
    LiftedNext(s, k, events, 4, 0);
  }

  lemma LiftedNext(s: Settings, k: Keys, events: seq<Event>, n: nat, day: int)
    requires 0 < n <= |events|
    ensures LiftedTimes(s, k, events, 0, day) == 0
    ensures LiftedTimes(s, k, events, n, day) ==
            LiftedTimes(s, k, events, n - 1, day) + if Lifted(s, KeysAt(s, k, events, n - 1), events[n - 1], day) then 1
              else 0
  {
    hide Lifted, KeysAt;
  }

  lemma TrippedBy(s: Settings, k: Keys, why: string) returns (r: Keys)
    ensures r == After(s, k, Event(Trip(why), None))
    ensures r == k.(circuit := why, paused := Some(true), kill := true, reason := BREAKER_PREFIX + " " + why)
  {
    TripPut(k, why);
    r := After(s, k, Event(Trip(why), None));
  }

  lemma CutRecovery(s: Settings, k: Keys, now: int) returns (r: Keys)
    requires Probes(s, k, now)
    ensures r == After(s, k, Event(TryRecover(now, Clean), Some(6)))
            && Lifted(s, k, Event(TryRecover(now, Clean), Some(6)), DateOf(now))
    ensures r == k.(lastProbe := Some(now), verified := true, failures := 0, circuit := "", paused := Some(false),
                    kill := false)
  {
    RecoveryWrites(s, k, now);
    hide Probes, RecoverWrites, DateOf;
    var ws := Landed(s, k, Event(TryRecover(now, Clean), Some(6)));
    assert ws == [Probe(now), Verified(true), Failures(0)] + [Circuit(""), Paused(false), Kill(false)];
    assert ws[4] == Paused(false);
    PutAllJoins(k, [Probe(now), Verified(true), Failures(0)], [Circuit(""), Paused(false), Kill(false)]);
    PutThree(k, Probe(now), Verified(true), Failures(0));
    PutThree(PutAll(k, [Probe(now), Verified(true), Failures(0)]), Circuit(""), Paused(false), Kill(false));
    r := After(s, k, Event(TryRecover(now, Clean), Some(6)));
  }

  lemma WholeRecoveryLifts(s: Settings, k: Keys, now: int)
    requires Probes(s, k, now)
    ensures Lifted(s, k, Event(TryRecover(now, Clean), None), DateOf(now))
  {
    RecoveryWrites(s, k, now);
    hide Probes, RecoverWrites, DateOf;
    assert Landed(s, k, Event(TryRecover(now, Clean), None))[4] == Paused(false);
  }
}
