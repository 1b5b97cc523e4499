/** The automation controls: pause, kill switch, circuit breaker, the failure count of the
    reconciliation sweep, and bounded self-healing. Each action is the list of persisted keys it
    writes, in order, so that a crash can cut it after any of them. Times are microseconds. */
module Breaker {
  import opened Wrappers
  import opened Calendar

  const BREAKER_PREFIX := "circuit breaker:"
  const IMMEDIATE_PREFIXES := ["account_mismatch:", "unknown_position:", "missing_bracket_protection:"]
  const NEVER_RESUME_MARKERS := ["account_mismatch", "alpaca_trading_blocked"]

  datatype Settings = Settings(pausedDefault: bool, killSwitch: bool, expectsAccount: bool, liveBlockers: seq<string>,
                               threshold: nat,
                               selfHeals: bool, paperMode: bool, realTrading: bool, probeInterval: nat, maxResumes: nat)

  datatype Keys = Keys(paused: Option<bool>, kill: bool, reason: string, circuit: string, verified: bool,
                       failures: nat, lastProbe: Option<int>, resumes: map<int, nat>)

  datatype Write =
    | Paused(on: bool)
    | Kill(on: bool)
    | Reason(text: string)
    | Circuit(text: string)
    | Verified(on: bool)
    | Failures(count: nat)
    | Probe(time: int)
    | Resumes(day: int, count: nat)

  /** How a sweep ended: not run at all, clean, or with issues (a sweep that raised has one of its own). */
  datatype Sweep = NotRun | Clean | Failed(issues: seq<string>, verified: Option<bool>)

  datatype Action =
    | Pause(why: string)
    | Resume(why: string)
    | KillSwitch(why: string)
    | Trip(why: string)
    | ClearBreaker
    | Reconcile(result: Sweep)
    | TryRecover(now: int, result: Sweep)

  /** An action and after how many of its writes a crash cut it, if one did. */
  datatype Event = Event(action: Action, cut: Option<nat>)

  function Put(k: Keys, w: Write): Keys {
    match w
    case Paused(on) => k.(paused := Some(on))
    case Kill(on) => k.(kill := on)
    case Reason(text) => k.(reason := text)
    case Circuit(text) => k.(circuit := text)
    case Verified(on) => k.(verified := on)
    case Failures(count) => k.(failures := count)
    case Probe(time) => k.(lastProbe := Some(time))
    case Resumes(day, count) => k.(resumes := k.resumes[day := count])
  }

  function PutAll(k: Keys, ws: seq<Write>): Keys
    decreases |ws|
  {
    if |ws| == 0 then k else PutAll(Put(k, ws[0]), ws[1..])
  }

  // ---- What each action writes ------------------------------------------------------------------------

  function Or(text: string, default: string): string {
    if text == "" then default else text
  }

  function Join(issues: seq<string>): string {
    if |issues| == 0 then "" else if |issues| == 1 then issues[0] else issues[0] + ";" + Join(issues[1..])
  }

  function KillWrites(why: string): seq<Write> {
    [Paused(true), Kill(true), Reason(Or(why, "kill switch enabled"))]
  }

  function ResumeWrites(why: string): seq<Write> {
    [Paused(false), Kill(false), Reason(Or(why, "resumed manually"))]
  }

  function TripWrites(why: string): seq<Write> {
    [Circuit(why)] + KillWrites(BREAKER_PREFIX + " " + why)
  }

  predicate Immediate(issues: seq<string>) {
    exists i, p | 0 <= i < |issues| && 0 <= p < |IMMEDIATE_PREFIXES| :: IMMEDIATE_PREFIXES[p] <= issues[i]
  }

  /** A failing sweep trips the breaker at once for an unsafe account, else at the threshold. */
  predicate TripsBreaker(s: Settings, k: Keys, result: Sweep) {
    result.Failed? && (Immediate(result.issues) || k.failures + 1 >= (if s.threshold > 1 then s.threshold else 1))
  }

  function SweepWrites(s: Settings, k: Keys, result: Sweep): seq<Write> {
    match result
    case NotRun => []
    case Clean => [Verified(true), Failures(0)]
    case Failed(issues, verified) =>
      (if verified.Some? then [Verified(verified.value)] else []) + [Failures(k.failures + 1)] +
      if TripsBreaker(s, k, result) then TripWrites(Join(issues)) else []
  }

  predicate At(text: string, part: string, i: nat) {
    i + |part| <= |text| && text[i..i + |part|] == part
  }

  predicate Contains(text: string, part: string) {
    exists i: nat | i <= |text| :: At(text, part, i)
  }

  predicate NeverResumes(circuit: string) {
    exists m | 0 <= m < |NEVER_RESUME_MARKERS| :: Contains(circuit, NEVER_RESUME_MARKERS[m])
  }

  function ResumesOn(k: Keys, day: int): nat {
    if day in k.resumes then k.resumes[day] else 0
  }

  /** Self-healing probes the broker now. */
  predicate Probes(s: Settings, k: Keys, now: int) {
    && s.selfHeals && s.paperMode && !s.realTrading && !s.killSwitch
    && k.circuit != "" && BREAKER_PREFIX <= k.reason && !NeverResumes(k.circuit)
    && (k.lastProbe.Some? ==> now - k.lastProbe.value >= s.probeInterval)
    && ResumesOn(k, DateOf(now)) < s.maxResumes
  }

  function RecoverWrites(s: Settings, k: Keys, now: int, result: Sweep): seq<Write> {
    if !Probes(s, k, now) then []
    else [Probe(now)] + SweepWrites(s, k, result) +
         if result.Clean? then
           [Circuit("")] + ResumeWrites("auto-recovered: reconciliation clean after " + k.circuit)
           + [Resumes(DateOf(now), ResumesOn(k, DateOf(now)) + 1)]
         else []
  }

  function Writes(s: Settings, k: Keys, a: Action): seq<Write> {
    match a
    case Pause(why) => [Paused(true), Reason(Or(why, "paused manually"))]
    case Resume(why) => ResumeWrites(why)
    case KillSwitch(why) => KillWrites(why)
    case Trip(why) => TripWrites(why)
    case ClearBreaker => [Circuit("")]
    case Reconcile(result) => SweepWrites(s, k, result)
    case TryRecover(now, result) => RecoverWrites(s, k, now, result)
  }

  function Landed(s: Settings, k: Keys, e: Event): seq<Write> {
    var ws := Writes(s, k, e.action);
    if e.cut.Some? && e.cut.value < |ws| then ws[..e.cut.value] else ws
  }

  function After(s: Settings, k: Keys, e: Event): Keys {
    PutAll(k, Landed(s, k, e))
  }

  function KeysAt(s: Settings, k: Keys, events: seq<Event>, n: nat): Keys
    requires n <= |events|
  {
    if n == 0 then k else After(s, KeysAt(s, k, events, n - 1), events[n - 1])
  }

  // ---- Blockers --------------------------------------------------------------------------------------------

  predicate IsPaused(s: Settings, k: Keys) {
    if k.paused.Some? then k.paused.value else s.pausedDefault
  }

  predicate KillEnabled(s: Settings, k: Keys) {
    s.killSwitch || k.kill
  }

  predicate ExecutionBlocked(s: Settings, k: Keys) {
    KillEnabled(s, k) || IsPaused(s, k) || k.circuit != "" || (s.expectsAccount && !k.verified) || s.liveBlockers != []
  }

  class AutomationService {
    const s: Settings
    var paused: Option<bool>
    var kill: bool
    var reason: string
    var circuit: string
    var verified: bool
    var failures: nat
    var lastProbe: Option<int>
    var resumes: map<int, nat>

    function View(): Keys
      reads this
    {
      Keys(paused, kill, reason, circuit, verified, failures, lastProbe, resumes)
    }

    constructor (s: Settings)
      ensures this.s == s && View() == Keys(None, false, "", "", false, 0, None, map[])
    {
      this.s := s;
      paused, kill, reason, circuit, verified, failures, lastProbe, resumes := None, false, "", "", false, 0, None,
        map[];
    }

    method SetState(paused: bool, killSwitch: Option<bool>, reason: string)
      modifies this
      ensures View() == old(View()).(paused := Some(paused), reason := reason,
                                     kill := if killSwitch.Some? then killSwitch.value else old(kill))
    {
      this.paused := Some(paused);
      if killSwitch.Some? {
        this.kill := killSwitch.value;
      }
      this.reason := reason;
    }

    method PauseAutomation(why: string)
      modifies this
      ensures View() == After(s, old(View()), Event(Pause(why), None))
    {
      PutTwo(View(), Paused(true), Reason(Or(why, "paused manually")));
      SetState(true, None, Or(why, "paused manually"));
    }

    method ResumeAutomation(why: string)
      modifies this
      ensures View() == PutAll(old(View()), ResumeWrites(why))
      ensures View() == old(View()).(paused := Some(false), kill := false, reason := Or(why, "resumed manually"))
    {
      ResumePut(View(), why);
      SetState(false, Some(false), Or(why, "resumed manually"));
    }

    method EnableKillSwitch(why: string)
      modifies this
      ensures View() == PutAll(old(View()), KillWrites(why))
    {
      KillPut(View(), why);
      SetState(true, Some(true), Or(why, "kill switch enabled"));
    }

    method TripCircuitBreaker(why: string)
      modifies this
      ensures View() == PutAll(old(View()), TripWrites(why))
      ensures View() == old(View()).(circuit := why, paused := Some(true), kill := true,
                                     reason := BREAKER_PREFIX + " " + why)
    {
      TripPut(View(), why);
      circuit := why;
      EnableKillSwitch(BREAKER_PREFIX + " " + why);
    }

    method ClearCircuitBreaker()
      modifies this
      ensures View() == PutAll(old(View()), [Circuit("")])
      ensures View() == old(View()).(circuit := "")
    {
      PutOne(View(), Circuit(""));
      circuit := "";
    }

    method ScanBlockers() returns (blockers: seq<string>)
      ensures blockers != [] <==> KillEnabled(s, View()) || IsPaused(s, View())
      ensures "automation_kill_switch_enabled" in blockers <==> s.killSwitch || kill
      ensures "automation_paused" in blockers <==> paused == Some(true) || (paused.None? && s.pausedDefault)
      ensures |blockers| <= 2
    {
      blockers := [];
      if s.killSwitch || kill {
        blockers := blockers + ["automation_kill_switch_enabled"];
      }
      if if paused.Some? then paused.value else s.pausedDefault {
        blockers := blockers + ["automation_paused"];
      }
    }

    /** Execution goes ahead exactly when nothing blocks it. */
    method ExecutionBlockers() returns (blockers: seq<string>)
      ensures blockers != [] <==> ExecutionBlocked(s, View())
      ensures circuit != "" ==> "circuit_breaker:" + circuit in blockers
      ensures blockers == [] <==>
              && !s.killSwitch && !kill && (paused == Some(false) || (paused.None? && !s.pausedDefault))
              && circuit == "" && (s.expectsAccount ==> verified) && s.liveBlockers == []
    {
      blockers := ScanBlockers();
      if circuit != "" {
        blockers := blockers + ["circuit_breaker:" + circuit];
      }
      if s.expectsAccount && !verified {
        blockers := blockers + ["alpaca_account_not_verified"];
      }
      blockers := blockers + s.liveBlockers;
    }

    /** The bookkeeping at the end of a sweep. */
    method RecordSweep(result: Sweep)
      modifies this
      ensures View() == PutAll(old(View()), SweepWrites(s, old(View()), result))
      ensures View() == AfterSweep(s, old(View()), result)
    {
      SweepPut(s, View(), result);
      hide SweepWrites, PutAll, TripWrites, KillWrites, Join, Immediate;
      match result {
        case NotRun =>
        case Clean =>
          verified := true;
          failures := 0;
        case Failed(issues, account) =>
          if account.Some? {
            verified := account.value;
          }
          var count := failures + 1;
          failures := count;
          if Immediate(issues) || count >= (if s.threshold > 1 then s.threshold else 1) {
            TripCircuitBreaker(Join(issues));
          }
      }
    }

    method TryAutoRecover(now: int, result: Sweep) returns (resumed: bool)
      modifies this
      ensures View() == After(s, old(View()), Event(TryRecover(now, result), None))
      ensures resumed == (Probes(s, old(View()), now) && result.Clean?)
    {
      RecoverPut(s, View(), now, result);
      hide SweepWrites, TripsBreaker, NeverResumes, PutAll, After, ResumeWrites, DateOf, ResumesOn;
      if !s.selfHeals || !s.paperMode || s.realTrading || s.killSwitch {
        return false;
      }
      if circuit == "" || !(BREAKER_PREFIX <= reason) {
        return false;
      }
      if NeverResumes(circuit) {
        return false;
      }
      if lastProbe.Some? {
        var elapsed := now - lastProbe.value;
        if elapsed < s.probeInterval {
          return false;
        }
      }
      var resumesToday := ResumesOn(View(), DateOf(now));
      if resumesToday >= s.maxResumes {
        return false;
      }
      var breakerReason := circuit;
      lastProbe := Some(now);
      RecordSweep(result);
      if !result.Clean? {
        return false;
      }
      ClearCircuitBreaker();
      ResumeAutomation("auto-recovered: reconciliation clean after " + breakerReason);
      resumes := resumes[DateOf(now) := resumesToday + 1];
      return true;
    }
  }

  // ---- The writes together ---------------------------------------------------------------------------

  lemma {:induction false} PutAllJoins(k: Keys, a: seq<Write>, b: seq<Write>)
    ensures PutAll(k, a + b) == PutAll(PutAll(k, a), b)
    decreases |a|
  {
    if |a| == 0 {
      assert a + b == b;
    } else {
      assert (a + b)[1..] == a[1..] + b;
      PutAllJoins(Put(k, a[0]), a[1..], b);
    }
  }

  lemma PutOne(k: Keys, a: Write)
    ensures PutAll(k, [a]) == Put(k, a)
  {
    assert PutAll(Put(k, a), [a][1..]) == Put(k, a);
  }

  lemma PutTwo(k: Keys, a: Write, b: Write)
    ensures PutAll(k, [a, b]) == Put(Put(k, a), b)
  {
    assert [a, b] == [a] + [b];
    PutAllJoins(k, [a], [b]);
    PutOne(k, a);
    PutOne(Put(k, a), b);
  }

  lemma PutThree(k: Keys, a: Write, b: Write, c: Write)
    ensures PutAll(k, [a, b, c]) == Put(Put(Put(k, a), b), c)
  {
    assert [a, b, c] == [a, b] + [c];
    PutAllJoins(k, [a, b], [c]);
    PutTwo(k, a, b);
    PutOne(Put(Put(k, a), b), c);
  }

  lemma ResumePut(k: Keys, why: string)
    ensures PutAll(k, ResumeWrites(why)) == k.(paused := Some(false), kill := false,
                                               reason := Or(why, "resumed manually"))
  {
    PutThree(k, Paused(false), Kill(false), Reason(Or(why, "resumed manually")));
  }

  lemma KillPut(k: Keys, why: string)
    ensures PutAll(k, KillWrites(why)) == k.(paused := Some(true), kill := true,
                                             reason := Or(why, "kill switch enabled"))
  {
    PutThree(k, Paused(true), Kill(true), Reason(Or(why, "kill switch enabled")));
  }

  lemma TripPut(k: Keys, why: string)
    ensures PutAll(k, TripWrites(why)) == PutAll(k.(circuit := why), KillWrites(BREAKER_PREFIX + " " + why))
    ensures PutAll(k, TripWrites(why)) ==
            k.(circuit := why, paused := Some(true), kill := true, reason := BREAKER_PREFIX + " " + why)
  {
    hide KillWrites;
    PutAllJoins(k, [Circuit(why)], KillWrites(BREAKER_PREFIX + " " + why));
    PutOne(k, Circuit(why));
    KillPut(k.(circuit := why), BREAKER_PREFIX + " " + why);
  }

  /** The keys after a sweep's writes. */
  function AfterSweep(s: Settings, k: Keys, result: Sweep): Keys {
    match result
    case NotRun => k
    case Clean => k.(verified := true, failures := 0)
    case Failed(issues, verified) =>
      var counted := k.(verified := if verified.Some? then verified.value else k.verified, failures := k.failures + 1);
      if TripsBreaker(s, k, result) then
        counted.(circuit := Join(issues), paused := Some(true), kill := true,
                 reason := BREAKER_PREFIX + " " + Join(issues))
      else counted
  }

  lemma SweepPut(s: Settings, k: Keys, result: Sweep)
    ensures PutAll(k, SweepWrites(s, k, result)) == AfterSweep(s, k, result)
  {
    hide TripsBreaker, TripWrites, Join;
    match result {
      case NotRun =>
      case Clean => PutTwo(k, Verified(true), Failures(0));
      case Failed(issues, verified) =>
        var first := (if verified.Some? then [Verified(verified.value)] else []) + [Failures(k.failures + 1)];
        PutAllJoins(k, if verified.Some? then [Verified(verified.value)] else [], [Failures(k.failures + 1)]);
        var v := if verified.Some? then k.(verified := verified.value) else k;
        assert PutAll(k, if verified.Some? then [Verified(verified.value)] else []) == v by {
          if verified.Some? { PutOne(k, Verified(verified.value)); }
        }
        PutOne(v, Failures(k.failures + 1));
        var last := if TripsBreaker(s, k, result) then TripWrites(Join(issues)) else [];
        PutAllJoins(k, first, last);
        TripPut(PutAll(k, first), Join(issues));
    }
  }

  /** The keys after a recovery attempt. */
  function AfterRecover(s: Settings, k: Keys, now: int, result: Sweep): Keys {
    if !Probes(s, k, now) then k
    else
      var swept := AfterSweep(s, k.(lastProbe := Some(now)), result);
      if !result.Clean? then swept
      else swept.(circuit := "", paused := Some(false), kill := false,
                  reason := "auto-recovered: reconciliation clean after " + k.circuit,
                  resumes := k.resumes[DateOf(now) := ResumesOn(k, DateOf(now)) + 1])
  }

  lemma RecoverPut(s: Settings, k: Keys, now: int, result: Sweep)
    ensures After(s, k, Event(TryRecover(now, result), None)) == AfterRecover(s, k, now, result)
  {
    hide Probes, SweepWrites, AfterSweep, TripsBreaker;
    if Probes(s, k, now) {
      var k1 := k.(lastProbe := Some(now));
      var sweep := SweepWrites(s, k, result);
      assert sweep == SweepWrites(s, k1, result) by { ProbeDoesNotMatter(s, k, now, result); }
      SweepPut(s, k1, result);
      var why := "auto-recovered: reconciliation clean after " + k.circuit;
      var day := DateOf(now);
      var count := Resumes(day, ResumesOn(k, day) + 1);
      PutAllJoins(k, [Probe(now)], sweep);
      PutOne(k, Probe(now));
      if result.Clean? {
        var k2 := PutAll(k1, sweep);
        assert k2 == k1.(verified := true, failures := 0) by { CleanSweep(s, k1); }
        PutAllJoins(k, [Probe(now)] + sweep, [Circuit("")] + ResumeWrites(why) + [count]);
        PutAllJoins(k2, [Circuit("")] + ResumeWrites(why), [count]);
        PutAllJoins(k2, [Circuit("")], ResumeWrites(why));
        PutOne(k2, Circuit(""));
        ResumePut(k2.(circuit := ""), why);
        PutOne(PutAll(k2, [Circuit("")] + ResumeWrites(why)), count);
        assert [Probe(now)] + sweep + ([Circuit("")] + ResumeWrites(why) + [count]) == RecoverWrites(s, k, now, result);
      } else {
        assert [Probe(now)] + sweep + [] == [Probe(now)] + sweep;
      }
    }
  }

  lemma ProbeDoesNotMatter(s: Settings, k: Keys, now: int, result: Sweep)
    ensures SweepWrites(s, k, result) == SweepWrites(s, k.(lastProbe := Some(now)), result)
  {}

  lemma CleanSweep(s: Settings, k: Keys)
    ensures AfterSweep(s, k, Clean) == k.(verified := true, failures := 0)
  {}

  // ---- What trips it and what heals it, by the stored keys ---------------------------------------------

  /** The text has this part somewhere. */
  ghost predicate Mentions(text: string, part: string) {
    exists before: string, after: string :: text == before + part + after
  }

  lemma ContainsMeans(text: string, part: string)
    ensures Contains(text, part) <==> Mentions(text, part)
  {
    if Contains(text, part) {
      var i: nat :| i <= |text| && At(text, part, i);
      assert text == text[..i] + part + text[i + |part|..];
    }
    if Mentions(text, part) {
      var before, after :| text == before + part + after;
      assert text[|before|..|before| + |part|] == part;
      assert At(text, part, |before|);
    }
  }

  /** An issue no sweep waits out: the wrong account, a position that is none of ours, or one without a stop. */
  ghost predicate Unsafe(issue: string) {
    "account_mismatch:" <= issue || "unknown_position:" <= issue || "missing_bracket_protection:" <= issue
  }

  /** A failed sweep trips the breaker exactly when an issue is unsafe or it is the last failure allowed. */
  lemma TripsExactly(s: Settings, k: Keys, result: Sweep)
    ensures TripsBreaker(s, k, result) <==>
            result.Failed? && ((exists issue :: issue in result.issues && Unsafe(issue))
                               || (k.failures + 1 >= s.threshold))
  {
    if result.Failed? {
      if Immediate(result.issues) {
        var i, p :| 0 <= i < |result.issues| && 0 <= p < |IMMEDIATE_PREFIXES|
            && IMMEDIATE_PREFIXES[p] <= result.issues[i];
        assert result.issues[i] in result.issues && Unsafe(result.issues[i]);
      }
      if issue :| issue in result.issues && Unsafe(issue) {
        var i :| 0 <= i < |result.issues| && result.issues[i] == issue;
        assert IMMEDIATE_PREFIXES[0] <= issue || IMMEDIATE_PREFIXES[1] <= issue || IMMEDIATE_PREFIXES[2] <= issue;
      }
    }
  }

  /** Healing is on for this bot and this pause: a paper bot without real trading or a configured kill switch,
      held by the breaker and by nobody since, for a reason that may heal, with a probe and a resume left. */
  ghost predicate MayHeal(s: Settings, k: Keys, now: int) {
    && s.selfHeals && s.paperMode && !s.realTrading && !s.killSwitch
    && k.circuit != "" && "circuit breaker:" <= k.reason
    && !Mentions(k.circuit, "account_mismatch") && !Mentions(k.circuit, "alpaca_trading_blocked")
    && (k.lastProbe.None? || now >= k.lastProbe.value + s.probeInterval)
    && (if now / 86_400_000_000 in k.resumes then k.resumes[now / 86_400_000_000] < s.maxResumes else s.maxResumes > 0)
  }

  lemma ProbesExactly(s: Settings, k: Keys, now: int)
    ensures Probes(s, k, now) <==> MayHeal(s, k, now)
  {
    ContainsMeans(k.circuit, "account_mismatch");
    ContainsMeans(k.circuit, "alpaca_trading_blocked");
    hide Contains, Mentions;
    assert NEVER_RESUME_MARKERS[0] == "account_mismatch" && NEVER_RESUME_MARKERS[1] == "alpaca_trading_blocked";
  }

  /** What one recovery attempt leaves: nothing changed when healing is not on, a probe and a failed sweep's
      own doing when the broker is not clean, and else a bot that runs again, unpaused and counted. */
  lemma RecoveryDoesExactly(s: Settings, k: Keys, now: int, result: Sweep)
    ensures var r := After(s, k, Event(TryRecover(now, result), None));
            && (!MayHeal(s, k, now) ==> r == k)
            && (MayHeal(s, k, now) && !result.Clean? ==> r == AfterSweep(s, k.(lastProbe := Some(now)), result))
            && (MayHeal(s, k, now) && result.Clean? ==>
                  r == k.(lastProbe := Some(now), verified := true, failures := 0, circuit := "",
                          paused := Some(false), kill := false,
                          reason := "auto-recovered: reconciliation clean after " + k.circuit,
                          resumes := k.resumes[now / 86_400_000_000 :=
                            (if now / 86_400_000_000 in k.resumes then k.resumes[now / 86_400_000_000] else 0) + 1]))
  {
    ProbesExactly(s, k, now);
    RecoverPut(s, k, now, result);
    hide Probes, MayHeal, After, TripsBreaker;
  }
}
