/** What the order in which writes landed says of the automation controls, over every interleaving of
    their threads and wherever threads were cut: whose change stands, what a lift overrides, and when a
    killed bot is not paused. */
module BreakerLog {
  import opened Wrappers
  import opened Calendar
  import opened Breaker
  import opened BreakerHealing
  import opened BreakerThreads

  function Replay(k: Keys, log: seq<Entry>): Keys {
    if |log| == 0 then k else Put(Replay(k, log[..|log| - 1]), log[|log| - 1].write)
  }

  lemma ReplayNext(k: Keys, log: seq<Entry>, e: Entry)
    ensures Replay(k, log + [e]) == Put(Replay(k, log), e.write)
  {
    assert (log + [e])[..|log|] == log;
  }

  // ---- Whose reason stands ---------------------------------------------------------------------------

  predicate Marked(text: string) { BREAKER_PREFIX <= text }

  /** An operator's reason does not pose as the breaker's. */
  predicate Honest(a: Step) {
    a.Launch? && (a.op.Pause? || a.op.Resume? || a.op.KillSwitch?) ==> !Marked(a.op.why)
  }

  predicate AllHonest(steps: seq<Step>) {
    forall i | 0 <= i < |steps| :: Honest(steps[i])
  }

  /** Where the last reason was written, if any was. */
  function LastReason(log: seq<Entry>): (r: Option<nat>)
    ensures r.Some? ==> r.value < |log| && log[r.value].write.Reason?
    ensures forall i | (if r.Some? then r.value else -1) < i < |log| :: !log[i].write.Reason?
  {
    if |log| == 0 then None
    else if log[|log| - 1].write.Reason? then Some(|log| - 1)
    else LastReason(log[..|log| - 1])
  }

  /** The breaker wrote the last reason. */
  predicate BreakersTurn(log: seq<Entry>) {
    var r := LastReason(log);
    r.Some? && log[r.value].who.ByBreaker?
  }

  /** The breaker's reasons, and only those, carry its mark. */
  predicate Signed(who: Author, w: Write) {
    w.Reason? ==> (Marked(w.text) <==> who.ByBreaker?)
  }

  ghost predicate WillSign(th: Thread) {
    forall w | w in th.todo :: Signed(th.who, w)
  }

  ghost predicate AllSigned(st: State) {
    && (forall t: nat | t < |st.threads| :: WillSign(st.threads[t]))
    && (forall i | 0 <= i < |st.log| :: Signed(st.log[i].who, st.log[i].write))
  }

  lemma WritesAreSigned(s: Settings, k: Keys, op: Action)
    requires Simple(op) && Honest(Launch(op))
    ensures forall w | w in Writes(s, k, op) :: Signed(if op.Trip? then ByBreaker else ByOperator, w)
  {
    BreakerRuns.Unmarked("paused manually");
    BreakerRuns.Unmarked("resumed manually");
    BreakerRuns.Unmarked("kill switch enabled");
  }

  lemma SweepIsSigned(s: Settings, k: Keys, result: Sweep)
    ensures forall w | w in SweepWrites(s, k, result) :: Signed(ByBreaker, w)
    ensures forall w | w in SweepWrites(s, k, Clean) :: !w.Reason?
  {
    hide TripsBreaker, Join;
  }

  lemma HealIsSigned(h: Heal)
    ensures forall w | w in HealWrites(h) :: Signed(ByHealing(h), w)
  {
    HealIsTame(h);
  }

  lemma EndedIsSigned(s: Settings, st: State, th: Thread, result: Sweep)
    ensures forall w | w in Ended(s, st, th, result).todo :: Signed(Ended(s, st, th, result).who, w)
  {
    hide SweepWrites, HealWrites;
    SweepIsSigned(s, st.keys, result);
    if th.who.ByHealing? {
      HealIsSigned(th.who.heal);
    }
  }

  lemma StepKeepsSigned(s: Settings, st: State, a: Step)
    requires AllSigned(st) && Honest(a)
    ensures AllSigned(Next(s, st, a))
  {
    hide Probes, Writes, Ended, Signed, Honest, DateOf, ResumesOn;
    var next := Next(s, st, a);
    match a {
      case Launch(op) =>
        if Simple(op) {
          WritesAreSigned(s, st.keys, op);
        }
      case BeginRecovery(now) => ProbeIsSigned(Began(s, st, now).who, now);
      case EndSweep(t, result) =>
        if t < |st.threads| {
          EndedIsSigned(s, st, st.threads[t], result);
        }
      case _ =>
    }
  }

  lemma ProbeIsSigned(who: Author, now: int)
    ensures Signed(who, Probe(now))
  {}

  lemma {:induction false} RunKeepsSigned(s: Settings, st: State, steps: seq<Step>)
    requires AllSigned(st) && AllHonest(steps)
    ensures AllSigned(Run(s, st, steps))
    decreases |steps|
  {
    hide Next, AllSigned, Honest;
    if |steps| > 0 {
      StepKeepsSigned(s, st, steps[0]);
      RunKeepsSigned(s, Next(s, st, steps[0]), steps[1..]);
    }
  }

  lemma ReplayStep(s: Settings, k: Keys, st: State, a: Step)
    requires st.keys == Replay(k, st.log)
    ensures Next(s, st, a).keys == Replay(k, Next(s, st, a).log)
  {
    hide Probes, Writes, Ended, Began, Put;
    if a.Move? && a.t < |st.threads| && st.threads[a.t].todo != [] {
      ReplayNext(k, st.log, Entry(a.t, st.threads[a.t].who, st.threads[a.t].todo[0]));
    }
  }

  lemma {:induction false} KeysAreReplayed(s: Settings, k: Keys, st: State, steps: seq<Step>)
    requires st.keys == Replay(k, st.log)
    ensures Run(s, st, steps).keys == Replay(k, Run(s, st, steps).log)
    decreases |steps|
  {
    hide Next, Replay;
    if |steps| > 0 {
      ReplayStep(s, k, st, steps[0]);
      KeysAreReplayed(s, k, Next(s, st, steps[0]), steps[1..]);
    }
  }

  lemma {:induction false} MarkOfLog(k: Keys, log: seq<Entry>)
    requires !Marked(k.reason) && forall i | 0 <= i < |log| :: Signed(log[i].who, log[i].write)
    ensures Marked(Replay(k, log).reason) <==> BreakersTurn(log)
  {
    hide Marked;
    if |log| > 0 {
      MarkOfLog(k, log[..|log| - 1]);
    }
  }

  /** Over every interleaving with honest operators, threads cut anywhere: the reason carries the
      breaker's mark if and only if the breaker wrote the last reason. */
  lemma MarkTellsTheBreaker(s: Settings, k: Keys, steps: seq<Step>)
    requires !Marked(k.reason) && AllHonest(steps)
    ensures var st := Run(s, Fresh(k), steps);
            && (Marked(st.keys.reason) <==> BreakersTurn(st.log))
            && (Freed(st.keys) <==> Frees(st.keys.circuit) && BreakersTurn(st.log))
  {
    hide Run, Marked, BreakersTurn, Signed, AllHonest, Frees;
    MarkMeans(Run(s, Fresh(k), steps).keys);
    RunKeepsSigned(s, Fresh(k), steps);
    KeysAreReplayed(s, k, Fresh(k), steps);
    MarkOfLog(k, Run(s, Fresh(k), steps).log);
  }

  // ---- What a lift overrides ---------------------------------------------------------------------------

  /** When the recovery passed its guards they held, and it remembers the breaker's reason and the day's
      resumes of then. */
  ghost predicate Sanctioned(s: Settings, k: Keys, log: seq<Entry>, h: Heal) {
    && h.began <= |log| && Probes(s, Replay(k, log[..h.began]), h.now)
    && h.reason == Replay(k, log[..h.began]).circuit
    && h.count == ResumesOn(Replay(k, log[..h.began]), DateOf(h.now))
  }

  ghost predicate AllSanctioned(s: Settings, k: Keys, st: State) {
    && (forall t: nat | t < |st.threads| && st.threads[t].who.ByHealing? ::
        Sanctioned(s, k, st.log, st.threads[t].who.heal))
    && (forall i | 0 <= i < |st.log| && st.log[i].who.ByHealing? ::
          st.log[i].who.heal.began <= i && Sanctioned(s, k, st.log, st.log[i].who.heal))
  }

  lemma SanctionedOnward(s: Settings, k: Keys, log: seq<Entry>, longer: seq<Entry>, h: Heal)
    requires Sanctioned(s, k, log, h) && log <= longer
    ensures Sanctioned(s, k, longer, h)
  {
    assert longer[..h.began] == log[..h.began];
  }

  lemma BeginsSanctioned(s: Settings, k: Keys, st: State, now: int)
    requires st.keys == Replay(k, st.log) && Probes(s, st.keys, now)
    ensures Sanctioned(s, k, st.log, Began(s, st, now).who.heal)
  {
    hide NeverResumes, DateOf, ResumesOn, Replay;
    assert st.log[..|st.log|] == st.log;
  }

  lemma StepKeepsSanctioned(s: Settings, k: Keys, st: State, a: Step)
    requires st.keys == Replay(k, st.log) && AllSanctioned(s, k, st)
    ensures AllSanctioned(s, k, Next(s, st, a))
  {
    hide Probes, Writes, SweepWrites, HealWrites, Sanctioned, Replay, DateOf, ResumesOn;
    var next := Next(s, st, a);
    LogGrows(s, st, a);
    if a.BeginRecovery? && Probes(s, st.keys, a.now) {
      BeginsSanctioned(s, k, st, a.now);
    }
    forall t: nat | t < |next.threads| && next.threads[t].who.ByHealing?
      ensures Sanctioned(s, k, next.log, next.threads[t].who.heal) {
      if t < |st.threads| {
        assert next.threads[t].who == st.threads[t].who;
        SanctionedOnward(s, k, st.log, next.log, st.threads[t].who.heal);
      }
    }
    forall i | 0 <= i < |next.log| && next.log[i].who.ByHealing?
      ensures next.log[i].who.heal.began <= i && Sanctioned(s, k, next.log, next.log[i].who.heal)
    {
      if i < |st.log| {
        SanctionedOnward(s, k, st.log, next.log, st.log[i].who.heal);
      } else {
        BeganByThen(s, k, st.log, st.threads[a.t].who.heal);
        SanctionedOnward(s, k, st.log, next.log, st.threads[a.t].who.heal);
      }
    }
  }

  lemma BeganByThen(s: Settings, k: Keys, log: seq<Entry>, h: Heal)
    requires Sanctioned(s, k, log, h)
    ensures h.began <= |log|
  {}

  lemma {:induction false} RunKeepsSanctioned(s: Settings, k: Keys, st: State, steps: seq<Step>)
    requires st.keys == Replay(k, st.log) && AllSanctioned(s, k, st)
    ensures AllSanctioned(s, k, Run(s, st, steps))
    decreases |steps|
  {
    hide Next, AllSanctioned, Replay;
    if |steps| > 0 {
      ReplayStep(s, k, st, steps[0]);
      StepKeepsSanctioned(s, k, st, steps[0]);
      RunKeepsSanctioned(s, k, Next(s, st, steps[0]), steps[1..]);
    }
  }

  /** A change by another hand stands at position l of the log and was written since position `began`. */
  ghost predicate OverriddenSince(log: seq<Entry>, began: nat, l: nat)
    requires l <= |log|
  {
    exists x: nat :: began <= x < l && log[x].write.Reason? && !log[x].who.ByBreaker?
                     && forall i | x < i < l :: !log[i].write.Reason?
  }

  /** Over every interleaving with honest operators: a recovery's lift comes from a breaker trip that was
      the last change, with a reason that lets self-healing act, when it passed its guards; and when the
      lift lands the trip is still the last change unless another hand's reason was written meanwhile. */
  lemma LiftOverridesExactly(s: Settings, k: Keys, steps: seq<Step>, l: nat)
    requires !Marked(k.reason) && AllHonest(steps) && l < |Run(s, Fresh(k), steps).log|
             && IsLift(Run(s, Fresh(k), steps).log[l])
    ensures var log := Run(s, Fresh(k), steps).log;
            var h := log[l].who.heal;
            && h.began <= l && BreakersTurn(log[..h.began]) && Frees(h.reason)
            && (!BreakersTurn(log[..l]) <==> OverriddenSince(log, h.began, l))
  {
    hide Run, Marked, Signed, AllHonest, NeverResumes, Replay;
    var log := Run(s, Fresh(k), steps).log;
    var h := log[l].who.heal;
    NothingReplayed(k);
    RunKeepsSigned(s, Fresh(k), steps);
    RunKeepsSanctioned(s, k, Fresh(k), steps);
    MarkOfLog(k, log[..h.began]);
    MarkMeans(Replay(k, log[..h.began]));
    LastReasonSince(log, h.began, l);
  }

  lemma NothingReplayed(k: Keys)
    ensures Replay(k, []) == k
  {}

  lemma MarkMeans(k: Keys)
    ensures Freed(k) <==> Marked(k.reason) && Frees(k.circuit)
  {}

  lemma LastReasonSince(log: seq<Entry>, began: nat, l: nat)
    requires began <= l <= |log| && BreakersTurn(log[..began])
    ensures !BreakersTurn(log[..l]) <==> OverriddenSince(log, began, l)
  {
    var before, now := LastReason(log[..began]), LastReason(log[..l]);
    assert log[..l][before.value] == log[before.value] == log[..began][before.value];
    assert now.Some? && now.value >= before.value;
    if now.value < began {
      assert log[..began][now.value] == log[now.value];
      assert now.value == before.value;
    }
    assert forall i | now.value < i < l :: log[i] == log[..l][i];
    if OverriddenSince(log, began, l) {
      var x: nat :| began <= x < l && log[x].write.Reason? && !log[x].who.ByBreaker?
                    && forall i | x < i < l :: !log[i].write.Reason?;
      assert log[..l][x] == log[x];
      assert now.value == x;
    }
  }

  // ---- A killed bot is paused ------------------------------------------------------------------------

  predicate KillMeansPaused(k: Keys) {
    k.kill ==> k.paused == Some(true)
  }

  predicate Wrote(log: seq<Entry>, i: nat, thread: nat, w: Write) {
    i < |log| && log[i].thread == thread && log[i].write == w
  }

  /** The kill switch goes on right after the pause, and off right after the pause is lifted. */
  ghost predicate Paired(ws: seq<Write>) {
    && (forall i | 0 <= i < |ws| && ws[i] == Kill(true) :: i > 0 && ws[i - 1] == Paused(true))
    && (forall i | 0 <= i < |ws| && ws[i] == Paused(false) :: i + 1 < |ws| && ws[i + 1] == Kill(false))
  }

  lemma PairedJoin(a: seq<Write>, b: seq<Write>)
    requires Paired(a) && Paired(b)
    ensures Paired(a + b)
  {
    var ws := a + b;
    forall i | 0 <= i < |ws| && ws[i] == Kill(true) ensures i > 0 && ws[i - 1] == Paused(true) {
      if i >= |a| {
        assert b[i - |a|] == Kill(true);
      }
    }
    forall i | 0 <= i < |ws| && ws[i] == Paused(false) ensures i + 1 < |ws| && ws[i + 1] == Kill(false) {
      if i >= |a| {
        assert b[i - |a|] == Paused(false);
      } else {
        assert a[i] == Paused(false);
      }
    }
  }

  lemma ActionsArePaired(s: Settings, k: Keys, op: Action)
    requires Simple(op)
    ensures Paired(Writes(s, k, op))
  {
    hide Or;
  }

  lemma HealIsPaired(h: Heal)
    ensures Paired(HealWrites(h))
  {
    hide Or;
  }

  lemma SweepIsPaired(s: Settings, k: Keys, result: Sweep)
    ensures Paired(SweepWrites(s, k, result))
  {
    hide TripsBreaker, Join, TripWrites;
    if result.Failed? {
      var first := (if result.verified.Some? then [Verified(result.verified.value)] else []) +
          [Failures(k.failures + 1)];
      var trip := TripWrites(Join(result.issues));
      assert Paired(trip) by { ActionsArePaired(s, k, Trip(Join(result.issues))); }
      PairedJoin(first, if TripsBreaker(s, k, result) then trip else []);
    }
  }

  lemma EndedIsPaired(s: Settings, st: State, th: Thread, result: Sweep)
    ensures Paired(Ended(s, st, th, result).todo) && Ended(s, st, th, result).stage.Writing?
  {
    hide SweepWrites, HealWrites, Paired;
    SweepIsPaired(s, st.keys, result);
    if th.who.ByHealing? {
      HealIsPaired(th.who.heal);
      PairedJoin(SweepWrites(s, st.keys, result), HealWrites(th.who.heal));
    }
  }

  ghost predicate PausedBy(log: seq<Entry>, t: nat) {
    exists a: nat :: Wrote(log, a, t, Paused(true))
  }

  /** What thread t has left: in pairs, but for a kill whose pause landed as its last write. */
  ghost predicate LeftPaired(log: seq<Entry>, t: nat, todo: seq<Write>) {
    forall i: nat | i < |todo| :: PairedAt(log, t, todo, i)
  }

  ghost predicate PairedAt(log: seq<Entry>, t: nat, todo: seq<Write>, i: nat)
    requires i < |todo|
  {
    && (todo[i] == Kill(true) ==> if i > 0 then todo[i - 1] == Paused(true) else PausedBy(log, t))
    && (todo[i] == Paused(false) ==> i + 1 < |todo| && todo[i + 1] == Kill(false))
  }

  /** A kill that landed has the same thread's pause before it. */
  ghost predicate KillsFollow(log: seq<Entry>, d: nat)
    requires d < |log|
  {
    log[d].write == Kill(true) ==> exists a: nat :: a < d && Wrote(log, a, log[d].thread, Paused(true))
  }

  predicate KillNext(st: State, t: nat) {
    t < |st.threads| && (st.threads[t].stage.Cut? || (st.threads[t].todo != [] && st.threads[t].todo[0] == Kill(false)))
  }

  /** A lift that landed has the same thread's kill write after it, next in the thread, or cut off. */
  ghost predicate LiftsGoOn(st: State, b: nat)
    requires b < |st.log|
  {
    st.log[b].write == Paused(false) ==>
      (exists c: nat :: b < c && Wrote(st.log, c, st.log[b].thread, Kill(false))) || KillNext(st, st.log[b].thread)
  }

  ghost predicate AllPaired(st: State) {
    && (forall t: nat | t < |st.threads| ::
        LeftPaired(st.log, t, st.threads[t].todo) && (st.threads[t].stage.Cut? ==> st.threads[t].todo == []))
    && (forall d: nat | d < |st.log| :: KillsFollow(st.log, d))
    && (forall b: nat | b < |st.log| :: LiftsGoOn(st, b))
  }

  lemma PairedIsLeft(log: seq<Entry>, t: nat, todo: seq<Write>)
    requires Paired(todo)
    ensures LeftPaired(log, t, todo)
  {}

  lemma PausedByOnward(log: seq<Entry>, e: Entry, t: nat)
    ensures PausedBy(log, t) ==> PausedBy(log + [e], t)
    ensures e.thread == t && e.write == Paused(true) ==> PausedBy(log + [e], t)
  {
    if a: nat :| Wrote(log, a, t, Paused(true)) {
      assert Wrote(log + [e], a, t, Paused(true));
    }
    assert Wrote(log + [e], |log|, e.thread, e.write);
  }

  lemma LeftOnward(log: seq<Entry>, e: Entry, t: nat, todo: seq<Write>)
    requires LeftPaired(log, t, todo)
    ensures LeftPaired(log + [e], t, todo)
  {
    PausedByOnward(log, e, t);
    hide PausedBy;
    forall i: nat | i < |todo| ensures PairedAt(log + [e], t, todo, i) {
      assert PairedAt(log, t, todo, i);
    }
  }

  lemma LeftNext(log: seq<Entry>, t: nat, todo: seq<Write>, who: Author)
    requires LeftPaired(log, t, todo) && |todo| > 0
    ensures LeftPaired(log + [Entry(t, who, todo[0])], t, todo[1..])
  {
    var e := Entry(t, who, todo[0]);
    PausedByOnward(log, e, t);
    hide PausedBy;
    forall i: nat | i < |todo[1..]| ensures PairedAt(log + [e], t, todo[1..], i) {
      assert PairedAt(log, t, todo, i + 1);
    }
  }

  lemma KillsOnward(log: seq<Entry>, e: Entry, d: nat)
    requires d < |log| && KillsFollow(log, d)
    ensures KillsFollow(log + [e], d)
  {
    if log[d].write == Kill(true) {
      var a: nat :| a < d && Wrote(log, a, log[d].thread, Paused(true));
      assert Wrote(log + [e], a, log[d].thread, Paused(true));
    }
  }

  lemma KillLands(log: seq<Entry>, t: nat, todo: seq<Write>, who: Author)
    requires LeftPaired(log, t, todo) && |todo| > 0
    ensures KillsFollow(log + [Entry(t, who, todo[0])], |log|)
  {
    assert PairedAt(log, t, todo, 0);
    if todo[0] == Kill(true) {
      var a: nat :| Wrote(log, a, t, Paused(true));
      assert Wrote(log + [Entry(t, who, todo[0])], a, t, Paused(true));
    }
  }

  lemma LiftsOnward(st: State, t: nat, b: nat)
    requires t < |st.threads| && st.threads[t].todo != [] && b < |st.log| && LiftsGoOn(st, b)
    ensures LiftsGoOn(Landed1(st, t), b)
  {
    var r := Landed1(st, t);
    if st.log[b].write == Paused(false) {
      var g := st.log[b].thread;
      if c: nat :| b < c && Wrote(st.log, c, g, Kill(false)) {
        assert Wrote(r.log, c, g, Kill(false));
      } else if g == t && st.threads[t].todo[0] == Kill(false) {
        assert Wrote(r.log, |st.log|, g, Kill(false));
      }
    }
  }

  lemma MoveKeepsPaired(st: State, t: nat)
    requires t < |st.threads| && st.threads[t].todo != [] && AllPaired(st)
    ensures AllPaired(Landed1(st, t))
  {
    hide LeftPaired, KillsFollow, LiftsGoOn;
    var r, th := Landed1(st, t), st.threads[t];
    var e := Entry(t, th.who, th.todo[0]);
    assert LeftPaired(st.log, t, th.todo);
    forall g: nat | g < |r.threads|
      ensures LeftPaired(r.log, g, r.threads[g].todo) && (r.threads[g].stage.Cut? ==> r.threads[g].todo == [])
    {
      assert LeftPaired(st.log, g, st.threads[g].todo);
      if g == t {
        LeftNext(st.log, t, th.todo, th.who);
      } else {
        LeftOnward(st.log, e, g, st.threads[g].todo);
      }
    }
    forall d: nat | d < |r.log| ensures KillsFollow(r.log, d) {
      if d < |st.log| {
        KillsOnward(st.log, e, d);
      } else {
        KillLands(st.log, t, th.todo, th.who);
      }
    }
    forall b: nat | b < |r.log| ensures LiftsGoOn(r, b) {
      if b < |st.log| {
        LiftsOnward(st, t, b);
      } else {
        LiftLands(st, t);
      }
    }
  }

  lemma LiftLands(st: State, t: nat)
    requires t < |st.threads| && st.threads[t].todo != [] && LeftPaired(st.log, t, st.threads[t].todo)
    ensures LiftsGoOn(Landed1(st, t), |st.log|)
  {
    var todo := st.threads[t].todo;
    assert PairedAt(st.log, t, todo, 0);
    if todo[0] == Paused(false) {
      assert todo[1..][0] == todo[1] == Kill(false);
    }
  }

  lemma StepKeepsPaired(s: Settings, st: State, a: Step)
    requires AllPaired(st)
    ensures AllPaired(Next(s, st, a))
  {
    hide Probes, Writes, Ended, LeftPaired, KillsFollow, Landed1, AllPaired;
    match a {
      case Launch(op) =>
        if Simple(op) {
          ActionsArePaired(s, st.keys, op);
          LaunchKeepsPaired(st, Thread(if op.Trip? then ByBreaker else ByOperator, Writes(s, st.keys, op), Writing));
        }
      case BeginSweep => LaunchKeepsPaired(st, Thread(ByBreaker, [], Sweeping));
      case BeginRecovery(now) => LaunchKeepsPaired(st, Began(s, st, now));
      case EndSweep(t, result) =>
        if t < |st.threads| && st.threads[t].stage.Sweeping? && st.threads[t].todo == [] {
          EndedIsPaired(s, st, st.threads[t], result);
          ChangeKeepsPaired(st, t, Ended(s, st, st.threads[t], result));
        }
      case Move(t) =>
        if t < |st.threads| && st.threads[t].todo != [] {
          MoveKeepsPaired(st, t);
        }
      case CutOff(t) =>
        if t < |st.threads| {
          ChangeKeepsPaired(st, t, Thread(st.threads[t].who, [], Cut));
        }
    }
  }

  lemma LaunchKeepsPaired(st: State, th: Thread)
    requires AllPaired(st) && Paired(th.todo) && !th.stage.Cut?
    ensures AllPaired(st.(threads := st.threads + [th]))
  {
    hide LeftPaired, KillsFollow, Paired;
    PairedIsLeft(st.log, |st.threads|, th.todo);
    var r := st.(threads := st.threads + [th]);
    forall b: nat | b < |r.log| ensures LiftsGoOn(r, b) {
      assert LiftsGoOn(st, b);
    }
  }

  /** A thread with nothing to write gets its next writes, or a thread is cut. */
  lemma ChangeKeepsPaired(st: State, t: nat, th: Thread)
    requires AllPaired(st) && t < |st.threads| && Paired(th.todo)
    requires th == Thread(st.threads[t].who, [], Cut)
             || (st.threads[t].todo == [] && !st.threads[t].stage.Cut? && !th.stage.Cut?)
    ensures AllPaired(st.(threads := st.threads[t := th]))
  {
    hide LeftPaired, KillsFollow, Paired;
    PairedIsLeft(st.log, t, th.todo);
    var r := st.(threads := st.threads[t := th]);
    forall b: nat | b < |r.log| ensures LiftsGoOn(r, b) {
      assert LiftsGoOn(st, b);
    }
  }

  lemma {:induction false} RunKeepsPaired(s: Settings, st: State, steps: seq<Step>)
    requires AllPaired(st)
    ensures AllPaired(Run(s, st, steps))
    decreases |steps|
  {
    hide Next, AllPaired;
    if |steps| > 0 {
      StepKeepsPaired(s, st, steps[0]);
      RunKeepsPaired(s, Next(s, st, steps[0]), steps[1..]);
    }
  }

  /** The last pause write of the log, and the last kill write. */
  ghost predicate LastPause(log: seq<Entry>, b: nat) {
    b < |log| && log[b].write.Paused? && forall i | b < i < |log| :: !log[i].write.Paused?
  }

  ghost predicate LastKill(log: seq<Entry>, d: nat) {
    d < |log| && log[d].write.Kill? && forall i | d < i < |log| :: !log[i].write.Kill?
  }

  lemma {:induction false} PauseOfLog(k: Keys, log: seq<Entry>) returns (b: Option<nat>)
    ensures b.Some? ==> LastPause(log, b.value) && Replay(k, log).paused == Some(log[b.value].write.on)
    ensures b.None? ==> Replay(k, log).paused == k.paused && forall i | 0 <= i < |log| :: !log[i].write.Paused?
  {
    if |log| == 0 {
      return None;
    }
    if log[|log| - 1].write.Paused? {
      return Some(|log| - 1);
    }
    b := PauseOfLog(k, log[..|log| - 1]);
  }

  lemma {:induction false} KillOfLog(k: Keys, log: seq<Entry>) returns (d: Option<nat>)
    ensures d.Some? ==> LastKill(log, d.value) && Replay(k, log).kill == log[d.value].write.on
    ensures d.None? ==> Replay(k, log).kill == k.kill && forall i | 0 <= i < |log| :: !log[i].write.Kill?
  {
    if |log| == 0 {
      return None;
    }
    if log[|log| - 1].write.Kill? {
      return Some(|log| - 1);
    }
    d := KillOfLog(k, log[..|log| - 1]);
  }

  /** A resume's two first writes fell between the pause and the kill of a kill switch or a trip, and
      no pause was written after the lift, nor a kill after the kill. */
  ghost predicate NestedAt(log: seq<Entry>, a: nat, b: nat, c: nat, d: nat) {
    && a < b < c < d
    && LastPause(log, b) && log[b].write == Paused(false) && Wrote(log, c, log[b].thread, Kill(false))
    && LastKill(log, d) && log[d].write == Kill(true) && Wrote(log, a, log[d].thread, Paused(true))
  }

  ghost predicate Nested(log: seq<Entry>) {
    exists a, b, c, d :: NestedAt(log, a, b, c, d)
  }

  /** A thread was cut right after the last lift, before its kill write, and the kill switch is on. */
  ghost predicate TornAt(st: State, b: nat) {
    && LastPause(st.log, b) && st.log[b].write == Paused(false) && st.keys.kill
    && st.log[b].thread < |st.threads| && st.threads[st.log[b].thread].stage.Cut?
    && forall c: nat | b < c :: !Wrote(st.log, c, st.log[b].thread, Kill(false))
  }

  ghost predicate Torn(st: State) {
    exists b :: TornAt(st, b)
  }

  /** No thread stands between its lift and its kill write. */
  ghost predicate NoneMidResume(st: State) {
    forall t: nat | t < |st.threads| && st.threads[t].todo != [] :: st.threads[t].todo[0] != Kill(false)
  }

  /** Over every interleaving, threads cut anywhere, and whenever no thread stands between its lift and
      its kill write: the persisted kill switch is on without the persisted pause if and only if a
      resume's two first writes fell inside a kill's or a trip's pause and kill and stood last, or a
      resume of a killed bot was cut between them. */
  lemma KillMeansPausedExactly(s: Settings, k: Keys, steps: seq<Step>)
    requires KillMeansPaused(k) && NoneMidResume(Run(s, Fresh(k), steps))
    ensures var st := Run(s, Fresh(k), steps);
            KillMeansPaused(st.keys) <==> !Nested(st.log) && !Torn(st)
  {
    hide Run, Replay, Wrote, NestedAt, TornAt;
    var st := Run(s, Fresh(k), steps);
    NothingReplayed(k);
    KeysAreReplayed(s, k, Fresh(k), steps);
    RunKeepsPaired(s, Fresh(k), steps);
    if Nested(st.log) || Torn(st) {
      UnpausedIfSo(k, st);
    } else if !KillMeansPaused(st.keys) {
      UnpausedMeans(k, st);
    }
  }

  lemma UnpausedIfSo(k: Keys, st: State)
    requires st.keys == Replay(k, st.log) && (Nested(st.log) || Torn(st))
    ensures !KillMeansPaused(st.keys)
  {
    hide Replay, Wrote;
    var p := PauseOfLog(k, st.log);
    var q := KillOfLog(k, st.log);
    if Nested(st.log) {
      var a, b, c, d :| NestedAt(st.log, a, b, c, d);
      assert p.value == b && q.value == d;
    } else {
      var b :| TornAt(st, b);
      assert p.value == b;
    }
  }

  lemma UnpausedMeans(k: Keys, st: State)
    requires st.keys == Replay(k, st.log) && KillMeansPaused(k) && AllPaired(st) && NoneMidResume(st)
             && !KillMeansPaused(st.keys)
    ensures Nested(st.log) || Torn(st)
  {
    hide Replay, LeftPaired, KillsFollow, LiftsGoOn;
    var p := PauseOfLog(k, st.log);
    var q := KillOfLog(k, st.log);
    if q.Some? {
      var a0 := PauseBeforeKill(st.log, q.value);
      assert p.Some?;
    } else {
      assert k.kill && p.Some?;
    }
    var b := p.value;
    var g := st.log[b].thread;
    assert st.log[b].write == Paused(false);
    assert LiftsGoOn(st, b);
    var c := KillAfterLift(st, b);
    if c.Some? {
      assert Wrote(st.log, c.value, g, Kill(false));
      var d := q.value;
      assert c.value < d;
      var a := PauseBeforeKill(st.log, d);
      assert NestedAt(st.log, a, b, c.value, d);
    } else {
      assert TornAt(st, b);
    }
  }

  lemma PauseBeforeKill(log: seq<Entry>, d: nat) returns (a: nat)
    requires d < |log| && KillsFollow(log, d) && log[d].write == Kill(true)
    ensures a < d && Wrote(log, a, log[d].thread, Paused(true))
  {
    a :| a < d && Wrote(log, a, log[d].thread, Paused(true));
  }

  lemma KillAfterLift(st: State, b: nat) returns (c: Option<nat>)
    requires b < |st.log| && st.log[b].write == Paused(false) && LiftsGoOn(st, b) && NoneMidResume(st)
    ensures c.Some? ==> b < c.value && Wrote(st.log, c.value, st.log[b].thread, Kill(false))
    ensures c.None? ==> st.log[b].thread < |st.threads| && st.threads[st.log[b].thread].stage.Cut?
                        && forall c: nat | b < c :: !Wrote(st.log, c, st.log[b].thread, Kill(false))
  {
    if x: nat :| b < x && Wrote(st.log, x, st.log[b].thread, Kill(false)) {
      return Some(x);
    }
    return None;
  }

  // ---- Actions that do not overlap ---------------------------------------------------------------------

  /** A kill switch or trip still has its kill write to come while a resume or a lift has its lift or its
      kill write to come. */
  ghost predicate Overlap(st: State) {
    exists u: nat, v: nat ::
      u < |st.threads| && v < |st.threads| && Kill(true) in st.threads[u].todo && WillUnkill(st.threads[v])
  }

  predicate WillUnkill(th: Thread) {
    Paused(false) in th.todo || Kill(false) in th.todo
  }

  predicate MidResume(st: State, t: nat) {
    t < |st.threads| && st.threads[t].todo != [] && st.threads[t].todo[0] == Kill(false)
  }

  predicate KillsNext(st: State, t: nat) {
    t < |st.threads| && st.threads[t].todo != [] && st.threads[t].todo[0] == Kill(true)
  }

  /** In no state of the run do a kill or trip and a resume or lift overlap, and no step cuts a resume or
      lift off between its two first writes. */
  ghost predicate KeptApart(s: Settings, st: State, steps: seq<Step>)
    decreases |steps|
  {
    && !Overlap(st)
    && (|steps| > 0 ==>
          !(steps[0].CutOff? && MidResume(st, steps[0].t)) && KeptApart(s, Next(s, st, steps[0]), steps[1..]))
  }

  ghost predicate Guarded(st: State) {
    && (KillMeansPaused(st.keys) || exists t: nat :: MidResume(st, t))
    && (forall t: nat | KillsNext(st, t) :: st.keys.paused == Some(true))
  }

  lemma NoKillBeside(st: State, g: nat, t: nat)
    requires !Overlap(st) && g < |st.threads| && t < |st.threads| && WillUnkill(st.threads[t])
    ensures !KillsNext(st, g)
  {}

  lemma MoveKeepsGuarded(st: State, t: nat)
    requires Guarded(st) && AllPaired(st) && !Overlap(st) && t < |st.threads| && st.threads[t].todo != []
    ensures Guarded(Landed1(st, t))
  {
    hide KillsFollow, LiftsGoOn, PausedBy;
    var todo, r := st.threads[t].todo, Landed1(st, t);
    assert LeftPaired(st.log, t, todo) && PairedAt(st.log, t, todo, 0);
    if |todo| > 1 {
      assert PairedAt(st.log, t, todo, 1);
    }
    if todo[0] == Kill(true) {
      assert KillsNext(st, t);
    } else if todo[0] == Paused(false) {
      assert MidResume(r, t);
      forall g: nat | g < |st.threads| && g != t ensures !KillsNext(r, g) {
        NoKillBeside(st, g, t);
      }
    } else if !KillMeansPaused(st.keys) {
      var m: nat :| MidResume(st, m);
      assert m != t ==> MidResume(r, m);
    }
    forall g: nat | KillsNext(r, g) && g != t ensures KillsNext(st, g) {}
  }

  lemma ChangeKeepsGuarded(st: State, r: State, t: nat)
    requires Guarded(st) && r.keys == st.keys && t < |r.threads| && !KillsNext(r, t) && !MidResume(st, t)
    requires |r.threads| >= |st.threads| && forall g: nat | g < |r.threads| && g != t ::
             g < |st.threads| && r.threads[g] == st.threads[g]
    ensures Guarded(r)
  {
    if !KillMeansPaused(st.keys) {
      var m: nat :| MidResume(st, m);
      assert MidResume(r, m);
    }
    forall g: nat | KillsNext(r, g) ensures KillsNext(st, g) {}
  }

  lemma PairedStarts(ws: seq<Write>)
    requires Paired(ws)
    ensures ws != [] ==> ws[0] != Kill(true)
  {}

  lemma StepKeepsGuarded(s: Settings, st: State, a: Step)
    requires Guarded(st) && AllPaired(st) && !Overlap(st) && !(a.CutOff? && MidResume(st, a.t))
    ensures Guarded(Next(s, st, a))
  {
    hide Probes, Writes, Ended, Guarded, Overlap, AllPaired, Paired, Landed1;
    var next := Next(s, st, a);
    match a {
      case Launch(op) =>
        if Simple(op) {
          ActionsArePaired(s, st.keys, op);
          PairedStarts(Writes(s, st.keys, op));
          ChangeKeepsGuarded(st, next, |st.threads|);
        }
      case BeginSweep => ChangeKeepsGuarded(st, next, |st.threads|);
      case BeginRecovery(now) =>
        if Probes(s, st.keys, now) {
          ChangeKeepsGuarded(st, next, |st.threads|);
        }
      case EndSweep(t, result) =>
        if t < |st.threads| && st.threads[t].stage.Sweeping? && st.threads[t].todo == [] {
          EndedIsPaired(s, st, st.threads[t], result);
          PairedStarts(Ended(s, st, st.threads[t], result).todo);
          ChangeKeepsGuarded(st, next, t);
        }
      case Move(t) =>
        if t < |st.threads| && st.threads[t].todo != [] {
          MoveKeepsGuarded(st, t);
        }
      case CutOff(t) =>
        if t < |st.threads| {
          ChangeKeepsGuarded(st, next, t);
        }
    }
  }

  lemma {:induction false} RunKeepsGuarded(s: Settings, st: State, steps: seq<Step>)
    requires Guarded(st) && AllPaired(st) && KeptApart(s, st, steps)
    ensures Guarded(Run(s, st, steps))
    decreases |steps|
  {
    hide Next, Guarded, AllPaired, Overlap;
    if |steps| > 0 {
      StepKeepsGuarded(s, st, steps[0]);
      StepKeepsPaired(s, st, steps[0]);
      RunKeepsGuarded(s, Next(s, st, steps[0]), steps[1..]);
    }
  }

  /** As long as no resume or lift overlaps a kill switch or a trip and none is cut between its first two
      writes, a killed bot is paused whenever no resume is between them. */
  lemma KilledStaysPaused(s: Settings, k: Keys, steps: seq<Step>)
    requires KillMeansPaused(k) && KeptApart(s, Fresh(k), steps) && NoneMidResume(Run(s, Fresh(k), steps))
    ensures KillMeansPaused(Run(s, Fresh(k), steps).keys)
  {
    hide Run, KeptApart;
    RunKeepsGuarded(s, Fresh(k), steps);
  }

  /** A trip and an operator's resume, none of them cut: the resume's lift and kill write fall between
      the trip's pause and its kill write, and the bot ends up killed and not paused. */
  lemma ResumeInsideATrip(s: Settings, k: Keys)
    ensures var st := Run(s, Fresh(k), [Launch(Trip("x")), Move(0), Move(0), Launch(Resume(""))]
                                       + [Move(1), Move(1), Move(0), Move(0), Move(1)]);
            st.keys.kill && st.keys.paused == Some(false) && forall t: nat | t < |st.threads| ::
              st.threads[t] == st.threads[t].(todo := [])
  {
    hide Run;
    var first := [Launch(Trip("x")), Move(0), Move(0), Launch(Resume(""))];
    RunJoins(s, Fresh(k), first, [Move(1), Move(1), Move(0), Move(0), Move(1)]);
    var trip := HalfATrip(s, k);
    ResumeInsideFrom(s, Run(s, Fresh(k), first), trip, "resumed manually");
  }

  lemma HalfATrip(s: Settings, k: Keys) returns (trip: string)
    ensures Run(s, Fresh(k), [Launch(Trip("x")), Move(0), Move(0), Launch(Resume(""))]).threads ==
            [Thread(ByBreaker, [Kill(true), Reason(trip)], Writing),
             Thread(ByOperator, [Paused(false), Kill(false), Reason("resumed manually")], Writing)]
  {
    trip := BREAKER_PREFIX + " " + "x";
    assert trip[0] == 'c' && TripWrites("x") == [Circuit("x"), Paused(true), Kill(true), Reason(trip)];
    hide Run, TripWrites;
    var t0 := Thread(ByBreaker, [Circuit("x"), Paused(true), Kill(true), Reason(trip)], Writing);
    var s1 := State(k, [t0], []);
    assert Next(s, Fresh(k), Launch(Trip("x"))) == s1;
    var s2 := Landed1(Landed1(s1, 0), 0);
    assert t0.todo[1..][1..] == [Kill(true), Reason(trip)];
    assert s2.threads == [t0.(todo := [Kill(true), Reason(trip)])];
    RunTwo(s, Fresh(k), Launch(Trip("x")), Move(0));
    RunTwo(s, Landed1(s1, 0), Move(0), Launch(Resume("")));
    RunJoins(s, Fresh(k), [Launch(Trip("x")), Move(0)], [Move(0), Launch(Resume(""))]);
    assert [Launch(Trip("x")), Move(0)] +
           [Move(0), Launch(Resume(""))] == [Launch(Trip("x")), Move(0), Move(0), Launch(Resume(""))];
  }

  lemma ResumeInsideFrom(s: Settings, st: State, trip: string, resume: string)
    requires st.threads == [Thread(ByBreaker, [Kill(true), Reason(trip)], Writing),
                            Thread(ByOperator, [Paused(false), Kill(false), Reason(resume)], Writing)]
    ensures var r := Run(s, st, [Move(1), Move(1), Move(0), Move(0), Move(1)]);
            r.keys.kill && r.keys.paused == Some(false) && forall t: nat | t < |r.threads| ::
              r.threads[t] == r.threads[t].(todo := [])
  {
    hide Run;
    var a := Landed1(Landed1(st, 1), 1);
    assert st.threads[1].todo[1..][1..] == [Reason(resume)];
    assert a.threads == [st.threads[0], st.threads[1].(todo := [Reason(resume)])];
    var b := Landed1(Landed1(a, 0), 0);
    assert st.threads[0].todo[1..][1..] == [];
    assert b.threads == [st.threads[0].(todo := []), a.threads[1]];
    var c := Landed1(b, 1);
    assert a.threads[1].todo[1..] == [];
    assert c.threads == [b.threads[0], st.threads[1].(todo := [])];
    RunTwo(s, st, Move(1), Move(1));
    RunTwo(s, a, Move(0), Move(0));
    RunOne(s, b, Move(1));
    RunJoins(s, a, [Move(0), Move(0)], [Move(1)]);
    RunJoins(s, st, [Move(1), Move(1)], [Move(0), Move(0)] + [Move(1)]);
    assert [Move(1), Move(1)] + ([Move(0), Move(0)] + [Move(1)]) == [Move(1), Move(1), Move(0), Move(0), Move(1)];
  }
}
