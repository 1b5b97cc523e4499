/** The automation controls as threads run them. An action under way is the list of single writes it
    has left; the writes of all threads land in any order, and a thread may be cut for good. A recovery
    reads its guards in one step, and everything after that is open to the others: its probe write, its
    sweep, its lift. Sweeps may overlap, since the lock between them is one process's; a recovery that
    finds it taken has a sweep that did not run. */
module BreakerThreads {
  import opened Wrappers
  import opened Calendar
  import opened Breaker
  import opened BreakerHealing

  /** A recovery past its guards: the breaker's reason, the time and its day's resumes as it read them, and
      how many writes had landed by then. */
  datatype Heal = Heal(reason: string, now: int, count: nat, began: nat)

  datatype Author = ByOperator | ByBreaker | ByHealing(heal: Heal)

  datatype Stage = Sweeping | Writing | Cut

  datatype Thread = Thread(who: Author, todo: seq<Write>, stage: Stage)

  datatype Entry = Entry(thread: nat, who: Author, write: Write)

  /** `log` holds every write that landed. */
  datatype State = State(keys: Keys, threads: seq<Thread>, log: seq<Entry>)

  datatype Step =
    | Launch(op: Action)
    | BeginSweep
    | BeginRecovery(now: int)
    | EndSweep(t: nat, result: Sweep)
    | Move(t: nat)
    | CutOff(t: nat)

  function Fresh(k: Keys): State { State(k, [], []) }

  /** The actions that are their writes and nothing else. */
  predicate Simple(op: Action) {
    op.Pause? || op.Resume? || op.KillSwitch? || op.Trip? || op.ClearBreaker?
  }

  function HealWrites(h: Heal): seq<Write> {
    [Circuit("")] + ResumeWrites("auto-recovered: reconciliation clean after " + h.reason) +
      [Resumes(DateOf(h.now), h.count + 1)]
  }

  function Began(s: Settings, st: State, now: int): Thread {
    Thread(ByHealing(Heal(st.keys.circuit, now, ResumesOn(st.keys, DateOf(now)), |st.log|)), [Probe(now)], Sweeping)
  }

  /** A recovery whose sweep is clean goes on to the lift; any other sweep ends with its own writes. */
  function Ended(s: Settings, st: State, th: Thread, result: Sweep): Thread {
    var ws := SweepWrites(s, st.keys, result);
    if th.who.ByHealing? && result.Clean? then Thread(th.who, ws + HealWrites(th.who.heal), Writing)
    else Thread(ByBreaker, ws, Writing)
  }

  function Next(s: Settings, st: State, a: Step): State {
    match a
    case Launch(op) =>
      if Simple(op) then
        st.(threads := st.threads + [Thread(if op.Trip? then ByBreaker else ByOperator, Writes(s, st.keys, op),
                                            Writing)])
      else st
    case BeginSweep => st.(threads := st.threads + [Thread(ByBreaker, [], Sweeping)])
    case BeginRecovery(now) => if Probes(s, st.keys, now) then st.(threads := st.threads + [Began(s, st, now)]) else st
    case EndSweep(t, result) =>
      if t < |st.threads| && st.threads[t].stage.Sweeping? && st.threads[t].todo == [] then
        st.(threads := st.threads[t := Ended(s, st, st.threads[t], result)])
      else st
    case Move(t) => if t < |st.threads| && st.threads[t].todo != [] then Landed1(st, t) else st
    case CutOff(t) => if t < |st.threads| then st.(threads := st.threads[t := Thread(st.threads[t].who, [], Cut)])
      else st
  }

  /** The thread's next write lands. */
  function Landed1(st: State, t: nat): State
    requires t < |st.threads| && st.threads[t].todo != []
  {
    var th := st.threads[t];
    State(Put(st.keys, th.todo[0]), st.threads[t := th.(todo := th.todo[1..])], st.log + [Entry(t, th.who, th.todo[0])])
  }

  function Run(s: Settings, st: State, steps: seq<Step>): State
    decreases |steps|
  {
    if |steps| == 0 then st else Run(s, Next(s, st, steps[0]), steps[1..])
  }

  lemma {:induction false} RunJoins(s: Settings, st: State, a: seq<Step>, b: seq<Step>)
    ensures Run(s, st, a + b) == Run(s, Run(s, st, a), b)
    decreases |a|
  {
    hide Next;
    if |a| == 0 {
      assert a + b == b;
    } else {
      assert (a + b)[1..] == a[1..] + b;
      RunJoins(s, Next(s, st, a[0]), a[1..], b);
    }
  }

  // ---- An action that nothing interferes with --------------------------------------------------------

  function Moves(t: nat, n: nat): seq<Step> { seq(n, _ => Move(t)) }

  /** A thread that moves alone lands its writes in order. */
  lemma {:induction false} MovesLand(s: Settings, st: State, t: nat, n: nat)
    requires t < |st.threads| && n <= |st.threads[t].todo|
    ensures var r := Run(s, st, Moves(t, n));
            && r.keys == PutAll(st.keys, st.threads[t].todo[..n])
            && r.threads == st.threads[t := st.threads[t].(todo := st.threads[t].todo[n..])]
    decreases n
  {
    if n > 0 {
      var todo, next := st.threads[t].todo, Landed1(st, t);
      assert Moves(t, n)[1..] == Moves(t, n - 1);
      MovesLand(s, next, t, n - 1);
      assert todo[..n][1..] == todo[1..][..n - 1];
      assert todo[1..][n - 1..] == todo[n..];
    } else {
      assert st.threads[t].todo[..0] == [];
      assert st.threads == st.threads[t := st.threads[t].(todo := st.threads[t].todo[0..])];
    }
  }

  /** Each action, cut after any number of its writes, is a run of the machine in which nothing else
      moves. */
  lemma EventIsARun(s: Settings, k: Keys, e: Event) returns (steps: seq<Step>)
    ensures Run(s, Fresh(k), steps).keys == After(s, k, e)
  {
    hide Run, PutAll, SweepWrites, RecoverWrites;
    var ws := Landed(s, k, e);
    match e.action {
      case Reconcile(result) => steps := SweepIsARun(s, k, result, ws);
      case TryRecover(now, result) => steps := RecoveryIsARun(s, k, now, result, ws);
      case _ => steps := SimpleIsARun(s, k, e.action, ws);
    }
  }

  lemma PartLands(s: Settings, k: Keys, who: Author, all: seq<Write>, log: seq<Entry>, ws: seq<Write>)
    requires ws <= all
    ensures Run(s, State(k, [Thread(who, all, Writing)], log), Moves(0, |ws|)).keys == PutAll(k, ws)
  {
    hide PutAll;
    MovesLand(s, State(k, [Thread(who, all, Writing)], log), 0, |ws|);
    assert all[..|ws|] == ws;
  }

  lemma SimpleIsARun(s: Settings, k: Keys, op: Action, ws: seq<Write>) returns (steps: seq<Step>)
    requires Simple(op) && ws <= Writes(s, k, op)
    ensures Run(s, Fresh(k), steps).keys == PutAll(k, ws)
  {
    hide Writes, PutAll, Run;
    steps := [Launch(op)] + Moves(0, |ws|);
    RunJoins(s, Fresh(k), [Launch(op)], Moves(0, |ws|));
    RunOne(s, Fresh(k), Launch(op));
    var who := if op.Trip? then ByBreaker else ByOperator;
    assert Next(s, Fresh(k), Launch(op)) == State(k, [Thread(who, Writes(s, k, op), Writing)], []);
    PartLands(s, k, who, Writes(s, k, op), [], ws);
  }

  lemma SweepIsARun(s: Settings, k: Keys, result: Sweep, ws: seq<Write>) returns (steps: seq<Step>)
    requires ws <= SweepWrites(s, k, result)
    ensures Run(s, Fresh(k), steps).keys == PutAll(k, ws)
  {
    hide SweepWrites, PutAll, Run;
    var first := [BeginSweep, EndSweep(0, result)];
    steps := first + Moves(0, |ws|);
    RunJoins(s, Fresh(k), first, Moves(0, |ws|));
    RunTwo(s, Fresh(k), BeginSweep, EndSweep(0, result));
    var begun := State(k, [Thread(ByBreaker, [], Sweeping)], []);
    assert Next(s, Fresh(k), BeginSweep) == begun;
    assert Next(s, begun, EndSweep(0, result)) == State(k, [Thread(ByBreaker, SweepWrites(s, k, result), Writing)], []);
    PartLands(s, k, ByBreaker, SweepWrites(s, k, result), [], ws);
  }

  lemma RunOne(s: Settings, st: State, a: Step)
    ensures Run(s, st, [a]) == Next(s, st, a)
  {
    assert Run(s, Next(s, st, a), [a][1..]) == Next(s, st, a);
  }

  lemma RunTwo(s: Settings, st: State, a: Step, b: Step)
    ensures Run(s, st, [a, b]) == Next(s, Next(s, st, a), b)
  {
    assert [a, b] == [a] + [b];
    RunJoins(s, st, [a], [b]);
    RunOne(s, st, a);
    RunOne(s, Next(s, st, a), b);
  }

  lemma RecoveryIsARun(s: Settings, k: Keys, now: int, result: Sweep, ws: seq<Write>) returns (steps: seq<Step>)
    requires ws <= RecoverWrites(s, k, now, result)
    ensures Run(s, Fresh(k), steps).keys == PutAll(k, ws)
  {
    hide PutAll, Run, Probes, SweepWrites, HealWrites, DateOf, ResumesOn;
    if !Probes(s, k, now) || |ws| == 0 {
      NothingPut(k);
      NoSteps(s, Fresh(k));
      return [];
    }
    var who := Began(s, Fresh(k), now).who;
    var k1, entry := k.(lastProbe := Some(now)), Entry(0, who, Probe(now));
    var probed := State(k1, [Thread(who, [], Sweeping)], [entry]);
    RunTwo(s, Fresh(k), BeginRecovery(now), Move(0));
    var begun := State(k, [Thread(who, [Probe(now)], Sweeping)], []);
    assert Next(s, Fresh(k), BeginRecovery(now)) == begun;
    assert begun.threads[0].todo[1..] == [] && begun.threads[0 := probed.threads[0]] == probed.threads;
    assert Next(s, begun, Move(0)) == probed;
    ProbeDoesNotMatter(s, k, now, result);
    RunOne(s, probed, EndSweep(0, result));
    var ended := Ended(s, probed, Thread(who, [], Sweeping), result);
    assert Next(s, probed, EndSweep(0, result)) == State(k1, [ended], [entry]);
    RecoverySplits(s, k, now, result);
    PutAllJoins(k, [Probe(now)], ws[1..]);
    PutOne(k, Probe(now));
    assert ws == [Probe(now)] + ws[1..];
    PartLands(s, k1, ended.who, ended.todo, [entry], ws[1..]);
    var moves := Moves(0, |ws| - 1);
    steps := [BeginRecovery(now), Move(0)] + ([EndSweep(0, result)] + moves);
    RunJoins(s, Fresh(k), [BeginRecovery(now), Move(0)], [EndSweep(0, result)] + moves);
    RunJoins(s, probed, [EndSweep(0, result)], moves);
  }

  lemma NoSteps(s: Settings, st: State)
    ensures Run(s, st, []) == st
  {}

  lemma RecoverySplits(s: Settings, k: Keys, now: int, result: Sweep)
    requires Probes(s, k, now)
    ensures var th := Thread(Began(s, Fresh(k), now).who, [], Sweeping);
            var probed := State(k.(lastProbe := Some(now)), [th], [Entry(0, th.who, Probe(now))]);
            RecoverWrites(s, k, now, result) == [Probe(now)] + Ended(s, probed, th, result).todo
  {
    hide Probes, SweepWrites, DateOf, ResumesOn;
    ProbeDoesNotMatter(s, k, now, result);
  }

  lemma NothingPut(k: Keys)
    ensures PutAll(k, []) == k
  {}

  // ---- When self-healing is held off -----------------------------------------------------------------

  /** The thread is a recovery past its guards that has not lifted the pause yet. */
  predicate Armed(th: Thread) {
    th.who.ByHealing? && (th.stage.Sweeping? || Paused(false) in th.todo)
  }

  ghost predicate NoneArmed(st: State) {
    forall t: nat | t < |st.threads| :: !Armed(st.threads[t])
  }

  /** A recovery would find the breaker's mark and a breaker's reason that lets it act. */
  predicate Freed(k: Keys) {
    Frees(k.circuit) && BREAKER_PREFIX <= k.reason
  }

  /** A step of a recovery whose sweep, if it ends, is clean. */
  predicate RecoveryStep(st: State, a: Step) {
    match a
    case BeginRecovery(_) => true
    case Move(t) => t < |st.threads| && st.threads[t].who.ByHealing?
    case EndSweep(t, result) => t < |st.threads| && st.threads[t].who.ByHealing? && result.Clean?
    case _ => false
  }

  predicate RecoversOnly(s: Settings, st: State, steps: seq<Step>)
    decreases |steps|
  {
    |steps| == 0 || (RecoveryStep(st, steps[0]) && RecoversOnly(s, Next(s, st, steps[0]), steps[1..]))
  }

  predicate IsLift(e: Entry) {
    e.who.ByHealing? && e.write == Paused(false)
  }

  /** Self-healing lifted the pause between the two states. */
  ghost predicate Lifted(x: State, y: State) {
    exists i :: |x.log| <= i < |y.log| && IsLift(y.log[i])
  }

  /** Recoveries that go on alone from here, or begin here, whenever and however they do, lift nothing. */
  ghost predicate HeldOff(s: Settings, st: State) {
    forall more | RecoversOnly(s, st, more) :: !Lifted(st, Run(s, st, more))
  }

  /** What recoveries have left to write: no reason of the breaker's and no mark of its own. */
  ghost predicate Tame(th: Thread) {
    th.who.ByHealing? ==>
      forall w | w in th.todo :: (w.Circuit? ==> w.text == "") && (w.Reason? ==> !(BREAKER_PREFIX <= w.text))
  }

  ghost predicate AllTame(st: State) {
    forall t: nat | t < |st.threads| :: Tame(st.threads[t])
  }

  lemma HealIsTame(h: Heal)
    ensures forall w | w in HealWrites(h) ::
            (w.Circuit? ==> w.text == "") && (w.Reason? ==> !(BREAKER_PREFIX <= w.text))
    ensures Paused(false) in HealWrites(h)
  {
    assert HealWrites(h)[1] == Paused(false);
    BreakerRuns.Unmarked("auto-recovered: reconciliation clean after " + h.reason);
  }

  lemma CleanIsTame(s: Settings, k: Keys)
    ensures SweepWrites(s, k, Clean) == [Verified(true), Failures(0)]
  {}

  lemma StepKeepsTame(s: Settings, st: State, a: Step)
    requires AllTame(st)
    ensures AllTame(Next(s, st, a))
  {
    hide Probes, Writes, SweepWrites, HealWrites, DateOf, ResumesOn;
    if a.EndSweep? && a.t < |st.threads| {
      CleanIsTame(s, st.keys);
      if st.threads[a.t].who.ByHealing? {
        HealIsTame(st.threads[a.t].who.heal);
      }
    }
    var next := Next(s, st, a);
    forall t: nat | t < |next.threads| ensures Tame(next.threads[t]) {
      if t < |st.threads| {
        assert Tame(st.threads[t]);
      }
    }
  }

  lemma {:induction false} RunKeepsTame(s: Settings, st: State, steps: seq<Step>)
    requires AllTame(st)
    ensures AllTame(Run(s, st, steps))
    decreases |steps|
  {
    hide Next, AllTame;
    if |steps| > 0 {
      StepKeepsTame(s, st, steps[0]);
      RunKeepsTame(s, Next(s, st, steps[0]), steps[1..]);
    }
  }

  lemma LogGrows(s: Settings, st: State, a: Step)
    ensures st.log <= Next(s, st, a).log && |Next(s, st, a).log| <= |st.log| + 1
  {
    hide Probes, Writes, Ended, Began;
  }

  lemma {:induction false} LogKeeps(s: Settings, st: State, steps: seq<Step>)
    ensures st.log <= Run(s, st, steps).log
    decreases |steps|
  {
    hide Next;
    if |steps| > 0 {
      LogGrows(s, st, steps[0]);
      LogKeeps(s, Next(s, st, steps[0]), steps[1..]);
    }
  }

  lemma NotFreedNoProbe(s: Settings, k: Keys, now: int)
    requires !Freed(k)
    ensures !Probes(s, k, now)
  {
    hide NeverResumes, DateOf;
  }

  /** While no recovery is past its guards and none can pass them, no step arms one. */
  lemma NoneGetsArmed(s: Settings, st: State, a: Step)
    requires NoneArmed(st) && !Freed(st.keys)
    ensures NoneArmed(Next(s, st, a))
    ensures var next := Next(s, st, a); |next.log| > |st.log| ==> !IsLift(next.log[|st.log|])
  {
    hide Probes, Writes, SweepWrites, HealWrites, Freed;
    if a.BeginRecovery? {
      NotFreedNoProbe(s, st.keys, a.now);
    }
    var next := Next(s, st, a);
    if a.Move? && a.t < |st.threads| {
      assert !Armed(st.threads[a.t]);
    }
    forall t: nat | t < |next.threads| ensures !Armed(next.threads[t]) {
      if t < |st.threads| {
        assert !Armed(st.threads[t]);
      }
    }
  }

  lemma RecoveryFreesNothing(s: Settings, st: State, a: Step)
    requires AllTame(st) && NoneArmed(st) && !Freed(st.keys) && RecoveryStep(st, a)
    ensures !Freed(Next(s, st, a).keys)
  {
    hide NeverResumes, Writes, SweepWrites, HealWrites;
    match a {
      case Move(t) =>
        if st.threads[t].todo != [] {
          assert Tame(st.threads[t]) && st.threads[t].todo[0] in st.threads[t].todo;
        }
      case _ => hide Probes;
    }
  }

  lemma {:induction false} NothingLifts(s: Settings, st: State, more: seq<Step>)
    requires AllTame(st) && NoneArmed(st) && !Freed(st.keys) && RecoversOnly(s, st, more)
    ensures !Lifted(st, Run(s, st, more))
    decreases |more|
  {
    hide Next, AllTame, NoneArmed, Freed, IsLift;
    if |more| > 0 {
      var next := Next(s, st, more[0]);
      StepKeepsTame(s, st, more[0]);
      NoneGetsArmed(s, st, more[0]);
      RecoveryFreesNothing(s, st, more[0]);
      NothingLifts(s, next, more[1..]);
      LogGrows(s, st, more[0]);
      LogKeeps(s, next, more[1..]);
      var end := Run(s, next, more[1..]);
      forall i | |st.log| <= i < |end.log| ensures !IsLift(end.log[i]) {
        if i < |next.log| {
          assert end.log[i] == next.log[i];
        }
      }
    }
  }

  lemma LiftComes(a: seq<Write>, b: seq<Write>)
    requires Paused(false) in b
    ensures Paused(false) in a + b
  {}

  /** A recovery past its guards, left alone, lifts the pause. */
  lemma {:induction false} ArmedLifts(s: Settings, st: State, t: nat) returns (more: seq<Step>)
    requires t < |st.threads| && Armed(st.threads[t])
    ensures RecoversOnly(s, st, more) && Lifted(st, Run(s, st, more)) && Run(s, st, more).keys.paused == Some(false)
    decreases st.threads[t].stage.Sweeping?, |st.threads[t].todo|
  {
    hide Probes, SweepWrites, HealWrites;
    var th := st.threads[t];
    var a := if th.todo == [] then EndSweep(t, Clean) else Move(t);
    var next := Next(s, st, a);
    if th.todo != [] && th.todo[0] == Paused(false) {
      more := [a];
      RunOne(s, st, a);
      assert IsLift(next.log[|st.log|]);
    } else {
      if th.todo == [] {
        HealIsTame(th.who.heal);
        assert Armed(next.threads[t]) by { LiftComes(SweepWrites(s, st.keys, Clean), HealWrites(th.who.heal)); }
      } else if Paused(false) in th.todo {
        assert th.todo == [th.todo[0]] + th.todo[1..];
      }
      var rest := ArmedLifts(s, next, t);
      more := [a] + rest;
      assert more[1..] == rest;
      LogGrows(s, st, a);
    }
  }

  /** Self-healing is held off exactly when no recovery is past its guards and none could pass them. */
  lemma HeldOffNow(s: Settings, st: State)
    requires Heals(s) && AllTame(st)
    ensures HeldOff(s, st) <==> NoneArmed(st) && !Freed(st.keys)
  {
    hide Next, AllTame, Armed, Freed, Heals, Lifted;
    if NoneArmed(st) && !Freed(st.keys) {
      forall more | RecoversOnly(s, st, more) ensures !Lifted(st, Run(s, st, more)) {
        NothingLifts(s, st, more);
      }
    } else if !NoneArmed(st) {
      var t: nat :| t < |st.threads| && Armed(st.threads[t]);
      var more := ArmedLifts(s, st, t);
    } else {
      var now, more := FreedLifts(s, st);
    }
  }

  /** Where a recovery could pass its guards, one that begins there and is left alone lifts the pause. */
  lemma FreedLifts(s: Settings, st: State) returns (now: int, more: seq<Step>)
    requires Heals(s) && Freed(st.keys)
    ensures RecoversOnly(s, st, more) && Lifted(st, Run(s, st, more)) && Run(s, st, more).keys.paused == Some(false)
  {
    now := UnlockedProbes(s, st.keys);
    hide Probes, Freed, Heals, Frees, DateOf, ResumesOn;
    var next := Next(s, st, BeginRecovery(now));
    var rest := ArmedLifts(s, next, |st.threads|);
    more := [BeginRecovery(now)] + rest;
    assert more[1..] == rest;
  }

  /** In every state of the run. */
  ghost predicate HeldOffThroughout(s: Settings, st: State, steps: seq<Step>)
    decreases |steps|
  {
    HeldOff(s, st) && (|steps| > 0 ==> HeldOffThroughout(s, Next(s, st, steps[0]), steps[1..]))
  }

  predicate NeverFreed(s: Settings, st: State, steps: seq<Step>)
    decreases |steps|
  {
    !Freed(st.keys) && (|steps| > 0 ==> NeverFreed(s, Next(s, st, steps[0]), steps[1..]))
  }

  /** Over every run from any state: recoveries can at no point lift anything if and only if none is past
      its guards at the start and the writes that land never leave a breaker's mark beside a breaker's
      reason without a marker. */
  lemma {:induction false} HeldOffExactly(s: Settings, st: State, steps: seq<Step>)
    requires Heals(s) && AllTame(st)
    ensures HeldOffThroughout(s, st, steps) <==> NoneArmed(st) && NeverFreed(s, st, steps)
    decreases |steps|
  {
    hide HeldOff, AllTame, NoneArmed, Freed, Heals, Next;
    HeldOffNow(s, st);
    if |steps| > 0 {
      StepKeepsTame(s, st, steps[0]);
      HeldOffExactly(s, Next(s, st, steps[0]), steps[1..]);
      if NoneArmed(st) && !Freed(st.keys) {
        NoneGetsArmed(s, st, steps[0]);
      }
    }
  }

  // ---- An operator's pause ---------------------------------------------------------------------------

  /** No operator's resume has its lift still to write. */
  ghost predicate NoResumeUnderWay(st: State) {
    forall t: nat | t < |st.threads| && !st.threads[t].who.ByHealing? :: Paused(false) !in st.threads[t].todo
  }

  predicate NoResumes(steps: seq<Step>) {
    forall i | 0 <= i < |steps| :: !(steps[i].Launch? && steps[i].op.Resume?)
  }

  ghost predicate PausedThroughout(s: Settings, st: State, steps: seq<Step>)
    decreases |steps|
  {
    st.keys.paused == Some(true) && (|steps| > 0 ==> PausedThroughout(s, Next(s, st, steps[0]), steps[1..]))
  }

  /** Only an operator's resume or an armed recovery lifts a pause. */
  lemma PauseStands(s: Settings, st: State, a: Step)
    requires NoneArmed(st) && !Freed(st.keys) && NoResumeUnderWay(st) && !(a.Launch? && a.op.Resume?)
    ensures NoResumeUnderWay(Next(s, st, a))
    ensures st.keys.paused == Some(true) ==> Next(s, st, a).keys.paused == Some(true)
  {
    hide Probes, SweepWrites, HealWrites, Freed;
    if a.BeginRecovery? {
      NotFreedNoProbe(s, st.keys, a.now);
    } else if a.EndSweep? && a.t < |st.threads| {
      assert !Armed(st.threads[a.t]);
      SweepLiftsNothing(s, st.keys, a.result);
    } else if a.Move? && a.t < |st.threads| {
      assert !Armed(st.threads[a.t]);
    }
  }

  lemma SweepLiftsNothing(s: Settings, k: Keys, result: Sweep)
    ensures Paused(false) !in SweepWrites(s, k, result)
  {
    hide TripsBreaker, Join, Or;
  }

  /** A pause holds, and recoveries can at no point lift it, through every run without an operator's
      resume if and only if no recovery is past its guards when it stands and the writes that land never
      leave a breaker's mark beside a breaker's reason without a marker. */
  lemma {:induction false} PauseSurvivesExactly(s: Settings, st: State, steps: seq<Step>)
    requires Heals(s) && AllTame(st) && st.keys.paused == Some(true) && NoResumeUnderWay(st) && NoResumes(steps)
    ensures PausedThroughout(s, st, steps) && HeldOffThroughout(s, st, steps) <==>
            NoneArmed(st) && NeverFreed(s, st, steps)
  {
    hide AllTame, NoneArmed, Freed, Heals, Next, HeldOff;
    HeldOffExactly(s, st, steps);
    if NoneArmed(st) && NeverFreed(s, st, steps) {
      PauseStandsThroughout(s, st, steps);
    }
  }

  lemma {:induction false} PauseStandsThroughout(s: Settings, st: State, steps: seq<Step>)
    requires NoneArmed(st) && NeverFreed(s, st, steps) && st.keys.paused == Some(true) && NoResumeUnderWay(st)
             && NoResumes(steps)
    ensures PausedThroughout(s, st, steps)
    decreases |steps|
  {
    hide NoneArmed, Freed, Next, NoResumeUnderWay;
    if |steps| > 0 {
      PauseStands(s, st, steps[0]);
      NoneGetsArmed(s, st, steps[0]);
      PauseStandsThroughout(s, Next(s, st, steps[0]), steps[1..]);
    }
  }

  /** The operator's thread after its action began: the bot is paused by it, and its reason stands. */
  lemma OperatorStops(s: Settings, st: State, op: Action)
    requires op.Pause? || op.KillSwitch?
    ensures var n := |st.threads|;
            var r := Run(s, st, [Launch(op)] + Moves(n, |Writes(s, st.keys, op)|));
            && r.keys.paused == Some(true) && r.keys.circuit == st.keys.circuit && (op.KillSwitch? ==> r.keys.kill)
            && r.keys.reason == Or(op.why, if op.Pause? then "paused manually" else "kill switch enabled")
            && |r.threads| == n + 1 && r.threads[..n] == st.threads
  {
    hide Run, Or;
    var n, ws := |st.threads|, Writes(s, st.keys, op);
    var begun := Next(s, st, Launch(op));
    assert begun == st.(threads := st.threads + [Thread(ByOperator, ws, Writing)]);
    RunJoins(s, st, [Launch(op)], Moves(n, |ws|));
    RunOne(s, st, Launch(op));
    MovesLand(s, begun, n, |ws|);
    assert ws[..|ws|] == ws;
    if op.Pause? {
      PutTwo(st.keys, Paused(true), Reason(Or(op.why, "paused manually")));
    } else {
      KillPut(st.keys, op.why);
    }
  }

  /** An operator's pause or kill switch taken while a recovery is past its guards, uncut, with an honest
      reason and nothing else under way: the recovery goes on and lifts it. */
  lemma RecoveryUnderWayLiftsAPause(s: Settings, st: State, op: Action)
    returns (now: int, steps: seq<Step>, more: seq<Step>)
    requires Heals(s) && Freed(st.keys) && (op.Pause? || op.KillSwitch?) && !(BREAKER_PREFIX <= op.why)
    ensures steps == [BeginRecovery(now), Launch(op)] + Moves(|st.threads| + 1, |Writes(s, st.keys, op)|)
    ensures var stopped := Run(s, st, steps);
            && stopped.keys.paused == Some(true) && !(BREAKER_PREFIX <= stopped.keys.reason) && !Freed(stopped.keys)
            && RecoversOnly(s, stopped, more) && Run(s, stopped, more).keys.paused == Some(false)
  {
    now := UnlockedProbes(s, st.keys);
    BreakerRuns.Unmarked("paused manually");
    BreakerRuns.Unmarked("kill switch enabled");
    hide Run, Heals, Frees, Probes, RecoversOnly, DateOf, ResumesOn;
    var n := |st.threads|;
    var begun := Next(s, st, BeginRecovery(now));
    assert begun == st.(threads := st.threads + [Began(s, st, now)]);
    var moves := Moves(n + 1, |Writes(s, st.keys, op)|);
    steps := [BeginRecovery(now), Launch(op)] + moves;
    assert steps == [BeginRecovery(now)] + ([Launch(op)] + moves);
    RunJoins(s, st, [BeginRecovery(now)], [Launch(op)] + moves);
    RunOne(s, st, BeginRecovery(now));
    OperatorStops(s, begun, op);
    var stopped := Run(s, st, steps);
    assert stopped.threads[n] == stopped.threads[..n + 1][n] == begun.threads[n] == Began(s, st, now);
    assert Armed(stopped.threads[n]);
    more := ArmedLifts(s, stopped, n);
  }

  // ---- A wrong account, a trading block ----------------------------------------------------------------

  /** No write of the run stores a reason that lets self-healing act. */
  ghost predicate NoneFreesIt(s: Settings, st: State, steps: seq<Step>) {
    forall i | |st.log| <= i < |Run(s, st, steps).log| && Run(s, st, steps).log[i].write.Circuit? ::
      !Frees(Run(s, st, steps).log[i].write.text)
  }

  /** A reason with a marker keeps self-healing out as long as no reason without one is written, but for
      a recovery that is past its guards already. */
  lemma {:induction false} MarkerHoldsOff(s: Settings, st: State, steps: seq<Step>)
    requires !Frees(st.keys.circuit) && NoneFreesIt(s, st, steps)
    ensures NeverFreed(s, st, steps)
    decreases |steps|
  {
    hide Frees, Next;
    if |steps| > 0 {
      var next := Next(s, st, steps[0]);
      var end := Run(s, next, steps[1..]);
      assert end == Run(s, st, steps);
      LogGrows(s, st, steps[0]);
      LogKeeps(s, next, steps[1..]);
      CircuitByLog(s, st, steps[0]);
      if |next.log| > |st.log| {
        assert end.log[|st.log|] == next.log[|st.log|];
      }
      MarkerHoldsOff(s, next, steps[1..]);
    }
  }

  lemma CircuitByLog(s: Settings, st: State, a: Step)
    ensures var next := Next(s, st, a);
            next.keys.circuit == if |next.log| > |st.log|
              && next.log[|st.log|].write.Circuit? then next.log[|st.log|].write.text
                                 else st.keys.circuit
  {
    hide Probes, Writes, Ended, Began;
  }

  /** The writes of a sweep that trips the breaker, once they have landed. */
  lemma TripLands(s: Settings, st: State, t: nat, issues: seq<string>, verified: Option<bool>)
    requires t < |st.threads| && st.threads[t].stage.Sweeping? && st.threads[t].todo == []
    requires TripsBreaker(s, st.keys, Failed(issues, verified))
    ensures var ended := EndSweep(t, Failed(issues, verified));
            var r := Run(s, st, [ended] + Moves(t, |SweepWrites(s, st.keys, ended.result)|));
            && r.keys.kill && r.keys.paused == Some(true) && r.keys.circuit == Join(issues)
            && r.keys.reason == BREAKER_PREFIX + " " + Join(issues)
            && r.threads == st.threads[t := Thread(ByBreaker, [], Writing)]
  {
    hide Run, Join, TripsBreaker, PutAll;
    var result := Failed(issues, verified);
    var ws := SweepWrites(s, st.keys, result);
    var ended := st.(threads := st.threads[t := Thread(ByBreaker, ws, Writing)]);
    assert Next(s, st, EndSweep(t, result)) == ended;
    RunJoins(s, st, [EndSweep(t, result)], Moves(t, |ws|));
    RunOne(s, st, EndSweep(t, result));
    MovesLand(s, ended, t, |ws|);
    assert ws[..|ws|] == ws && ws[|ws|..] == [];
    SweepPut(s, st.keys, result);
  }

  /** A sweep that finds a wrong account trips the breaker with a reason that holds self-healing off:
      from then on recoveries can lift nothing if and only if none was past its guards by then and the
      writes that land never leave a breaker's mark beside a reason without a marker; and they never do
      as long as no such reason is written. */
  lemma WrongAccountHoldsHealingOff(s: Settings, st: State, t: nat, issues: seq<string>, j: nat, verified: Option<bool>,
                                    steps: seq<Step>)
    requires Heals(s) && AllTame(st) && t < |st.threads| && st.threads[t].stage.Sweeping? && st.threads[t].todo == []
    requires j < |issues| && IMMEDIATE_PREFIXES[0] <= issues[j]
    ensures var ended := EndSweep(t, Failed(issues, verified));
            var r := Run(s, st, [ended] + Moves(t, |SweepWrites(s, st.keys, ended.result)|));
            && r.keys.kill && r.keys.paused == Some(true) && NeverResumes(r.keys.circuit)
            && (HeldOffThroughout(s, r, steps) <==> NoneArmed(r) && NeverFreed(s, r, steps))
            && (NoneFreesIt(s, r, steps) ==> NeverFreed(s, r, steps))
  {
    hide TripsBreaker, Join, NeverResumes, SweepWrites, Run, HeldOffThroughout, NeverFreed, NoneArmed, NoneFreesIt,
         Heals, AllTame;
    WrongAccountTrips(s, st.keys, issues, j, verified);
    WrongAccountIsMarked(issues, j);
    MarkedTripHoldsOff(s, st, t, issues, verified, steps);
  }

  /** A broker's trading block does so too, once it has tripped the breaker. */
  lemma TradingBlockHoldsHealingOff(s: Settings, st: State, t: nat, issues: seq<string>, j: nat, verified: Option<bool>,
                                    steps: seq<Step>)
    requires Heals(s) && AllTame(st) && t < |st.threads| && st.threads[t].stage.Sweeping? && st.threads[t].todo == []
    requires j < |issues| && issues[j] == NEVER_RESUME_MARKERS[1] && TripsBreaker(s, st.keys, Failed(issues, verified))
    ensures var ended := EndSweep(t, Failed(issues, verified));
            var r := Run(s, st, [ended] + Moves(t, |SweepWrites(s, st.keys, ended.result)|));
            && (HeldOffThroughout(s, r, steps) <==> NoneArmed(r) && NeverFreed(s, r, steps))
            && (NoneFreesIt(s, r, steps) ==> NeverFreed(s, r, steps))
  {
    hide TripsBreaker, Join, NeverResumes, SweepWrites, Run, HeldOffThroughout, NeverFreed, NoneArmed, NoneFreesIt,
         Heals, AllTame;
    TradingBlockIsMarked(issues, j);
    MarkedTripHoldsOff(s, st, t, issues, verified, steps);
  }

  lemma MarkedTripHoldsOff(s: Settings, st: State, t: nat, issues: seq<string>, verified: Option<bool>,
                           steps: seq<Step>)
    requires Heals(s) && AllTame(st) && t < |st.threads| && st.threads[t].stage.Sweeping? && st.threads[t].todo == []
    requires TripsBreaker(s, st.keys, Failed(issues, verified)) && NeverResumes(Join(issues))
    ensures var ended := EndSweep(t, Failed(issues, verified));
            var r := Run(s, st, [ended] + Moves(t, |SweepWrites(s, st.keys, ended.result)|));
            && r.keys.kill && r.keys.paused == Some(true) && r.keys.circuit == Join(issues)
            && (HeldOffThroughout(s, r, steps) <==> NoneArmed(r) && NeverFreed(s, r, steps))
            && (NoneFreesIt(s, r, steps) ==> NeverFreed(s, r, steps))
  {
    hide TripsBreaker, Join, NeverResumes, SweepWrites, Run, HeldOffThroughout, NeverFreed, NoneArmed, Heals, AllTame;
    var ended := EndSweep(t, Failed(issues, verified));
    var path := [ended] + Moves(t, |SweepWrites(s, st.keys, ended.result)|);
    TripLands(s, st, t, issues, verified);
    RunKeepsTame(s, st, path);
    var r := Run(s, st, path);
    HeldOffExactly(s, r, steps);
    if NoneFreesIt(s, r, steps) {
      MarkerHoldsOff(s, r, steps);
    }
  }

  /** A wrong account found while a recovery is past its clean sweep: the recovery goes on, clears the
      breaker and lifts the pause. */
  lemma RecoveryUnderWayForgetsAMismatch(s: Settings, st: State) returns (now: int, steps: seq<Step>, more: seq<Step>)
    requires Heals(s) && Freed(st.keys)
    ensures var tripped := Run(s, st, steps);
            && tripped.keys.circuit == "account_mismatch:abc" && tripped.keys.paused == Some(true)
            && RecoversOnly(s, tripped, more) && Run(s, tripped, more).keys.paused == Some(false)
  {
    now := UnlockedProbes(s, st.keys);
    var n, issues := |st.threads|, ["account_mismatch:abc"];
    assert IMMEDIATE_PREFIXES[0] <= issues[0];
    WrongAccountTrips(s, Put(st.keys, Probe(now)), issues, 0, Some(false));
    assert Join(issues) == "account_mismatch:abc";
    hide Run, Heals, Frees, Probes, RecoversOnly, DateOf, ResumesOn, TripsBreaker, SweepWrites, HealWrites, Join;
    var begun := st.(threads := st.threads + [Began(s, st, now)]);
    var probed := Landed1(begun, n);
    assert Next(s, st, BeginRecovery(now)) == begun && Next(s, begun, Move(n)) == probed;
    assert begun.threads[n].todo[1..] == [];
    var th := probed.threads[n];
    assert th == Thread(begun.threads[n].who, [], Sweeping);
    var healing := probed.(threads := probed.threads[n := Ended(s, probed, th, Clean)]);
    assert Next(s, probed, EndSweep(n, Clean)) == healing;
    var other := healing.(threads := healing.threads + [Thread(ByBreaker, [], Sweeping)]);
    assert Next(s, healing, BeginSweep) == other;
    RunTwo(s, st, BeginRecovery(now), Move(n));
    RunTwo(s, probed, EndSweep(n, Clean), BeginSweep);
    RunJoins(s, st, [BeginRecovery(now), Move(n)], [EndSweep(n, Clean), BeginSweep]);
    var first := [BeginRecovery(now), Move(n)] + [EndSweep(n, Clean), BeginSweep];
    TripLands(s, other, n + 1, issues, Some(false));
    var trip := [EndSweep(n + 1, Failed(issues, Some(false)))] +
        Moves(n + 1, |SweepWrites(s, other.keys, Failed(issues, Some(false)))|);
    RunJoins(s, st, first, trip);
    steps := first + trip;
    var tripped := Run(s, st, steps);
    assert tripped.threads[n] == healing.threads[n];
    HealIsTame(th.who.heal);
    LiftComes(SweepWrites(s, probed.keys, Clean), HealWrites(th.who.heal));
    more := ArmedLifts(s, tripped, n);
  }
}
