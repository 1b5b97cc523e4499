/** How often and how soon self-healing acts, over every interleaving of its threads and wherever they
    are cut: what a recovery's guards promise, and the account of a day's lifts. */
module BreakerBounds {
  import opened Wrappers
  import opened Calendar
  import opened Breaker
  import opened BreakerHealing
  import opened BreakerThreads
  import opened BreakerLog

  // ---- The spacing of probes ------------------------------------------------------------------------

  /** Where the last probe was written, if any was. */
  function LastProbe(log: seq<Entry>): (r: Option<nat>)
    ensures r.Some? ==> r.value < |log| && log[r.value].write.Probe?
    ensures forall i | (if r.Some? then r.value else -1) < i < |log| :: !log[i].write.Probe?
  {
    if |log| == 0 then None
    else if log[|log| - 1].write.Probe? then Some(|log| - 1)
    else LastProbe(log[..|log| - 1])
  }

  lemma {:induction false} ProbeOfLog(k: Keys, log: seq<Entry>)
    ensures Replay(k, log).lastProbe == if LastProbe(log).None? then k.lastProbe
            else Some(log[LastProbe(log).value].write.time)
  {
    if |log| > 0 {
      ProbeOfLog(k, log[..|log| - 1]);
    }
  }

  /** Each recovery is at least the interval after the last probe that had landed when it passed its
      guards, and its day's stored resumes were below the cap then; so two recoveries come closer, or
      share a count, only if the later one passed its guards before the earlier one's write landed. */
  lemma GuardsHeldOfTheLog(s: Settings, k: Keys, steps: seq<Step>, i: nat)
    requires i < |Run(s, Fresh(k), steps).log| && Run(s, Fresh(k), steps).log[i].who.ByHealing?
    ensures var log := Run(s, Fresh(k), steps).log;
            var h := log[i].who.heal;
            && h.began <= i
            && (LastProbe(log[..h.began]).Some? ==>
                h.now >= log[LastProbe(log[..h.began]).value].write.time + s.probeInterval)
            && h.count == ResumesOn(Replay(k, log[..h.began]), DateOf(h.now)) < s.maxResumes
  {
    hide Run, NeverResumes, DateOf, ResumesOn, Replay;
    NothingReplayed(k);
    RunKeepsSanctioned(s, k, Fresh(k), steps);
    var log := Run(s, Fresh(k), steps).log;
    var h := log[i].who.heal;
    ProbeOfLog(k, log[..h.began]);
    var last := LastProbe(log[..h.began]);
    if last.Some? {
      assert log[..h.began][last.value] == log[last.value];
    }
  }

  // ---- The lifts of a day ---------------------------------------------------------------------------

  predicate LiftsOn(e: Entry, day: int) {
    IsLift(e) && DateOf(e.who.heal.now) == day
  }

  predicate CountsOn(e: Entry, day: int) {
    e.write.Resumes? && e.write.day == day
  }

  function Lifts(log: seq<Entry>, day: int): nat {
    if |log| == 0 then 0 else Lifts(log[..|log| - 1], day) + if LiftsOn(log[|log| - 1], day) then 1 else 0
  }

  /** By how much counts were written over counts that had landed since their recoveries read them. */
  function Shared(k: Keys, log: seq<Entry>, day: int): int {
    if |log| == 0 then 0
    else
      var before, e := log[..|log| - 1], log[|log| - 1];
      Shared(k, before, day) + if CountsOn(e, day) then ResumesOn(Replay(k, before), day) - (e.write.count - 1) else 0
  }

  predicate LiftAt(log: seq<Entry>, i: nat, t: nat, day: int) {
    i < |log| && log[i].thread == t && LiftsOn(log[i], day)
  }

  ghost predicate HasLifted(log: seq<Entry>, t: nat, day: int) {
    exists i: nat :: LiftAt(log, i, t, day)
  }

  predicate CountAt(log: seq<Entry>, i: nat, t: nat) {
    i < |log| && log[i].thread == t && log[i].write.Resumes?
  }

  ghost predicate HasCounted(log: seq<Entry>, t: nat) {
    exists i: nat :: CountAt(log, i, t)
  }

  /** The threads that lifted the pause on the day and have not counted it: on the way to, or cut off. */
  ghost function Owed(st: State, day: int): set<nat> {
    set t: nat | t < |st.threads| && HasLifted(st.log, t, day) && !HasCounted(st.log, t)
  }

  /** All that a recovery with a clean sweep has to write from there. */
  function Course(h: Heal): seq<Write> {
    [Verified(true), Failures(0)] + HealWrites(h)
  }

  lemma CourseIs(s: Settings, k: Keys, h: Heal)
    ensures Course(h) == SweepWrites(s, k, Clean) + HealWrites(h)
    ensures |Course(h)| == 7 && Course(h)[3] == Paused(false) && Course(h)[6] == Resumes(DateOf(h.now), h.count + 1)
    ensures forall i | 0 <= i < 7 :: (i != 3 ==> Course(h)[i] != Paused(false)) && (i != 6 ==> !Course(h)[i].Resumes?)
  {
    hide DateOf;
  }

  ghost predicate NotYet(log: seq<Entry>, t: nat) {
    !HasCounted(log, t) && forall day :: !HasLifted(log, t, day)
  }

  /** How far a thread is tells whether it has lifted and counted. */
  ghost predicate Orderly(log: seq<Entry>, t: nat, th: Thread) {
    if th.stage.Cut? then th.todo == []
    else if !th.who.ByHealing? then NotYet(log, t) && forall w | w in th.todo :: !w.Resumes?
    else if th.stage.Sweeping? then NotYet(log, t) && forall w | w in th.todo :: w.Probe?
    else OnCourse(log, t, th.who.heal, th.todo)
  }

  ghost predicate OnCourse(log: seq<Entry>, t: nat, h: Heal, todo: seq<Write>) {
    && |todo| <= 7 && todo == Course(h)[7 - |todo|..]
    && (forall day :: HasLifted(log, t, day) <==> |todo| < 4 && day == DateOf(h.now))
    && (HasCounted(log, t) <==> |todo| == 0)
  }

  ghost predicate AllOrderly(st: State) {
    && (forall t: nat | t < |st.threads| :: Orderly(st.log, t, st.threads[t]))
    && (forall i: nat | i < |st.log| :: st.log[i].thread < |st.threads|)
  }

  lemma FlagsNext(log: seq<Entry>, e: Entry, t: nat, day: int)
    ensures HasLifted(log + [e], t, day) <==> HasLifted(log, t, day) || (e.thread == t && LiftsOn(e, day))
    ensures HasCounted(log + [e], t) <==> HasCounted(log, t) || (e.thread == t && e.write.Resumes?)
  {
    hide LiftsOn;
    var longer := log + [e];
    if i: nat :| LiftAt(log, i, t, day) {
      assert LiftAt(longer, i, t, day);
    }
    if i: nat :| LiftAt(longer, i, t, day) && i < |log| {
      assert LiftAt(log, i, t, day);
    }
    if i: nat :| CountAt(log, i, t) {
      assert CountAt(longer, i, t);
    }
    if i: nat :| CountAt(longer, i, t) && i < |log| {
      assert CountAt(log, i, t);
    }
    assert e.thread == t && LiftsOn(e, day) ==> LiftAt(longer, |log|, t, day);
    assert e.thread == t && e.write.Resumes? ==> CountAt(longer, |log|, t);
  }

  lemma OrderlyElsewhere(log: seq<Entry>, e: Entry, t: nat, th: Thread)
    requires Orderly(log, t, th) && e.thread != t
    ensures Orderly(log + [e], t, th)
  {
    hide Course, HasLifted, HasCounted, LiftsOn;
    forall day ensures HasLifted(log + [e], t, day) == HasLifted(log, t, day) {
      FlagsNext(log, e, t, day);
    }
    FlagsNext(log, e, t, 0);
  }

  lemma OrderlyMoves(log: seq<Entry>, t: nat, th: Thread)
    requires Orderly(log, t, th) && th.todo != []
    ensures Orderly(log + [Entry(t, th.who, th.todo[0])], t, th.(todo := th.todo[1..]))
  {
    var e := Entry(t, th.who, th.todo[0]);
    forall day ensures HasLifted(log + [e], t, day) <==> HasLifted(log, t, day) || LiftsOn(e, day) {
      FlagsNext(log, e, t, day);
    }
    FlagsNext(log, e, t, 0);
    assert th.todo[0] in th.todo;
    if th.who.ByHealing? && th.stage.Writing? {
      CourseIs(Settings(false, false, false, [], 0, false, false, false, 0, 0), NO_KEYS, th.who.heal);
      hide Course, HasLifted, HasCounted, DateOf;
      var n := 7 - |th.todo|;
      assert th.todo[0] == Course(th.who.heal)[n];
      assert th.todo[1..] == Course(th.who.heal)[n + 1..];
    }
  }

  const NO_KEYS := Keys(None, false, "", "", false, 0, None, map[])

  lemma EndedIsOrderly(s: Settings, st: State, t: nat, result: Sweep)
    requires t < |st.threads| && st.threads[t].stage.Sweeping? && Orderly(st.log, t, st.threads[t])
    ensures Orderly(st.log, t, Ended(s, st, st.threads[t], result))
  {
    hide SweepWrites, Course, HealWrites, HasLifted, HasCounted, DateOf;
    var th := st.threads[t];
    SweepCountsNothing(s, st.keys, result);
    if th.who.ByHealing? && result.Clean? {
      CourseIs(s, st.keys, th.who.heal);
      assert Course(th.who.heal)[0..] == Course(th.who.heal);
    }
  }

  lemma SweepCountsNothing(s: Settings, k: Keys, result: Sweep)
    ensures forall w | w in SweepWrites(s, k, result) :: !w.Resumes?
  {
    hide TripsBreaker, Join, Or;
  }

  lemma ActionsCountNothing(s: Settings, k: Keys, op: Action)
    requires Simple(op)
    ensures forall w | w in Writes(s, k, op) :: !w.Resumes?
  {
    hide Or;
  }

  lemma NewThreadIsNew(st: State)
    requires AllOrderly(st)
    ensures NotYet(st.log, |st.threads|)
  {}

  lemma StepKeepsOrderly(s: Settings, st: State, a: Step)
    requires AllOrderly(st)
    ensures AllOrderly(Next(s, st, a))
  {
    hide Probes, Writes, Ended, NotYet, OnCourse, DateOf, ResumesOn;
    var next := Next(s, st, a);
    NewThreadIsNew(st);
    if a.Launch? && Simple(a.op) {
      ActionsCountNothing(s, st.keys, a.op);
    }
    if a.EndSweep? && next != st {
      EndedIsOrderly(s, st, a.t, a.result);
    }
    forall t: nat | t < |next.threads| ensures Orderly(next.log, t, next.threads[t]) {
      if t < |st.threads| {
        assert Orderly(st.log, t, st.threads[t]);
      }
      if a.Move? && next != st {
        if t == a.t {
          OrderlyMoves(st.log, t, st.threads[t]);
        } else {
          OrderlyElsewhere(st.log, Entry(a.t, st.threads[a.t].who, st.threads[a.t].todo[0]), t, st.threads[t]);
        }
      }
    }
  }

  // ---- The account ----------------------------------------------------------------------------------

  ghost predicate Balanced(k: Keys, st: State, day: int) {
    Lifts(st.log, day) + ResumesOn(k, day) == ResumesOn(Replay(k, st.log), day) + |Owed(st, day)| +
      Shared(k, st.log, day)
  }

  lemma LogSums(k: Keys, log: seq<Entry>, e: Entry, day: int)
    ensures Lifts(log + [e], day) == Lifts(log, day) + if LiftsOn(e, day) then 1 else 0
    ensures Shared(k, log + [e], day) ==
            Shared(k, log, day) + if CountsOn(e, day) then ResumesOn(Replay(k, log), day) - (e.write.count - 1) else 0
    ensures ResumesOn(Replay(k, log + [e]), day) == if CountsOn(e, day) then e.write.count
            else ResumesOn(Replay(k, log), day)
  {
    hide LiftsOn;
    assert (log + [e])[..|log|] == log;
    ReplayNext(k, log, e);
  }

  lemma OwedNext(st: State, t: nat, day: int)
    requires t < |st.threads| && st.threads[t].todo != [] && AllOrderly(st)
    ensures var w, r := st.threads[t].todo[0], Landed1(st, t);
            var e := Entry(t, st.threads[t].who, w);
            && (LiftsOn(e, day) ==> t !in Owed(st, day) && Owed(r, day) == Owed(st, day) + {t})
            && (CountsOn(e, day) ==> t in Owed(st, day) && Owed(r, day) == Owed(st, day) - {t} && !LiftsOn(e, day))
            && (!LiftsOn(e, day) && !CountsOn(e, day) ==> Owed(r, day) == Owed(st, day))
  {
    var th, r := st.threads[t], Landed1(st, t);
    var e := Entry(t, th.who, th.todo[0]);
    assert Orderly(st.log, t, th) && th.todo[0] in th.todo;
    if th.who.ByHealing? {
      CourseIs(Settings(false, false, false, [], 0, false, false, false, 0, 0), NO_KEYS, th.who.heal);
    }
    hide Course, HasLifted, HasCounted, DateOf, AllOrderly;
    FlagsNext(st.log, e, t, day);
    forall g: nat | g < |st.threads| && g != t ensures g in Owed(r, day) <==> g in Owed(st, day) {
      FlagsNext(st.log, e, g, day);
    }
  }

  lemma StepKeepsBalance(s: Settings, k: Keys, st: State, a: Step, day: int)
    requires Balanced(k, st, day) && AllOrderly(st)
    ensures Balanced(k, Next(s, st, a), day)
  {
    hide Probes, Writes, Ended, Lifts, Shared, Replay, ResumesOn, Orderly, HasLifted, HasCounted, DateOf, LiftsOn;
    var next := Next(s, st, a);
    if a.Move? && a.t < |st.threads| && st.threads[a.t].todo != [] {
      LogSums(k, st.log, Entry(a.t, st.threads[a.t].who, st.threads[a.t].todo[0]), day);
      OwedNext(st, a.t, day);
    } else {
      NewThreadIsNew(st);
      assert Owed(next, day) == Owed(st, day);
    }
  }

  lemma {:induction false} RunKeepsBalance(s: Settings, k: Keys, st: State, steps: seq<Step>, day: int)
    requires Balanced(k, st, day) && AllOrderly(st)
    ensures Balanced(k, Run(s, st, steps), day)
    decreases |steps|
  {
    hide Next, Balanced, AllOrderly;
    if |steps| > 0 {
      StepKeepsBalance(s, k, st, steps[0], day);
      StepKeepsOrderly(s, st, steps[0]);
      RunKeepsBalance(s, k, Next(s, st, steps[0]), steps[1..], day);
    }
  }

  // ---- The stored count -----------------------------------------------------------------------------

  function Cap(s: Settings, k: Keys, day: int): nat {
    if s.maxResumes > ResumesOn(k, day) then s.maxResumes else ResumesOn(k, day)
  }

  lemma CountsUnderTheCap(s: Settings, k: Keys, st: State, t: nat)
    requires AllOrderly(st) && AllSanctioned(s, k, st) && t < |st.threads| && st.threads[t].todo != []
    ensures st.threads[t].todo[0].Resumes? ==> st.threads[t].todo[0].count <= s.maxResumes
  {
    var th := st.threads[t];
    assert Orderly(st.log, t, th) && th.todo[0] in th.todo;
    if th.who.ByHealing? {
      CourseIs(s, k, th.who.heal);
      RoomWhenPassed(s, k, st.log, th.who.heal);
    }
    hide Course, HasLifted, HasCounted, DateOf, AllOrderly, AllSanctioned, Sanctioned;
  }

  lemma RoomWhenPassed(s: Settings, k: Keys, log: seq<Entry>, h: Heal)
    requires Sanctioned(s, k, log, h)
    ensures h.count < s.maxResumes
  {
    hide NeverResumes, DateOf, ResumesOn, Replay;
  }

  lemma StepKeepsCap(s: Settings, k: Keys, st: State, a: Step, day: int)
    requires AllOrderly(st) && AllSanctioned(s, k, st) && ResumesOn(st.keys, day) <= Cap(s, k, day)
    ensures ResumesOn(Next(s, st, a).keys, day) <= Cap(s, k, day)
  {
    hide Probes, Writes, Ended, AllOrderly, AllSanctioned, DateOf;
    if a.Move? && a.t < |st.threads| && st.threads[a.t].todo != [] {
      CountsUnderTheCap(s, k, st, a.t);
    }
  }

  lemma {:induction false} RunKeepsCap(s: Settings, k: Keys, st: State, steps: seq<Step>, day: int)
    requires AllOrderly(st) && AllSanctioned(s, k, st) && st.keys == Replay(k, st.log)
    requires ResumesOn(st.keys, day) <= Cap(s, k, day)
    ensures ResumesOn(Run(s, st, steps).keys, day) <= Cap(s, k, day)
    decreases |steps|
  {
    hide Next, AllOrderly, AllSanctioned, ResumesOn, Cap, Replay;
    if |steps| > 0 {
      StepKeepsCap(s, k, st, steps[0], day);
      StepKeepsOrderly(s, st, steps[0]);
      StepKeepsSanctioned(s, k, st, steps[0]);
      ReplayStep(s, k, st, steps[0]);
      RunKeepsCap(s, k, Next(s, st, steps[0]), steps[1..], day);
    }
  }

  /** Over every interleaving, recoveries overlapping and cut anywhere: a day's lifts are its stored count's
      growth, plus the lifts whose count is still to come or was cut off, plus what recoveries that read
      the count before it grew took from each other; and the stored count stays under the cap. */
  lemma LiftsOfADay(s: Settings, k: Keys, steps: seq<Step>, day: int)
    ensures var st := Run(s, Fresh(k), steps);
            && Lifts(st.log, day) + ResumesOn(k, day) == ResumesOn(st.keys, day) + |Owed(st, day)| +
                 Shared(k, st.log, day)
            && ResumesOn(st.keys, day) <= Cap(s, k, day)
  {
    hide Run, Replay, Shared, Lifts, ResumesOn;
    NothingReplayed(k);
    SumsStartEmpty(k, day);
    assert Owed(Fresh(k), day) == {};
    KeysAreReplayed(s, k, Fresh(k), steps);
    assert Balanced(k, Fresh(k), day);
    RunKeepsBalance(s, k, Fresh(k), steps, day);
    RunKeepsCap(s, k, Fresh(k), steps, day);
  }

  lemma SumsStartEmpty(k: Keys, day: int)
    ensures Lifts([], day) == 0 && Shared(k, [], day) == 0
  {}
}
