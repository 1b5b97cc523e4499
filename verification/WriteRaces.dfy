/** The write-skipping cache with the trade stream on its own thread. A sweep's write of a row and its
    record are two steps, and so are a streamed update's writes and its forgetting of their records;
    the steps of the two threads fall in any order. */
module WriteRaces {
  import opened Wrappers
  import opened WriteCache

  datatype Effect<T> =
    | Wrote(key: Key, content: T, streamed: bool)
    | Recorded(key: Key, content: T)
    | Forgot(keys: set<Key>)

  /** `pending` is the row the sweep has stored and not recorded yet. */
  datatype State<T> = State(cache: Cache<T>, pending: Option<Row<T>>, log: seq<Effect<T>>)

  datatype Step<T> =
    | StartSweep
    | WriteRow(row: Row<T>, outcome: Outcome)
    | RecordRow
    | StreamWrite(row: Row<T>)
    | StreamForget(keys: set<Key>)

  /** The records are in memory: a process starts with none. */
  function Start<T>(store: map<Key, T>, sweepNo: nat): State<T> {
    State(Cache(map[], sweepNo, 0, store), None, [])
  }

  function Spent<T>(c: Cache<T>, key: Key): Cache<T> {
    if key in c.written then c else c.(budget := c.budget - 1)
  }

  function Next<T(==)>(hash: Key -> nat, st: State<T>, a: Step<T>): State<T> {
    match a
    case StartSweep =>
      if st.pending.Some? then st
      else
        State(Begin(hash, st.cache), None,
              st.log + [Forgot(SlotKeys(hash, st.cache.written, (st.cache.sweepNo + 1) % REFRESH_SLICES))])
    case WriteRow(row, outcome) =>
      if st.pending.Some? || !Changed(st.cache, row) then st
      else
        var c := Spent(st.cache, row.key);
        if outcome.Refused? then st.(cache := c)
        else
          State(c.(store := Stored(c.store, row)), if outcome.Done? then Some(row) else None,
                st.log + [Wrote(row.key, row.content, false)])
    case RecordRow =>
      if st.pending.None? then st
      else
        var row := st.pending.value;
        State(st.cache.(written := st.cache.written[row.key := row.content]), None,
              st.log + [Recorded(row.key, row.content)])
    case StreamWrite(row) =>
      State(st.cache.(store := Stored(st.cache.store, row)), st.pending, st.log + [Wrote(row.key, row.content, true)])
    case StreamForget(keys) =>
      State(st.cache.(written := st.cache.written - keys), st.pending, st.log + [Forgot(keys)])
  }

  function Run<T(==)>(hash: Key -> nat, st: State<T>, steps: seq<Step<T>>): State<T>
    decreases |steps|
  {
    if |steps| == 0 then st else Run(hash, Next(hash, st, steps[0]), steps[1..])
  }

  /** A row that nothing comes between is offered to the cache in two steps. */
  lemma OfferIsTwoSteps<T(!new)>(hash: Key -> nat, s: Sweep<T>, row: Row<T>, outcome: Outcome, log: seq<Effect<T>>)
    requires !s.raised
    ensures Run(hash, State(s.cache, None, log), [WriteRow(row, outcome), RecordRow]).cache == Offer(s, row,
            outcome).cache
    ensures Run(hash, State(s.cache, None, log), [WriteRow(row, outcome), RecordRow]).pending.None?
  {
    var st := State(s.cache, None, log);
    var mid := Next(hash, st, WriteRow(row, outcome));
    assert [WriteRow(row, outcome), RecordRow][1..] == [RecordRow];
    assert Run(hash, mid, [RecordRow]) == Run(hash, Next(hash, mid, RecordRow), [RecordRow][1..]);
  }

  // ---- Which records are out of step -----------------------------------------------------------------

  predicate Writes(e: Effect, k: Key) { e.Wrote? && e.key == k }

  predicate Own(e: Effect) { e.Wrote? && !e.streamed }

  predicate Drops(e: Effect, k: Key) { e.Forgot? && k in e.keys }

  /** Where k was last written, by either thread. */
  function LastWrite<T>(log: seq<Effect<T>>, k: Key): (r: Option<nat>)
    ensures r.Some? ==> r.value < |log| && Writes(log[r.value], k)
    ensures forall i | (if r.Some? then r.value else -1) < i < |log| :: !Writes(log[i], k)
  {
    if |log| == 0 then None
    else if Writes(log[|log| - 1], k) then Some(|log| - 1)
    else LastWrite(log[..|log| - 1], k)
  }

  /** Where the sweep last wrote a row. */
  function LastOwn<T>(log: seq<Effect<T>>): (r: Option<nat>)
    ensures r.Some? ==> r.value < |log| && Own(log[r.value])
    ensures forall i | (if r.Some? then r.value else -1) < i < |log| :: !Own(log[i])
  {
    if |log| == 0 then None
    else if Own(log[|log| - 1]) then Some(|log| - 1)
    else LastOwn(log[..|log| - 1])
  }

  /** Where k's record was set, if it was not forgotten since. */
  function LastRecord<T>(log: seq<Effect<T>>, k: Key): (r: Option<nat>)
    ensures r.Some? ==> r.value < |log| && log[r.value].Recorded? && log[r.value].key == k
    ensures forall i | (if r.Some? then r.value else |log|) < i < |log| :: !Drops(log[i], k)
    ensures r.Some? ==> forall i | r.value < i < |log| :: !(log[i].Recorded? && log[i].key == k)
  {
    if |log| == 0 then None
    else
      var e := log[|log| - 1];
      if e.Recorded? && e.key == k then Some(|log| - 1)
      else if Drops(e, k) then None
      else LastRecord(log[..|log| - 1], k)
  }

  /** The record at r is of the sweep's write at s: the last it made before, of the same content. */
  predicate RecordOf<T(==)>(log: seq<Effect<T>>, s: nat, r: nat) {
    && s < r < |log| && LastOwn(log[..r]) == Some(s) && log[r].Recorded?
    && log[s].key == log[r].key && log[s].content == log[r].content
  }

  /** The log tells k's record and k's content. */
  ghost predicate Tells<T(!new)>(st: State<T>, k: Key) {
    && (k in st.cache.written <==> LastRecord(st.log, k).Some?)
    && (k in st.cache.written ==>
          var r := LastRecord(st.log, k).value;
          && st.cache.written[k] == st.log[r].content
          && LastOwn(st.log[..r]).Some? && RecordOf(st.log, LastOwn(st.log[..r]).value, r))
    && (!k.NoOrder? && LastWrite(st.log, k).Some? ==>
          k in st.cache.store && st.cache.store[k] == st.log[LastWrite(st.log, k).value].content)
  }

  /** The pending row is the sweep's last write. */
  ghost predicate PendingIsLast<T(!new)>(st: State<T>) {
    st.pending.Some? ==>
      var s := LastOwn(st.log);
      s.Some? && st.log[s.value] == Wrote(st.pending.value.key, st.pending.value.content, false)
  }

  lemma LastNext<T>(log: seq<Effect<T>>, e: Effect<T>, k: Key)
    ensures LastWrite(log + [e], k) == if Writes(e, k) then Some(|log|) else LastWrite(log, k)
    ensures LastOwn(log + [e]) == if Own(e) then Some(|log|) else LastOwn(log)
    ensures LastRecord(log + [e], k) ==
            if e.Recorded? && e.key == k then Some(|log|) else if Drops(e, k) then None else LastRecord(log, k)
  {
    assert (log + [e])[..|log|] == log;
  }

  lemma RecordOfOnward<T>(log: seq<Effect<T>>, e: Effect<T>, s: nat, r: nat)
    requires RecordOf(log, s, r)
    ensures RecordOf(log + [e], s, r) && (log + [e])[..r] == log[..r]
  {
    assert (log + [e])[..r] == log[..r];
  }

  /** The effect is what happened to the records and the store. */
  ghost predicate Matches<T(!new)>(st: State<T>, e: Effect<T>, c: Cache<T>) {
    match e
    case Wrote(key, content, _) => c.written == st.cache.written && c.store == Stored(st.cache.store, Row(key, content))
    case Recorded(key, content) =>
      && c.written == st.cache.written[key := content] && c.store == st.cache.store
      && LastOwn(st.log).Some? && st.log[LastOwn(st.log).value] == Wrote(key, content, false)
    case Forgot(keys) => c.written == st.cache.written - keys && c.store == st.cache.store
  }

  lemma EffectTells<T(!new)>(st: State<T>, e: Effect<T>, c: Cache<T>, pending: Option<Row<T>>, k: Key)
    requires Tells(st, k) && Matches(st, e, c)
    ensures Tells(State(c, pending, st.log + [e]), k)
  {
    hide LastWrite, LastOwn, LastRecord, RecordOf;
    LastNext(st.log, e, k);
    if k in st.cache.written {
      var r := LastRecord(st.log, k).value;
      RecordOfOnward(st.log, e, LastOwn(st.log[..r]).value, r);
    }
    if e.Recorded? {
      RecordLands(st.log, e.key, e.content);
    }
  }

  /** What a step does is nothing the log tells, or the effect it logs. */
  lemma StepMatches<T(!new)>(hash: Key -> nat, st: State<T>, a: Step<T>)
    requires PendingIsLast(st)
    ensures var next := Next(hash, st, a);
            if next.log == st.log then
              next.cache.written == st.cache.written && next.cache.store == st.cache.store
            else
              && |next.log| == |st.log| + 1 && next.log == st.log + [next.log[|st.log|]]
              && Matches(st, next.log[|st.log|], next.cache)
    ensures PendingIsLast(Next(hash, st, a))
  {
    hide LastOwn, Slot, Changed;
    var next := Next(hash, st, a);
    if next.log != st.log {
      LastNext(st.log, next.log[|st.log|], NoOrder(true));
    }
  }

  lemma StepTells<T(!new)>(hash: Key -> nat, st: State<T>, a: Step<T>, k: Key)
    requires Tells(st, k) && PendingIsLast(st)
    ensures Tells(Next(hash, st, a), k) && PendingIsLast(Next(hash, st, a))
  {
    StepMatches(hash, st, a);
    hide Next, Matches, PendingIsLast, LastWrite, LastOwn, LastRecord, RecordOf;
    var next := Next(hash, st, a);
    if next.log != st.log {
      EffectTells(st, next.log[|st.log|], next.cache, next.pending, k);
      assert next == State(next.cache, next.pending, st.log + [next.log[|st.log|]]);
    }
  }

  lemma RecordLands<T(!new)>(log: seq<Effect<T>>, k: Key, content: T)
    requires LastOwn(log).Some? && log[LastOwn(log).value] == Wrote(k, content, false)
    ensures var longer := log + [Recorded(k, content)];
            longer[..|log|] == log && RecordOf(longer, LastOwn(log).value, |log|)
  {
    assert (log + [Recorded(k, content)])[..|log|] == log;
  }

  lemma {:induction false} RunTells<T(!new)>(hash: Key -> nat, st: State<T>, steps: seq<Step<T>>, k: Key)
    requires Tells(st, k) && PendingIsLast(st)
    ensures Tells(Run(hash, st, steps), k) && PendingIsLast(Run(hash, st, steps))
    decreases |steps|
  {
    hide Next, Tells, PendingIsLast;
    if |steps| > 0 {
      StepTells(hash, st, steps[0], k);
      RunTells(hash, Next(hash, st, steps[0]), steps[1..], k);
    }
  }

  /** What k's record is worth: it is of the sweep's write at s, and k was last written at l. */
  predicate OutOfStep<T(==)>(c: Cache<T>, k: Key) {
    k in c.written && !(k in c.store && c.store[k] == c.written[k])
  }

  /** Over every interleaving from a process's start: a record is of a write of the sweep's own, and it is
      out of step with the store if and only if k was written again, by either thread, with another
      content after that write. */
  lemma OutOfStepExactly<T(!new)>(hash: Key -> nat, store: map<Key, T>, sweepNo: nat, steps: seq<Step<T>>, k: Key)
    returns (s: nat, r: nat, l: nat)
    requires !k.NoOrder? && k in Run(hash, Start(store, sweepNo), steps).cache.written
    ensures var st := Run(hash, Start(store, sweepNo), steps);
            && RecordOf(st.log, s, r) && LastRecord(st.log, k) == Some(r) && LastWrite(st.log, k) == Some(l) && s <= l
            && (OutOfStep(st.cache, k) <==> s < l && st.log[l].content != st.log[s].content)
  {
    hide Run, LastWrite, LastRecord, LastOwn;
    var st := Run(hash, Start(store, sweepNo), steps);
    StartTells(store, sweepNo, k);
    RunTells(hash, Start(store, sweepNo), steps, k);
    r := LastRecord(st.log, k).value;
    s := LastOwn(st.log[..r]).value;
    assert Writes(st.log[s], k);
    l := WrittenBy(st.log, k, s);
  }

  lemma StartTells<T(!new)>(store: map<Key, T>, sweepNo: nat, k: Key)
    ensures Tells(Start(store, sweepNo), k) && PendingIsLast(Start(store, sweepNo))
  {}

  lemma WrittenBy<T>(log: seq<Effect<T>>, k: Key, s: nat) returns (l: nat)
    requires s < |log| && Writes(log[s], k)
    ensures LastWrite(log, k) == Some(l) && s <= l < |log|
  {
    l := LastWrite(log, k).value;
  }

  // ---- When nothing is under way ---------------------------------------------------------------------

  predicate NoTears<T(!new)>(steps: seq<Step<T>>) {
    forall i | 0 <= i < |steps| :: !(steps[i].WriteRow? && steps[i].outcome.Torn?)
  }

  ghost predicate RecordedAfter<T(!new)>(log: seq<Effect<T>>, i: nat) {
    exists j :: i < j < |log| && i < |log| && log[i].Wrote? && log[j].Recorded? && log[j].key == log[i].key
  }

  /** Each of the sweep's writes was recorded, but for the one it is at. */
  ghost predicate OwnAreRecorded<T(!new)>(st: State<T>) {
    forall i: nat | i < |st.log| && Own(st.log[i]) ::
           RecordedAfter(st.log, i) || (st.pending.Some? && LastOwn(st.log) == Some(i))
  }

  lemma RecordedOnward<T(!new)>(log: seq<Effect<T>>, e: Effect<T>, i: nat)
    requires i < |log| && log[i].Wrote?
    ensures RecordedAfter(log, i) ==> RecordedAfter(log + [e], i)
    ensures e.Recorded? && e.key == log[i].key ==> RecordedAfter(log + [e], i)
  {
    if j :| i < j < |log| && log[j].Recorded? && log[j].key == log[i].key {
      assert (log + [e])[j] == log[j];
    }
    assert (log + [e])[|log|] == e;
  }

  lemma StepRecords<T(!new)>(hash: Key -> nat, st: State<T>, a: Step<T>)
    requires OwnAreRecorded(st) && PendingIsLast(st) && !(a.WriteRow? && a.outcome.Torn?)
    ensures OwnAreRecorded(Next(hash, st, a))
  {
    hide LastOwn, RecordedAfter, Slot, Changed;
    var next := Next(hash, st, a);
    if |next.log| > |st.log| {
      var e := next.log[|st.log|];
      assert next.log == st.log + [e];
      LastNext(st.log, e, NoOrder(true));
      forall i: nat | i < |next.log| && Own(next.log[i])
        ensures RecordedAfter(next.log, i) || (next.pending.Some? && LastOwn(next.log) == Some(i))
      {
        if i < |st.log| {
          RecordedOnward(st.log, e, i);
        }
      }
    }
  }

  lemma {:induction false} RunRecords<T(!new)>(hash: Key -> nat, st: State<T>, steps: seq<Step<T>>, k: Key)
    requires OwnAreRecorded(st) && Tells(st, k) && PendingIsLast(st) && NoTears(steps)
    ensures OwnAreRecorded(Run(hash, st, steps))
    decreases |steps|
  {
    hide Next, OwnAreRecorded, Tells, PendingIsLast;
    if |steps| > 0 {
      StepRecords(hash, st, steps[0]);
      StepTells(hash, st, steps[0], k);
      RunRecords(hash, Next(hash, st, steps[0]), steps[1..], k);
    }
  }

  /** Every streamed write was forgotten later. */
  ghost predicate StreamsAreDone<T(!new)>(log: seq<Effect<T>>) {
    forall i | 0 <= i < |log| && log[i].Wrote? && log[i].streamed :: exists f ::
           i < f < |log| && Drops(log[f], log[i].key)
  }

  /** A streamed write of k at l and its forgetting at f both fell between the sweep's write of k at s
      and its record at r, and nothing touched k's record or content since. */
  ghost predicate RacedAt<T(!new)>(log: seq<Effect<T>>, k: Key, s: nat, l: nat, f: nat, r: nat) {
    && s < l < f < r && RecordOf(log, s, r) && LastRecord(log, k) == Some(r)
    && LastWrite(log, k) == Some(l) && log[l].streamed && Drops(log[f], k)
  }

  ghost predicate Raced<T(!new)>(log: seq<Effect<T>>, k: Key) {
    exists s: nat, l: nat, f: nat, r: nat :: RacedAt(log, k, s, l, f, r) && log[l].content != log[s].content
  }

  /** With nothing torn and nothing under way, the keys out of step are exactly those on which a streamed
      update ran, writes and forgetting, between the sweep's write and its record. */
  lemma OnlyRacesAreOutOfStep<T(!new)>(hash: Key -> nat, store: map<Key, T>, sweepNo: nat, steps: seq<Step<T>>, k: Key)
    requires !k.NoOrder? && NoTears(steps)
    requires var st := Run(hash, Start(store, sweepNo), steps); st.pending.None? && StreamsAreDone(st.log)
    ensures var st := Run(hash, Start(store, sweepNo), steps); OutOfStep(st.cache, k) <==> Raced(st.log, k)
  {
    hide Run, LastWrite, LastRecord, LastOwn, StreamsAreDone;
    var st := Run(hash, Start(store, sweepNo), steps);
    StartTells(store, sweepNo, k);
    RunTells(hash, Start(store, sweepNo), steps, k);
    RunRecords(hash, Start(store, sweepNo), steps, k);
    if k in st.cache.written {
      var s, r, l := OutOfStepExactly(hash, store, sweepNo, steps, k);
      if s < l {
        var f := RaceOf(st, k, s, r, l);
        assert RacedAt(st.log, k, s, l, f, r);
      }
    }
  }

  lemma NotOwnSince<T(!new)>(log: seq<Effect<T>>, k: Key, s: nat, r: nat, l: nat)
    requires RecordOf(log, s, r) && LastRecord(log, k) == Some(r) && s < l < |log| && Writes(log[l], k)
    ensures l != r && (l < r ==> !Own(log[l])) && (r < l ==> !RecordedAfter(log, l))
    ensures forall f | r <= f < |log| :: !Drops(log[f], k)
  {
    if l < r {
      assert log[..r][l] == log[l];
    }
  }

  lemma RaceOf<T(!new)>(st: State<T>, k: Key, s: nat, r: nat, l: nat) returns (f: nat)
    requires OwnAreRecorded(st) && StreamsAreDone(st.log) && st.pending.None?
    requires RecordOf(st.log, s, r) && LastRecord(st.log, k) == Some(r) && LastWrite(st.log, k) == Some(l) && s < l
    ensures l < f < r && st.log[l].streamed && Drops(st.log[f], k)
  {
    hide LastRecord, LastOwn, RecordedAfter, LastWrite;
    assert Own(st.log[l]) ==> RecordedAfter(st.log, l);
    NotOwnSince(st.log, k, s, r, l);
    f :| l < f < |st.log| && Drops(st.log[f], st.log[l].key);
  }

  /** The race: the sweep stores A, the stream stores B and forgets the record, the sweep records A.
      Nothing failed, the store has B, and the next sweep of the row, still A, takes it for written. */
  lemma StreamedUpdateCanBeHidden<T(!new)>(hash: Key -> nat, store: map<Key, T>, sweepNo: nat, k: Key, a: T, b: T)
    requires !k.NoOrder? && a != b
    ensures var st := Run(hash, Start(store, sweepNo),
                          [StartSweep, WriteRow(Row(k, a), Done), StreamWrite(Row(k, b)), StreamForget({k}),
                           RecordRow]);
            && k in st.cache.store && st.cache.store[k] == b && OutOfStep(st.cache, k) && !Changed(st.cache, Row(k, a))
  {
    var s0 := Start(store, sweepNo);
    var s1 := Next(hash, s0, StartSweep);
    var s2 := Next(hash, s1, WriteRow(Row(k, a), Done));
    var s3 := Next(hash, s2, StreamWrite(Row(k, b)));
    var s4 := Next(hash, s3, StreamForget({k}));
    assert s1.cache.budget > 0 && k !in s1.cache.written;
    assert s2.pending == Some(Row(k, a)) && s4.pending == s2.pending;
    hide Run;
    RunFive(hash, s0, StartSweep, WriteRow(Row(k, a), Done), StreamWrite(Row(k, b)), StreamForget({k}), RecordRow);
  }

  lemma RunFive<T(!new)>(hash: Key -> nat, st: State<T>, a: Step<T>, b: Step<T>, c: Step<T>, d: Step<T>, e: Step<T>)
    ensures Run(hash, st, [a, b, c, d, e]) == Next(hash, Next(hash, Next(hash, Next(hash, Next(hash, st, a), b), c), d),
                                                   e)
  {
    hide Next;
    RunCons(hash, st, a, [b, c, d, e]);
    RunCons(hash, Next(hash, st, a), b, [c, d, e]);
    RunCons(hash, Next(hash, Next(hash, st, a), b), c, [d, e]);
    RunCons(hash, Next(hash, Next(hash, Next(hash, st, a), b), c), d, [e]);
    RunCons(hash, Next(hash, Next(hash, Next(hash, Next(hash, st, a), b), c), d), e, []);
    assert [a, b, c, d, e] == [a] + [b, c, d, e] && [b, c, d, e] == [b] + [c, d, e] && [c, d, e] == [c] + [d, e];
    assert [d, e] == [d] + [e] && [e] == [e] + [];
  }

  lemma RunCons<T(!new)>(hash: Key -> nat, st: State<T>, a: Step<T>, rest: seq<Step<T>>)
    ensures Run(hash, st, [a] + rest) == Run(hash, Next(hash, st, a), rest)
  {
    assert ([a] + rest)[1..] == rest;
  }
}
