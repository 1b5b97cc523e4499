/** The write-skipping cache of the reconciliation sweep: which broker rows are written back, under
    a rolling refresh and a budget for rows of unknown state. Generic in what a row's content is. */
module WriteCache {
  const REFRESH_SLICES := 12
  const UNKNOWN_WRITE_BUDGET := 150

  /** The cache keys. A leg without an id has a key, but there is nothing to store it under. */
  datatype Key = Execution(id: string) | Order(id: string) | NoOrder(blank: bool) {
    predicate Storable() { !NoOrder? }
  }

  datatype Row<T> = Row(key: Key, content: T)

  /** How a write ends: done, refused, or stored but reported as failed. */
  datatype Outcome = Done | Refused | Torn

  /** `store` is the database, by the content last written. */
  datatype Cache<T> = Cache(written: map<Key, T>, sweepNo: nat, budget: int, store: map<Key, T>)

  datatype Sweep<T> = Sweep(cache: Cache<T>, raised: bool, wrote: seq<Key>, unknownWrites: nat)

  function Slot(hash: Key -> nat, key: Key): nat {
    hash(key) % REFRESH_SLICES
  }

  function SlotKeys<T>(hash: Key -> nat, written: map<Key, T>, slot: nat): set<Key> {
    set k | k in written && Slot(hash, k) == slot
  }

  /** A sweep forgets one slice of the rows and starts with a whole budget. */
  function Begin<T>(hash: Key -> nat, c: Cache<T>): Cache<T> {
    var n := c.sweepNo + 1;
    c.(sweepNo := n, written := c.written - SlotKeys(hash, c.written, n % REFRESH_SLICES),
       budget := UNKNOWN_WRITE_BUDGET)
  }

  predicate Changed<T(==)>(c: Cache<T>, row: Row<T>) {
    if row.key in c.written then c.written[row.key] != row.content else c.budget > 0
  }

  function Stored<T>(store: map<Key, T>, row: Row<T>): map<Key, T> {
    if row.key.Storable() then store[row.key := row.content] else store
  }

  /** One row offered to the cache. The budget is spent before the write, the content recorded after. */
  function Offer<T(==)>(s: Sweep<T>, row: Row<T>, outcome: Outcome): Sweep<T> {
    if s.raised || !Changed(s.cache, row) then s
    else
      var unknown := row.key !in s.cache.written;
      var c := s.cache.(budget := if unknown then s.cache.budget - 1 else s.cache.budget);
      var spent := s.unknownWrites + if unknown then 1 else 0;
      match outcome
      case Done => Sweep(c.(store := Stored(c.store, row), written := c.written[row.key := row.content]), false,
                         s.wrote + [row.key], spent)
      case Refused => Sweep(c, true, s.wrote, spent)
      case Torn => Sweep(c.(store := Stored(c.store, row)), true, s.wrote, spent)
  }

  /** The first n rows of a sweep; a write that raises ends it. */
  function Offered<T(==)>(c: Cache<T>, rows: seq<Row<T>>, outcomes: nat -> Outcome, n: nat): Sweep<T>
    requires n <= |rows|
  {
    if n == 0 then Sweep(c, false, [], 0) else Offer(Offered(c, rows, outcomes, n - 1), rows[n - 1], outcomes(n - 1))
  }

  function Swept<T(==)>(hash: Key -> nat, c: Cache<T>, rows: seq<Row<T>>, outcomes: nat -> Outcome): Sweep<T> {
    Offered(Begin(hash, c), rows, outcomes, |rows|)
  }

  // ---- What one sweep promises, whatever fails ----------------------------------------------------------

  /** Rows in an unknown state cost at most the budget. */
  lemma {:induction false} UnknownWritesAreBounded<T(!new)>(c: Cache<T>, rows: seq<Row<T>>, outcomes: nat -> Outcome,
                                                            n: nat)
    requires n <= |rows| && c.budget >= 0
    ensures var s := Offered(c, rows, outcomes, n);
            s.cache.budget >= 0 && s.unknownWrites == c.budget - s.cache.budget <= c.budget
  {
    if n > 0 {
      UnknownWritesAreBounded(c, rows, outcomes, n - 1);
    }
  }

  /** The record of a key is what was last stored under it. */
  ghost predicate InStep<T(!new)>(c: Cache<T>, torn: set<Key>) {
    forall k | k in c.written && !k.NoOrder? && k !in torn :: k in c.store && c.store[k] == c.written[k]
  }

  /** The keys whose last write stored but raised, after the first n rows. */
  function TornBy<T(==)>(c: Cache<T>, rows: seq<Row<T>>, outcomes: nat -> Outcome, torn: set<Key>, n: nat): set<Key>
    requires n <= |rows|
  {
    if n == 0 then torn
    else
      var before := TornBy(c, rows, outcomes, torn, n - 1);
      var s := Offered(c, rows, outcomes, n - 1);
      if s.raised || !Changed(s.cache, rows[n - 1]) then before
      else match outcomes(n - 1)
           case Done => before - {rows[n - 1].key}
           case Refused => before
           case Torn => before + {rows[n - 1].key}
  }

  /** Every sweep keeps the records in step with the store, but for the rows of torn writes; a
      completed write of such a row puts it in step again. */
  lemma {:induction false} SweepStaysInStep<T(!new)>(hash: Key -> nat, c: Cache<T>, rows: seq<Row<T>>,
                                                     outcomes: nat -> Outcome, torn: set<Key>, n: nat)
    requires n <= |rows| && InStep(c, torn)
    ensures InStep(Offered(Begin(hash, c), rows, outcomes, n).cache, TornBy(Begin(hash, c), rows, outcomes, torn, n))
  {
    if n > 0 {
      SweepStaysInStep(hash, c, rows, outcomes, torn, n - 1);
    }
  }

  /** A row known to have changed is written, however little budget is left; a row known to be
      unchanged is not. */
  lemma KnownRowsAreExact<T(!new)>(s: Sweep<T>, row: Row<T>)
    requires !s.raised && row.key in s.cache.written
    ensures var r := Offer(s, row, Done);
            && (s.cache.written[row.key] != row.content ==>
                  r.wrote == s.wrote + [row.key] && r.cache.written[row.key] == row.content
                  && (!row.key.NoOrder? ==> row.key in r.cache.store && r.cache.store[row.key] == row.content))
            && (s.cache.written[row.key] == row.content ==> r == s)
            && r.cache.budget == s.cache.budget
  {}

  /** A write that raises, whether it stored its row or not, ends the sweep: nothing is written after it and
      its row's record stays as it was. */
  lemma {:induction false} FailedWriteEndsTheSweep<T(!new)>(c: Cache<T>, rows: seq<Row<T>>, outcomes: nat -> Outcome,
                                                            i: nat, n: nat)
    requires i < n <= |rows| && !outcomes(i).Done?
    requires var s, row := Offered(c, rows, outcomes, i), rows[i];
             && !s.raised
             && (if row.key in s.cache.written then s.cache.written[row.key] != row.content else s.cache.budget > 0)
    ensures var s, row, r := Offered(c, rows, outcomes, i), rows[i], Offered(c, rows, outcomes, n);
            && r.raised && r.wrote == s.wrote && r.cache.written == s.cache.written
            && r.cache.store == (if outcomes(i).Torn? && !row.key.NoOrder? then s.cache.store[row.key := row.content]
                                 else s.cache.store)
    decreases n
  {
    if i + 1 < n {
      FailedWriteEndsTheSweep(c, rows, outcomes, i, n - 1);
    }
  }

  // ---- Convergence on unchanged rows -----------------------------------------------------------------

  function KeysOf<T>(rows: seq<Row<T>>, n: nat): set<Key>
    requires n <= |rows|
  {
    set i | 0 <= i < n :: rows[i].key
  }

  /** A broker listing, in whatever order, of the rows whose contents are `world`. */
  ghost predicate Lists<T(!new)>(rows: seq<Row<T>>, world: map<Key, T>) {
    && (forall i, j | 0 <= i < j < |rows| :: rows[i].key != rows[j].key)
    && (forall i | 0 <= i < |rows| :: rows[i].key in world && world[rows[i].key] == rows[i].content)
    && (forall k | k in world :: k in KeysOf(rows, |rows|))
  }

  function Clean(): nat -> Outcome { _ => Done }

  function Unknown<T>(c: Cache<T>, keys: set<Key>): set<Key> {
    keys - c.written.Keys
  }

  function Min(a: int, b: int): int { if a < b then a else b }

  /** Once the rows of `keys` have been offered, the unknown ones are as many as the budget did not
      reach. */
  ghost predicate Counts<T>(c: Cache<T>, s: Sweep<T>, keys: set<Key>) {
    && s.cache.budget == c.budget - Min(c.budget, |Unknown(c, keys)|)
    && |Unknown(s.cache, keys)| == |Unknown(c, keys)| - Min(c.budget, |Unknown(c, keys)|)
  }

  /** Each offered row is recorded as it is or still unknown; the rest of the cache is as it was. */
  ghost predicate Records<T(!new)>(c: Cache<T>, s: Sweep<T>, keys: set<Key>, world: map<Key, T>) {
    && !s.raised && s.cache.sweepNo == c.sweepNo
    && (forall k | k in c.written :: k in s.cache.written)
    && (forall k | k in keys && k in s.cache.written :: k in world && s.cache.written[k] == world[k])
    && (forall k | k !in keys && k in s.cache.written :: k in c.written && s.cache.written[k] == c.written[k])
  }

  lemma OfferKeepsRecords<T(!new)>(c: Cache<T>, s: Sweep<T>, keys: set<Key>, world: map<Key, T>, row: Row<T>)
    requires Records(c, s, keys, world) && row.key !in keys && row.key in world && world[row.key] == row.content
    ensures Records(c, Offer(s, row, Done), keys + {row.key}, world)
  {}

  lemma OfferKeepsCounts<T(!new)>(c: Cache<T>, s: Sweep<T>, keys: set<Key>, world: map<Key, T>, row: Row<T>)
    requires c.budget >= 0 && Counts(c, s, keys) && Records(c, s, keys, world) && row.key !in keys
    ensures Counts(c, Offer(s, row, Done), keys + {row.key})
  {
    hide Offer, Unknown, Records, Counts;
    var r := Offer(s, row, Done);
    SameKnowledge(c, s, keys, world, row.key);
    OfferedKeys(s, row);
    UnknownGrows(c, c, keys, row.key);
    UnknownGrows(s.cache, r.cache, keys, row.key);
    CountsAdd(c, s, r, keys, row.key);
  }

  lemma SameKnowledge<T(!new)>(c: Cache<T>, s: Sweep<T>, keys: set<Key>, world: map<Key, T>, key: Key)
    requires Records(c, s, keys, world) && key !in keys
    ensures !s.raised && (key in s.cache.written <==> key in c.written)
  {}

  lemma OfferedKeys<T>(s: Sweep<T>, row: Row<T>)
    requires !s.raised
    ensures var r := Offer(s, row, Done);
            && (r.cache.written.Keys == if row.key in s.cache.written
                || s.cache.budget > 0 then s.cache.written.Keys + {row.key} else s.cache.written.Keys)
            && (row.key in r.cache.written <==> row.key in s.cache.written || s.cache.budget > 0)
            && r.cache.budget == if row.key !in s.cache.written && s.cache.budget > 0 then s.cache.budget - 1
                 else s.cache.budget
  {
    if row.key in s.cache.written {
      assert s.cache.written.Keys + {row.key} == s.cache.written.Keys;
    }
  }

  lemma CountsAdd<T>(c: Cache<T>, s: Sweep<T>, r: Sweep<T>, keys: set<Key>, key: Key)
    requires c.budget >= 0 && Counts(c, s, keys)
    requires key in s.cache.written <==> key in c.written
    requires key in r.cache.written <==> key in s.cache.written || s.cache.budget > 0
    requires r.cache.budget == if key !in s.cache.written && s.cache.budget > 0 then s.cache.budget - 1
             else s.cache.budget
    requires |Unknown(c, keys + {key})| == |Unknown(c, keys)| + if key in c.written then 0 else 1
    requires |Unknown(r.cache, keys + {key})| == |Unknown(s.cache, keys)| + if key in r.cache.written then 0 else 1
    ensures Counts(c, r, keys + {key})
  {
    hide Unknown;
  }

  lemma UnknownGrows<T>(before: Cache<T>, after: Cache<T>, keys: set<Key>, key: Key)
    requires key !in keys
    requires after.written.Keys == before.written.Keys || after.written.Keys == before.written.Keys + {key}
    ensures |Unknown(after, keys + {key})| == |Unknown(before, keys)| + if key in after.written then 0 else 1
  {
    var w := after.written.Keys;
    assert keys - w == keys - before.written.Keys;
    if key in w {
      assert keys + {key} - w == keys - w;
    } else {
      assert keys + {key} - w == keys - w + {key};
    }
  }

  lemma NothingOffered<T(!new)>(c: Cache<T>, world: map<Key, T>)
    requires c.budget >= 0
    ensures Counts(c, Sweep(c, false, [], 0), {}) && Records(c, Sweep(c, false, [], 0), {}, world)
  {
    assert Unknown(c, {}) == {};
  }

  lemma OfferedNext<T>(c: Cache<T>, rows: seq<Row<T>>, n: nat)
    requires n <= |rows|
    ensures n == 0 ==> Offered(c, rows, Clean(), n) == Sweep(c, false, [], 0)
    ensures n > 0 ==> Offered(c, rows, Clean(), n) == Offer(Offered(c, rows, Clean(), n - 1), rows[n - 1], Done)
  {
    hide Offer;
  }

  lemma {:induction false} CleanSweepSoFar<T(!new)>(c: Cache<T>, rows: seq<Row<T>>, world: map<Key, T>, n: nat)
    requires n <= |rows| && Lists(rows, world) && c.budget >= 0
    ensures var s := Offered(c, rows, Clean(), n);
            Counts(c, s, KeysOf(rows, n)) && Records(c, s, KeysOf(rows, n), world)
  {
    hide Counts, Records, Offer, Offered, Lists, KeysOf;
    OfferedNext(c, rows, n);
    if n == 0 {
      NothingOffered(c, world);
      assert KeysOf(rows, 0) == {} by { NoKeys(rows); }
    } else {
      CleanSweepSoFar(c, rows, world, n - 1);
      OneRowMore(rows, world, n);
      var s := Offered(c, rows, Clean(), n - 1);
      OfferKeepsRecords(c, s, KeysOf(rows, n - 1), world, rows[n - 1]);
      OfferKeepsCounts(c, s, KeysOf(rows, n - 1), world, rows[n - 1]);
    }
  }

  lemma NoKeys<T>(rows: seq<Row<T>>)
    ensures KeysOf(rows, 0) == {}
  {}

  lemma OneRowMore<T(!new)>(rows: seq<Row<T>>, world: map<Key, T>, n: nat)
    requires 0 < n <= |rows| && Lists(rows, world)
    ensures var k := rows[n - 1].key;
            && k !in KeysOf(rows, n - 1) && KeysOf(rows, n) == KeysOf(rows, n - 1) + {k}
            && k in world && world[k] == rows[n - 1].content
  {}

  /** What the offered rows wrote: those recorded now and not recorded so before, once each. */
  ghost predicate Writes<T(!new)>(c: Cache<T>, s: Sweep<T>, keys: set<Key>, world: map<Key, T>) {
    && (forall k | k in s.wrote :: k in keys)
    && (forall i, j | 0 <= i < j < |s.wrote| :: s.wrote[i] != s.wrote[j])
    && (forall k | k in keys && k in world ::
          k in s.wrote <==> k in s.cache.written && !(k in c.written && c.written[k] == world[k]))
    && (forall k | k in s.wrote && k in world && !k.NoOrder? :: k in s.cache.store && s.cache.store[k] == world[k])
    && (forall k | k !in s.wrote ::
        (k in s.cache.store <==> k in c.store) && (k in c.store ==> s.cache.store[k] == c.store[k]))
  }

  lemma OfferKeepsWrites<T(!new)>(c: Cache<T>, s: Sweep<T>, keys: set<Key>, world: map<Key, T>, row: Row<T>)
    requires Records(c, s, keys, world) && Writes(c, s, keys, world)
    requires row.key !in keys && row.key in world && world[row.key] == row.content
    ensures Writes(c, Offer(s, row, Done), keys + {row.key}, world)
  {
    SameKnowledge(c, s, keys, world, row.key);
    if row.key in c.written {
      assert s.cache.written[row.key] == c.written[row.key];
    }
    hide Records;
  }

  lemma {:induction false} CleanSweepWrites<T(!new)>(c: Cache<T>, rows: seq<Row<T>>, world: map<Key, T>, n: nat)
    requires n <= |rows| && Lists(rows, world) && c.budget >= 0
    ensures Writes(c, Offered(c, rows, Clean(), n), KeysOf(rows, n), world)
  {
    hide Writes, Records, Counts, Offer, Offered, Lists, KeysOf;
    OfferedNext(c, rows, n);
    if n == 0 {
      NoKeys(rows);
      NothingWritten(c, world);
    } else {
      CleanSweepWrites(c, rows, world, n - 1);
      CleanSweepSoFar(c, rows, world, n - 1);
      OneRowMore(rows, world, n);
      OfferKeepsWrites(c, Offered(c, rows, Clean(), n - 1), KeysOf(rows, n - 1), world, rows[n - 1]);
    }
  }

  lemma NothingWritten<T(!new)>(c: Cache<T>, world: map<Key, T>)
    ensures Writes(c, Sweep(c, false, [], 0), {}, world)
  {}

  // ---- Sweep after sweep -----------------------------------------------------------------------------

  function SweepOnce<T(==)>(hash: Key -> nat, c: Cache<T>, rows: seq<Row<T>>): Sweep<T> {
    Swept(hash, c, rows, Clean())
  }

  function AfterSweeps<T(==)>(hash: Key -> nat, c: Cache<T>, listings: seq<seq<Row<T>>>, n: nat): Cache<T>
    requires n <= |listings|
  {
    if n == 0 then c else SweepOnce(hash, AfterSweeps(hash, c, listings, n - 1), listings[n - 1]).cache
  }

  function WorldSlice<T>(hash: Key -> nat, world: map<Key, T>, slot: nat): set<Key> {
    set k | k in world && Slot(hash, k) == slot
  }

  /** Every recorded row of the world is recorded as it is. */
  ghost predicate Agrees<T(!new)>(c: Cache<T>, world: map<Key, T>) {
    forall k | k in world && k in c.written :: c.written[k] == world[k]
  }

  /** One complete sweep of unchanged rows. */
  lemma SweepReachesUnknown<T(!new)>(hash: Key -> nat, c: Cache<T>, rows: seq<Row<T>>, world: map<Key, T>)
    requires Lists(rows, world)
    ensures var s := SweepOnce(hash, c, rows);
            var b := Begin(hash, c);
            && !s.raised && s.cache.sweepNo == c.sweepNo + 1 && Agrees(s.cache, world)
            && |Unknown(s.cache, world.Keys)| == |Unknown(b, world.Keys)| - Min(UNKNOWN_WRITE_BUDGET,
              |Unknown(b, world.Keys)|)
            && Writes(b, s, world.Keys, world)
  {
    AllKeys(rows, world);
    hide Lists, KeysOf, Offered, Writes, Unknown;
    CleanSweepSoFar(Begin(hash, c), rows, world, |rows|);
    CleanSweepWrites(Begin(hash, c), rows, world, |rows|);
  }

  lemma AllKeys<T(!new)>(rows: seq<Row<T>>, world: map<Key, T>)
    requires Lists(rows, world)
    ensures KeysOf(rows, |rows|) == world.Keys
  {}

  lemma SubsetCard(a: set<Key>, b: set<Key>)
    requires a <= b
    ensures |a| <= |b|
  {
    if a != {} {
      var x :| x in a;
      SubsetCard(a - {x}, b - {x});
    }
  }

  lemma EvictionForgetsASlice<T(!new)>(hash: Key -> nat, c: Cache<T>, world: map<Key, T>)
    ensures Unknown(Begin(hash, c), world.Keys) == Unknown(c, world.Keys) +
            WorldSlice(hash, world, (c.sweepNo + 1) % REFRESH_SLICES)
  {
    hide Begin, Slot;
    forall k | k in world ensures k in Begin(hash, c).written <==>
           k in c.written && Slot(hash, k) != (c.sweepNo + 1) % REFRESH_SLICES {
      StillRecorded(hash, c, k);
    }
  }

  lemma EvictionIsBounded<T(!new)>(hash: Key -> nat, c: Cache<T>, world: map<Key, T>)
    ensures |Unknown(Begin(hash, c), world.Keys)| <= |Unknown(c, world.Keys)| +
            |WorldSlice(hash, world, (c.sweepNo + 1) % REFRESH_SLICES)|
  {
    hide Begin, Unknown, WorldSlice;
    EvictionForgetsASlice(hash, c, world);
    var u, w := Unknown(c, world.Keys), WorldSlice(hash, world, (c.sweepNo + 1) % REFRESH_SLICES);
    assert u + w == u + (w - u);
    SubsetCard(w - u, w);
  }

  lemma StillRecorded<T>(hash: Key -> nat, c: Cache<T>, k: Key)
    ensures k in Begin(hash, c).written <==> k in c.written && Slot(hash, k) != (c.sweepNo + 1) % REFRESH_SLICES
    ensures k in Begin(hash, c).written ==> Begin(hash, c).written[k] == c.written[k]
  {
    hide Slot;
  }

  ghost predicate SlicesWithin<T>(hash: Key -> nat, world: map<Key, T>, size: nat) {
    forall slot: nat | slot < REFRESH_SLICES :: |WorldSlice(hash, world, slot)| <= size
  }

  /** From any cache at all, n complete sweeps leave at most N - n(150 - s) rows in an unknown state. */
  lemma {:induction false} UnknownRowsRunOut<T(!new)>(hash: Key -> nat, c: Cache<T>, listings: seq<seq<Row<T>>>,
                                                      world: map<Key, T>, size: nat, n: nat)
    requires n <= |listings| && forall i | 0 <= i < |listings| :: Lists(listings[i], world)
    requires size < UNKNOWN_WRITE_BUDGET && SlicesWithin(hash, world, size)
    ensures var r := AfterSweeps(hash, c, listings, n);
            && r.sweepNo == c.sweepNo + n
            && (n > 0 ==> Agrees(r, world))
            && (|Unknown(r, world.Keys)| == 0
                || |Unknown(r, world.Keys)| <= |world.Keys| - n * (UNKNOWN_WRITE_BUDGET - size))
  {
    hide Lists, SweepOnce, Begin, Unknown, Agrees, Writes;
    if n == 0 {
      assert |Unknown(c, world.Keys)| <= |world.Keys| by { UnknownWithin(c, world.Keys); }
    } else {
      UnknownRowsRunOut(hash, c, listings, world, size, n - 1);
      var before := AfterSweeps(hash, c, listings, n - 1);
      SweepReachesUnknown(hash, before, listings[n - 1], world);
      EvictionIsBounded(hash, before, world);
      assert |WorldSlice(hash, world, (before.sweepNo + 1) % REFRESH_SLICES)| <= size;
      hide WorldSlice;
      assert n * (UNKNOWN_WRITE_BUDGET - size) == (n - 1) * (UNKNOWN_WRITE_BUDGET - size) +
             (UNKNOWN_WRITE_BUDGET - size);
    }
  }

  lemma UnknownWithin<T>(c: Cache<T>, keys: set<Key>)
    ensures |Unknown(c, keys)| <= |keys|
  {
    SubsetCard(Unknown(c, keys), keys);
  }

  /** Nothing unknown and every record right. */
  ghost predicate Settled<T(!new)>(c: Cache<T>, world: map<Key, T>) {
    Agrees(c, world) && Unknown(c, world.Keys) == {}
  }

  /** Once settled, a sweep rewrites exactly the rows of its slice and stays settled. */
  lemma SettledSweepRewritesItsSlice<T(!new)>(hash: Key -> nat, c: Cache<T>, rows: seq<Row<T>>, world: map<Key, T>,
                                              size: nat)
    requires Lists(rows, world) && Settled(c, world) && size < UNKNOWN_WRITE_BUDGET && SlicesWithin(hash, world, size)
    ensures var s := SweepOnce(hash, c, rows);
            && Settled(s.cache, world) && s.cache.sweepNo == c.sweepNo + 1
            && (forall k | k in world :: k in s.wrote <==> Slot(hash, k) == (c.sweepNo + 1) % REFRESH_SLICES)
            && (forall k | k in s.wrote :: k in world)
            && (forall i, j | 0 <= i < j < |s.wrote| :: s.wrote[i] != s.wrote[j])
  {
    hide Lists, SweepOnce, Slot, Unknown, Begin;
    SweepReachesUnknown(hash, c, rows, world);
    EvictionForgetsASlice(hash, c, world);
    EvictionIsBounded(hash, c, world);
    var slot := (c.sweepNo + 1) % REFRESH_SLICES;
    assert |WorldSlice(hash, world, slot)| <= size;
    var s := SweepOnce(hash, c, rows);
    assert |Unknown(s.cache, world.Keys)| == 0;
    assert Unknown(s.cache, world.Keys) == {};
    forall k | k in world ensures k in s.wrote <==> Slot(hash, k) == slot {
      NoneUnknown(s.cache, world.Keys, k);
      StillRecorded(hash, c, k);
      NoneUnknown(c, world.Keys, k);
    }
  }

  lemma NoneUnknown<T>(c: Cache<T>, keys: set<Key>, k: Key)
    ensures Unknown(c, keys) == {} && k in keys ==> k in c.written
  {
    assert Unknown(c, keys) == {} && k in keys ==> k !in Unknown(c, keys);
  }

  /** Once settled, each row is rewritten once every 12 sweeps: in sweep n + 1 exactly when that
      sweep's number falls on its slice. */
  lemma {:induction false} RewrittenOnceACycle<T(!new)>(hash: Key -> nat, c: Cache<T>, listings: seq<seq<Row<T>>>,
                                                        world: map<Key, T>, size: nat, n: nat, k: Key)
    requires n < |listings| && forall i | 0 <= i < |listings| :: Lists(listings[i], world)
    requires Settled(c, world) && size < UNKNOWN_WRITE_BUDGET && SlicesWithin(hash, world, size) && k in world
    ensures var before := AfterSweeps(hash, c, listings, n);
            && Settled(before, world) && before.sweepNo == c.sweepNo + n
            && (k in SweepOnce(hash, before, listings[n]).wrote <==>
                Slot(hash, k) == (c.sweepNo + n + 1) % REFRESH_SLICES)
  {
    hide Lists, SweepOnce, Slot, Settled, SlicesWithin;
    if n > 0 {
      RewrittenOnceACycle(hash, c, listings, world, size, n - 1, k);
      SettledSweepRewritesItsSlice(hash, AfterSweeps(hash, c, listings, n - 1), listings[n - 1], world, size);
    }
    SettledSweepRewritesItsSlice(hash, AfterSweeps(hash, c, listings, n), listings[n], world, size);
  }

  /** A row stored as it is stays so: sweeps only ever store it as it is. */
  lemma {:induction false} StoredStays<T(!new)>(hash: Key -> nat, c: Cache<T>, listings: seq<seq<Row<T>>>,
                                                world: map<Key, T>, m: nat, n: nat, k: Key)
    requires m <= n <= |listings| && forall i | 0 <= i < |listings| :: Lists(listings[i], world)
    requires k in world && !k.NoOrder?
    requires var r := AfterSweeps(hash, c, listings, m); k in r.store && r.store[k] == world[k]
    ensures var r := AfterSweeps(hash, c, listings, n); k in r.store && r.store[k] == world[k]
    decreases n
  {
    hide Lists, SweepOnce, Begin, Writes, Unknown;
    if m < n {
      StoredStays(hash, c, listings, world, m, n - 1, k);
      var before := AfterSweeps(hash, c, listings, n - 1);
      SweepReachesUnknown(hash, before, listings[n - 1], world);
      BeginKeepsStore(hash, before);
      SweepKeepsStored(Begin(hash, before), SweepOnce(hash, before, listings[n - 1]), world, k);
    }
  }

  lemma BeginKeepsStore<T>(hash: Key -> nat, c: Cache<T>)
    ensures Begin(hash, c).store == c.store
  {}

  lemma SweepKeepsStored<T(!new)>(b: Cache<T>, s: Sweep<T>, world: map<Key, T>, k: Key)
    requires Writes(b, s, world.Keys, world) && k in world && !k.NoOrder?
    requires k in s.wrote || (k in b.store && b.store[k] == world[k])
    ensures k in s.cache.store && s.cache.store[k] == world[k]
  {}

  /** Once settled after m sweeps, a row is stored as it is when its slice has had its turn. */
  lemma StoredInTurn<T(!new)>(hash: Key -> nat, c: Cache<T>, listings: seq<seq<Row<T>>>, world: map<Key, T>, size: nat,
                              m: nat, turn: nat, k: Key)
    requires m + turn < |listings| && forall i | 0 <= i < |listings| :: Lists(listings[i], world)
    requires size < UNKNOWN_WRITE_BUDGET && SlicesWithin(hash, world, size)
    requires k in world && !k.NoOrder? && Settled(AfterSweeps(hash, c, listings, m), world)
    requires Slot(hash, k) == (AfterSweeps(hash, c, listings, m).sweepNo + turn + 1) % REFRESH_SLICES
    ensures var r := AfterSweeps(hash, c, listings, m + turn + 1); k in r.store && r.store[k] == world[k]
  {
    hide Lists, SweepOnce, SlicesWithin, Unknown, AfterSweeps, Slot, Settled;
    var settled, rest := AfterSweeps(hash, c, listings, m), listings[m..];
    forall i | 0 <= i < |rest| ensures Lists(rest[i], world) { assert rest[i] == listings[m + i]; }
    RewrittenOnceACycle(hash, settled, rest, world, size, turn, k);
    SweepsSplit(hash, c, listings, m, turn);
    SweepsSplit(hash, c, listings, m, turn + 1);
    var before := AfterSweeps(hash, settled, rest, turn);
    NextSweep(hash, settled, rest, turn);
    SweepReachesUnknown(hash, before, rest[turn], world);
  }

  /** Self-healing: whatever the records and the store held, even out of step, once N unchanged rows
      have been swept K + 12 times with N <= K(150 - s), the store holds each of them as it is. */
  lemma AnyDriftHeals<T(!new)>(hash: Key -> nat, c: Cache<T>, listings: seq<seq<Row<T>>>, world: map<Key, T>, size: nat,
                               cycles: nat, n: nat, k: Key)
    requires forall i | 0 <= i < |listings| :: Lists(listings[i], world)
    requires size < UNKNOWN_WRITE_BUDGET && SlicesWithin(hash, world, size)
    requires |world.Keys| <= cycles * (UNKNOWN_WRITE_BUDGET - size) && cycles > 0
    requires cycles + REFRESH_SLICES <= n <= |listings|
    requires k in world && !k.NoOrder?
    ensures var r := AfterSweeps(hash, c, listings, n); k in r.store && r.store[k] == world[k]
  {
    hide Lists, SlicesWithin, Unknown, AfterSweeps, Slot;
    UnknownRowsRunOut(hash, c, listings, world, size, cycles);
    var settled := AfterSweeps(hash, c, listings, cycles);
    assert Unknown(settled, world.Keys) == {};
    var turn := SliceTurn(settled.sweepNo, hash(k));
    SlotIs(hash, k);
    StoredInTurn(hash, c, listings, world, size, cycles, turn, k);
    StoredStays(hash, c, listings, world, cycles + turn + 1, n, k);
  }

  /** While the unknown rows and one slice fit in the budget, any drift heals within one cycle of twelve
      complete sweeps: the slice that holds the row is forgotten, and written again. */
  lemma DriftHealsInACycle<T(!new)>(hash: Key -> nat, c: Cache<T>, listings: seq<seq<Row<T>>>, world: map<Key, T>,
                                    size: nat,
                                    n: nat, k: Key)
    requires forall i | 0 <= i < |listings| :: Lists(listings[i], world)
    requires size < UNKNOWN_WRITE_BUDGET && SlicesWithin(hash, world, size)
    requires |Unknown(c, world.Keys)| + size <= UNKNOWN_WRITE_BUDGET
    requires REFRESH_SLICES <= n <= |listings| && k in world && !k.NoOrder?
    ensures var r := AfterSweeps(hash, c, listings, n); k in r.store && r.store[k] == world[k]
  {
    hide Lists, SlicesWithin, Slot, Unknown, SweepOnce;
    var first := SweepOnce(hash, c, listings[0]);
    assert AfterSweeps(hash, c, listings, 1) == first.cache by { NextSweep(hash, c, listings, 0); }
    FirstSweepSettles(hash, c, listings[0], world, size);
    var turn := SliceTurn(c.sweepNo, hash(k));
    SlotIs(hash, k);
    hide AfterSweeps, Settled;
    if turn == 0 {
      ForgottenIsWritten(hash, c, listings[0], world, k);
      StoredStays(hash, c, listings, world, 1, n, k);
    } else {
      StoredInTurn(hash, c, listings, world, size, 1, turn - 1, k);
      StoredStays(hash, c, listings, world, turn + 1, n, k);
    }
  }

  lemma FirstSweepSettles<T(!new)>(hash: Key -> nat, c: Cache<T>, rows: seq<Row<T>>, world: map<Key, T>, size: nat)
    requires Lists(rows, world) && SlicesWithin(hash, world, size)
             && |Unknown(c, world.Keys)| + size <= UNKNOWN_WRITE_BUDGET
    ensures Settled(SweepOnce(hash, c, rows).cache, world) && SweepOnce(hash, c, rows).cache.sweepNo == c.sweepNo + 1
  {
    hide Lists, SweepOnce, Begin, Unknown, Writes, WorldSlice;
    SweepReachesUnknown(hash, c, rows, world);
    EvictionIsBounded(hash, c, world);
    assert |WorldSlice(hash, world, (c.sweepNo + 1) % REFRESH_SLICES)| <= size;
  }

  /** A row whose slice is forgotten in a sweep that leaves nothing unknown is written by it. */
  lemma ForgottenIsWritten<T(!new)>(hash: Key -> nat, c: Cache<T>, rows: seq<Row<T>>, world: map<Key, T>, k: Key)
    requires Lists(rows, world) && k in world && !k.NoOrder? && Slot(hash, k) == (c.sweepNo + 1) % REFRESH_SLICES
    requires Settled(SweepOnce(hash, c, rows).cache, world)
    ensures var r := SweepOnce(hash, c, rows).cache; k in r.store && r.store[k] == world[k]
  {
    hide Lists, SweepOnce, Begin, Unknown, Slot;
    SweepReachesUnknown(hash, c, rows, world);
    StillRecorded(hash, c, k);
    NoneUnknown(SweepOnce(hash, c, rows).cache, world.Keys, k);
  }

  lemma SlotIs(hash: Key -> nat, k: Key)
    ensures Slot(hash, k) == hash(k) % REFRESH_SLICES
  {}

  /** Within 12 sweeps each slice has its turn. */
  lemma SliceTurn(sweepNo: nat, h: nat) returns (turn: nat)
    ensures turn < REFRESH_SLICES && (sweepNo + turn + 1) % REFRESH_SLICES == h % REFRESH_SLICES
  {
    turn := (h % 12 + 23 - sweepNo % 12) % 12;
  }

  lemma NextSweep<T(!new)>(hash: Key -> nat, c: Cache<T>, listings: seq<seq<Row<T>>>, n: nat)
    requires n < |listings|
    ensures AfterSweeps(hash, c, listings, n + 1) == SweepOnce(hash, AfterSweeps(hash, c, listings, n),
                                                               listings[n]).cache
  {}

  lemma {:induction false} SweepsSplit<T(!new)>(hash: Key -> nat, c: Cache<T>, listings: seq<seq<Row<T>>>, m: nat,
                                                n: nat)
    requires m + n <= |listings|
    ensures AfterSweeps(hash, c, listings, m + n) == AfterSweeps(hash, AfterSweeps(hash, c, listings, m), listings[m..],
            n)
  {
    hide SweepOnce;
    if n > 0 {
      SweepsSplit(hash, c, listings, m, n - 1);
      assert listings[m..][n - 1] == listings[m + n - 1];
    }
  }

  lemma {:induction false} CleanSweepTearsNothing<T(!new)>(c: Cache<T>, rows: seq<Row<T>>, n: nat)
    requires n <= |rows|
    ensures TornBy(c, rows, Clean(), {}, n) == {}
  {
    hide Offered, Changed;
    if n > 0 {
      CleanSweepTearsNothing(c, rows, n - 1);
    }
  }

  lemma {:induction false} CleanSweepsStayInStep<T(!new)>(hash: Key -> nat, c: Cache<T>, listings: seq<seq<Row<T>>>,
                                                          n: nat)
    requires n <= |listings| && InStep(c, {})
    ensures InStep(AfterSweeps(hash, c, listings, n), {})
  {
    hide Offered, TornBy, InStep, Begin;
    if n > 0 {
      CleanSweepsStayInStep(hash, c, listings, n - 1);
      var before, rows := AfterSweeps(hash, c, listings, n - 1), listings[n - 1];
      SweepStaysInStep(hash, before, rows, Clean(), {}, |rows|);
      CleanSweepTearsNothing(Begin(hash, before), rows, |rows|);
    }
  }

  /** After a restart N unchanged rows are all stored within K sweeps, N <= K(150 - s). */
  lemma RestartConverges<T(!new)>(hash: Key -> nat, c: Cache<T>, listings: seq<seq<Row<T>>>, world: map<Key, T>,
                                  size: nat, cycles: nat, k: Key)
    requires c.written == map[] && 0 < cycles <= |listings| && forall i | 0 <= i < |listings| ::
             Lists(listings[i], world)
    requires size < UNKNOWN_WRITE_BUDGET && SlicesWithin(hash, world, size)
    requires |world.Keys| <= cycles * (UNKNOWN_WRITE_BUDGET - size)
    requires k in world && !k.NoOrder?
    ensures var r := AfterSweeps(hash, c, listings, cycles);
            Settled(r, world) && k in r.store && r.store[k] == world[k]
  {
    hide Lists, AfterSweeps, SlicesWithin, Unknown;
    UnknownRowsRunOut(hash, c, listings, world, size, cycles);
    CleanSweepsStayInStep(hash, c, listings, cycles);
    NoneUnknown(AfterSweeps(hash, c, listings, cycles), world.Keys, k);
  }
}
