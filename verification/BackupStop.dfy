/** The backup stop of mirrored live positions: one pass over a snapshot of the recorded stops, the
    merge of its result into what is recorded by then, and what can happen in between. Symbols are
    given upper-case; times are microseconds; instrument 0 stands for none. */
module BackupStop {
  import opened Wrappers

  const UNSEEN_GRACE := 24 * 3_600_000_000

  datatype Stop = Stop(level: real, instrument: nat, recordedAt: int, seen: bool)
  datatype Position = Position(id: nat, instrument: nat)

  /** A raw portfolio read: an error or no portfolio at all, or a portfolio that may lack its credit or
      its list of positions. */
  datatype Raw = Unreadable | Portfolio(credit: bool, positions: Option<seq<Position>>)

  datatype CloseOutcome = Accepted | RateLimited | Refused

  /** What one tick meets, by symbol. A second read follows the first after a short wait. */
  datatype Tick = Tick(now: int, search: string -> Option<nat>, rate: string -> Option<real>,
                       close: (string, nat) -> CloseOutcome, recheck: string -> (Raw, Raw))

  datatype Verdict =
    | Unidentified
    | Pending
    | AgedOut
    | Gone
    | AboveStop
    | NotSent
    | CloseFailed
    | ClosedHere
    | ClosedElsewhere
  {
    predicate Keeps() { Unidentified? || Pending? || AboveStop? || NotSent? || CloseFailed? }
  }

  function PortfolioPositions(raw: Raw): Option<seq<Position>> {
    if raw.Portfolio? && raw.credit then raw.positions else None
  }

  // ---- One symbol --------------------------------------------------------------------------------------

  function HeldIn(positions: seq<Position>, instrument: nat): seq<Position> {
    if |positions| == 0 then []
    else HeldIn(positions[..|positions| - 1], instrument) +
         if positions[|positions| - 1].instrument == instrument then [positions[|positions| - 1]] else []
  }

  /** A read that shows no position of the instrument. It need not carry the account's credit. */
  predicate ShowsClosed(raw: Raw, instrument: nat) {
    raw.Portfolio? && raw.positions.Some? && HeldIn(raw.positions.value, instrument) == []
  }

  predicate StillOpen(looks: (Raw, Raw), instrument: nat) {
    !ShowsClosed(looks.0, instrument) && !ShowsClosed(looks.1, instrument)
  }

  /** The first of n close requests that is not accepted. */
  function FirstRefusal(close: (string, nat) -> CloseOutcome, symbol: string, n: nat): CloseOutcome {
    if n == 0 then Accepted
    else
      var before := FirstRefusal(close, symbol, n - 1);
      if before != Accepted then before else close(symbol, n - 1)
  }

  /** How many of n close requests are accepted before one is not. */
  function Taken(close: (string, nat) -> CloseOutcome, symbol: string, n: nat): (m: nat)
    ensures m <= n
  {
    if n == 0 then 0
    else
      var before := Taken(close, symbol, n - 1);
      if before == n - 1 && close(symbol, n - 1) == Accepted then n else before
  }

  /** The positions a pass closes for an entry. */
  function ClosedIds(tick: Tick, positions: seq<Position>, symbol: string, info: Stop): seq<nat> {
    var found := if info.instrument != 0 then Some(info.instrument) else tick.search(symbol);
    if found.None? || tick.rate(symbol).None? || tick.rate(symbol).value > info.level then []
    else
      var held := HeldIn(positions, found.value);
      seq(Taken(tick.close, symbol, |held|), i requires 0 <= i < |held| => held[i].id)
  }

  /** The entry with what the pass learnt about it. */
  function Learnt(tick: Tick, positions: seq<Position>, symbol: string, info: Stop): Stop {
    var found := if info.instrument != 0 then Some(info.instrument) else tick.search(symbol);
    if found.None? then info
    else
      var known := info.(instrument := found.value);
      if HeldIn(positions, found.value) == [] then known else known.(seen := true)
  }

  function Judge(tick: Tick, positions: seq<Position>, symbol: string, info: Stop): Verdict {
    var found := if info.instrument != 0 then Some(info.instrument) else tick.search(symbol);
    if found.None? then Unidentified
    else
      var held := HeldIn(positions, found.value);
      if held == [] then
        if !info.seen && info.recordedAt > tick.now - UNSEEN_GRACE then Pending
        else if info.seen then Gone else AgedOut
      else
        var rate := tick.rate(symbol);
        if rate.None? || rate.value > info.level then AboveStop
        else
          match FirstRefusal(tick.close, symbol, |held|)
          case Accepted => ClosedHere
          case RateLimited => NotSent
          case Refused => if StillOpen(tick.recheck(symbol), found.value) then CloseFailed else ClosedElsewhere
  }

  // ---- A pass and its merge ------------------------------------------------------------------------------

  /** What a pass over the snapshot keeps. */
  function Remaining(tick: Tick, positions: seq<Position>, snapshot: map<string, Stop>): map<string, Stop> {
    map symbol | symbol in snapshot && Judge(tick, positions, symbol, snapshot[symbol]).Keeps()
      :: Learnt(tick, positions, symbol, snapshot[symbol])
  }

  /** A kept entry passes on its instrument and that it was seen; the rest is as recorded by now. */
  function PassOn(current: Stop, learnt: Stop): Stop {
    current.(instrument := if learnt.instrument != 0 then learnt.instrument else current.instrument,
             seen := learnt.seen || current.seen)
  }

  function Merged(snapshot: map<string, Stop>, remaining: map<string, Stop>,
                  current: map<string, Stop>): map<string, Stop> {
    map symbol | symbol in current && !(symbol in snapshot && symbol !in remaining)
      :: if symbol in remaining then PassOn(current[symbol], remaining[symbol]) else current[symbol]
  }

  function AfterPass(tick: Tick, positions: seq<Position>, snapshot: map<string, Stop>,
                     current: map<string, Stop>): map<string, Stop> {
    Merged(snapshot, Remaining(tick, positions, snapshot), current)
  }

  /** The recorded stops, and one process's pass over them. */
  class BackupStops {
    var stops: map<string, Stop>

    constructor ()
      ensures stops == map[]
    {
      stops := map[];
    }

    method RememberStop(symbol: string, level: Option<real>, instrument: nat, now: int)
      modifies this
      ensures stops == if level.None? then old(stops)
              else old(stops)[symbol := Stop(level.value, instrument, now, false)]
    {
      if level.None? {
        return;
      }
      stops := stops[symbol := Stop(level.value, instrument, now, false)];
    }

    method ForgetStop(symbol: string)
      modifies this
      ensures stops == old(stops) - {symbol}
    {
      if symbol in stops {
        stops := stops - {symbol};
      }
    }

    method CloseHeld(tick: Tick, symbol: string, held: seq<Position>) returns (outcome: CloseOutcome, closed: seq<nat>)
      ensures outcome == FirstRefusal(tick.close, symbol, |held|)
      ensures |closed| == Taken(tick.close, symbol, |held|) && forall i | 0 <= i < |closed| :: closed[i] == held[i].id
    {
      closed := [];
      var i := 0;
      while i < |held|
        invariant 0 <= i <= |held| && |closed| == i == Taken(tick.close, symbol, i)
        invariant FirstRefusal(tick.close, symbol, i) == Accepted
        invariant forall j | 0 <= j < i :: closed[j] == held[j].id
      {
        outcome := tick.close(symbol, i);
        if outcome != Accepted {
          RefusalStands(tick.close, symbol, i + 1, |held|);
          TakenStops(tick.close, symbol, i, |held|);
          return;
        }
        closed := closed + [held[i].id];
        i := i + 1;
      }
      outcome := Accepted;
    }

    /** The body of the loop over the snapshot. */
    method CheckOne(tick: Tick, positions: seq<Position>, symbol: string, info0: Stop)
      returns (kept: bool, info: Stop, closed: seq<nat>)
      ensures info == Learnt(tick, positions, symbol, info0) && kept == Judge(tick, positions, symbol, info0).Keeps()
      ensures closed == ClosedIds(tick, positions, symbol, info0)
    {
      info, closed := info0, [];
      if info.instrument == 0 {
        var found := tick.search(symbol);
        if found.None? {
          return true, info, closed;
        }
        info := info.(instrument := found.value);
      }
      var held := HeldIn(positions, info.instrument);
      if held == [] {
        kept := !info.seen && info.recordedAt > tick.now - UNSEEN_GRACE;
        return;
      }
      info := info.(seen := true);
      var rate := tick.rate(symbol);
      if rate.None? || rate.value > info.level {
        return true, info, closed;
      }
      var outcome;
      outcome, closed := CloseHeld(tick, symbol, held);
      if outcome == RateLimited {
        return true, info, closed;
      }
      if outcome == Refused && StillOpen(tick.recheck(symbol), info.instrument) {
        return true, info, closed;
      }
      kept := false;
    }

    /** One pass. `order` is the snapshot's order; `others` is what the stops have become by the merge,
        changed by another process or thread. A malformed read changes nothing. */
    method Check(ready: bool, raw: Raw, tick: Tick, order: seq<string>, others: map<string, Stop>)
      returns (closed: map<string, seq<nat>>)
      requires forall s :: s in order <==> s in stops
      requires forall i, j | 0 <= i < j < |order| :: order[i] != order[j]
      modifies this
      ensures ready && raw.Portfolio? && raw.credit && raw.positions.Some? ==>
                && stops == AfterPass(tick, raw.positions.value, old(stops), others)
                && closed == map s | s in old(stops) :: ClosedIds(tick, raw.positions.value, s, old(stops)[s])
      ensures !(ready && raw.Portfolio? && raw.credit && raw.positions.Some?) ==> stops == old(stops) && closed == map[]
    {
      closed := map[];
      if !ready {
        return;
      }
      var positions := PortfolioPositions(raw);
      if positions.None? {
        return;
      }
      var snapshot := stops;
      var remaining: map<string, Stop> := map[];
      hide Judge, Learnt, ClosedIds, Checked, Remaining;
      NothingChecked(tick, positions.value, snapshot);
      var i := 0;
      while i < |order|
        invariant 0 <= i <= |order| && stops == snapshot
        invariant Checked(tick, positions.value, snapshot, order[..i], remaining, closed)
      {
        var symbol := order[i];
        var kept, info, ids := CheckOne(tick, positions.value, symbol, snapshot[symbol]);
        OneMoreChecked(tick, positions.value, snapshot, order[..i], remaining, closed, symbol);
        closed := closed[symbol := ids];
        if kept {
          remaining := remaining[symbol := info];
        }
        assert order[..i + 1] == order[..i] + [symbol];
        i := i + 1;
      }
      assert order[..i] == order;
      AllChecked(tick, positions.value, snapshot, order, remaining, closed);
      stops := others;
      stops := map s | s in stops && !(s in snapshot && s !in remaining) ::
        if s in remaining then PassOn(stops[s], remaining[s]) else stops[s];
    }
  }

  /** What the pass keeps and has closed once it has been through these symbols. */
  ghost predicate Checked(tick: Tick, positions: seq<Position>, snapshot: map<string, Stop>, symbols: seq<string>,
                          remaining: map<string, Stop>, closed: map<string, seq<nat>>) {
    && (forall s | s in symbols :: s in snapshot)
    && (forall s :: s in remaining <==> s in symbols && Judge(tick, positions, s, snapshot[s]).Keeps())
    && (forall s | s in remaining :: remaining[s] == Learnt(tick, positions, s, snapshot[s]))
    && (forall s :: s in closed <==> s in symbols)
    && (forall s | s in closed :: closed[s] == ClosedIds(tick, positions, s, snapshot[s]))
  }

  lemma NothingChecked(tick: Tick, positions: seq<Position>, snapshot: map<string, Stop>)
    ensures Checked(tick, positions, snapshot, [], map[], map[])
  {}

  lemma OneMoreChecked(tick: Tick, positions: seq<Position>, snapshot: map<string, Stop>, symbols: seq<string>,
                       remaining: map<string, Stop>, closed: map<string, seq<nat>>, symbol: string)
    requires Checked(tick, positions, snapshot, symbols, remaining, closed) && symbol in snapshot && symbol !in symbols
    ensures var info := snapshot[symbol];
            Checked(tick, positions, snapshot, symbols + [symbol],
                    if Judge(tick, positions, symbol, info).Keeps()
                    then remaining[symbol := Learnt(tick, positions, symbol, info)] else remaining,
                    closed[symbol := ClosedIds(tick, positions, symbol, info)])
  {
    hide Judge, Learnt, ClosedIds;
  }

  lemma AllChecked(tick: Tick, positions: seq<Position>, snapshot: map<string, Stop>, order: seq<string>,
                   remaining: map<string, Stop>, closed: map<string, seq<nat>>)
    requires Checked(tick, positions, snapshot, order, remaining, closed) && forall s :: s in order <==> s in snapshot
    ensures remaining == Remaining(tick, positions, snapshot)
    ensures closed == map s | s in snapshot :: ClosedIds(tick, positions, s, snapshot[s])
  {
    hide Judge, Learnt, ClosedIds;
  }

  lemma {:induction false} TakenStops(close: (string, nat) -> CloseOutcome, symbol: string, m: nat, n: nat)
    requires m < n && Taken(close, symbol, m) == m && close(symbol, m) != Accepted
    ensures Taken(close, symbol, n) == m
    decreases n
  {
    if m + 1 < n {
      TakenStops(close, symbol, m, n - 1);
    }
  }

  /** Requests are accepted up to the first that is not; only then are all accepted. */
  lemma {:induction false} TakenMeans(close: (string, nat) -> CloseOutcome, symbol: string, n: nat)
    ensures var m := Taken(close, symbol, n);
            && (forall i: nat | i < m :: close(symbol, i) == Accepted)
            && (m < n ==> close(symbol, m) != Accepted && FirstRefusal(close, symbol, n) == close(symbol, m))
            && (m == n ==> FirstRefusal(close, symbol, n) == Accepted)
  {
    if n > 0 {
      TakenMeans(close, symbol, n - 1);
    }
  }

  lemma {:induction false} RefusalStands(close: (string, nat) -> CloseOutcome, symbol: string, m: nat, n: nat)
    requires m <= n && FirstRefusal(close, symbol, m) != Accepted
    ensures FirstRefusal(close, symbol, n) == FirstRefusal(close, symbol, m)
    decreases n
  {
    if m < n {
      RefusalStands(close, symbol, m, n - 1);
    }
  }

  lemma {:induction false} AllAccepted(close: (string, nat) -> CloseOutcome, symbol: string, n: nat)
    ensures FirstRefusal(close, symbol, n) == Accepted <==> forall i: nat | i < n :: close(symbol, i) == Accepted
  {
    if n > 0 {
      AllAccepted(close, symbol, n - 1);
    }
  }

  lemma {:induction false} HeldMeans(positions: seq<Position>, instrument: nat)
    ensures HeldIn(positions, instrument) == [] <==> forall i | 0 <= i < |positions| ::
            positions[i].instrument != instrument
  {
    if |positions| > 0 {
      var rest := positions[..|positions| - 1];
      HeldMeans(rest, instrument);
      assert forall i | 0 <= i < |rest| :: rest[i] == positions[i];
    }
  }

  /** The places of a read that hold a position of the instrument. */
  function Places(positions: seq<Position>, instrument: nat): set<nat> {
    set j: nat | j < |positions| && positions[j].instrument == instrument
  }

  /** The held positions are exactly those of the instrument, one for each place, in the order of the read. */
  lemma {:induction false} HeldAt(positions: seq<Position>, instrument: nat) returns (places: seq<nat>)
    ensures |places| == |HeldIn(positions, instrument)| == |Places(positions, instrument)|
    ensures forall k: nat | k < |places| :: places[k] < |positions| && positions[places[k]] == HeldIn(positions,
              instrument)[k]
    ensures forall k, l | 0 <= k < l < |places| :: places[k] < places[l]
    ensures forall j: nat :: j in places <==> j in Places(positions, instrument)
  {
    if |positions| == 0 {
      assert Places(positions, instrument) == {};
      return [];
    }
    var n := |positions| - 1;
    var rest := positions[..n];
    var before := HeldAt(rest, instrument);
    forall j: nat | j < n ensures rest[j] == positions[j] {}
    if positions[n].instrument == instrument {
      places := before + [n];
      assert Places(positions, instrument) == Places(rest, instrument) + {n};
    } else {
      places := before;
      assert Places(positions, instrument) == Places(rest, instrument);
    }
  }

  // ---- What a pass may lose --------------------------------------------------------------------------------

  /** The instrument a pass takes the entry to be. */
  function InstrumentOf(tick: Tick, symbol: string, info: Stop): Option<nat> {
    if info.instrument != 0 then Some(info.instrument) else tick.search(symbol)
  }

  ghost predicate Holds(positions: seq<Position>, instrument: nat) {
    exists i | 0 <= i < |positions| :: positions[i].instrument == instrument
  }

  /** Every position of the symbol that the read shows was closed by this pass. */
  ghost predicate ClosedByPass(tick: Tick, positions: seq<Position>, symbol: string, info: Stop) {
    var instrument := InstrumentOf(tick, symbol, info);
    && instrument.Some? && Holds(positions, instrument.value)
    && tick.rate(symbol).Some? && tick.rate(symbol).value <= info.level
    && forall i: nat | i < |Places(positions, instrument.value)| :: tick.close(symbol, i) == Accepted
  }

  /** A close was refused for another reason than the rate limit, and a later read lists positions
      without the symbol's. */
  ghost predicate FoundClosed(tick: Tick, positions: seq<Position>, symbol: string, info: Stop) {
    var instrument := InstrumentOf(tick, symbol, info);
    && instrument.Some? && Holds(positions, instrument.value)
    && tick.rate(symbol).Some? && tick.rate(symbol).value <= info.level
    && RefusedAmong(tick.close, symbol, |Places(positions, instrument.value)|)
    && exists raw | raw in [tick.recheck(symbol).0, tick.recheck(symbol).1] ::
         raw.Portfolio? && raw.positions.Some? && !Holds(raw.positions.value, instrument.value)
  }

  /** One of n close requests is refused for good, and those before it are accepted. */
  ghost predicate RefusedAmong(close: (string, nat) -> CloseOutcome, symbol: string, n: nat) {
    exists i: nat :: i < n && close(symbol, i) == Refused && forall j: nat | j < i :: close(symbol, j) == Accepted
  }

  lemma RefusedExactly(close: (string, nat) -> CloseOutcome, symbol: string, n: nat)
    ensures FirstRefusal(close, symbol, n) == Refused <==> RefusedAmong(close, symbol, n)
  {
    TakenMeans(close, symbol, n);
    var m := Taken(close, symbol, n);
    if RefusedAmong(close, symbol, n) {
      var i: nat :| i < n && close(symbol, i) == Refused && forall j: nat | j < i :: close(symbol, j) == Accepted;
      assert m < n ==> close(symbol, m) != Accepted;
      assert i == m;
    }
  }

  lemma OpenExactly(looks: (Raw, Raw), instrument: nat)
    ensures !StillOpen(looks, instrument) <==>
            exists raw | raw in [looks.0, looks.1] ::
              raw.Portfolio? && raw.positions.Some? && !Holds(raw.positions.value, instrument)
  {
    forall raw | raw in [looks.0, looks.1] && raw.Portfolio? && raw.positions.Some?
      ensures ShowsClosed(raw, instrument) <==> !Holds(raw.positions.value, instrument)
    {
      HeldMeans(raw.positions.value, instrument);
    }
    assert looks.0 in [looks.0, looks.1] && looks.1 in [looks.0, looks.1];
    hide ShowsClosed, Holds;
  }

  ghost predicate NotHeldAnyMore(tick: Tick, positions: seq<Position>, symbol: string, info: Stop) {
    var instrument := InstrumentOf(tick, symbol, info);
    instrument.Some? && !Holds(positions, instrument.value)
      && (info.seen || info.recordedAt <= tick.now - 86_400_000_000)
  }

  /** A pass drops an entry of its snapshot exactly when it closed the position, found it closed
      elsewhere, or no longer finds it after having seen it or waited a day for it. */
  lemma DroppedExactly(tick: Tick, positions: seq<Position>, snapshot: map<string, Stop>, current: map<string, Stop>,
                       symbol: string)
    requires symbol in snapshot && symbol in current
    ensures symbol !in AfterPass(tick, positions, snapshot, current) <==>
            || ClosedByPass(tick, positions, symbol, snapshot[symbol])
            || FoundClosed(tick, positions, symbol, snapshot[symbol])
            || NotHeldAnyMore(tick, positions, symbol, snapshot[symbol])
  {
    var info := snapshot[symbol];
    var instrument := InstrumentOf(tick, symbol, info);
    if instrument.Some? {
      HeldMeans(positions, instrument.value);
      var places := HeldAt(positions, instrument.value);
      AllAccepted(tick.close, symbol, |places|);
      RefusedExactly(tick.close, symbol, |places|);
      OpenExactly(tick.recheck(symbol), instrument.value);
    }
    hide HeldIn, StillOpen, FirstRefusal, RefusedAmong, Holds, Places;
    assert symbol !in AfterPass(tick, positions, snapshot, current) <==> !Judge(tick, positions, symbol, info).Keeps();
  }

  /** What a pass closes for an entry: nothing above the stop or without a rate or an instrument; else, in the
      order of the read and starting with the first, positions of the instrument until a request is not accepted. */
  lemma ClosesInOrder(tick: Tick, positions: seq<Position>, symbol: string, info: Stop) returns (places: seq<nat>)
    ensures var closed, instrument := ClosedIds(tick, positions, symbol, info), InstrumentOf(tick, symbol, info);
            && (instrument.None? || tick.rate(symbol).None? || tick.rate(symbol).value > info.level ==> closed == [])
            && (instrument.Some? ==>
                  && (forall j: nat :: j in places <==> j < |positions| && positions[j].instrument == instrument.value)
                  && (forall k, l | 0 <= k < l < |places| :: places[k] < places[l])
                  && |closed| <= |places|
                  && (forall k | 0 <= k < |closed| ::
                        places[k] < |positions| && closed[k] == positions[places[k]].id
                        && tick.close(symbol, k) == Accepted)
                  && (tick.rate(symbol).Some? && tick.rate(symbol).value <= info.level && |closed| < |places| ==>
                        tick.close(symbol, |closed|) != Accepted))
  {
    var instrument := InstrumentOf(tick, symbol, info);
    places := [];
    if instrument.Some? {
      places := HeldAt(positions, instrument.value);
      TakenMeans(tick.close, symbol, |places|);
    }
    hide HeldIn, Taken;
  }

  /** An entry dropped as closed by the pass has the id of every position of its instrument among those the
      pass closed, and no other position's. */
  lemma ClosedByPassClosesAll(tick: Tick, positions: seq<Position>, symbol: string, info: Stop)
    requires ClosedByPass(tick, positions, symbol, info)
    ensures forall id: nat :: id in ClosedIds(tick, positions, symbol, info) <==>
              exists p | p in positions :: p.instrument == InstrumentOf(tick, symbol, info).value && p.id == id
  {
    hide ClosedIds, InstrumentOf;
    var instrument := InstrumentOf(tick, symbol, info).value;
    var places := ClosesInOrder(tick, positions, symbol, info);
    var closed := ClosedIds(tick, positions, symbol, info);
    var held := HeldAt(positions, instrument);
    SameCount(places, Places(positions, instrument));
    assert |closed| == |places|;
    forall id: nat | exists p | p in positions :: p.instrument == instrument && p.id == id ensures id in closed {
      var p :| p in positions && p.instrument == instrument && p.id == id;
      var j: nat :| j < |positions| && positions[j] == p;
      assert j in places;
      var k: nat :| k < |places| && places[k] == j;
      assert closed[k] == id;
    }
    forall id: nat | id in closed ensures exists p | p in positions :: p.instrument == instrument && p.id == id {
      var k: nat :| k < |closed| && closed[k] == id;
      assert places[k] in places && positions[places[k]] in positions;
    }
  }

  /** A list without repetition is as long as the set of its elements. */
  lemma {:induction false} SameCount(places: seq<nat>, all: set<nat>)
    requires forall k, l | 0 <= k < l < |places| :: places[k] < places[l]
    requires forall j: nat :: j in places <==> j in all
    ensures |places| == |all|
  {
    if |places| == 0 {
      assert all == {};
    } else {
      var n := |places| - 1;
      forall j: nat ensures j in places[..n] <==> j in all - {places[n]} {
        assert j in places <==> j in places[..n] || j == places[n];
      }
      SameCount(places[..n], all - {places[n]});
    }
  }

  /** A kept entry learns the instrument found for it and that a position of it is held, no more. */
  lemma KeptEntryLearns(tick: Tick, positions: seq<Position>, snapshot: map<string, Stop>, current: map<string, Stop>,
                        symbol: string)
    requires symbol in snapshot && symbol in AfterPass(tick, positions, snapshot, current)
    ensures symbol in current
    ensures var found := InstrumentOf(tick, symbol, snapshot[symbol]);
            AfterPass(tick, positions, snapshot, current)[symbol] ==
            current[symbol].(instrument := if found.Some? && found.value != 0 then found.value
                                           else current[symbol].instrument,
                             seen := current[symbol].seen || snapshot[symbol].seen
                                       || (found.Some? && Holds(positions, found.value)))
  {
    hide Judge;
    var found := InstrumentOf(tick, symbol, snapshot[symbol]);
    if found.Some? {
      HeldMeans(positions, found.value);
    }
    hide HeldIn, Holds;
  }

  /** A pass never changes a level or a recording time, never un-sees a position, and leaves every
      symbol recorded since its snapshot as it is; it adds nothing. */
  lemma MergeKeepsTheRest(tick: Tick, positions: seq<Position>, snapshot: map<string, Stop>, current: map<string, Stop>,
                          symbol: string)
    ensures var r := AfterPass(tick, positions, snapshot, current);
            && (symbol in r ==> symbol in current && r[symbol].level == current[symbol].level
                                && r[symbol].recordedAt == current[symbol].recordedAt
                                && (current[symbol].seen ==> r[symbol].seen))
            && (symbol in current && symbol !in snapshot ==> symbol in r && r[symbol] == current[symbol])
  {
    hide Judge, Learnt;
  }

  /** A held position at or below its stop is closed by the pass, found closed by a later read, or
      keeps its stop for the next tick. */
  lemma BelowStopIsClosedOrKept(tick: Tick, positions: seq<Position>, snapshot: map<string, Stop>,
                                current: map<string, Stop>, symbol: string)
    requires symbol in snapshot && symbol in current
    requires InstrumentOf(tick, symbol, snapshot[symbol]).Some?
             && Holds(positions, InstrumentOf(tick, symbol, snapshot[symbol]).value)
    ensures symbol in AfterPass(tick, positions, snapshot, current)
            || ClosedByPass(tick, positions, symbol, snapshot[symbol])
            || (exists raw | raw in [tick.recheck(symbol).0, tick.recheck(symbol).1] ::
                  raw.Portfolio? && raw.positions.Some?
                    && !Holds(raw.positions.value, InstrumentOf(tick, symbol, snapshot[symbol]).value))
  {
    var instrument := InstrumentOf(tick, symbol, snapshot[symbol]).value;
    DroppedExactly(tick, positions, snapshot, current, symbol);
    var looks := tick.recheck(symbol);
    if ShowsClosed(looks.0, instrument) {
      HeldMeans(looks.0.positions.value, instrument);
      assert looks.0 in [looks.0, looks.1];
    }
    if ShowsClosed(looks.1, instrument) {
      HeldMeans(looks.1.positions.value, instrument);
      assert looks.1 in [looks.0, looks.1];
    }
    hide AfterPass, ClosedByPass, ShowsClosed, Holds;
  }

  /** A read as strict as the pass's own: one without credit counts as unreadable. */
  function Strict(raw: Raw): Raw {
    if PortfolioPositions(raw).Some? then raw else Unreadable
  }

  /** The re-check after a refused close takes a read without the account's credit for a good one,
      which the pass itself would call malformed. It answers as the strict reading would exactly when
      no such read shows the position closed, or a good one does too. */
  lemma RecheckIsWeakerThanThePass(looks: (Raw, Raw), instrument: nat)
    ensures StillOpen(looks, instrument) == StillOpen((Strict(looks.0), Strict(looks.1)), instrument) <==>
            ((ShowsClosed(looks.0, instrument) && !looks.0.credit)
             || (ShowsClosed(looks.1, instrument) && !looks.1.credit) ==>
               (ShowsClosed(looks.0, instrument) && looks.0.credit)
                 || (ShowsClosed(looks.1, instrument) && looks.1.credit))
  {
    hide HeldIn;
  }

  /** So a partial read can drop a stop whose position was never shown closed. */
  lemma PartialReadDropsTheStop(tick: Tick, positions: seq<Position>, symbol: string, info: Stop)
    requires info.instrument != 0 && Holds(positions, info.instrument)
    requires tick.rate(symbol) == Some(info.level) && tick.close(symbol, 0) == Refused
    requires tick.recheck(symbol) == (Portfolio(false, Some([])), Unreadable)
    ensures Judge(tick, positions, symbol, info) == ClosedElsewhere
    ensures PortfolioPositions(tick.recheck(symbol).0).None? && PortfolioPositions(tick.recheck(symbol).1).None?
  {
    HeldMeans(positions, info.instrument);
    assert FirstRefusal(tick.close, symbol, 1) == Refused;
    RefusalStands(tick.close, symbol, 1, |HeldIn(positions, info.instrument)|);
    assert HeldIn([], info.instrument) == [];
  }

  /** A symbol of the snapshot that is recorded anew before the merge loses its new stop exactly when
      the pass drops the old one. */
  lemma ReRecordedStopIsLostExactly(tick: Tick, positions: seq<Position>, snapshot: map<string, Stop>,
                                    current: map<string, Stop>,
                                    symbol: string, anew: Stop)
    requires symbol in snapshot
    ensures symbol !in AfterPass(tick, positions, snapshot, current[symbol := anew]) <==>
            !Judge(tick, positions, symbol, snapshot[symbol]).Keeps()
  {
    hide Judge, Learnt;
  }

  /** One that survives inherits that the old position was seen: an order still queued then loses its
      day of grace and is dropped by the next pass that does not hold it. */
  lemma ReRecordedOrderLosesItsGrace(tick: Tick, next: Tick, positions: seq<Position>, snapshot: map<string, Stop>,
                                     symbol: string, anew: Stop)
    requires symbol in snapshot && snapshot[symbol].instrument != 0 && anew.instrument == snapshot[symbol].instrument
    requires Holds(positions, anew.instrument) && tick.rate(symbol).None?
    requires !anew.seen && anew.recordedAt > next.now - UNSEEN_GRACE
    ensures var kept := AfterPass(tick, positions, snapshot, snapshot[symbol := anew]);
            && symbol in kept && kept[symbol] == anew.(seen := true)
            && Judge(next, [], symbol, anew) == Pending
            && symbol !in AfterPass(next, [], kept, kept)
  {
    HeldMeans(positions, anew.instrument);
    assert HeldIn([], anew.instrument) == [];
    var kept := AfterPass(tick, positions, snapshot, snapshot[symbol := anew]);
    assert Judge(tick, positions, symbol, snapshot[symbol]) == AboveStop;
    assert Judge(next, [], symbol, kept[symbol]) == Gone;
  }

  // ---- Several processes ---------------------------------------------------------------------------------------

  /** A read-modify-write of the stored stops, by what it saves: an entry recorded or forgotten, or the
      merge of a pass. */
  datatype Change =
    | Remember(symbol: string, stop: Stop)
    | Forget(symbol: string)
    | Merge(tick: Tick, positions: seq<Position>)

  /** A process takes the snapshot its pass works on, loads the stops for a change, or saves the change.
      The lock around a change is one process's: two processes overlap during a deploy. */
  datatype Event =
    | Begin(process: nat)
    | Load(process: nat)
    | Save(process: nat, change: Change)

  datatype World = World(stops: map<string, Stop>, snapshots: map<nat, map<string, Stop>>,
                         loaded: map<nat, map<string, Stop>>)

  /** The change writes anything: forgetting an entry that is not there saves nothing. */
  predicate Writes(w: World, p: nat, c: Change) {
    && p in w.loaded
    && match c
       case Remember(_, _) => true
       case Forget(symbol) => symbol in w.loaded[p]
       case Merge(_, _) => p in w.snapshots
  }

  function Saved(w: World, p: nat, c: Change): map<string, Stop>
    requires Writes(w, p, c)
  {
    match c
    case Remember(symbol, stop) => w.loaded[p][symbol := stop]
    case Forget(symbol) => w.loaded[p] - {symbol}
    case Merge(tick, positions) => AfterPass(tick, positions, w.snapshots[p], w.loaded[p])
  }

  function Happen(w: World, e: Event): World {
    match e
    case Begin(p) => w.(snapshots := w.snapshots[p := w.stops])
    case Load(p) => w.(loaded := w.loaded[p := w.stops])
    case Save(p, c) =>
      World(if Writes(w, p, c) then Saved(w, p, c) else w.stops, if c.Merge? then w.snapshots - {p}
            else w.snapshots, w.loaded - {p})
  }

  function WorldAt(w: World, events: seq<Event>, n: nat): World
    requires n <= |events|
  {
    if n == 0 then w else Happen(WorldAt(w, events, n - 1), events[n - 1])
  }

  /** The save puts back a copy that was loaded without the symbol. */
  predicate Overwrites(w: World, e: Event, symbol: string) {
    e.Save? && Writes(w, e.process, e.change) && symbol !in w.loaded[e.process]
    && !(e.change.Remember? && e.change.symbol == symbol)
  }

  /** The save itself removes the symbol: forgotten, or dropped by the pass for a reason. */
  ghost predicate Removes(w: World, e: Event, symbol: string) {
    && e.Save? && Writes(w, e.process, e.change) && symbol in w.loaded[e.process]
    && match e.change
       case Remember(_, _) => false
       case Forget(x) => x == symbol
       case Merge(tick, positions) =>
         && symbol in w.snapshots[e.process]
         && (ClosedByPass(tick, positions, symbol, w.snapshots[e.process][symbol])
             || FoundClosed(tick, positions, symbol, w.snapshots[e.process][symbol])
             || NotHeldAnyMore(tick, positions, symbol, w.snapshots[e.process][symbol]))
  }

  /** A stored stop is gone after an event exactly when the event removes it for a reason or overwrites
      it with a copy loaded before. */
  lemma LossIsAccounted(w: World, e: Event, symbol: string)
    requires symbol in w.stops
    ensures symbol !in Happen(w, e).stops <==> Removes(w, e, symbol) || Overwrites(w, e, symbol)
  {
    hide AfterPass, ClosedByPass, FoundClosed, NotHeldAnyMore;
    if e.Save? && e.change.Merge? && Writes(w, e.process, e.change) {
      var snapshot := w.snapshots[e.process];
      MergeKeepsTheRest(e.change.tick, e.change.positions, snapshot, w.loaded[e.process], symbol);
      if symbol in snapshot && symbol in w.loaded[e.process] {
        DroppedExactly(e.change.tick, e.change.positions, snapshot, w.loaded[e.process], symbol);
      }
    }
  }

  /** What a process has loaded is what was stored when it last loaded. */
  lemma {:induction false} LoadedBefore(w: World, events: seq<Event>, n: nat, p: nat) returns (i: nat)
    requires n <= |events| && w.loaded == map[] && p in WorldAt(w, events, n).loaded
    ensures i < n && events[i] == Load(p) && WorldAt(w, events, n).loaded[p] == WorldAt(w, events, i).stops
  {
    hide Saved, Writes;
    var e := events[n - 1];
    if e == Load(p) {
      return n - 1;
    }
    i := LoadedBefore(w, events, n - 1, p);
  }

  /** A symbol that comes to be stored is recorded in between. */
  lemma {:induction false} RecordedBetween(w: World, events: seq<Event>, i: nat, k: nat, symbol: string)
    returns (m: nat)
    requires i <= k <= |events| && symbol !in WorldAt(w, events, i).stops && symbol in WorldAt(w, events, k).stops
    ensures i <= m < k && symbol !in WorldAt(w, events, m).stops && symbol in WorldAt(w, events, m + 1).stops
    decreases k
  {
    hide Happen;
    if symbol !in WorldAt(w, events, k - 1).stops {
      return k - 1;
    }
    m := RecordedBetween(w, events, i, k - 1, symbol);
  }

  /** Over every interleaving of passes, recordings and removals by any number of processes, their loads
      and saves apart: a recorded stop that is gone was forgotten or dropped for a reason by a change that
      had loaded it, or it came to be stored between another change's load and its save. */
  lemma {:induction false} NoStopIsLostSilently(w: World, events: seq<Event>, i: nat, j: nat, symbol: string)
    returns (k: nat, load: nat, recorded: nat)
    requires i <= j <= |events| && w.loaded == map[]
    requires symbol in WorldAt(w, events, i).stops && symbol !in WorldAt(w, events, j).stops
    ensures i <= k < j && symbol in WorldAt(w, events, k).stops
    ensures || Removes(WorldAt(w, events, k), events[k], symbol)
            || (&& Overwrites(WorldAt(w, events, k), events[k], symbol) && load <= recorded < k
                && events[load] == Load(events[k].process)
                && symbol !in WorldAt(w, events, recorded).stops && symbol in WorldAt(w, events, recorded + 1).stops)
    decreases j
  {
    hide Happen, Removes, Saved, Writes;
    if symbol in WorldAt(w, events, j - 1).stops {
      k, load, recorded := j - 1, 0, 0;
      LossIsAccounted(WorldAt(w, events, k), events[k], symbol);
      if !Removes(WorldAt(w, events, k), events[k], symbol) {
        load := LoadedInTime(w, events, k, symbol);
        recorded := RecordedBetween(w, events, load, k, symbol);
      }
    } else {
      k, load, recorded := NoStopIsLostSilently(w, events, i, j - 1, symbol);
    }
  }

  lemma LoadedInTime(w: World, events: seq<Event>, k: nat, symbol: string) returns (load: nat)
    requires k < |events| && w.loaded == map[] && Overwrites(WorldAt(w, events, k), events[k], symbol)
    ensures load < k && events[load] == Load(events[k].process) && symbol !in WorldAt(w, events, load).stops
  {
    hide WorldAt, Saved;
    load := LoadedBefore(w, events, k, events[k].process);
  }

  /** Two processes: one loads for its merge, the other records a stop, the first saves. The stop is gone
      though nothing forgot it and no pass had it. */
  lemma RecordingIsOverwritten(stops: map<string, Stop>, symbol: string, stop: Stop, tick: Tick,
                               positions: seq<Position>)
    requires symbol !in stops
    ensures var events := [Begin(0), Load(0), Load(1), Save(1, Remember(symbol, stop)),
                           Save(0, Merge(tick, positions))];
            var w := World(stops, map[], map[]);
            symbol in WorldAt(w, events, 4).stops && symbol !in WorldAt(w, events, 5).stops
  {
    var events := [Begin(0), Load(0), Load(1), Save(1, Remember(symbol, stop)), Save(0, Merge(tick, positions))];
    var w := World(stops, map[], map[]);
    hide AfterPass;
    assert WorldAt(w, events, 1) == World(stops, map[0 := stops], map[]);
    assert WorldAt(w, events, 2) == World(stops, map[0 := stops], map[0 := stops]);
    assert WorldAt(w, events, 3) == World(stops, map[0 := stops], map[0 := stops, 1 := stops]);
    var w4 := WorldAt(w, events, 4);
    assert w4.stops == stops[symbol := stop] && 0 in w4.loaded && w4.loaded[0] == stops && 0 in w4.snapshots;
    LossIsAccounted(w4, events[4], symbol);
  }
}
