/** At-most-once submission of broker mutations: callers that reserve a client order id in a durable
    store, send, look up and complete, interleaved in any way, with crashes, lost requests, lost
    replies and retries. A request stands for its hash; the broker reference of an id is the id. */
module Submission {
  import opened Wrappers

  datatype Request = Request(verb: string, path: string, payload: string)
  datatype Reservation = Reservation(request: Request, response: Option<string>)
  datatype Mutation = Mutation(id: string, request: Request)
  datatype Failure = UsedForAnotherRequest | Unresolved | RequestFailed

  datatype Phase =
    | Calling
    | Sending
    | InFlight(message: nat)
    | LookingUp
    | Completing(response: string)
    | Returned(response: string)
    | Raised(failure: Failure)
    | Crashed
  {
    predicate Final() { Returned? || Raised? || Crashed? }
  }

  datatype Caller = Caller(id: string, request: Request, phase: Phase)

  /** `sent` are the mutations put on the wire, `delivered` those the broker received, `lookups` the
      references asked for. */
  datatype State = State(store: map<string, Reservation>, callers: seq<Caller>, sent: seq<Mutation>,
                         delivered: set<nat>, lookups: seq<string>)

  datatype Action =
    | Call(id: string, request: Request)
    | Reserve(c: nat)
    | Send(c: nat)
    | Deliver(message: nat)
    | Reply(c: nat, response: string)
    | LoseReply(c: nat)
    | Lookup(c: nat, found: Option<string>)
    | Complete(c: nat)
    | Crash(c: nat)

  const NOTHING := State(map[], [], [], {}, [])

  function Move(s: State, c: nat, phase: Phase): State
    requires c < |s.callers|
  {
    s.(callers := s.callers[c := s.callers[c].(phase := phase)])
  }

  predicate Received(s: State, id: string) {
    exists i: nat | i < |s.sent| :: i in s.delivered && s.sent[i].id == id
  }

  /** What may happen next. The broker replies to a mutation, and finds it by its reference, only once
      it has received it. */
  predicate Enabled(s: State, a: Action) {
    match a
    case Call(_, _) => true
    case Reserve(c) => c < |s.callers| && s.callers[c].phase.Calling?
    case Send(c) => c < |s.callers| && s.callers[c].phase.Sending?
    case Deliver(m) => m < |s.sent| && m !in s.delivered
    case Reply(c, _) => c < |s.callers| && s.callers[c].phase.InFlight? && s.callers[c].phase.message in s.delivered
    case LoseReply(c) => c < |s.callers| && s.callers[c].phase.InFlight?
    case Lookup(c, found) => c < |s.callers| && s.callers[c].phase.LookingUp?
      && (found.Some? ==> Received(s, s.callers[c].id))
    case Complete(c) => c < |s.callers| && s.callers[c].phase.Completing?
    case Crash(c) => c < |s.callers| && !s.callers[c].phase.Final()
  }

  /** Reserving an id: new exactly when no reservation exists. */
  function Reserved(s: State, c: nat): State
    requires c < |s.callers|
  {
    var me := s.callers[c];
    if me.id !in s.store then Move(s.(store := s.store[me.id := Reservation(me.request, None)]), c, Sending)
    else
      var row := s.store[me.id];
      if row.request != me.request then Move(s, c, Raised(UsedForAnotherRequest))
      else if row.response.Some? then Move(s, c, Returned(row.response.value))
      else Move(s, c, LookingUp)
  }

  function Completed(s: State, c: nat, response: string): State
    requires c < |s.callers|
  {
    var id := s.callers[c].id;
    var stored := if id in s.store then s.(store := s.store[id := s.store[id].(response := Some(response))]) else s;
    Move(stored, c, Returned(response))
  }

  function Apply(s: State, a: Action): State
    requires Enabled(s, a)
  {
    match a
    case Call(id, request) => s.(callers := s.callers + [Caller(id, request, Calling)])
    case Reserve(c) => Reserved(s, c)
    case Send(c) => Move(s.(sent := s.sent + [Mutation(s.callers[c].id, s.callers[c].request)]), c, InFlight(|s.sent|))
    case Deliver(m) => s.(delivered := s.delivered + {m})
    case Reply(c, response) => Move(s, c, Completing(response))
    case LoseReply(c) => Move(s, c, Raised(RequestFailed))
    case Lookup(c, found) =>
      Move(s.(lookups := s.lookups + [s.callers[c].id]), c, if found.Some? then Completing(found.value)
           else Raised(Unresolved))
    case Complete(c) => Completed(s, c, s.callers[c].phase.response)
    case Crash(c) => Move(s, c, Crashed)
  }

  predicate Runs(s: State, actions: seq<Action>)
    decreases |actions|
  {
    |actions| == 0 || (Enabled(s, actions[0]) && Runs(Apply(s, actions[0]), actions[1..]))
  }

  function After(s: State, actions: seq<Action>): State
    requires Runs(s, actions)
    decreases |actions|
  {
    if |actions| == 0 then s else After(Apply(s, actions[0]), actions[1..])
  }

  // ---- At most once --------------------------------------------------------------------------------------

  /** The caller got past its reservation under its own request. */
  predicate Holds(c: Caller) {
    c.phase.Sending? || c.phase.InFlight? || c.phase.LookingUp? || c.phase.Completing? || c.phase.Returned?
  }

  ghost predicate AtMostOnce(s: State) {
    && (forall i, j | 0 <= i < j < |s.sent| :: s.sent[i].id != s.sent[j].id)
    && (forall i | 0 <= i < |s.sent| :: s.sent[i].id in s.store && s.store[s.sent[i].id].request == s.sent[i].request)
    && (forall m | m in s.delivered :: m < |s.sent|)
  }

  ghost predicate UnderOwnRequest(s: State) {
    forall c | 0 <= c < |s.callers| && Holds(s.callers[c]) ::
      s.callers[c].id in s.store && s.store[s.callers[c].id].request == s.callers[c].request
  }

  ghost predicate SendersAreUnsent(s: State) {
    forall c, i | 0 <= c < |s.callers| && s.callers[c].phase.Sending? && 0 <= i < |s.sent| ::
           s.sent[i].id != s.callers[c].id
  }

  ghost predicate SendersAreAlone(s: State) {
    forall c, d | 0 <= c < d < |s.callers| && s.callers[c].phase.Sending? && s.callers[d].phase.Sending? ::
           s.callers[c].id != s.callers[d].id
  }

  ghost predicate FlightsAreTheirs(s: State) {
    forall c | 0 <= c < |s.callers| && s.callers[c].phase.InFlight? ::
      s.callers[c].phase.message < |s.sent|
        && s.sent[s.callers[c].phase.message] == Mutation(s.callers[c].id, s.callers[c].request)
  }

  ghost predicate CallersFit(s: State) {
    UnderOwnRequest(s) && SendersAreUnsent(s) && SendersAreAlone(s) && FlightsAreTheirs(s)
  }

  /** A response, in hand, returned or stored, is the broker's answer to a mutation it received. */
  ghost predicate NoPhantoms(s: State) {
    CallersAnswered(s) && StoreAnswered(s)
  }

  lemma ReceivedStays(s: State, a: Action, id: string)
    requires Enabled(s, a) && Received(s, id)
    ensures Received(Apply(s, a), id)
  {
    var i: nat :| i < |s.sent| && i in s.delivered && s.sent[i].id == id;
    assert i in Apply(s, a).delivered && Apply(s, a).sent[i].id == id;
  }

  lemma SendStaysOnce(s: State, a: Action)
    requires Enabled(s, a) && AtMostOnce(s) && CallersFit(s)
    ensures AtMostOnce(Apply(s, a))
  {
    hide Received;
  }

  lemma RequestsStay(s: State, a: Action)
    requires Enabled(s, a) && UnderOwnRequest(s)
    ensures UnderOwnRequest(Apply(s, a))
  {
    hide Received;
  }

  lemma SendersStayUnsent(s: State, a: Action)
    requires Enabled(s, a) && AtMostOnce(s) && SendersAreUnsent(s) && SendersAreAlone(s)
    ensures SendersAreUnsent(Apply(s, a))
  {
    hide Received;
  }

  lemma SendersStayAlone(s: State, a: Action)
    requires Enabled(s, a) && UnderOwnRequest(s) && SendersAreAlone(s)
    ensures SendersAreAlone(Apply(s, a))
  {
    hide Received;
  }

  lemma FlightsStayTheirs(s: State, a: Action)
    requires Enabled(s, a) && FlightsAreTheirs(s)
    ensures FlightsAreTheirs(Apply(s, a))
  {
    hide Received;
  }

  lemma CallersStayFit(s: State, a: Action)
    requires Enabled(s, a) && AtMostOnce(s) && CallersFit(s)
    ensures CallersFit(Apply(s, a))
  {
    RequestsStay(s, a);
    SendersStayUnsent(s, a);
    SendersStayAlone(s, a);
    FlightsStayTheirs(s, a);
    hide Apply, UnderOwnRequest, SendersAreUnsent, SendersAreAlone, FlightsAreTheirs;
  }

  ghost predicate CallersAnswered(s: State) {
    forall c | 0 <= c < |s.callers| && (s.callers[c].phase.Completing? || s.callers[c].phase.Returned?) ::
           Received(s, s.callers[c].id)
  }

  ghost predicate StoreAnswered(s: State) {
    forall id | id in s.store && s.store[id].response.Some? :: Received(s, id)
  }

  lemma ReplyWasReceived(s: State, a: Action)
    requires Enabled(s, a) && CallersFit(s) && a.Reply?
    ensures Received(Apply(s, a), s.callers[a.c].id)
  {
    var r := Apply(s, a);
    var m := s.callers[a.c].phase.message;
    assert m in r.delivered && r.sent[m].id == s.callers[a.c].id;
  }

  lemma PhantomsStayOut(s: State, a: Action)
    requires Enabled(s, a) && AtMostOnce(s) && CallersFit(s) && NoPhantoms(s)
    ensures NoPhantoms(Apply(s, a))
  {
    var r := Apply(s, a);
    forall id | Received(s, id) ensures Received(r, id) {
      ReceivedStays(s, a, id);
    }
    if a.Reply? {
      ReplyWasReceived(s, a);
    }
    hide Received, AtMostOnce, CallersFit;
    assert CallersAnswered(r);
    assert StoreAnswered(r);
  }

  /** Over every run from an empty store: no two mutations on the wire share a client order id, every
      mutation sent is the request first reserved under its id, and every response returned or stored
      answers a mutation the broker received. */
  lemma {:induction false} NeverSentTwice(s: State, actions: seq<Action>)
    requires AtMostOnce(s) && CallersFit(s) && NoPhantoms(s) && Runs(s, actions)
    ensures var r := After(s, actions); AtMostOnce(r) && CallersFit(r) && NoPhantoms(r)
    decreases |actions|
  {
    hide AtMostOnce, CallersFit, NoPhantoms, Apply, Enabled;
    if |actions| > 0 {
      SendStaysOnce(s, actions[0]);
      CallersStayFit(s, actions[0]);
      PhantomsStayOut(s, actions[0]);
      NeverSentTwice(Apply(s, actions[0]), actions[1..]);
    }
  }

  lemma EmptyStoreIsSafe()
    ensures AtMostOnce(NOTHING) && CallersFit(NOTHING) && NoPhantoms(NOTHING)
  {}

  // ---- A different request, and a stored response ---------------------------------------------------------

  /** What calls made under a settled id can be doing. */
  ghost predicate OnlyCallsOrEnds(s: State, id: string) {
    forall c | 0 <= c < |s.callers| && s.callers[c].id == id ::
           s.callers[c].phase.Calling? || s.callers[c].phase.Final()
  }

  /** How often the broker is contacted about an id: mutations sent and references looked up. */
  function Contacts(s: State, id: string): nat {
    |set i: nat | i < |s.sent| && s.sent[i].id == id| + |set i: nat | i < |s.lookups| && s.lookups[i] == id|
  }

  lemma SettledStep(s: State, a: Action, id: string)
    requires Enabled(s, a) && id in s.store && s.store[id].response.Some? && OnlyCallsOrEnds(s, id)
    ensures var r := Apply(s, a);
            && id in r.store && r.store[id] == s.store[id] && OnlyCallsOrEnds(r, id)
            && Contacts(r, id) == Contacts(s, id)
  {
    hide Received;
    var r := Apply(s, a);
    assert OnlyCallsOrEnds(r, id) && id in r.store && r.store[id] == s.store[id];
    hide OnlyCallsOrEnds, Enabled;
    assert (set i: nat | i < |r.sent| && r.sent[i].id == id) == (set i: nat | i < |s.sent| && s.sent[i].id == id);
    assert (set i: nat | i < |r.lookups| && r.lookups[i] == id) == (set i: nat | i < |s.lookups| && s.lookups[i] == id);
  }

  /** Once a response is stored and no earlier call is under way, no further call of that id ever
      contacts the broker, and the response never changes. */
  lemma {:induction false} StoredResponseNeedsNoBroker(s: State, actions: seq<Action>, id: string)
    requires id in s.store && s.store[id].response.Some? && OnlyCallsOrEnds(s, id) && Runs(s, actions)
    ensures var r := After(s, actions);
            id in r.store && r.store[id] == s.store[id] && Contacts(r, id) == Contacts(s, id) && OnlyCallsOrEnds(r, id)
    decreases |actions|
  {
    hide Apply, Enabled, Contacts, OnlyCallsOrEnds;
    if |actions| > 0 {
      SettledStep(s, actions[0], id);
      StoredResponseNeedsNoBroker(Apply(s, actions[0]), actions[1..], id);
    }
  }

  /** What a call gets from its reservation, by what the store holds. */
  lemma ReservationDecides(s: State, c: nat)
    requires c < |s.callers| && s.callers[c].phase.Calling?
    ensures var me, r := s.callers[c], Apply(s, Reserve(c));
            && r.sent == s.sent && r.lookups == s.lookups && r.delivered == s.delivered
            && (r.callers[c].phase.Sending? <==> me.id !in s.store)
            && (r.callers[c].phase == Raised(UsedForAnotherRequest) <==>
                me.id in s.store && s.store[me.id].request != me.request)
            && (r.callers[c].phase.Returned? <==>
                  me.id in s.store && s.store[me.id].request == me.request && s.store[me.id].response.Some?)
            && (r.callers[c].phase.Returned? ==> Some(r.callers[c].phase.response) == s.store[me.id].response)
            && (me.id in s.store ==> r.store == s.store)
  {}

  // ---- At most once is not at least once ----------------------------------------------------------------------

  /** The id is reserved, but its mutation was never sent and the caller that would send it is gone. */
  ghost predicate Abandoned(s: State, id: string) {
    && id in s.store && s.store[id].response.None?
    && (forall i | 0 <= i < |s.sent| :: s.sent[i].id != id)
    && (forall c | 0 <= c < |s.callers| && s.callers[c].id == id ::
          s.callers[c].phase.Calling? || s.callers[c].phase.LookingUp? || s.callers[c].phase.Raised?
            || s.callers[c].phase.Crashed?)
  }

  lemma AbandonedStep(s: State, a: Action, id: string)
    requires Enabled(s, a) && Abandoned(s, id)
    ensures Abandoned(Apply(s, a), id)
  {
    assert !Received(s, id);
  }

  /** A caller that crashes between its reservation and its send abandons the id for good: whatever is
      retried, its mutation is never sent and no call of it ever returns a response. */
  lemma {:induction false} AbandonedForGood(s: State, actions: seq<Action>, id: string)
    requires Abandoned(s, id) && Runs(s, actions)
    ensures Abandoned(After(s, actions), id)
    decreases |actions|
  {
    hide Apply, Enabled, Abandoned;
    if |actions| > 0 {
      AbandonedStep(s, actions[0], id);
      AbandonedForGood(Apply(s, actions[0]), actions[1..], id);
    }
  }

  lemma CrashBeforeSendAbandons(s: State, c: nat)
    requires AtMostOnce(s) && CallersFit(s) && NoPhantoms(s) && c < |s.callers| && s.callers[c].phase.Sending?
    ensures Abandoned(Apply(s, Crash(c)), s.callers[c].id)
  {
    var id := s.callers[c].id;
    assert !Received(s, id);
    hide Received;
  }

  // ---- The client's own code -----------------------------------------------------------------------------------

  /** What the network and the broker do to one submission. */
  datatype Wire = Wire(arrives: bool, reply: Option<string>, found: Option<string>)

  lemma {:induction false} OneMore(s: State, actions: seq<Action>, a: Action)
    requires Runs(s, actions) && Enabled(After(s, actions), a)
    ensures Runs(s, actions + [a]) && After(s, actions + [a]) == Apply(After(s, actions), a)
    decreases |actions|
  {
    hide Apply, Enabled;
    if |actions| == 0 {
      assert [a][1..] == [];
      assert actions + [a] == [a];
    } else {
      OneMore(Apply(s, actions[0]), actions[1..], a);
      assert (actions + [a])[1..] == actions[1..] + [a];
    }
  }

  /** The actions are a run from s, and r is where it ends. */
  ghost predicate Leads(s: State, actions: seq<Action>, r: State) {
    Runs(s, actions) && r == After(s, actions)
  }

  lemma LeadsNowhere(s: State)
    ensures Leads(s, [], s)
  {}

  lemma LeadsMeans(s: State, actions: seq<Action>, r: State)
    requires Leads(s, actions, r)
    ensures Runs(s, actions) && After(s, actions) == r
  {}

  lemma Extend(s: State, actions: seq<Action>, r: State, a: Action) returns (longer: seq<Action>)
    requires Leads(s, actions, r) && Enabled(r, a)
    ensures longer == actions + [a] && Leads(s, longer, Apply(r, a))
  {
    hide Apply, Enabled;
    OneMore(s, actions, a);
    longer := actions + [a];
  }

  class EToroDemoClient {
    // The durable store.
    var store: map<string, Reservation>
    // The broker's side: what was put on the wire, received, and asked for.
    var sent: seq<Mutation>
    var delivered: set<nat>
    var lookups: seq<string>

    function View(callers: seq<Caller>): State
      reads this
    {
      State(store, callers, sent, delivered, lookups)
    }

    constructor ()
      ensures View([]) == NOTHING
    {
      store, sent, delivered, lookups := map[], [], {}, [];
    }

    method ReserveId(id: string, request: Request) returns (isNew: bool, row: Reservation)
      modifies this`store
      ensures isNew == (id !in old(store))
      ensures row == if isNew then Reservation(request, None) else old(store)[id]
      ensures store == if isNew then old(store)[id := row] else old(store)
    {
      isNew := id !in store;
      if isNew {
        store := store[id := Reservation(request, None)];
      }
      row := store[id];
    }

    method CompleteId(id: string, response: string)
      requires id in store
      modifies this`store
      ensures store == old(store)[id := old(store)[id].(response := Some(response))]
    {
      store := store[id := store[id].(response := Some(response))];
    }

    /** One submission from start to end: it is a run of the machine, it sends at most one mutation,
        and only under an id that was never reserved before. */
    method SubmitIdempotent(id: string, request: Request, wire: Wire) returns (outcome: Phase, ghost trace: seq<Action>)
      requires AtMostOnce(View([])) && (wire.found.Some? && id in store ==> Received(View([]), id))
      requires wire.reply.Some? ==> wire.arrives
      modifies this
      ensures Runs(old(View([])), trace) && View([Caller(id, request, outcome)]) == After(old(View([])), trace)
      ensures outcome.Final()
      ensures sent == if id in old(store) then old(sent) else old(sent) + [Mutation(id, request)]
      ensures outcome ==
              if id !in old(store) then if wire.reply.Some? then Returned(wire.reply.value) else Raised(RequestFailed)
              else if old(store)[id].request != request then Raised(UsedForAnotherRequest)
              else if old(store)[id].response.Some? then Returned(old(store)[id].response.value)
              else if wire.found.Some? then Returned(wire.found.value) else Raised(Unresolved)
      ensures id in store
      ensures store == old(store)[id := if outcome.Returned? then Reservation(request, Some(outcome.response))
                                        else if id in old(store) then old(store)[id] else Reservation(request, None)]
      ensures lookups == if id in old(store) && old(store)[id] == Reservation(request, None) then old(lookups) + [id]
                         else old(lookups)
      ensures delivered == if id !in old(store) && wire.arrives then old(delivered) + {|old(sent)|} else old(delivered)
    {
      hide Leads, Received;
      ghost var s := View([]);
      var row;
      outcome, row, trace := Begin(id, request, s);
      if !outcome.Sending? && !outcome.LookingUp? {
        LeadsMeans(s, trace, View([Caller(id, request, outcome)]));
        return;
      }
      if outcome.LookingUp? {
        outcome, trace := Recover(id, request, wire.found, s, trace);
      } else {
        outcome, trace := SendOnce(id, request, wire, s, trace);
      }
      LeadsMeans(s, trace, View([Caller(id, request, outcome)]));
    }

    /** The reservation and what it decides. */
    method Begin(id: string, request: Request, ghost s: State)
      returns (outcome: Phase, row: Reservation, ghost trace: seq<Action>)
      requires s == View([])
      modifies this`store
      ensures Leads(s, trace, View([Caller(id, request, outcome)]))
      ensures outcome.Sending? || outcome.LookingUp? || outcome.Raised? || outcome.Returned?
      ensures outcome.Sending? <==> id !in old(store)
      ensures outcome.Sending? || outcome.LookingUp? ==> id in store && store[id] == Reservation(request, None)
      ensures store == if id in old(store) then old(store) else old(store)[id := Reservation(request, None)]
      ensures id in old(store) ==>
                outcome == if old(store)[id].request != request then Raised(UsedForAnotherRequest)
                           else if old(store)[id].response.Some? then Returned(old(store)[id].response.value)
                           else LookingUp
    {
      hide Leads, Received;
      LeadsNowhere(s);
      trace := Extend(s, [], s, Call(id, request));
      ghost var called := View([Caller(id, request, Calling)]);
      assert called == Apply(s, Call(id, request));
      trace := Extend(s, trace, called, Reserve(0));
      ghost var next := Apply(called, Reserve(0));
      var isNew;
      isNew, row := ReserveId(id, request);
      if row.request != request {
        outcome := Raised(UsedForAnotherRequest);
      } else if row.response.Some? {
        outcome := Returned(row.response.value);
      } else if !isNew {
        outcome := LookingUp;
      } else {
        outcome := Sending;
      }
      assert next.callers == [Caller(id, request, outcome)];
    }

    /** An earlier attempt left the request unresolved: ask the broker for it, never send it again. */
    method Recover(id: string, request: Request, found: Option<string>, ghost s: State, ghost trace0: seq<Action>)
      returns (outcome: Phase, ghost trace: seq<Action>)
      requires Leads(s, trace0, View([Caller(id, request, LookingUp)])) && id in store
               && store[id] == Reservation(request, None)
      requires found.Some? ==> Received(View([]), id)
      modifies this`store, this`lookups
      ensures Leads(s, trace, View([Caller(id, request, outcome)]))
      ensures outcome == if found.Some? then Returned(found.value) else Raised(Unresolved)
      ensures store == if found.Some? then old(store)[id := Reservation(request, found)] else old(store)
      ensures lookups == old(lookups) + [id]
    {
      hide Leads;
      ghost var before := View([Caller(id, request, LookingUp)]);
      assert found.Some? ==> Received(before, id) by {
        if found.Some? {
          var i: nat :| i < |sent| && i in delivered && sent[i].id == id;
          assert before.sent[i].id == id;
        }
      }
      hide Received;
      trace := Extend(s, trace0, before, Lookup(0, found));
      lookups := lookups + [id];
      if found.None? {
        outcome := Raised(Unresolved);
        assert View([Caller(id, request, outcome)]) == Apply(before, Lookup(0, found));
        return;
      }
      ghost var answered := View([Caller(id, request, Completing(found.value))]);
      assert answered == Apply(before, Lookup(0, found));
      trace := Extend(s, trace, answered, Complete(0));
      CompleteId(id, found.value);
      outcome := Returned(found.value);
      assert View([Caller(id, request, outcome)]) == Apply(answered, Complete(0));
    }

    /** The id is ours: send its mutation, once. */
    method SendOnce(id: string, request: Request, wire: Wire, ghost s: State, ghost trace0: seq<Action>)
      returns (outcome: Phase, ghost trace: seq<Action>)
      requires Leads(s, trace0, View([Caller(id, request, Sending)])) && id in store
               && store[id] == Reservation(request, None)
      requires (wire.reply.Some? ==> wire.arrives) && forall m | m in delivered :: m < |sent|
      modifies this
      ensures Leads(s, trace, View([Caller(id, request, outcome)]))
      ensures sent == old(sent) + [Mutation(id, request)] && lookups == old(lookups)
      ensures outcome == if wire.reply.Some? then Returned(wire.reply.value) else Raised(RequestFailed)
      ensures store == if wire.reply.Some? then old(store)[id := Reservation(request, wire.reply)] else old(store)
      ensures delivered == if wire.arrives then old(delivered) + {|old(sent)|} else old(delivered)
    {
      hide Leads, Received;
      ghost var before := View([Caller(id, request, Sending)]);
      var m := |sent|;
      trace := Extend(s, trace0, before, Send(0));
      sent := sent + [Mutation(id, request)];
      ghost var flying := View([Caller(id, request, InFlight(m))]);
      assert flying == Apply(before, Send(0));
      if wire.arrives {
        trace := Extend(s, trace, flying, Deliver(m));
        delivered := delivered + {m};
        assert View([Caller(id, request, InFlight(m))]) == Apply(flying, Deliver(m));
      }
      ghost var waiting := View([Caller(id, request, InFlight(m))]);
      if wire.reply.None? {
        trace := Extend(s, trace, waiting, LoseReply(0));
        outcome := Raised(RequestFailed);
        assert View([Caller(id, request, outcome)]) == Apply(waiting, LoseReply(0));
        return;
      }
      trace := Extend(s, trace, waiting, Reply(0, wire.reply.value));
      ghost var answered := View([Caller(id, request, Completing(wire.reply.value))]);
      assert answered == Apply(waiting, Reply(0, wire.reply.value));
      trace := Extend(s, trace, answered, Complete(0));
      CompleteId(id, wire.reply.value);
      outcome := Returned(wire.reply.value);
      assert View([Caller(id, request, outcome)]) == Apply(answered, Complete(0));
    }
  }
}
