/** The reconciliation sweep of the paper account: what it writes back, and its verdict on whether
    every position is owned and protected. Statuses, sides, types and symbols are given as the source
    folds them (lower-case, symbols upper-case). */
module Reconciliation {
  import opened Wrappers
  import opened WriteCache

  datatype Leg = Leg(id: Option<string>, kind: string, status: string)
  datatype BrokerOrder = BrokerOrder(id: string, symbol: string, side: string, kind: string, status: string,
                                     orderClass: string, filledAt: string, legs: seq<Leg>)
  datatype Position = Position(symbol: string, quantity: real)
  datatype Account = Account(expected: string, actual: string, blocked: bool)

  /** What is written for a row, and compared to skip the next write of it. */
  datatype Content =
    | ExecutionContent(payload: BrokerOrder, exits: Option<seq<BrokerOrder>>)
    | OrderContent(payload: BrokerOrder, execution: Option<string>)
    | LegContent(leg: Leg, execution: Option<string>, parent: string)

  datatype Issue =
    | AccountMismatch
    | TradingBlocked
    | UnknownPosition(symbol: string)
    | MissingBracketProtection(symbol: string)

  const LIVE_STATUSES := {"new", "accepted", "held", "pending_new", "partially_filled", "accepted_for_bidding",
                          "calculated"}
  const PROTECTIVE_KINDS := {"stop", "stop_limit", "stop-limit", "limit", "trailing_stop"}

  predicate StopAt(kind: string, i: nat) {
    i + 4 <= |kind| && kind[i..i + 4] == "stop"
  }

  predicate MentionsStop(kind: string) {
    exists i: nat | i < |kind| :: StopAt(kind, i)
  }

  predicate LiveStop(leg: Leg) {
    leg.status in LIVE_STATUSES && MentionsStop(leg.kind)
  }

  predicate HasLiveStop(o: BrokerOrder) {
    exists i | 0 <= i < |o.legs| :: LiveStop(o.legs[i])
  }

  function ClosingSide(p: Position): string {
    if p.quantity < 0.0 then "buy" else "sell"
  }

  // ---- The verdict, by what it means ------------------------------------------------------------------

  predicate OwnedBy(o: BrokerOrder, executions: map<string, string>, symbol: string) {
    o.id in executions && o.symbol == symbol
  }

  predicate Owned(orders: seq<BrokerOrder>, executions: map<string, string>, symbol: string) {
    exists i | 0 <= i < |orders| :: OwnedBy(orders[i], executions, symbol)
  }

  predicate BracketOf(o: BrokerOrder, executions: map<string, string>, symbol: string) {
    OwnedBy(o, executions, symbol) && o.orderClass == "bracket" && HasLiveStop(o)
  }

  predicate Bracketed(orders: seq<BrokerOrder>, executions: map<string, string>, symbol: string) {
    exists i | 0 <= i < |orders| :: BracketOf(orders[i], executions, symbol)
  }

  predicate WorksOn(o: BrokerOrder, symbol: string, side: string, protective: bool) {
    symbol != "" && o.symbol == symbol && o.status in LIVE_STATUSES && o.side == side
      && (o.kind in PROTECTIVE_KINDS <==> protective)
  }

  predicate Working(orders: seq<BrokerOrder>, symbol: string, side: string, protective: bool) {
    exists i | 0 <= i < |orders| :: WorksOn(orders[i], symbol, side, protective)
  }

  /** Something live already protects or closes the position. */
  predicate Covered(orders: seq<BrokerOrder>, executions: map<string, string>, p: Position) {
    || Bracketed(orders, executions, p.symbol)
    || Working(orders, p.symbol, ClosingSide(p), true)
    || Working(orders, p.symbol, ClosingSide(p), false)
  }

  predicate Verified(a: Account) {
    a.expected == "" || a.actual == a.expected
  }

  /** `closes` tells whether a market close of the symbol is accepted, already done, or refused only
      because its shares are committed to a working order. */
  function Issues(a: Account, orders: seq<BrokerOrder>, executions: map<string, string>, positions: seq<Position>,
                  closes: string -> bool): set<Issue> {
    (if Verified(a) then {} else {AccountMismatch})
    + (if a.blocked then {TradingBlocked} else {})
    + (set p | p in positions && !Owned(orders, executions, p.symbol) :: UnknownPosition(p.symbol))
    + (set p | p in positions && !Covered(orders, executions, p)
       && !(Owned(orders, executions, p.symbol) && closes(p.symbol))
         :: MissingBracketProtection(p.symbol))
  }

  /** The verdict is clean exactly when the account is the expected one and not blocked, and every
      position is owned and is bracketed with a live stop, has a live order on its reducing side, or
      was flattened. */
  lemma VerdictIsCleanExactly(a: Account, orders: seq<BrokerOrder>, executions: map<string, string>,
                              positions: seq<Position>, closes: string -> bool)
    ensures Issues(a, orders, executions, positions, closes) == {} <==>
            && Verified(a) && !a.blocked
            && forall p | p in positions ::
                 Owned(orders, executions, p.symbol) && (Covered(orders, executions, p) || closes(p.symbol))
  {
    hide Owned, Covered, Verified;
    var issues := Issues(a, orders, executions, positions, closes);
    if issues == {} {
      forall p | p in positions ensures Owned(orders, executions, p.symbol)
             && (Covered(orders, executions, p) || closes(p.symbol)) {
        assert UnknownPosition(p.symbol) !in issues && MissingBracketProtection(p.symbol) !in issues;
      }
      assert AccountMismatch !in issues && TradingBlocked !in issues;
    }
  }

  ghost predicate SameElements<T(!new)>(a: seq<T>, b: seq<T>) {
    forall x :: x in a <==> x in b
  }

  /** Neither the order nor the repetition of the broker's lists matters. */
  lemma ListOrderDoesNotMatter(a: Account, orders: seq<BrokerOrder>, orders': seq<BrokerOrder>,
                               executions: map<string, string>,
                               positions: seq<Position>, positions': seq<Position>, closes: string -> bool)
    requires SameElements(orders, orders') && SameElements(positions, positions')
    ensures Issues(a, orders, executions, positions, closes) == Issues(a, orders', executions, positions', closes)
  {
    forall symbol: string
      ensures Owned(orders, executions, symbol) == Owned(orders', executions, symbol)
      ensures Bracketed(orders, executions, symbol) == Bracketed(orders', executions, symbol)
    {
      SameAnswers(orders, orders', executions, symbol, "", false);
      SameAnswers(orders', orders, executions, symbol, "", false);
    }
    forall symbol: string, side: string, protective: bool
      ensures Working(orders, symbol, side, protective) == Working(orders', symbol, side, protective)
    {
      SameAnswers(orders, orders', executions, symbol, side, protective);
      SameAnswers(orders', orders, executions, symbol, side, protective);
    }
    hide Owned, Bracketed, Working;
    forall p ensures Covered(orders, executions, p) == Covered(orders', executions, p) {}
    hide Covered;
  }

  lemma SameAnswers(orders: seq<BrokerOrder>, orders': seq<BrokerOrder>, executions: map<string, string>,
                    symbol: string, side: string, protective: bool)
    requires SameElements(orders, orders')
    ensures Owned(orders, executions, symbol) ==> Owned(orders', executions, symbol)
    ensures Bracketed(orders, executions, symbol) ==> Bracketed(orders', executions, symbol)
    ensures Working(orders, symbol, side, protective) ==> Working(orders', symbol, side, protective)
  {
    hide OwnedBy, BracketOf, WorksOn;
    if Owned(orders, executions, symbol) {
      var i :| 0 <= i < |orders| && OwnedBy(orders[i], executions, symbol);
      assert orders[i] in orders';
    }
    if Bracketed(orders, executions, symbol) {
      var i :| 0 <= i < |orders| && BracketOf(orders[i], executions, symbol);
      assert orders[i] in orders';
    }
    if Working(orders, symbol, side, protective) {
      var i :| 0 <= i < |orders| && WorksOn(orders[i], symbol, side, protective);
      assert orders[i] in orders';
    }
  }

  // ---- The rows of a sweep -------------------------------------------------------------------------------

  /** A filled sell without legs that none of our executions placed. */
  predicate IsStandaloneExit(o: BrokerOrder, executions: map<string, string>) {
    o.id !in executions && o.side == "sell" && o.status == "filled" && o.legs == [] && o.filledAt != ""
  }

  function ExitsOf(orders: seq<BrokerOrder>, executions: map<string, string>, symbol: string): seq<BrokerOrder> {
    if |orders| == 0 then []
    else ExitsOf(orders[..|orders| - 1], executions, symbol) +
         if IsStandaloneExit(orders[|orders| - 1], executions)
            && orders[|orders| - 1].symbol == symbol then [orders[|orders| - 1]] else []
  }

  function Listed(exits: seq<BrokerOrder>): Option<seq<BrokerOrder>> {
    if exits == [] then None else Some(exits)
  }

  function ExecutionOf(executions: map<string, string>, id: string): Option<string> {
    if id in executions then Some(executions[id]) else None
  }

  function LegKey(leg: Leg): Key {
    match leg.id
    case None => NoOrder(false)
    case Some(id) => if id == "" then NoOrder(true) else Key.Order(id)
  }

  function LegRows(o: BrokerOrder, execution: Option<string>, n: nat): seq<Row<Content>>
    requires n <= |o.legs|
  {
    seq(n, i requires 0 <= i < n => Row(LegKey(o.legs[i]), LegContent(o.legs[i], execution, o.id)))
  }

  /** The rows of one broker order: its execution, itself, and its legs. */
  function RowsOf(executions: map<string, string>, exits: Option<seq<BrokerOrder>>, o: BrokerOrder): seq<Row<Content>> {
    var execution := ExecutionOf(executions, o.id);
    (if execution.Some? then [Row(Key.Execution(execution.value), ExecutionContent(o, exits))] else [])
    + (if o.id != "" then [Row(Key.Order(o.id), OrderContent(o, execution))] else [])
    + LegRows(o, execution, |o.legs|)
  }

  function AllRows(executions: map<string, string>, orders: seq<BrokerOrder>, n: nat): seq<Row<Content>>
    requires n <= |orders|
  {
    if n == 0 then []
    else
      AllRows(executions, orders, n - 1) +
      RowsOf(executions, Listed(ExitsOf(orders, executions, orders[n - 1].symbol)), orders[n - 1])
  }

  lemma {:induction false} AllRowsHold(executions: map<string, string>, orders: seq<BrokerOrder>, k: nat, n: nat)
    requires k <= n <= |orders|
    ensures AllRows(executions, orders, k) <= AllRows(executions, orders, n)
    decreases n
  {
    hide RowsOf, ExitsOf, Listed;
    if k < n {
      AllRowsHold(executions, orders, k, n - 1);
    }
  }

  /** Where an order's rows stand among all the rows. */
  lemma RowsStand(executions: map<string, string>, orders: seq<BrokerOrder>, k: nat)
    requires k < |orders|
    ensures var rows := RowsOf(executions, Listed(ExitsOf(orders, executions, orders[k].symbol)), orders[k]);
            var at, all := |AllRows(executions, orders, k)|, AllRows(executions, orders, |orders|);
            && |AllRows(executions, orders, k + 1)| == at + |rows| <= |all|
            && (forall j | 0 <= j < |rows| :: all[at + j] == rows[j])
  {
    hide RowsOf, ExitsOf, Listed;
    AllRowsHold(executions, orders, k + 1, |orders|);
    var rows := RowsOf(executions, Listed(ExitsOf(orders, executions, orders[k].symbol)), orders[k]);
    assert AllRows(executions, orders, k + 1) == AllRows(executions, orders, k) + rows;
  }

  /** Nothing follows a write that raised. */
  lemma {:induction false} RaisedStays(c: Cache<Content>, rows: seq<Row<Content>>, outcomes: nat -> Outcome, m: nat,
                                       n: nat)
    requires m <= n <= |rows| && Offered(c, rows, outcomes, m).raised
    ensures Offered(c, rows, outcomes, n) == Offered(c, rows, outcomes, m)
    decreases n
  {
    if m < n {
      RaisedStays(c, rows, outcomes, m, n - 1);
    }
  }

  // ---- The sweep as it runs ----------------------------------------------------------------------------------

  predicate Sided(sides: map<string, set<string>>, symbol: string, side: string) {
    symbol in sides && side in sides[symbol]
  }

  /** The sets the order loop fills, and what they mean for the orders seen so far. */
  ghost predicate Classified(orders: seq<BrokerOrder>, executions: map<string, string>, owned: set<string>,
                             bracketed: set<string>,
                             protecting: map<string, set<string>>, closing: map<string, set<string>>) {
    && (forall s :: s in owned <==> Owned(orders, executions, s))
    && (forall s :: s in bracketed <==> Bracketed(orders, executions, s))
    && (forall s, side :: Sided(protecting, s, side) <==> Working(orders, s, side, true))
    && (forall s, side :: Sided(closing, s, side) <==> Working(orders, s, side, false))
  }

  function AddSide(sides: map<string, set<string>>, symbol: string, side: string): map<string, set<string>> {
    sides[symbol := (if symbol in sides then sides[symbol] else {}) + {side}]
  }

  lemma OneOrderMore(orders: seq<BrokerOrder>, k: nat, executions: map<string, string>, symbol: string, side: string,
                     protective: bool)
    requires k < |orders|
    ensures Owned(orders[..k + 1], executions, symbol) == (Owned(orders[..k], executions, symbol)
                                                           || OwnedBy(orders[k], executions, symbol))
    ensures Bracketed(orders[..k + 1], executions, symbol) == (Bracketed(orders[..k], executions, symbol)
                                                               || BracketOf(orders[k], executions, symbol))
    ensures Working(orders[..k + 1], symbol, side, protective) == (Working(orders[..k], symbol, side, protective)
            || WorksOn(orders[k], symbol, side, protective))
  {
    hide OwnedBy, BracketOf, WorksOn;
    var longer, shorter := orders[..k + 1], orders[..k];
    assert longer == shorter + [orders[k]];
    if Owned(shorter, executions, symbol) {
      var i :| 0 <= i < k && OwnedBy(shorter[i], executions, symbol);
      assert OwnedBy(longer[i], executions, symbol);
    }
    if Bracketed(shorter, executions, symbol) {
      var i :| 0 <= i < k && BracketOf(shorter[i], executions, symbol);
      assert BracketOf(longer[i], executions, symbol);
    }
    if Working(shorter, symbol, side, protective) {
      var i :| 0 <= i < k && WorksOn(shorter[i], symbol, side, protective);
      assert WorksOn(longer[i], symbol, side, protective);
    }
    assert longer[k] == orders[k];
  }

  /** One order of the classification loop. */
  method Classify(orders: seq<BrokerOrder>, k: nat, executions: map<string, string>, owned0: set<string>,
                  bracketed0: set<string>,
                  protecting0: map<string, set<string>>, closing0: map<string, set<string>>)
    returns (owned: set<string>, bracketed: set<string>, protecting: map<string, set<string>>,
             closing: map<string, set<string>>)
    requires k < |orders| && Classified(orders[..k], executions, owned0, bracketed0, protecting0, closing0)
    ensures Classified(orders[..k + 1], executions, owned, bracketed, protecting, closing)
  {
    owned, bracketed, protecting, closing := owned0, bracketed0, protecting0, closing0;
    var o := orders[k];
    var ours := o.id in executions;
    if ours {
      owned := owned + {o.symbol};
    }
    if ours && o.orderClass == "bracket" && HasLiveStop(o) {
      bracketed := bracketed + {o.symbol};
    }
    if o.symbol != "" && o.status in LIVE_STATUSES {
      if o.kind in PROTECTIVE_KINDS {
        protecting := AddSide(protecting, o.symbol, o.side);
      } else {
        closing := AddSide(closing, o.symbol, o.side);
      }
    }
    Reclassified(orders, k, executions, owned0, bracketed0, protecting0, closing0, owned, bracketed, protecting,
                 closing);
  }

  lemma Reclassified(orders: seq<BrokerOrder>, k: nat, executions: map<string, string>,
                     owned0: set<string>, bracketed0: set<string>, protecting0: map<string, set<string>>,
                       closing0: map<string, set<string>>,
                     owned: set<string>, bracketed: set<string>, protecting: map<string, set<string>>,
                       closing: map<string, set<string>>)
    requires k < |orders| && Classified(orders[..k], executions, owned0, bracketed0, protecting0, closing0)
    requires owned == owned0 + (if orders[k].id in executions then {orders[k].symbol} else {})
    requires bracketed == bracketed0 + (if orders[k].id in executions && orders[k].orderClass == "bracket"
                                        && HasLiveStop(orders[k]) then {orders[k].symbol} else {})
    requires var works := orders[k].symbol != "" && orders[k].status in LIVE_STATUSES;
             && protecting == (if works && orders[k].kind in PROTECTIVE_KINDS then AddSide(protecting0,
               orders[k].symbol, orders[k].side) else protecting0)
             && closing == (if works && orders[k].kind !in PROTECTIVE_KINDS then AddSide(closing0, orders[k].symbol,
               orders[k].side) else closing0)
    ensures Classified(orders[..k + 1], executions, owned, bracketed, protecting, closing)
  {
    hide Owned, Bracketed, Working, HasLiveStop, Sided, AddSide;
    forall s
      ensures s in owned <==> Owned(orders[..k + 1], executions, s)
      ensures s in bracketed <==> Bracketed(orders[..k + 1], executions, s)
    {
      OneOrderMore(orders, k, executions, s, "", true);
    }
    forall s, side
      ensures Sided(protecting, s, side) <==> Working(orders[..k + 1], s, side, true)
    {
      OneOrderMore(orders, k, executions, s, side, true);
      SideAdded(protecting0, orders[k].symbol, orders[k].side, s, side);
    }
    forall s, side
      ensures Sided(closing, s, side) <==> Working(orders[..k + 1], s, side, false)
    {
      OneOrderMore(orders, k, executions, s, side, false);
      SideAdded(closing0, orders[k].symbol, orders[k].side, s, side);
    }
  }

  lemma SideAdded(sides: map<string, set<string>>, symbol: string, side: string, s: string, t: string)
    ensures var r := AddSide(sides, symbol, side);
            Sided(r, s, t) <==> Sided(sides, s, t) || (s == symbol && t == side)
  {}

  ghost predicate ExitsMatch(exits: map<string, seq<BrokerOrder>>, orders: seq<BrokerOrder>,
                             executions: map<string, string>) {
    forall s :: (s in exits <==> ExitsOf(orders, executions, s) != []) && (s in exits ==>
           exits[s] == ExitsOf(orders, executions, s))
  }

  lemma ExitsAnswer(exits: map<string, seq<BrokerOrder>>, orders: seq<BrokerOrder>, executions: map<string, string>,
                    s: string)
    requires ExitsMatch(exits, orders, executions)
    ensures Listed(ExitsOf(orders, executions, s)) == if s in exits then Some(exits[s]) else None
  {
    hide ExitsOf;
  }

  method CollectExits(orders: seq<BrokerOrder>, executions: map<string, string>)
    returns (exits: map<string, seq<BrokerOrder>>)
    ensures ExitsMatch(exits, orders, executions)
  {
    exits := map[];
    var k := 0;
    while k < |orders|
      invariant 0 <= k <= |orders|
      invariant ExitsMatch(exits, orders[..k], executions)
    {
      var o := orders[k];
      assert orders[..k + 1][..k] == orders[..k];
      if IsStandaloneExit(o, executions) {
        exits := exits[o.symbol := (if o.symbol in exits then exits[o.symbol] else []) + [o]];
      }
      k := k + 1;
    }
    assert orders[..k] == orders;
  }

  /** A symbol's close was tried: an owned position that nothing live covers. */
  function Flattens(orders: seq<BrokerOrder>, executions: map<string, string>, positions: seq<Position>,
                    n: nat): seq<string>
    requires n <= |positions|
  {
    if n == 0 then []
    else
      var p := positions[n - 1];
      Flattens(orders, executions, positions, n - 1) +
      if !Covered(orders, executions, p) && Owned(orders, executions, p.symbol) then [p.symbol] else []
  }

  /** How a market close ended, and when one may be tried at all. */
  datatype CloseOutcome = Submitted | AlreadyFlat | SharesHeld | Rejected
  datatype CloseSettings = CloseSettings(enabled: bool, paperMode: bool, realTrading: bool, canClose: bool) {
    predicate Allows() { enabled && paperMode && !realTrading && canClose }
  }

  function Closes(settings: CloseSettings, outcome: string -> CloseOutcome): string -> bool {
    s => settings.Allows() && !outcome(s).Rejected?
  }

  function PositionIssues(orders: seq<BrokerOrder>, executions: map<string, string>, p: Position,
                          closes: string -> bool): set<Issue> {
    (if Owned(orders, executions, p.symbol) then {} else {UnknownPosition(p.symbol)})
    + (if !Covered(orders, executions, p)
       && !(Owned(orders, executions, p.symbol) && closes(p.symbol)) then {MissingBracketProtection(p.symbol)} else {})
  }

  lemma OnePositionMore(a: Account, orders: seq<BrokerOrder>, executions: map<string, string>, positions: seq<Position>,
                        n: nat, closes: string -> bool)
    requires n < |positions|
    ensures Issues(a, orders, executions, positions[..n + 1], closes) ==
            Issues(a, orders, executions, positions[..n], closes) +
              PositionIssues(orders, executions, positions[n], closes)
  {
    hide Owned, Covered;
    assert positions[..n + 1] == positions[..n] + [positions[n]];
    forall p ensures p in positions[..n + 1] <==> p in positions[..n] || p == positions[n] {}
  }

  lemma AccountIssues(a: Account, orders: seq<BrokerOrder>, executions: map<string, string>, closes: string -> bool)
    ensures Issues(a, orders, executions, [], closes) == (if Verified(a) then {} else {AccountMismatch}) +
            (if a.blocked then {TradingBlocked} else {})
  {}

  lemma SetsAnswer(orders: seq<BrokerOrder>, executions: map<string, string>, owned: set<string>,
                   bracketed: set<string>,
                   protecting: map<string, set<string>>, closing: map<string, set<string>>, p: Position)
    requires Classified(orders, executions, owned, bracketed, protecting, closing)
    ensures p.symbol in owned <==> Owned(orders, executions, p.symbol)
    ensures Covered(orders, executions, p) <==>
            || p.symbol in bracketed
            || Sided(protecting, p.symbol, ClosingSide(p))
            || Sided(closing, p.symbol, ClosingSide(p))
  {
    hide Owned, Bracketed, Working, ClosingSide;
  }

  /** The position's turn writes a log entry: a working order closes it, or its flatten was tried. */
  predicate Logs(orders: seq<BrokerOrder>, executions: map<string, string>, settings: CloseSettings, p: Position) {
    && !Bracketed(orders, executions, p.symbol) && !Working(orders, p.symbol, ClosingSide(p), true)
    && (Working(orders, p.symbol, ClosingSide(p), false) || (Owned(orders, executions, p.symbol) && settings.Allows()))
  }

  /** A log write that fails raises out of the loop, after the flatten it tells of. */
  predicate LogBreaks(orders: seq<BrokerOrder>, executions: map<string, string>, settings: CloseSettings,
                      positions: seq<Position>, logFails: nat -> bool, n: nat) {
    n < |positions| && Logs(orders, executions, settings, positions[n]) && logFails(n)
  }

  /** The body of the positions loop. */
  method JudgeOne(orders: seq<BrokerOrder>, executions: map<string, string>, p: Position,
                  owned: set<string>, bracketed: set<string>, protecting: map<string, set<string>>,
                    closing: map<string, set<string>>,
                  settings: CloseSettings, closes: string -> bool)
                    returns (found: set<Issue>, tried: bool, logged: bool)
    requires Classified(orders, executions, owned, bracketed, protecting, closing)
    ensures found == PositionIssues(orders, executions, p, closes)
    ensures tried == (!Covered(orders, executions, p) && Owned(orders, executions, p.symbol))
    ensures logged == Logs(orders, executions, settings, p)
  {
    hide Owned, Covered, Classified, ClosingSide;
    SetsAnswer(orders, executions, owned, bracketed, protecting, closing, p);
    LogsAnswer(orders, executions, owned, bracketed, protecting, closing, settings, p);
    hide Logs;
    found, tried, logged := {}, false, false;
    if p.symbol !in owned {
      found := found + {UnknownPosition(p.symbol)};
    }
    if p.symbol !in bracketed {
      var side := ClosingSide(p);
      if Sided(protecting, p.symbol, side) {
        return;
      }
      if Sided(closing, p.symbol, side) {
        logged := true;
        return;
      }
      if p.symbol in owned {
        tried := true;
        logged := settings.Allows();
        if closes(p.symbol) {
          return;
        }
      }
      found := found + {MissingBracketProtection(p.symbol)};
    }
  }

  lemma LogsAnswer(orders: seq<BrokerOrder>, executions: map<string, string>, owned: set<string>,
                   bracketed: set<string>,
                   protecting: map<string, set<string>>, closing: map<string, set<string>>, settings: CloseSettings,
                     p: Position)
    requires Classified(orders, executions, owned, bracketed, protecting, closing)
    ensures Logs(orders, executions, settings, p) <==>
            && p.symbol !in bracketed && !Sided(protecting, p.symbol, ClosingSide(p))
            && (Sided(closing, p.symbol, ClosingSide(p)) || (p.symbol in owned && settings.Allows()))
  {
    hide Owned, Bracketed, Working, ClosingSide;
  }

  /** The positions loop. A log write that raises ends it, with the flattens up to its position tried. */
  method Judge(a: Account, orders: seq<BrokerOrder>, executions: map<string, string>, positions: seq<Position>,
               owned: set<string>, bracketed: set<string>, protecting: map<string, set<string>>,
                 closing: map<string, set<string>>,
               settings: CloseSettings, outcome: string -> CloseOutcome, logFails: nat -> bool)
    returns (raised: bool, issues: set<Issue>, tried: seq<string>)
    requires Classified(orders, executions, owned, bracketed, protecting, closing)
    ensures raised <==> exists n :: LogBreaks(orders, executions, settings, positions, logFails, n)
    ensures !raised ==> issues == Issues(a, orders, executions, positions, Closes(settings, outcome))
                        && tried == Flattens(orders, executions, positions, |positions|)
    ensures raised ==> BrokenAtFirst(orders, executions, settings, positions, logFails, tried)
  {
    var closes := Closes(settings, outcome);
    hide Owned, Covered, Closes, Issues, Classified, PositionIssues, Logs;
    raised, issues, tried := false, {}, [];
    if !(a.expected == "" || a.actual == a.expected) {
      issues := issues + {AccountMismatch};
    }
    if a.blocked {
      issues := issues + {TradingBlocked};
    }
    assert positions[..0] == [];
    AccountIssues(a, orders, executions, closes);
    var n := 0;
    while n < |positions|
      invariant 0 <= n <= |positions|
      invariant issues == Issues(a, orders, executions, positions[..n], closes)
      invariant tried == Flattens(orders, executions, positions, n)
      invariant forall m | 0 <= m < n :: !LogBreaks(orders, executions, settings, positions, logFails, m)
    {
      var p := positions[n];
      OnePositionMore(a, orders, executions, positions, n, closes);
      var found, flatten, logged := JudgeOne(orders, executions, p, owned, bracketed, protecting, closing, settings,
                                             closes);
      issues := issues + found;
      if flatten {
        tried := tried + [p.symbol];
      }
      if logged && logFails(n) {
        assert LogBreaks(orders, executions, settings, positions, logFails, n);
        return true, issues, tried;
      }
      n := n + 1;
    }
    assert positions[..n] == positions;
  }

  /** What was tried up to the first position whose log write failed. */
  ghost predicate BrokenAtFirst(orders: seq<BrokerOrder>, executions: map<string, string>, settings: CloseSettings,
                                positions: seq<Position>, logFails: nat -> bool, tried: seq<string>) {
    exists n: nat :: LogBreaks(orders, executions, settings, positions, logFails, n)
                     && (forall m: nat | m < n :: !LogBreaks(orders, executions, settings, positions, logFails, m))
                     && tried == Flattens(orders, executions, positions, n + 1)
  }

  class ReconciliationService {
    const hash: Key -> nat
    var written: map<Key, Content>
    var sweepNo: nat
    var budget: int
    // The database rows, by the content last written to them.
    var store: map<Key, Content>

    function View(): Cache<Content>
      reads this
    {
      Cache(written, sweepNo, budget, store)
    }

    constructor (hash: Key -> nat, store: map<Key, Content>)
      ensures View() == Cache(map[], 0, UNKNOWN_WRITE_BUDGET, store) && this.hash == hash
    {
      this.hash := hash;
      this.written, this.sweepNo, this.budget, this.store := map[], 0, UNKNOWN_WRITE_BUDGET, store;
    }

    /** Whether a row must be written now; a row of unknown state takes one of the sweep's budget. */
    method NeedsWrite(row: Row<Content>) returns (changed: bool)
      modifies this`budget
      ensures changed == Changed(old(View()), row)
      ensures budget == if changed && row.key !in written then old(budget) - 1 else old(budget)
    {
      if row.key in written && written[row.key] == row.content {
        return false;
      }
      if row.key !in written {
        if budget <= 0 {
          return false;
        }
        budget := budget - 1;
      }
      return true;
    }

    /** One row of the sweep: the fingerprint is recorded only after the write succeeds. */
    method WriteRow(row: Row<Content>, outcome: Outcome, ghost s: Sweep<Content>) returns (raised: bool)
      requires s.cache == View() && !s.raised
      modifies this
      ensures View() == Offer(s, row, outcome).cache && raised == Offer(s, row, outcome).raised
    {
      var changed := NeedsWrite(row);
      if !changed {
        return false;
      }
      if outcome.Refused? {
        return true;
      }
      if row.key.Storable() {
        store := store[row.key := row.content];
      }
      if outcome.Torn? {
        return true;
      }
      written := written[row.key := row.content];
      return false;
    }

    /** The rows of one order, from the at-th of the sweep. */
    method WriteRows(rows: seq<Row<Content>>, ghost all: seq<Row<Content>>, at: nat, outcomes: nat -> Outcome,
                     ghost c: Cache<Content>) returns (raised: bool)
      requires at + |rows| <= |all| && forall j | 0 <= j < |rows| :: all[at + j] == rows[j]
      requires View() == Offered(c, all, outcomes, at).cache && !Offered(c, all, outcomes, at).raised
      modifies this
      ensures if raised then View() == Offered(c, all, outcomes, |all|).cache && Offered(c, all, outcomes, |all|).raised
              else
                View() == Offered(c, all, outcomes, at + |rows|).cache && !Offered(c, all, outcomes, at + |rows|).raised
    {
      hide Offer;
      var j := 0;
      while j < |rows|
        invariant 0 <= j <= |rows|
        invariant View() == Offered(c, all, outcomes, at + j).cache && !Offered(c, all, outcomes, at + j).raised
      {
        raised := WriteRow(rows[j], outcomes(at + j), Offered(c, all, outcomes, at + j));
        assert Offered(c, all, outcomes, at + j + 1) == Offer(Offered(c, all, outcomes, at + j), all[at + j],
                                                              outcomes(at + j));
        if raised {
          RaisedStays(c, all, outcomes, at + j + 1, |all|);
          return;
        }
        j := j + 1;
      }
      raised := false;
    }

    /** The orders loop: it classifies and writes one order after another. */
    method WriteAndClassify(orders: seq<BrokerOrder>, executions: map<string, string>,
                            exits: map<string, seq<BrokerOrder>>,
                            outcomes: nat -> Outcome)
      returns (raised: bool, owned: set<string>, bracketed: set<string>, protecting: map<string, set<string>>,
               closing: map<string, set<string>>)
      requires ExitsMatch(exits, orders, executions)
      modifies this
      ensures var s := Offered(old(View()), AllRows(executions, orders, |orders|), outcomes,
                               |AllRows(executions, orders, |orders|)|);
              View() == s.cache && raised == s.raised
      ensures !raised ==> Classified(orders, executions, owned, bracketed, protecting, closing)
    {
      hide Offered, RowsOf, AllRows, ExitsOf, Classified, ExitsMatch, Listed;
      owned, bracketed, protecting, closing := {}, {}, map[], map[];
      ghost var c, all := View(), AllRows(executions, orders, |orders|);
      NothingClassified(executions);
      NothingOfferedYet(c, all, outcomes);
      NoRows(executions, orders);
      assert orders[..0] == [];
      var k, at := 0, 0;
      while k < |orders|
        invariant 0 <= k <= |orders| && at == |AllRows(executions, orders, k)| <= |all|
        invariant View() == Offered(c, all, outcomes, at).cache && !Offered(c, all, outcomes, at).raised
        invariant Classified(orders[..k], executions, owned, bracketed, protecting, closing)
      {
        var o := orders[k];
        var rows := RowsOf(executions, if o.symbol in exits then Some(exits[o.symbol]) else None, o);
        ExitsAnswer(exits, orders, executions, o.symbol);
        RowsStand(executions, orders, k);
        owned, bracketed, protecting, closing := Classify(orders, k, executions, owned, bracketed, protecting, closing);
        raised := WriteRows(rows, all, at, outcomes, c);
        if raised {
          return;
        }
        at := at + |rows|;
        k := k + 1;
      }
      assert orders[..k] == orders;
      raised := false;
    }

    /** One order's update from the stream; write number `failsAt` raises. */
    method IngestOrderUpdate(execution: string, o: BrokerOrder, failsAt: nat) returns (raised: bool)
      requires o.id != ""
      modifies this
      ensures var rows := RowsOf(map[o.id := execution], None, o);
              && raised == (failsAt < |rows|)
              && View() == Ingested(old(View()), rows, if raised then failsAt else |rows|)
    {
      var rows := RowsOf(map[o.id := execution], None, o);
      hide RowsOf;
      var j := 0;
      while j < |rows|
        invariant 0 <= j <= |rows| && j <= failsAt
        invariant View() == old(View()).(store := StoreAll(old(store), rows, j))
      {
        if j == failsAt {
          return true;
        }
        if rows[j].key.Storable() {
          store := store[rows[j].key := rows[j].content];
        }
        j := j + 1;
      }
      written := written - KeysOf(rows, |rows|);
      return false;
    }

    /** One attempt at a sweep. The broker reads come after the eviction; a read or a write that
        raises ends the attempt without a verdict, before any flatten is tried; a log write that raises
        among the positions ends it with those up to there tried. */
    method Reconcile(a: Account, brokerAnswers: bool, orders: seq<BrokerOrder>, executions: map<string, string>,
                     positions: seq<Position>,
                     outcomes: nat -> Outcome, settings: CloseSettings, outcome: string -> CloseOutcome,
                       logFails: nat -> bool)
      returns (raised: bool, issues: set<Issue>, tried: seq<string>)
      modifies this
      ensures !brokerAnswers ==> raised && View() == Begin(hash, old(View())) && tried == []
      ensures brokerAnswers ==>
                var s := Swept(hash, old(View()), AllRows(executions, orders, |orders|), outcomes);
                && View() == s.cache
                && raised == (s.raised || exists n :: LogBreaks(orders, executions, settings, positions, logFails, n))
                && (if s.raised then tried == []
                    else if raised then BrokenAtFirst(orders, executions, settings, positions, logFails, tried)
                    else
                      && issues == Issues(a, orders, executions, positions, Closes(settings, outcome))
                      && tried == Flattens(orders, executions, positions, |positions|))
    {
      hide Offered, AllRows, ExitsOf, ExitsMatch, Classified, Issues, Flattens, LogBreaks, BrokenAtFirst;
      issues, tried := {}, [];
      sweepNo := sweepNo + 1;
      var slot := sweepNo % REFRESH_SLICES;
      written := written - SlotKeys(hash, written, slot);
      budget := UNKNOWN_WRITE_BUDGET;
      assert View() == Begin(hash, old(View()));
      if !brokerAnswers {
        return true, issues, tried;
      }
      var exits := CollectExits(orders, executions);
      var owned, bracketed, protecting, closing;
      raised, owned, bracketed, protecting, closing := WriteAndClassify(orders, executions, exits, outcomes);
      if raised {
        return;
      }
      raised, issues, tried :=
        Judge(a, orders, executions, positions, owned, bracketed, protecting, closing, settings, outcome, logFails);
    }
  }

  // ---- The trade-update stream ----------------------------------------------------------------------------

  /** The store after the first n rows are written unconditionally. */
  function StoreAll(store: map<Key, Content>, rows: seq<Row<Content>>, n: nat): map<Key, Content>
    requires n <= |rows|
  {
    if n == 0 then store else Stored(StoreAll(store, rows, n - 1), rows[n - 1])
  }

  /** A streamed update writes an order's rows without standalone exits, then forgets their records. */
  function Ingested(c: Cache<Content>, rows: seq<Row<Content>>, n: nat): Cache<Content>
    requires n <= |rows|
  {
    c.(store := StoreAll(c.store, rows, n), written := if n == |rows| then c.written - KeysOf(rows, n) else c.written)
  }

  lemma {:induction false} StoreAllElsewhere(store: map<Key, Content>, rows: seq<Row<Content>>, n: nat, k: Key)
    requires n <= |rows| && k !in KeysOf(rows, n)
    ensures var r := StoreAll(store, rows, n); (k in r <==> k in store) && (k in r ==> r[k] == store[k])
  {
    if n > 0 {
      assert rows[n - 1].key in KeysOf(rows, n);
      assert KeysOf(rows, n - 1) <= KeysOf(rows, n);
      StoreAllElsewhere(store, rows, n - 1, k);
    }
  }

  /** A complete streamed update keeps the records in step with the store and leaves its rows unknown,
      so the next sweeps write them again; one that fails part-way leaves at most the rows it wrote
      out of step. */
  lemma IngestKeepsStep(c: Cache<Content>, rows: seq<Row<Content>>, n: nat, torn: set<Key>)
    requires n <= |rows| && InStep(c, torn)
    ensures n == |rows| ==> InStep(Ingested(c, rows, n), torn) && forall k | k in KeysOf(rows, n) ::
            k !in Ingested(c, rows, n).written
    ensures n < |rows| ==> InStep(Ingested(c, rows, n), torn + KeysOf(rows, n))
  {
    hide StoreAll, KeysOf;
    var r := Ingested(c, rows, n);
    forall k | k in r.written && k !in KeysOf(rows, n)
      ensures (k in r.store <==> k in c.store) && (k in r.store ==> r.store[k] == c.store[k]) {
      StoreAllElsewhere(c.store, rows, n, k);
    }
  }

  lemma NothingClassified(executions: map<string, string>)
    ensures Classified([], executions, {}, {}, map[], map[])
  {}

  lemma NoRows(executions: map<string, string>, orders: seq<BrokerOrder>)
    ensures AllRows(executions, orders, 0) == []
  {}

  lemma NothingOfferedYet(c: Cache<Content>, rows: seq<Row<Content>>, outcomes: nat -> Outcome)
    ensures Offered(c, rows, outcomes, 0) == Sweep(c, false, [], 0)
  {}
}
