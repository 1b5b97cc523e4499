/** The reconciliation verdict told from the broker's fields alone: what an order does to a position, which
    positions are bare, what is flattened, logged and written. */
module ReconciliationVerdict {
  import opened Wrappers
  import opened WriteCache
  import opened Reconciliation

  // ---- What an order does to a position --------------------------------------------------------------------

  /** The sign of the change a filled order makes to the quantity held. */
  function Effect(side: string): int {
    if side == "buy" then 1 else if side == "sell" then -1 else 0
  }

  /** The sign of a position; an empty one counts as long. */
  function Direction(p: Position): int {
    if p.quantity < 0.0 then -1 else 1
  }

  /** The broker is still working on it. */
  predicate Live(status: string) {
    || status == "new" || status == "accepted" || status == "held" || status == "pending_new"
    || status == "partially_filled" || status == "accepted_for_bidding" || status == "calculated"
  }

  predicate NamesAStop(kind: string) {
    exists i | 0 <= i <= |kind| - 4 :: FourFrom(kind, i) == ['s', 't', 'o', 'p']
  }

  function FourFrom(kind: string, i: nat): seq<char>
    requires i + 4 <= |kind|
  {
    [kind[i], kind[i + 1], kind[i + 2], kind[i + 3]]
  }

  /** The order is live and, filled, would bring the position towards zero. */
  predicate Reduces(o: BrokerOrder, p: Position) {
    o.symbol == p.symbol && o.symbol != "" && Live(o.status) && Effect(o.side) == -Direction(p)
  }

  /** A bracket of ours on the symbol with a stop leg that still works. */
  predicate BracketsWithStop(o: BrokerOrder, executions: map<string, string>, p: Position) {
    && o.id in executions && o.symbol == p.symbol && o.orderClass == "bracket"
    && exists leg | leg in o.legs :: Live(leg.status) && NamesAStop(leg.kind)
  }

  /** One of our executions is an order of this symbol. */
  predicate OursIn(orders: seq<BrokerOrder>, executions: map<string, string>, symbol: string) {
    exists o | o in orders :: o.id in executions && o.symbol == symbol
  }

  /** Nothing at the broker caps or closes the position. */
  predicate Bare(orders: seq<BrokerOrder>, executions: map<string, string>, p: Position) {
    forall o | o in orders :: !Reduces(o, p) && !BracketsWithStop(o, executions, p)
  }

  lemma StopIsNamed(kind: string)
    ensures MentionsStop(kind) <==> NamesAStop(kind)
  {
    if MentionsStop(kind) {
      var i: nat :| i < |kind| && StopAt(kind, i);
      assert FourFrom(kind, i) == kind[i..i + 4];
    }
    if NamesAStop(kind) {
      var i :| 0 <= i <= |kind| - 4 && FourFrom(kind, i) == ['s', 't', 'o', 'p'];
      assert FourFrom(kind, i) == kind[i..i + 4];
      assert StopAt(kind, i);
    }
  }

  lemma BracketIsStopped(o: BrokerOrder, executions: map<string, string>, p: Position)
    ensures BracketOf(o, executions, p.symbol) <==> BracketsWithStop(o, executions, p)
  {
    hide MentionsStop, NamesAStop;
    forall leg | leg in o.legs ensures LiveStop(leg) <==> Live(leg.status) && NamesAStop(leg.kind) {
      StopIsNamed(leg.kind);
    }
    if HasLiveStop(o) {
      var i :| 0 <= i < |o.legs| && LiveStop(o.legs[i]);
      assert o.legs[i] in o.legs;
    }
  }

  lemma WorksIsReducing(o: BrokerOrder, p: Position)
    ensures WorksOn(o, p.symbol, ClosingSide(p), true) || WorksOn(o, p.symbol, ClosingSide(p), false) <==> Reduces(o, p)
  {}

  /** Something covers a position exactly when a live order's effect is opposite to the position's sign, or a
      bracket of ours on its symbol has a working stop. */
  lemma CoveredExactly(orders: seq<BrokerOrder>, executions: map<string, string>, p: Position)
    ensures Covered(orders, executions, p) <==> !Bare(orders, executions, p)
  {
    hide Reduces, BracketsWithStop, WorksOn, BracketOf, ClosingSide;
    forall o | o in orders
      ensures BracketOf(o, executions, p.symbol) <==> BracketsWithStop(o, executions, p)
      ensures WorksOn(o, p.symbol, ClosingSide(p), true) || WorksOn(o, p.symbol, ClosingSide(p), false) <==> Reduces(o,
                p)
    {
      BracketIsStopped(o, executions, p);
      WorksIsReducing(o, p);
    }
    if !Bare(orders, executions, p) {
      var o :| o in orders && (Reduces(o, p) || BracketsWithStop(o, executions, p));
      var i :| 0 <= i < |orders| && orders[i] == o;
      assert BracketOf(orders[i], executions, p.symbol) || WorksOn(orders[i], p.symbol, ClosingSide(p), true)
             || WorksOn(orders[i], p.symbol, ClosingSide(p), false);
    }
    if Covered(orders, executions, p) {
      var i :| 0 <= i < |orders| && (BracketOf(orders[i], executions, p.symbol)
                                     || WorksOn(orders[i], p.symbol, ClosingSide(p), true)
                                     || WorksOn(orders[i], p.symbol, ClosingSide(p), false));
      assert orders[i] in orders;
    }
  }

  lemma OwnedExactly(orders: seq<BrokerOrder>, executions: map<string, string>, symbol: string)
    ensures Owned(orders, executions, symbol) <==> OursIn(orders, executions, symbol)
  {
    if Owned(orders, executions, symbol) {
      var i :| 0 <= i < |orders| && OwnedBy(orders[i], executions, symbol);
      assert orders[i] in orders;
    }
  }

  // ---- The verdict -----------------------------------------------------------------------------------------

  /** A market close of the symbol ends well: flattening is on, in paper mode with no real trading and a broker
      that can close, and the broker takes the close, has none to do, or holds the shares for another order. */
  predicate ClosesWell(settings: CloseSettings, outcome: string -> CloseOutcome, symbol: string) {
    && settings.enabled && settings.paperMode && !settings.realTrading && settings.canClose
    && (outcome(symbol).Submitted? || outcome(symbol).AlreadyFlat? || outcome(symbol).SharesHeld?)
  }

  predicate HasUnknown(orders: seq<BrokerOrder>, executions: map<string, string>, positions: seq<Position>,
                       symbol: string) {
    exists p | p in positions :: p.symbol == symbol && !OursIn(orders, executions, symbol)
  }

  predicate HasUnprotected(orders: seq<BrokerOrder>, executions: map<string, string>, positions: seq<Position>,
                           settings: CloseSettings, outcome: string -> CloseOutcome, symbol: string) {
    exists p | p in positions :: p.symbol == symbol && Bare(orders, executions, p)
                                 && !(OursIn(orders, executions, symbol) && ClosesWell(settings, outcome, symbol))
  }

  /** Every issue of a sweep, from the fields it was given: the account is another one, trading is blocked, a
      position is none of ours, or a position is bare and was not flattened. */
  lemma IssuesExactly(a: Account, orders: seq<BrokerOrder>, executions: map<string, string>, positions: seq<Position>,
                      settings: CloseSettings, outcome: string -> CloseOutcome, issue: Issue)
    ensures issue in Issues(a, orders, executions, positions, Closes(settings, outcome)) <==>
            match issue
            case AccountMismatch => a.expected != "" && a.actual != a.expected
            case TradingBlocked => a.blocked
            case UnknownPosition(symbol) => HasUnknown(orders, executions, positions, symbol)
            case MissingBracketProtection(symbol) =>
              HasUnprotected(orders, executions, positions, settings, outcome, symbol)
  {
    hide Covered, Owned, Bare, OursIn;
    forall p: Position
      ensures Covered(orders, executions, p) <==> !Bare(orders, executions, p)
      ensures Owned(orders, executions, p.symbol) <==> OursIn(orders, executions, p.symbol)
      ensures Closes(settings, outcome)(p.symbol) <==> ClosesWell(settings, outcome, p.symbol)
    {
      CoveredExactly(orders, executions, p);
      OwnedExactly(orders, executions, p.symbol);
    }
    hide ClosesWell;
  }

  /** The verdict is clean exactly when the account is the expected one and not blocked, and every position is
      ours and is not bare or was flattened. */
  lemma CleanExactly(a: Account, orders: seq<BrokerOrder>, executions: map<string, string>, positions: seq<Position>,
                     settings: CloseSettings, outcome: string -> CloseOutcome)
    ensures Issues(a, orders, executions, positions, Closes(settings, outcome)) == {} <==>
            && (a.expected == "" || a.actual == a.expected) && !a.blocked
            && forall p | p in positions ::
                 && OursIn(orders, executions, p.symbol)
                 && (!Bare(orders, executions, p) || ClosesWell(settings, outcome, p.symbol))
  {
    hide Owned, Covered, Issues, OursIn, Bare;
    VerdictIsCleanExactly(a, orders, executions, positions, Closes(settings, outcome));
    forall p | p in positions
      ensures Covered(orders, executions, p) <==> !Bare(orders, executions, p)
      ensures Owned(orders, executions, p.symbol) <==> OursIn(orders, executions, p.symbol)
      ensures Closes(settings, outcome)(p.symbol) <==> ClosesWell(settings, outcome, p.symbol)
    {
      CoveredExactly(orders, executions, p);
      OwnedExactly(orders, executions, p.symbol);
    }
    hide ClosesWell;
  }

  /** The flattens of a sweep, in the order of the positions: one for each that is ours and bare. */
  lemma FlattensExactly(orders: seq<BrokerOrder>, executions: map<string, string>, positions: seq<Position>, n: nat)
    requires n < |positions|
    ensures Flattens(orders, executions, positions, 0) == []
    ensures Flattens(orders, executions, positions, n + 1) ==
            Flattens(orders, executions, positions, n) +
            if OursIn(orders, executions, positions[n].symbol) && Bare(orders, executions, positions[n])
            then [positions[n].symbol] else []
  {
    hide Owned, Covered, OursIn, Bare;
    CoveredExactly(orders, executions, positions[n]);
    OwnedExactly(orders, executions, positions[n].symbol);
  }

  /** A position's turn writes to the log, so can be cut by a log write that fails, exactly when no bracket and
      no stop or limit of its reducing side holds it, and either another order of that side works on it or it is
      ours and may be flattened. */
  lemma BreaksExactly(orders: seq<BrokerOrder>, executions: map<string, string>, settings: CloseSettings,
                      positions: seq<Position>, logFails: nat -> bool, n: nat)
    ensures LogBreaks(orders, executions, settings, positions, logFails, n) <==>
            && n < |positions| && logFails(n)
            && (forall o | o in orders :: !BracketsWithStop(o, executions, positions[n]))
            && (forall o | o in orders && Reduces(o, positions[n]) :: !CapsTheLoss(o.kind))
            && ((exists o | o in orders :: Reduces(o, positions[n]))
                || (OursIn(orders, executions, positions[n].symbol)
                    && settings.enabled && settings.paperMode && !settings.realTrading && settings.canClose))
  {
    if n < |positions| {
      var p := positions[n];
      BracketedExactly(orders, executions, p);
      WorkingExactly(orders, p, true);
      WorkingExactly(orders, p, false);
      OwnedExactly(orders, executions, p.symbol);
      hide Owned, Bracketed, Working, OursIn, BracketsWithStop, Reduces, CapsTheLoss, ClosingSide;
    }
  }

  /** The order waits for a price: a stop or a limit. */
  predicate CapsTheLoss(kind: string) {
    kind == "stop" || kind == "stop_limit" || kind == "stop-limit" || kind == "limit" || kind == "trailing_stop"
  }

  lemma BracketedExactly(orders: seq<BrokerOrder>, executions: map<string, string>, p: Position)
    ensures Bracketed(orders, executions, p.symbol) <==> exists o | o in orders :: BracketsWithStop(o, executions, p)
  {
    hide BracketOf, BracketsWithStop;
    forall o ensures BracketOf(o, executions, p.symbol) <==> BracketsWithStop(o, executions, p) {
      BracketIsStopped(o, executions, p);
    }
    if Bracketed(orders, executions, p.symbol) {
      var i :| 0 <= i < |orders| && BracketOf(orders[i], executions, p.symbol);
      assert orders[i] in orders;
    }
  }

  lemma WorkingExactly(orders: seq<BrokerOrder>, p: Position, protective: bool)
    ensures Working(orders, p.symbol, ClosingSide(p), protective) <==>
            exists o | o in orders :: Reduces(o, p) && CapsTheLoss(o.kind) == protective
  {
    hide WorksOn, Reduces, ClosingSide;
    forall o ensures WorksOn(o, p.symbol, ClosingSide(p), protective) <==>
                     Reduces(o, p) && CapsTheLoss(o.kind) == protective
    {
      WorksOfItsKind(o, p, protective);
    }
    if Working(orders, p.symbol, ClosingSide(p), protective) {
      var i :| 0 <= i < |orders| && WorksOn(orders[i], p.symbol, ClosingSide(p), protective);
      assert orders[i] in orders;
    }
  }

  lemma WorksOfItsKind(o: BrokerOrder, p: Position, protective: bool)
    ensures WorksOn(o, p.symbol, ClosingSide(p), protective) <==> Reduces(o, p) && CapsTheLoss(o.kind) == protective
  {}

  // ---- What is written ---------------------------------------------------------------------------------------

  /** The exits that go with an execution's row: the sells of its symbol that filled, have no legs and are none
      of ours, in the order listed. */
  lemma ExitsExactly(orders: seq<BrokerOrder>, executions: map<string, string>, symbol: string, o: BrokerOrder)
    ensures ExitsOf([], executions, symbol) == []
    ensures ExitsOf(orders + [o], executions, symbol) ==
            ExitsOf(orders, executions, symbol) +
            if o.symbol == symbol && o.id !in executions && Effect(o.side) == -1 && o.status == "filled"
               && |o.legs| == 0
               && |o.filledAt| > 0
            then [o] else []
  {
    assert (orders + [o])[..|orders|] == orders;
  }

  /** The rows of an order and nothing else: its execution's with the exits when it is ours, its own under its
      id when it has one, and one for each leg, in that order. */
  lemma RowsExactly(executions: map<string, string>, exits: Option<seq<BrokerOrder>>, o: BrokerOrder, j: nat)
    ensures var rows, ours, named := RowsOf(executions, exits, o), o.id in executions, o.id != "";
            var execution := if ours then Some(executions[o.id]) else None;
            var first := (if ours then 1 else 0) + (if named then 1 else 0);
            && |rows| == first + |o.legs|
            && (ours ==> rows[0] == Row(Key.Execution(executions[o.id]), ExecutionContent(o, exits)))
            && (named ==> rows[first - 1] == Row(Key.Order(o.id), OrderContent(o, execution)))
            && (j < |o.legs| ==> StandsFor(rows[first + j], o.legs[j], execution, o.id))
  {
    hide StandsFor;
    var execution := ExecutionOf(executions, o.id);
    if j < |o.legs| {
      var first := (if o.id in executions then 1 else 0) + (if o.id != "" then 1 else 0);
      LegStands(o, execution, j);
      assert RowsOf(executions, exits, o)[first + j] == LegRows(o, execution, |o.legs|)[j];
    }
    hide LegRows;
  }

  /** A leg's row, stored under the leg's id when it has one. */
  ghost predicate StandsFor(row: Row<Content>, leg: Leg, execution: Option<string>, parent: string) {
    && row.content == LegContent(leg, execution, parent)
    && if leg.id.Some? && leg.id.value != "" then row.key == Key.Order(leg.id.value)
         else row.key == NoOrder(leg.id.Some?)
  }

  lemma LegStands(o: BrokerOrder, execution: Option<string>, j: nat)
    requires j < |o.legs|
    ensures |LegRows(o, execution, |o.legs|)| == |o.legs|
    ensures StandsFor(LegRows(o, execution, |o.legs|)[j], o.legs[j], execution, o.id)
  {}
}
