/** The order manager: the effect of each critical section on its state, and the class whose
    methods perform them. Replies of the exchange are parameters. */
module OrderManager {
  import opened Wrappers
  import opened Orders
  import opened Ledger
  import opened Reals

  datatype Manager = Manager(orders: map<string, Snapshot>, reconciled: bool, kill: bool)

  datatype Error =
    | NotReady | NotReconciled | KillSwitchActive | InvalidRequest | DuplicateId | UnknownId | UnresolvedOrders | ExchangeFailed

  // ---------------------------------------------------------------- critical sections

  /** The open orders the exchange reported replace everything tracked; later entries win. */
  function Tracked(open: seq<Snapshot>): map<string, Snapshot> {
    if open == [] then map[]
    else Tracked(open[..|open| - 1])[open[|open| - 1].clientOrderId := open[|open| - 1]]
  }

  /** Exactly the ids of the list are tracked, each with its last entry. */
  lemma {:induction false} TrackedExactly(open: seq<Snapshot>, id: string)
    ensures id in Tracked(open) <==> exists i :: 0 <= i < |open| && open[i].clientOrderId == id
    ensures id in Tracked(open) ==>
              exists i :: 0 <= i < |open| && Tracked(open)[id] == open[i] && open[i].clientOrderId == id
                          && forall j | i < j < |open| :: open[j].clientOrderId != id
  {
    if open != [] {
      var n := |open| - 1;
      TrackedExactly(open[..n], id);
      assert forall i | 0 <= i < n :: open[..n][i] == open[i];
      assert open[n].clientOrderId == id ==> Tracked(open)[id] == open[n];
    }
  }

  /** What the exchange answers when asked for the open orders: nothing usable, a list with a
      malformed entry after `orders`, or a whole list. */
  datatype OpenOrders = Unavailable | Malformed(orders: seq<Snapshot>) | Listed(orders: seq<Snapshot>)

  /** A malformed entry is noticed after the tracked orders were cleared. */
  function Reconcile(m: Manager, open: OpenOrders): Manager {
    match open
    case Unavailable => m
    case Malformed(orders) => m.(orders := Tracked(orders))
    case Listed(orders) => m.(orders := Tracked(orders), reconciled := true)
  }

  predicate ValidRequest(r: Request) {
    r.quantity > 0.0 && r.symbol != "" && r.clientOrderId != ""
  }

  function NewOrder(r: Request): Snapshot {
    BLANK.(symbol := r.symbol, clientOrderId := r.clientOrderId, side := r.side, requested := r.quantity)
  }

  /** The order of a request that was answered: it has the request's data and nothing executed;
      it is acknowledged with the id it was given, or rejected for the reason. */
  predicate IsAnsweredOrder(o: Snapshot, r: Request, answer: Result<int, string>) {
    && o.symbol == r.symbol && o.clientOrderId == r.clientOrderId && o.side == r.side && o.requested == r.quantity
    && o.executed == o.quote == o.averageFill == 0.0
    && match answer
       case Ok(id) => o.state == Acknowledged && o.exchangeOrderId == id && o.reason == ""
       case Err(reason) => o.state == Rejected && o.exchangeOrderId == 0 && o.reason == reason
  }

  function Insert(m: Manager, r: Request): Manager {
    m.(orders := m.orders[r.clientOrderId := NewOrder(r)])
  }

  /** The REST answer to a placement: an exchange order id, or a failure with its reason. The
      state known by then is overwritten, whatever it is. */
  function Answered(order: Snapshot, answer: Result<int, string>): Snapshot {
    match answer
    case Ok(id) => order.(exchangeOrderId := id, state := Acknowledged)
    case Err(reason) => order.(state := Rejected, reason := reason)
  }

  function Answer(m: Manager, id: string, answer: Result<int, string>): Manager
    requires id in m.orders
  {
    m.(orders := m.orders[id := Answered(m.orders[id], answer)])
  }

  function MarkCancelling(m: Manager, id: string): Manager
    requires id in m.orders
  {
    m.(orders := m.orders[id := m.orders[id].(state := Cancelling)])
  }

  function Known(m: Manager, id: string): Snapshot {
    if id in m.orders then m.orders[id] else BLANK
  }

  function ApplyReport(m: Manager, e: Report): Manager {
    m.(orders := m.orders[e.clientOrderId := Received(Known(m, e.clientOrderId), e)])
  }

  predicate AllTerminal(orders: map<string, Snapshot>) {
    forall id | id in orders :: Terminal(orders[id].state)
  }

  /** `clear_kill_switch_for_reconciled_resume` goes through. */
  predicate CanClear(m: Manager) {
    m.reconciled && AllTerminal(m.orders)
  }

  /** Every live order has been sent a cancel. */
  function AllCancelling(orders: map<string, Snapshot>): map<string, Snapshot> {
    map id | id in orders :: IfLiveCancelling(orders[id])
  }

  function IfLiveCancelling(order: Snapshot): Snapshot {
    if Live(order.state) then order.(state := Cancelling) else order
  }

  lemma OthersStay()
    ensures forall order: Snapshot | !Live(order.state) :: IfLiveCancelling(order) == order
  {
  }

  lemma LiveIsCancelled(order: Snapshot)
    requires Live(order.state)
    ensures !Terminal(order.state) && IfLiveCancelling(order) == order.(state := Cancelling)
  {
  }

  lemma CancellingExactly(before: map<string, Snapshot>, after: map<string, Snapshot>)
    requires after.Keys == before.Keys && forall id | id in after :: after[id] == IfLiveCancelling(before[id])
    ensures after == AllCancelling(before)
  {
  }

  // ---------------------------------------------------------------- the class

  class OrderManager {
    var orders: map<string, Snapshot>
    var reconciled: bool
    var kill: bool
    var handler: ConfirmedPositionLedger?
    // every update the handler has received
    ghost var published: seq<Snapshot>

    ghost function Abstract(): Manager
      reads this
    {
      Manager(orders, reconciled, kill)
    }

    ghost predicate Valid()
      reads this, handler
    {
      if handler == null then published == [] else handler.positions == LedgerAfter(published)
    }

    constructor ()
      ensures Valid() && Abstract() == Manager(map[], false, false) && handler == null
    {
      orders, reconciled, kill, handler := map[], false, false, null;
      published := [];
    }

    method SetUpdateHandler(ledger: ConfirmedPositionLedger)
      requires Valid() && (handler == ledger || (handler == null && ledger.positions == map[]))
      modifies this`handler
      ensures Valid() && handler == ledger
    {
      handler := ledger;
    }

    method Publish(s: Snapshot)
      requires Valid()
      modifies this`published, handler
      ensures Valid() && published == if handler == null then [] else old(published) + [s]
    {
      if handler != null {
        LedgerSnoc(published, s);
        handler.OnOrderUpdate(s);
        published := published + [s];
      }
    }

    method ReconcileStartup(open: OpenOrders) returns (ok: bool)
      modifies this`orders, this`reconciled
      ensures ok == open.Listed?
      ensures Abstract() == Reconcile(old(Abstract()), open)
    {
      if open.Unavailable? { return false; }
      orders := map[];
      for i := 0 to |open.orders|
        invariant orders == Tracked(open.orders[..i]) && reconciled == old(reconciled)
      {
        assert open.orders[..i + 1][..i] == open.orders[..i];
        orders := orders[open.orders[i].clientOrderId := open.orders[i]];
      }
      assert open.orders[..|open.orders|] == open.orders;
      if open.Malformed? { return false; }
      reconciled := true;
      return true;
    }

    /** A submit that is not interfered with. `placed` says whether the exchange was called;
        it publishes the pending order and then the answered one, neither of them a fill. */
    method SubmitMarket(r: Request, answer: Result<int, string>) returns (result: Result<Snapshot, Error>, placed: bool)
      requires Valid()
      modifies this`orders, this`published, handler
      ensures Valid()
      ensures placed <==> reconciled && !kill && ValidRequest(r) && r.clientOrderId !in old(orders)
      ensures placed <==> result.Ok?
      ensures Abstract() == if placed then Answer(Insert(old(Abstract()), r), r.clientOrderId, answer) else old(Abstract())
      ensures placed ==> result.value == Answered(NewOrder(r), answer)
      ensures placed ==> orders.Keys == old(orders).Keys + {r.clientOrderId} && IsAnsweredOrder(orders[r.clientOrderId], r, answer)
      ensures placed ==> forall id | id in old(orders) :: orders[id] == old(orders)[id]
      ensures LedgerAfter(published) == LedgerAfter(old(published))
      ensures result.Err? ==>
                result.error == if !reconciled then NotReconciled else if kill then KillSwitchActive
                                else if !ValidRequest(r) then InvalidRequest else DuplicateId
    {
      if !reconciled { return Err(NotReconciled), false; }
      if kill { return Err(KillSwitchActive), false; }
      if r.quantity <= 0.0 || r.symbol == "" || r.clientOrderId == "" { return Err(InvalidRequest), false; }
      if r.clientOrderId in orders { return Err(DuplicateId), false; }
      var pending := NewOrder(r);
      orders := orders[r.clientOrderId := pending];
      LedgerSnoc(published, pending);
      Publish(pending);
      var answered := Answered(orders[r.clientOrderId], answer);
      orders := orders[r.clientOrderId := answered];
      LedgerSnoc(published, answered);
      Publish(answered);
      return Ok(answered), true;
    }

    /** `answered`: the exchange's cancel call went through. It comes after the order was marked. */
    method Cancel(id: string, answered: bool) returns (result: Result<Snapshot, Error>)
      requires Valid()
      modifies this`orders, this`published, handler
      ensures Valid()
      ensures result == if id !in old(orders) then Err(UnknownId)
                        else if Terminal(old(orders)[id].state) then Ok(old(orders)[id])
                        else if answered then Ok(old(orders)[id].(state := Cancelling)) else Err(ExchangeFailed)
      ensures Abstract() == if id in old(orders) && !Terminal(old(orders)[id].state)
                            then MarkCancelling(old(Abstract()), id) else old(Abstract())
      ensures LedgerAfter(published) == LedgerAfter(old(published))
    {
      if id !in orders { return Err(UnknownId); }
      var order := orders[id];
      if order.state == Filled || order.state == Cancelled || order.state == Rejected { return Ok(order); }
      order := order.(state := Cancelling);
      orders := orders[id := order];
      LedgerSnoc(published, order);
      Publish(order);
      if !answered { return Err(ExchangeFailed); }
      return Ok(order);
    }

    /** The switch is set and every live order is being cancelled, also those whose cancel call
        fails; nothing else changes. */
    method ActivateKillSwitch(failing: set<string>)
      requires Valid()
      modifies this`orders, this`kill, this`published, handler
      ensures Valid() && kill
      ensures orders == AllCancelling(old(orders))
      ensures LedgerAfter(published) == LedgerAfter(old(published))
    {
      hide LedgerAfter, AllCancelling, IfLiveCancelling;
      kill := true;
      OthersStay();
      var live := set id | id in orders && Live(orders[id].state);
      while live != {}
        invariant Valid() && kill
        invariant orders.Keys == old(orders).Keys
        invariant forall id | id in live :: id in orders && Live(old(orders)[id].state) && orders[id] == old(orders)[id]
        invariant forall id | id in orders && id !in live :: orders[id] == IfLiveCancelling(old(orders)[id])
        invariant LedgerAfter(published) == LedgerAfter(old(published))
        decreases |live|
      {
        var id :| id in live;
        live := live - {id};
        LiveIsCancelled(orders[id]);
        var result := Cancel(id, id !in failing);
      }
      CancellingExactly(old(orders), orders);
    }

    method ClearKillSwitch() returns (ok: bool)
      modifies this`kill
      ensures ok <==> CanClear(Abstract())
      ensures kill == if ok then false else old(kill)
    {
      if !reconciled { return false; }
      if exists id | id in orders :: !Terminal(orders[id].state) { return false; }
      kill := false;
      return true;
    }

    /** Execution reports update the order and reach the ledger; other events do nothing. An
        event that throws half way leaves what it stored, and is not published. */
    method OnUserDataEvent(e: Report) returns (ok: bool)
      requires Valid()
      modifies this`orders, this`published, handler
      ensures Valid()
      ensures ok <==> e.stage == Whole || (e.stage != AtEvent && !IsExecutionReport(e))
      ensures Abstract() == if IsExecutionReport(e) then ApplyReport(old(Abstract()), e) else old(Abstract())
      ensures handler != null && ok && IsExecutionReport(e) ==>
                LedgerAfter(published) == Applied(LedgerAfter(old(published)), Updated(Known(old(Abstract()), e.clientOrderId), e))
      ensures handler == null || !ok || !IsExecutionReport(e) ==> published == old(published)
      ensures handler != null && ok && IsExecutionReport(e) ==>
                handler.positions == Applied(old(handler.positions), orders[e.clientOrderId])
      ensures handler != null && !(ok && IsExecutionReport(e)) ==> handler.positions == old(handler.positions)
    {
      if e.stage == AtEvent { return false; }
      if e.eventType != "executionReport" { return true; }
      if e.clientOrderId == "" { return true; }
      var known := BLANK;
      if e.clientOrderId in orders { known := orders[e.clientOrderId]; }
      var order := Received(known, e);
      orders := orders[e.clientOrderId := order];
      if e.stage != Whole { return false; }
      LedgerSnoc(published, order);
      Publish(order);
      return true;
    }
  }

  // ---------------------------------------------------------------- what a report does, member by member

  /** How many members of a report are read before it throws: symbol, exchange id, side (and the
      quantities), status, reason, time. */
  function MembersRead(stage: Stage): nat {
    match stage
    case AtEvent => 0
    case AtSymbol => 0
    case AtOrderId => 1
    case AtSide => 2
    case AtStatus => 3
    case AtReason => 4
    case AtTime => 5
    case Whole => 6
  }

  /** A member of a report that is there is stored, one that is not leaves what was known. */
  predicate Stores<T(==)>(known: T, member: Option<T>, now: T) {
    now == match member
           case Some(value) => value
           case None => known
  }

  /** An execution report changes its own order only. Of that, the members it reads before it
      throws are as reported, or as known where the report has none; the others are as known.
      The side is "SELL" or counts as a buy; the average price times the executed quantity is
      the quote. */
  lemma ReportIsStored(m: Manager, e: Report)
    requires IsExecutionReport(e)
    ensures var known, read, after := Known(m, e.clientOrderId), MembersRead(e.stage), ApplyReport(m, e);
            && after.orders.Keys == m.orders.Keys + {e.clientOrderId}
            && after.reconciled == m.reconciled && after.kill == m.kill
            && (forall id | id in m.orders && id != e.clientOrderId :: after.orders[id] == m.orders[id])
            && var o := after.orders[e.clientOrderId];
               && o.clientOrderId == (if read >= 1 then e.clientOrderId else known.clientOrderId)
               && (if read >= 1 then Stores(known.symbol, e.symbol, o.symbol) else o.symbol == known.symbol)
               && (if read >= 2 then Stores(known.exchangeOrderId, e.exchangeOrderId, o.exchangeOrderId)
                   else o.exchangeOrderId == known.exchangeOrderId)
               && (if read >= 3
                   then && (o.side == Sell <==> e.side == "SELL")
                        && Stores(known.requested, e.requested, o.requested) && Stores(known.executed, e.executed, o.executed)
                        && Stores(known.quote, e.quote, o.quote)
                        && (o.executed > 0.0 ==> Times(o.averageFill, o.executed) == o.quote)
                        && (o.executed <= 0.0 ==> o.averageFill == 0.0)
                   else o.side == known.side && o.requested == known.requested && o.executed == known.executed
                        && o.quote == known.quote && o.averageFill == known.averageFill)
               && (read >= 4 ==> (o.state == Filled <==> e.status == "FILLED")) && (read < 4 ==> o.state == known.state)
               && o.reason == (if read >= 5 then e.reason else known.reason)
  {
    hide StateOf;
    var known := Known(m, e.clientOrderId);
    var executed := GetOr(e.executed, known.executed);
    if executed > 0.0 { TimesOver(GetOr(e.quote, known.quote), executed); }
  }

  /** What a whole report that says filled does to the positions, in its own terms: a sell lowers
      the quantity held by what was executed, down to nothing; any other side raises it, and the
      quote it paid adds to the cost. A report that confirms no fill changes nothing. */
  lemma FilledReportMoves(m: Manager, positions: Positions, e: Report, symbol: string, executed: real, quote: real, exchangeId: int)
    requires IsExecutionReport(e) && e.stage == Whole
    requires var known := Known(m, e.clientOrderId);
             && Stores(known.symbol, e.symbol, symbol) && Stores(known.executed, e.executed, executed)
             && Stores(known.quote, e.quote, quote) && Stores(known.exchangeOrderId, e.exchangeOrderId, exchangeId)
    ensures var after := Applied(positions, ApplyReport(m, e).orders[e.clientOrderId]);
            if e.status != "FILLED" || exchangeId <= 0 || executed <= 0.0 then after == positions
            else if e.side == "SELL" then
              if symbol !in positions then after == positions
              else if positions[symbol].quantity - executed <= DUST then after == positions - {symbol}
              else after == positions[symbol := positions[symbol].(quantity := positions[symbol].quantity - executed)]
            else
              && after.Keys == positions.Keys + {symbol} && (forall s | s in positions && s != symbol :: after[s] == positions[s])
              && var held := if symbol in positions then positions[symbol].quantity else 0.0;
                 var cost := if symbol in positions then Times(held, positions[symbol].averageEntryPrice) else 0.0;
                 && after[symbol].quantity == held + executed
                 && after[symbol].entryExchangeOrderId == exchangeId && after[symbol].entryClientOrderId == e.clientOrderId
                 && (held >= 0.0 ==> Times(after[symbol].quantity, after[symbol].averageEntryPrice) == cost + quote)
  {
    hide Blend, Times;
    ReportIsStored(m, e);
    var o := ApplyReport(m, e).orders[e.clientOrderId];
    if ConfirmedFill(o) && o.side == Buy {
      AppliedBuy(positions, o);
      var held := if symbol in positions then positions[symbol].quantity else 0.0;
      var average := if symbol in positions then positions[symbol].averageEntryPrice else 0.0;
      if held >= 0.0 { BlendIsBetween(held, average, o.executed, o.averageFill); }
      TimesUnit(average);
      TimesReorder(o.executed, o.averageFill, 1.0);
    }
  }

  /** Filled is not absorbing for the tracked order: when the fill report overtakes the REST
      answer, the answer puts the order back to acknowledged. The confirmed position stays,
      and a later resume refuses until the order is resolved again. */
  lemma AnswerOverwritesFill(m: Manager, positions: Positions, r: Request, e: Report, exchangeId: int)
    requires m.reconciled && ValidRequest(r) && r.clientOrderId !in m.orders
    requires IsExecutionReport(e) && e.stage == Whole && e.clientOrderId == r.clientOrderId
    requires e.status == "FILLED" && e.side == "BUY"
    requires e.exchangeOrderId == Some(exchangeId) && exchangeId > 0
    requires e.executed.Some? && e.executed.value > 0.0 && e.symbol == Some(r.symbol)
    ensures var filled := ApplyReport(Insert(m, r), e);
            var answered := Answer(filled, r.clientOrderId, Ok(exchangeId));
            && filled.orders[r.clientOrderId].state == Filled
            && answered.orders[r.clientOrderId].state == Acknowledged
            && r.symbol in Applied(positions, filled.orders[r.clientOrderId])
            && !CanClear(answered)
  {
    var answered := Answer(ApplyReport(Insert(m, r), e), r.clientOrderId, Ok(exchangeId));
    assert r.clientOrderId in answered.orders;
    hide Blend;
  }
}
