/** The live order session: one call at a time, composed of the order manager's methods. The
    interleaving of calls is the subject of module OrderProtocol. */
module LiveOrderSession {
  import opened Wrappers
  import opened Orders
  import opened Ledger
  import opened OrderManager
  import OrderProtocol

  /** 25 minutes, in nanoseconds. */
  const KEEPALIVE_INTERVAL := 25 * 60 * 1_000_000_000

  class LiveOrderSession {
    const manager: OrderManager
    const ledger: ConfirmedPositionLedger
    var started: bool
    var ready: bool
    var listenKey: string
    var lastKeepalive: int

    ghost predicate Valid()
      reads this, manager, manager.handler, ledger
    {
      && manager.Valid()
      && (manager.handler == ledger || (manager.handler == null && ledger.positions == map[]))
      && (started ==> manager.handler == ledger)
    }

    predicate Ready()
      reads this, manager
    {
      ready && !manager.kill
    }

    constructor ()
      ensures Valid() && !started && !Ready() && fresh(manager) && fresh(ledger)
      ensures manager.Abstract() == Manager(map[], false, false)
    {
      manager := new OrderManager();
      ledger := new ConfirmedPositionLedger();
      started, ready, listenKey, lastKeepalive := false, false, "", 0;
    }

    /** Reconciles and opens a new stream; `key` is the new listen key, if the exchange gave one. */
    method RecoverStream(open: OpenOrders, key: Option<string>, now: int) returns (ok: bool)
      requires Valid()
      modifies this`ready, this`listenKey, this`lastKeepalive, manager`orders, manager`reconciled
      ensures Valid()
      ensures ok <==> open.Listed? && key.Some?
      ensures manager.Abstract() == Reconcile(old(manager.Abstract()), open)
      ensures ready <==> ok && !manager.kill
      ensures ok ==> listenKey == key.value && lastKeepalive == now
      ensures !ok ==> listenKey == old(listenKey) && lastKeepalive == old(lastKeepalive)
    {
      ready := false;
      ok := manager.ReconcileStartup(open);
      if !ok || key.None? { return false; }
      listenKey, lastKeepalive := key.value, now;
      ready := !manager.kill;
    }

    /** A session that was killed before does not become ready by starting it again. */
    method Start(open: OpenOrders, key: Option<string>, now: int) returns (ok: bool)
      requires Valid()
      modifies this, manager`orders, manager`reconciled, manager`handler
      ensures Valid() && started
      ensures old(started) ==> manager.Abstract() == old(manager.Abstract()) && Ready() == old(Ready())
      ensures !old(started) ==> manager.Abstract() == Reconcile(old(manager.Abstract()), open)
      ensures !old(started) ==> (Ready() <==> open.Listed? && key.Some? && !old(manager.kill))
    {
      if started { return true; }
      started := true;
      manager.SetUpdateHandler(ledger);
      ok := RecoverStream(open, key, now);
    }

    method Stop(failing: set<string>)
      requires Valid()
      modifies this`started, this`ready, manager`orders, manager`kill, manager`published, ledger
      ensures Valid() && !started
      ensures old(started) ==> manager.kill && !Ready() && manager.orders == AllCancelling(old(manager.orders))
      ensures !old(started) ==> manager.Abstract() == old(manager.Abstract()) && ready == old(ready)
      ensures LedgerAfter(manager.published) == LedgerAfter(old(manager.published))
    {
      if !started { return; }
      started := false;
      manager.ActivateKillSwitch(failing);
      ready := false;
    }

    method Submit(r: Request, answer: Result<int, string>) returns (result: Result<Snapshot, Error>, placed: bool)
      requires Valid()
      modifies manager`orders, manager`published, ledger
      ensures Valid()
      ensures placed <==> started && Ready() && manager.reconciled && ValidRequest(r) && r.clientOrderId !in old(manager.orders)
      ensures manager.Abstract() == if placed then Answer(Insert(old(manager.Abstract()), r), r.clientOrderId, answer)
                                    else old(manager.Abstract())
      ensures placed ==> result == Ok(Answered(NewOrder(r), answer))
      ensures !placed ==> result.Err?
      ensures LedgerAfter(manager.published) == LedgerAfter(old(manager.published))
    {
      if !started || !Ready() { return Err(NotReady), false; }
      result, placed := manager.SubmitMarket(r, answer);
    }

    method Kill(failing: set<string>)
      requires Valid()
      modifies this`ready, manager`orders, manager`kill, manager`published, ledger
      ensures Valid() && manager.kill && !Ready()
      ensures manager.orders == AllCancelling(old(manager.orders))
      ensures LedgerAfter(manager.published) == LedgerAfter(old(manager.published))
    {
      manager.ActivateKillSwitch(failing);
      ready := false;
    }

    /** Exactly when a killed session becomes ready again: the confirmation is right, the
        session is started, both reconciliations and the stream recovery succeed, and every
        order the exchange still lists is resolved. */
    method ResumeAfterReconcile(confirmation: string, first: OpenOrders, second: OpenOrders, key: Option<string>, now: int)
      returns (ok: bool)
      requires Valid()
      modifies this`ready, this`listenKey, this`lastKeepalive, manager`orders, manager`reconciled, manager`kill
      ensures Valid()
      ensures ok <==> && confirmation == OrderProtocol.RESUME_CONFIRMATION && started
                      && first.Listed? && second.Listed? && key.Some? && AllTerminal(Tracked(second.orders))
      ensures ok ==> Ready() && manager.Abstract() == Manager(Tracked(second.orders), true, false)
      ensures !ok ==> manager.kill == old(manager.kill)
      ensures !ok && confirmation == OrderProtocol.RESUME_CONFIRMATION && started ==> !Ready()
      ensures confirmation != OrderProtocol.RESUME_CONFIRMATION || !started ==>
                manager.Abstract() == old(manager.Abstract()) && ready == old(ready)
    {
      if confirmation != OrderProtocol.RESUME_CONFIRMATION || !started { return false; }
      ok := manager.ReconcileStartup(first);
      if ok { ok := RecoverStream(second, key, now); }
      if ok { ok := manager.ClearKillSwitch(); }
      ready := ok;
    }

    /** One round of the supervisor: a failed keepalive kills the session, and recovering the
        stream does not make it ready. */
    method Supervise(now: int, keptAlive: bool, open: OpenOrders, key: Option<string>, failing: set<string>)
      requires Valid()
      modifies this`ready, this`listenKey, this`lastKeepalive,
               manager`orders, manager`reconciled, manager`kill, manager`published, ledger
      ensures Valid()
      ensures now - old(lastKeepalive) < KEEPALIVE_INTERVAL ==>
                manager.Abstract() == old(manager.Abstract()) && ready == old(ready) && lastKeepalive == old(lastKeepalive)
      ensures now - old(lastKeepalive) >= KEEPALIVE_INTERVAL && keptAlive ==>
                manager.Abstract() == old(manager.Abstract()) && ready == old(ready) && lastKeepalive == now
      ensures now - old(lastKeepalive) >= KEEPALIVE_INTERVAL && !keptAlive ==>
                && !Ready()
                && manager.Abstract() == Reconcile(Manager(AllCancelling(old(manager.orders)), old(manager.reconciled), true), open)
      ensures LedgerAfter(manager.published) == LedgerAfter(old(manager.published))
    {
      if now - lastKeepalive < KEEPALIVE_INTERVAL { return; }
      if keptAlive {
        lastKeepalive := now;
      } else {
        ready := false;
        manager.ActivateKillSwitch(failing);
        var recovered := RecoverStream(open, key, now);
      }
    }
  }
}
