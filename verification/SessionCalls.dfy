/** The calls of the order session by themselves: a thread whose steps no other thread
    interrupts does what the class LiveOrderSession promises of the call, whatever the state it
    starts in and whatever the exchange answers. */
module SessionCalls {
  import opened Wrappers
  import opened Orders
  import opened Ledger
  import opened OrderManager
  import opened OrderProtocol

  /** An action a thread performed, and what it got from outside. */
  datatype Deed = Deed(action: Action, input: Input)

  /** From x to y, the thread performs these deeds and is done. */
  ghost predicate Alone(x: Shared, call: Call, todo: seq<Action>, deeds: seq<Deed>, y: Shared)
    decreases |deeds|
  {
    if todo == [] then deeds == [] && y == x
    else
      && deeds != [] && deeds[0].action == todo[0]
      && (todo[0].CollectLive? ==> Lists(deeds[0].input.order, x.m.orders))
      && var outcome := Do(x, call, todo[0], deeds[0].input);
         Alone(outcome.x, call, Left(x, outcome, todo[0], todo[1..], deeds[0].input), deeds[1..], y)
  }

  // ---------------------------------------------------------------- undisturbed runs

  function StepsOf(t: nat, deeds: seq<Deed>): seq<Step> {
    if deeds == [] then [] else [Advance(t, deeds[0].input)] + StepsOf(t, deeds[1..])
  }

  lemma RunCons(states: seq<SessionState>, steps: seq<Step>, s: SessionState, step: Step)
    requires Run(states, steps) && Enabled(s, step) && states[0] == Next(s, step)
    ensures Run([s] + states, [step] + steps)
  {
    hide Next, Enabled;
    var longer, more := [s] + states, [step] + steps;
    forall i | 0 <= i < |more| ensures Enabled(longer[i], more[i]) && longer[i + 1] == Next(longer[i], more[i]) {
      if i > 0 {
        assert longer[i] == states[i - 1] && longer[i + 1] == states[i] && more[i] == steps[i - 1];
      }
    }
  }

  /** Such deeds are a run of the protocol in which only this thread advances. */
  lemma {:induction false} AloneIsRun(s: SessionState, t: nat, deeds: seq<Deed>, y: Shared) returns (states: seq<SessionState>)
    requires t in s.threads && Alone(s.shared, s.threads[t].call, s.threads[t].todo, deeds, y)
    ensures Run(states, StepsOf(t, deeds)) && states[0] == s
    ensures states[|states| - 1] == SessionState(y, s.threads[t := Thread(s.threads[t].call, [])])
    decreases |deeds|
  {
    hide Do, Left, Lists;
    if deeds == [] {
      states := [s];
      assert s.threads == s.threads[t := Thread(s.threads[t].call, [])];
    } else {
      var step := Advance(t, deeds[0].input);
      var n := Next(s, step);
      var rest := AloneIsRun(n, t, deeds[1..], y);
      RunCons(rest, StepsOf(t, deeds[1..]), s, step);
      states := [s] + rest;
      assert n.threads[t := Thread(s.threads[t].call, [])] == s.threads[t := Thread(s.threads[t].call, [])];
    }
  }

  /** And every such run is one of these. */
  lemma {:induction false} RunIsAlone(states: seq<SessionState>, steps: seq<Step>, t: nat) returns (deeds: seq<Deed>)
    requires Run(states, steps) && t in states[0].threads
    requires forall i | 0 <= i < |steps| :: steps[i].Advance? && steps[i].thread == t
    requires t in states[|steps|].threads && states[|steps|].threads[t].todo == []
    ensures steps == StepsOf(t, deeds)
    ensures Alone(states[0].shared, states[0].threads[t].call, states[0].threads[t].todo, deeds, states[|steps|].shared)
    decreases |steps|
  {
    hide Do, Left, Lists;
    if steps == [] {
      deeds := [];
    } else {
      var first := steps[0];
      assert Enabled(states[0], first) && states[1] == Next(states[0], first);
      forall i | 0 <= i < |steps| - 1
        ensures Enabled(states[1..][i], steps[1..][i]) && states[1..][i + 1] == Next(states[1..][i], steps[1..][i])
      {
        assert Enabled(states[i + 1], steps[i + 1]) && states[(i + 1) + 1] == Next(states[i + 1], steps[i + 1]);
      }
      var rest := RunIsAlone(states[1..], steps[1..], t);
      deeds := [Deed(states[0].threads[t].todo[0], first.input)] + rest;
      assert deeds[1..] == rest;
    }
  }

  // ---------------------------------------------------------------- every call ends

  /** How many actions can still come of one. */
  function Weight(a: Action): nat {
    match a
    case LoadReconciled(_) => 8
    case CheckKill(_) => 7
    case InsertPending(_) => 6
    case MarkCancel(_) => 3
    case LoadKillForReady => 2
    case Receive(_) => 2
    case CatchNotReady => 2
    case CatchReject(_) => 2
    case _ => 1
  }

  function Weights(todo: seq<Action>): nat {
    if todo == [] then 0 else Weight(todo[0]) + Weights(todo[1..])
  }

  /** Listings are what can add any number of actions. */
  function Listings(todo: seq<Action>): nat {
    if todo == [] then 0 else (if todo[0].CollectLive? then 1 else 0) + Listings(todo[1..])
  }

  lemma {:induction false} WeightsJoin(front: seq<Action>, back: seq<Action>)
    ensures Weights(front + back) == Weights(front) + Weights(back)
    ensures Listings(front + back) == Listings(front) + Listings(back)
    decreases |front|
  {
    if front == [] {
      assert front + back == back;
    } else {
      WeightsJoin(front[1..], back);
      assert (front + back)[1..] == front[1..] + back;
    }
  }

  lemma {:induction false} UnwindingShrinks(todo: seq<Action>)
    ensures Weights(Unwind(todo)) <= Weights(todo) && Listings(Unwind(todo)) <= Listings(todo)
  {
    if todo != [] {
      UnwindingShrinks(todo[1..]);
      WeightsJoin([StoreReady(false)], todo[1..]);
      if todo[0].CatchReject? { WeightsJoin([Reject(todo[0].id)], todo[1..]); }
    }
  }

  lemma {:induction false} CancelEachLists(ids: seq<string>)
    ensures Listings(CancelEach(ids)) == 0
  {
    if ids != [] {
      CancelEachLists(ids[1..]);
      WeightsJoin([MarkCancel(ids[0]), CatchAndIgnore], CancelEach(ids[1..]));
    }
  }

  lemma WeightsOfOne(a: Action)
    ensures Weights([a]) == Weight(a) && Listings([a]) == if a.CollectLive? then 1 else 0
  {
    assert [a][1..] == [] && Weights([]) == 0 && Listings([]) == 0;
  }

  lemma WeightsOfTwo(a: Action, b: Action)
    ensures Weights([a, b]) == Weight(a) + Weight(b)
    ensures !a.CollectLive? && !b.CollectLive? ==> Listings([a, b]) == 0
  {
    assert [a, b] == [a] + [b];
    WeightsOfOne(a);
    WeightsOfOne(b);
    WeightsJoin([a], [b]);
  }

  /** What an inserted order leaves to be done. */
  lemma PlacingIsLess(r: Request, a: Action, b: Action)
    requires a == Acknowledge(r.clientOrderId) && b == CatchReject(r.clientOrderId)
    ensures Weights([Publish(NewOrder(r)), Place(r), a, b]) == 5 && Listings([Publish(NewOrder(r)), Place(r), a, b]) == 0
  {
    assert [Publish(NewOrder(r)), Place(r), a, b] == [Publish(NewOrder(r)), Place(r)] + [a, b];
    WeightsOfTwo(Publish(NewOrder(r)), Place(r));
    WeightsOfTwo(a, b);
    WeightsJoin([Publish(NewOrder(r)), Place(r)], [a, b]);
  }

  /** What an action leaves is less than the action itself. */
  lemma ThenIsLess(x: Shared, a: Action, input: Input)
    ensures Listings(Then(x, a, input)) == 0 && (!a.CollectLive? ==> Weights(Then(x, a, input)) < Weight(a))
  {
    hide Terminal, Updated, Known, IsExecutionReport, Weights, Listings, CancelEach, NewOrder;
    WeightsOfNone();
    match a
    case CollectLive => CancelEachLists(input.order);
    case InsertPending(r) => PlacingIsLess(r, Acknowledge(r.clientOrderId), CatchReject(r.clientOrderId));
    case MarkCancel(id) => if id in x.m.orders { WeightsOfTwo(Publish(x.m.orders[id].(state := Cancelling)), CallCancel(id)); }
    case LoadReconciled(r) => WeightsOfOne(CheckKill(r));
    case CheckKill(r) => WeightsOfOne(InsertPending(r));
    case LoadKillForReady => WeightsOfOne(StoreReady(!x.m.kill));
    case Receive(e) => WeightsOfOne(Publish(Updated(Known(x.m, e.clientOrderId), e)));
    case _ =>
  }

  lemma WeightsOfNone()
    ensures Weights([]) == 0 && Listings([]) == 0
  {
  }

  lemma LeftIsLess(x: Shared, call: Call, todo: seq<Action>, input: Input)
    requires todo != []
    ensures var left := Left(x, Do(x, call, todo[0], input), todo[0], todo[1..], input);
            Listings(left) < Listings(todo) || (Listings(left) == Listings(todo) && Weights(left) < Weights(todo))
  {
    hide Do, Then, Unwind, Weight;
    ThenIsLess(x, todo[0], input);
    WeightsJoin(Then(x, todo[0], input), todo[1..]);
    UnwindingShrinks(todo[1..]);
    WeightIsPositive(todo[0]);
  }

  lemma WeightIsPositive(a: Action)
    ensures Weight(a) >= 1
  {
  }

  lemma {:induction false} ListingExists(orders: map<string, Snapshot>, live: set<string>) returns (ids: seq<string>)
    ensures forall id :: id in ids <==> id in live
    ensures forall i, j | 0 <= i < j < |ids| :: ids[i] != ids[j]
    decreases |live|
  {
    if live == {} {
      ids := [];
    } else {
      var id :| id in live;
      var rest := ListingExists(orders, live - {id});
      ids := [id] + rest;
    }
  }

  /** From every state every thread can be run to its end by itself. */
  lemma {:induction false} Finishes(x: Shared, call: Call, todo: seq<Action>) returns (deeds: seq<Deed>, y: Shared)
    ensures Alone(x, call, todo, deeds, y)
    decreases Listings(todo), Weights(todo)
  {
    hide Do, Left;
    if todo == [] {
      deeds, y := [], x;
    } else {
      var ids := ListingExists(x.m.orders, set id | id in x.m.orders && Live(x.m.orders[id].state));
      var input := Input(true, 1, "", Listed([]), ids);
      var outcome := Do(x, call, todo[0], input);
      LeftIsLess(x, call, todo, input);
      var rest: seq<Deed>;
      rest, y := Finishes(outcome.x, call, Left(x, outcome, todo[0], todo[1..], input));
      deeds := [Deed(todo[0], input)] + rest;
      assert deeds[1..] == rest;
    }
  }

  // ---------------------------------------------------------------- step by step

  /** The first deed. */
  lemma Starts(x: Shared, call: Call, a: Action, rest: seq<Action>, deeds: seq<Deed>, y: Shared)
    requires Alone(x, call, [a] + rest, deeds, y)
    ensures deeds != [] && deeds[0].action == a
    ensures a.CollectLive? ==> Lists(deeds[0].input.order, x.m.orders)
    ensures var outcome := Do(x, call, a, deeds[0].input);
            Alone(outcome.x, call, Left(x, outcome, a, rest, deeds[0].input), deeds[1..], y)
  {
    assert ([a] + rest)[1..] == rest;
  }

  lemma Ended(x: Shared, call: Call, deeds: seq<Deed>, y: Shared)
    requires Alone(x, call, [], deeds, y)
    ensures deeds == [] && y == x
  {
  }

  /** The first deed, when the action goes through. */
  lemma Goes(x: Shared, call: Call, a: Action, rest: seq<Action>, deeds: seq<Deed>, y: Shared, n: Shared, more: seq<Action>)
    requires Alone(x, call, [a] + rest, deeds, y)
    requires deeds != [] ==> Do(x, call, a, deeds[0].input) == Outcome.Goes(n) && Then(x, a, deeds[0].input) + rest == more
    ensures deeds != [] && deeds[0].action == a
    ensures a.CollectLive? ==> Lists(deeds[0].input.order, x.m.orders)
    ensures Alone(n, call, more, deeds[1..], y)
  {
    hide Do, Then, Lists;
    Starts(x, call, a, rest, deeds, y);
  }

  /** The first deed, when the action goes through or throws. */
  lemma Tests(x: Shared, call: Call, a: Action, rest: seq<Action>, deeds: seq<Deed>, y: Shared, n: Shared, ok: bool)
    requires Alone(x, call, [a] + rest, deeds, y) && !a.CollectLive?
    requires deeds != [] ==> Do(x, call, a, deeds[0].input) == if ok then Outcome.Goes(n) else Throws(n)
    requires deeds != [] ==> Then(x, a, deeds[0].input) == []
    ensures deeds != [] && deeds[0].action == a
    ensures Alone(n, call, if ok then rest else Unwind(rest), deeds[1..], y)
  {
    hide Do, Then, Lists, Unwind;
    Starts(x, call, a, rest, deeds, y);
    assert [] + rest == rest;
  }

  lemma DoAnswered(x: Shared, call: Call, a: Action, input: Input)
    requires a.Place? || a.CallCancel? || a.FetchOpen? || a.RestartStream?
    ensures Do(x, call, a, input) == Check(x, input.ok) && Then(x, a, input) == []
  {
  }

  lemma DoStoreReady(x: Shared, call: Call, value: bool, input: Input)
    ensures Do(x, call, StoreReady(value), input) == Outcome.Goes(x.(ready := value)) && Then(x, StoreReady(value), input) == []
  {
  }

  lemma DoLoadKill(x: Shared, call: Call, input: Input)
    ensures Do(x, call, LoadKillForReady, input) == Outcome.Goes(x)
    ensures Then(x, LoadKillForReady, input) == [StoreReady(!x.m.kill)]
  {
  }

  lemma DoCatch(x: Shared, call: Call, a: Action, input: Input)
    requires a.CatchAndIgnore? || a.CatchNotReady? || a.CatchReject?
    ensures Do(x, call, a, input) == Outcome.Goes(x) && Then(x, a, input) == []
  {
  }

  lemma DoClear(x: Shared, call: Call, input: Input)
    ensures Do(x, call, CheckReconciled, input) == Check(x, x.m.reconciled) && Then(x, CheckReconciled, input) == []
    ensures Do(x, call, ClearKill, input) ==
            if AllTerminal(x.m.orders) then Outcome.Goes(x.(m := x.m.(kill := false))) else Throws(x)
    ensures Then(x, ClearKill, input) == []
  {
  }

  lemma DoInstall(x: Shared, call: Call, input: Input)
    ensures Do(x, call, InstallOpen, input) == Check(x.(m := Reconcile(x.m, input.open)), input.open.Listed?)
    ensures Then(x, InstallOpen, input) == []
  {
  }

  lemma DoPublish(x: Shared, call: Call, u: Snapshot, input: Input)
    ensures Do(x, call, Publish(u), input) == Outcome.Goes(Published(x, call, u)) && Then(x, Publish(u), input) == []
  {
  }

  /** What is published without being an event does not change a thing, unless it is a fill. */
  lemma NoFillNoChange(x: Shared, call: Call, u: Snapshot)
    requires !call.Event? && u.state != Filled
    ensures Published(x, call, u) == x
  {
  }

  /** The thread called the exchange to cancel an order. */
  ghost predicate Called(deeds: seq<Deed>, id: string) {
    exists d | d in deeds :: d.action == CallCancel(id)
  }

  // ---------------------------------------------------------------- cancelling

  /** Marking one order that is not resolved, publishing it, and calling the exchange. What
      follows is a catch, or the end of the call. */
  lemma MarkAlone(x: Shared, call: Call, id: string, rest: seq<Action>, deeds: seq<Deed>, y: Shared)
    requires !call.Event? && id in x.m.orders && !Terminal(x.m.orders[id].state)
    requires Alone(x, call, [MarkCancel(id)] + rest, deeds, y)
    ensures |deeds| >= 3 && deeds[2].action == CallCancel(id)
    ensures deeds[0].action == MarkCancel(id) && deeds[1].action.Publish?
    ensures Alone(x.(m := MarkCancelling(x.m, id)), call, if deeds[2].input.ok then rest else Unwind(rest), deeds[3..], y)
  {
    hide Alone, Unwind, Published, Terminal, MarkCancelling, Lists, AllTerminal;
    var u := x.m.orders[id].(state := Cancelling);
    var marked := x.(m := MarkCancelling(x.m, id));
    var calling := [CallCancel(id)] + rest;
    assert [Publish(u), CallCancel(id)] + rest == [Publish(u)] + calling;
    Goes(x, call, MarkCancel(id), rest, deeds, y, marked, [Publish(u)] + calling);
    NoFillNoChange(marked, call, u);
    assert [] + calling == calling && [] + rest == rest;
    Goes(marked, call, Publish(u), calling, deeds[1..], y, marked, calling);
    assert deeds[1..][1..] == deeds[2..];
    Starts(marked, call, CallCancel(id), rest, deeds[2..], y);
    assert deeds[2..][1..] == deeds[3..];
  }

  lemma CatchAlone(x: Shared, call: Call, rest: seq<Action>, deeds: seq<Deed>, y: Shared)
    requires Alone(x, call, [CatchAndIgnore] + rest, deeds, y)
    ensures deeds != [] && deeds[0].action.CatchAndIgnore? && Alone(x, call, rest, deeds[1..], y)
  {
    Starts(x, call, CatchAndIgnore, rest, deeds, y);
    assert [] + rest == rest;
  }

  lemma CancelOneAlone(x: Shared, call: Call, id: string, rest: seq<Action>, deeds: seq<Deed>, y: Shared) returns (k: nat)
    requires !call.Event? && id in x.m.orders && Live(x.m.orders[id].state)
    requires Alone(x, call, [MarkCancel(id), CatchAndIgnore] + rest, deeds, y)
    ensures 3 <= k <= |deeds| && deeds[2].action == CallCancel(id)
    ensures forall i | 0 <= i < k && i != 2 :: !deeds[i].action.CallCancel?
    ensures Alone(x.(m := MarkCancelling(x.m, id)), call, rest, deeds[k..], y)
  {
    hide Alone, MarkCancelling;
    var after := [CatchAndIgnore] + rest;
    assert [MarkCancel(id), CatchAndIgnore] + rest == [MarkCancel(id)] + after;
    MarkAlone(x, call, id, after, deeds, y);
    if deeds[2].input.ok {
      CatchAlone(x.(m := MarkCancelling(x.m, id)), call, rest, deeds[3..], y);
      k := 4;
      assert deeds[3..][1..] == deeds[4..];
    } else {
      assert after[1..] == rest;
      k := 3;
    }
  }

  /** The orders after those listed have been sent a cancel. */
  function CancelledAmong(orders: map<string, Snapshot>, ids: seq<string>): map<string, Snapshot> {
    map id | id in orders :: if id in ids then IfLiveCancelling(orders[id]) else orders[id]
  }

  lemma OneOfThem(m: Manager, ids: seq<string>)
    requires ids != [] && ids[0] in m.orders && Live(m.orders[ids[0]].state) && ids[0] !in ids[1..]
    ensures CancelledAmong(MarkCancelling(m, ids[0]).orders, ids[1..]) == CancelledAmong(m.orders, ids)
  {
    assert ids == [ids[0]] + ids[1..];
  }

  lemma {:induction false} CancelsAlone(x: Shared, call: Call, ids: seq<string>, back: seq<Action>, deeds: seq<Deed>, y: Shared)
    returns (k: nat)
    requires !call.Event? && forall id | id in ids :: id in x.m.orders && Live(x.m.orders[id].state)
    requires forall i, j | 0 <= i < j < |ids| :: ids[i] != ids[j]
    requires Alone(x, call, CancelEach(ids) + back, deeds, y)
    ensures k <= |deeds| && forall id :: Called(deeds[..k], id) <==> id in ids
    ensures Alone(x.(m := x.m.(orders := CancelledAmong(x.m.orders, ids))), call, back, deeds[k..], y)
    decreases |ids|
  {
    hide Alone, MarkCancelling, Live;
    if ids == [] {
      k := 0;
      assert CancelEach(ids) + back == back && deeds[0..] == deeds;
      assert CancelledAmong(x.m.orders, ids) == x.m.orders;
    } else {
      var rest := CancelEach(ids[1..]) + back;
      assert CancelEach(ids) + back == [MarkCancel(ids[0]), CatchAndIgnore] + rest;
      var i := CancelOneAlone(x, call, ids[0], rest, deeds, y);
      var marked := x.(m := MarkCancelling(x.m, ids[0]));
      MarkedStaysLive(x.m, ids);
      var j := CancelsAlone(marked, call, ids[1..], back, deeds[i..], y);
      k := i + j;
      OneOfThem(x.m, ids);
      KeepsSwitches(x.m, ids[0]);
      assert deeds[i..][j..] == deeds[k..];
      CalledSplits(deeds, i, j, ids[0]);
      forall id ensures Called(deeds[..k], id) <==> id in ids {
        assert id in ids <==> id == ids[0] || id in ids[1..];
      }
    }
  }

  lemma KeepsSwitches(m: Manager, id: string)
    requires id in m.orders
    ensures MarkCancelling(m, id).reconciled == m.reconciled && MarkCancelling(m, id).kill == m.kill
  {
  }

  lemma MarkedStaysLive(m: Manager, ids: seq<string>)
    requires ids != [] && (forall id | id in ids :: id in m.orders && Live(m.orders[id].state))
    requires forall i, j | 0 <= i < j < |ids| :: ids[i] != ids[j]
    ensures ids[0] in m.orders && ids[0] !in ids[1..]
    ensures var n := MarkCancelling(m, ids[0]); forall id | id in ids[1..] :: id in n.orders && Live(n.orders[id].state)
    ensures forall i, j | 0 <= i < j < |ids[1..]| :: ids[1..][i] != ids[1..][j]
  {
  }

  /** One order first, then the others. */
  lemma CalledSplits(deeds: seq<Deed>, i: nat, j: nat, first: string)
    requires 3 <= i && i + j <= |deeds| && deeds[2].action == CallCancel(first)
    requires forall m | 0 <= m < i && m != 2 :: !deeds[m].action.CallCancel?
    ensures forall id :: Called(deeds[..i + j], id) <==> id == first || Called(deeds[i..][..j], id)
  {
    var all, front, back := deeds[..i + j], deeds[..i], deeds[i..][..j];
    assert all == front + back;
    assert front[2] == deeds[2];
    forall id ensures Called(all, id) <==> id == first || Called(back, id) {
      if Called(front, id) {
        var m :| 0 <= m < i && front[m].action == CallCancel(id);
        assert front[m] == deeds[m];
      }
      if id == first { assert front[2] in all; }
    }
  }

  /** Listing the live orders and cancelling each of them. */
  lemma KillingAlone(x: Shared, call: Call, back: seq<Action>, deeds: seq<Deed>, y: Shared) returns (k: nat)
    requires !call.Event? && Alone(x, call, [StoreKill, CollectLive] + back, deeds, y)
    ensures k <= |deeds| && forall id :: Called(deeds[..k], id) <==> id in x.m.orders && Live(x.m.orders[id].state)
    ensures Alone(x.(m := Manager(AllCancelling(x.m.orders), x.m.reconciled, true)), call, back, deeds[k..], y)
  {
    hide Alone, Live, Lists, AllTerminal, CancelEach, CancelledAmong, AllCancelling;
    var collecting := [CollectLive] + back;
    assert [StoreKill, CollectLive] + back == [StoreKill] + collecting;
    var killed := x.(m := x.m.(kill := true));
    assert [] + collecting == collecting;
    Goes(x, call, StoreKill, collecting, deeds, y, killed, collecting);
    Starts(killed, call, CollectLive, back, deeds[1..], y);
    assert deeds[1..][1..] == deeds[2..];
    var ids := deeds[1].input.order;
    ListingIsAll(x.m.orders, ids);
    ListingIsDistinct(x.m.orders, ids);
    var j := CancelsAlone(killed, call, ids, back, deeds[2..], y);
    k := 2 + j;
    assert deeds[2..][j..] == deeds[k..];
    CalledAfterTwo(deeds, j);
  }

  lemma CalledAfterTwo(deeds: seq<Deed>, j: nat)
    requires 2 + j <= |deeds| && !deeds[0].action.CallCancel? && !deeds[1].action.CallCancel?
    ensures forall id :: Called(deeds[..2 + j], id) <==> Called(deeds[2..][..j], id)
  {
    assert deeds[..2 + j] == [deeds[0], deeds[1]] + deeds[2..][..j];
  }

  lemma ListingIsDistinct(orders: map<string, Snapshot>, ids: seq<string>)
    requires Lists(ids, orders)
    ensures forall i, j | 0 <= i < j < |ids| :: ids[i] != ids[j]
  {
  }

  lemma ListingIsAll(orders: map<string, Snapshot>, ids: seq<string>)
    requires Lists(ids, orders)
    ensures CancelledAmong(orders, ids) == AllCancelling(orders)
    ensures forall id :: id in ids <==> id in orders && Live(orders[id].state)
  {
  }

  /** `kill` by itself: as the class promises, and the exchange is called to cancel exactly the
      orders that were live. */
  lemma KillAlone(x: Shared, deeds: seq<Deed>, y: Shared)
    requires Alone(x, Kill, Program(Kill), deeds, y)
    ensures y == x.(m := Manager(AllCancelling(x.m.orders), x.m.reconciled, true), ready := false)
    ensures forall id :: Called(deeds, id) <==> id in x.m.orders && Live(x.m.orders[id].state)
  {
    hide Live, Alone;
    assert Program(Kill) == [StoreKill, CollectLive] + [StoreReady(false)];
    var k := KillingAlone(x, Kill, [StoreReady(false)], deeds, y);
    StoresNotReady(x.(m := Manager(AllCancelling(x.m.orders), x.m.reconciled, true)), Kill, deeds[k..], y);
    NoMoreCalls(deeds, k);
  }

  lemma NoMoreCalls(deeds: seq<Deed>, k: nat)
    requires k <= |deeds| && forall d | d in deeds[k..] :: !d.action.CallCancel?
    ensures forall id :: Called(deeds, id) <==> Called(deeds[..k], id)
  {
    assert deeds == deeds[..k] + deeds[k..];
  }

  lemma StoresNotReady(x: Shared, call: Call, deeds: seq<Deed>, y: Shared)
    requires Alone(x, call, [StoreReady(false)], deeds, y)
    ensures y == x.(ready := false) && forall d | d in deeds :: d.action.StoreReady?
  {
    assert [StoreReady(false)] == [StoreReady(false)] + [];
    Goes(x, call, StoreReady(false), [], deeds, y, x.(ready := false), []);
    Ended(x.(ready := false), call, deeds[1..], y);
    assert deeds == [deeds[0]] + deeds[1..];
  }

  /** `stop` by itself. */
  lemma StopAlone(x: Shared, deeds: seq<Deed>, y: Shared)
    requires Alone(x, Stop, Program(Stop), deeds, y)
    ensures !x.started ==> y == x && forall id :: !Called(deeds, id)
    ensures x.started ==>
              && y == x.(started := false, m := Manager(AllCancelling(x.m.orders), x.m.reconciled, true), ready := false)
              && forall id :: Called(deeds, id) <==> id in x.m.orders && Live(x.m.orders[id].state)
  {
    hide Live, Alone;
    var rest := [StoreKill, CollectLive] + [StoreReady(false)];
    assert Program(Stop) == [ExchangeStarted(false)] + rest;
    if x.started {
      var stopped := x.(started := false);
      assert [] + rest == rest;
      Goes(x, Stop, ExchangeStarted(false), rest, deeds, y, stopped, rest);
      var k := KillingAlone(stopped, Stop, [StoreReady(false)], deeds[1..], y);
      StoresNotReady(stopped.(m := Manager(AllCancelling(x.m.orders), x.m.reconciled, true)), Stop, deeds[1..][k..], y);
      NoMoreCalls(deeds[1..], k);
      CalledAfterOne(deeds);
    } else {
      Starts(x, Stop, ExchangeStarted(false), rest, deeds, y);
      Ended(x, Stop, deeds[1..], y);
      assert deeds == [deeds[0]] + deeds[1..];
    }
  }

  lemma CalledAfterOne(deeds: seq<Deed>)
    requires deeds != [] && !deeds[0].action.CallCancel?
    ensures forall id :: Called(deeds, id) <==> Called(deeds[1..], id)
  {
    assert deeds == [deeds[0]] + deeds[1..];
  }

  // ---------------------------------------------------------------- recovering

  predicate Catches(a: Action) {
    a.CatchAndIgnore? || a.CatchNotReady? || a.CatchReject?
  }

  /** An exception passes over what is no catch. */
  lemma {:induction false} UnwindsPast(front: seq<Action>, back: seq<Action>)
    requires forall a | a in front :: !Catches(a)
    ensures Unwind(front + back) == Unwind(back)
    decreases |front|
  {
    if front == [] {
      assert front + back == back;
    } else {
      assert front[0] in front && forall a | a in front[1..] :: a in front;
      UnwindsPast(front[1..], back);
      assert (front + back)[1..] == front[1..] + back;
    }
  }

  /** The open orders were asked for at deed k, with this result. */
  ghost predicate Fetching(deeds: seq<Deed>, k: nat, open: OpenOrders) {
    && k < |deeds| && deeds[k].action.FetchOpen?
    && (!deeds[k].input.ok ==> open.Unavailable?)
    && (deeds[k].input.ok ==> k + 1 < |deeds| && deeds[k + 1].action.InstallOpen? && deeds[k + 1].input.open == open)
  }

  /** A recovery began at deed k: these are the open orders it got, and whether it succeeded. */
  ghost predicate Recovering(deeds: seq<Deed>, k: nat, open: OpenOrders, ok: bool) {
    && k < |deeds| && deeds[k].action == StoreReady(false) && Fetching(deeds, k + 1, open)
    && (open.Listed? ==> k + 3 < |deeds| && deeds[k + 3].action.RestartStream?)
    && (ok <==> open.Listed? && deeds[k + 3].input.ok)
  }

  lemma RecoveringLater(deeds: seq<Deed>, k: nat, i: nat, open: OpenOrders, ok: bool)
    requires k <= |deeds|
    ensures Fetching(deeds[k..], i, open) <==> Fetching(deeds, k + i, open)
    ensures Recovering(deeds[k..], i, open, ok) <==> Recovering(deeds, k + i, open, ok)
  {
    assert forall j | k <= j < |deeds| :: deeds[k..][j - k] == deeds[j];
  }

  lemma FetchAlone(x: Shared, call: Call, back: seq<Action>, deeds: seq<Deed>, y: Shared) returns (open: OpenOrders, k: nat)
    requires Alone(x, call, [FetchOpen, InstallOpen] + back, deeds, y)
    ensures Fetching(deeds, 0, open) && k <= |deeds| && (open.Listed? ==> k == 2)
    ensures Alone(x.(m := Reconcile(x.m, open)), call, if open.Listed? then back else Unwind(back), deeds[k..], y)
  {
    hide Alone, Do, Then, Unwind, Reconcile;
    var installing := [InstallOpen] + back;
    assert [FetchOpen, InstallOpen] + back == [FetchOpen] + installing;
    if deeds != [] { DoAnswered(x, call, FetchOpen, deeds[0].input); }
    Tests(x, call, FetchOpen, installing, deeds, y, x, deeds != [] && deeds[0].input.ok);
    UnwindsPast([InstallOpen], back);
    if deeds[0].input.ok {
      open := if |deeds| > 1 then deeds[1].input.open else Unavailable;
      k := 2;
      if |deeds| > 1 { DoInstall(x, call, deeds[1].input); }
      Tests(x, call, InstallOpen, back, deeds[1..], y, x.(m := Reconcile(x.m, open)), open.Listed?);
      assert deeds[1..][1..] == deeds[2..];
    } else {
      open, k := Unavailable, 1;
      NothingInstalled(x);
    }
  }

  lemma NothingInstalled(x: Shared)
    ensures x.(m := Reconcile(x.m, Unavailable)) == x
  {
  }

  lemma RecoverAlone(x: Shared, call: Call, back: seq<Action>, deeds: seq<Deed>, y: Shared)
    returns (open: OpenOrders, ok: bool, k: nat)
    requires Alone(x, call, RECOVER + back, deeds, y)
    ensures Recovering(deeds, 0, open, ok) && k <= |deeds| && (ok ==> k == 6)
    ensures Alone(x.(m := Reconcile(x.m, open), ready := ok && !x.m.kill), call, if ok then back else Unwind(back), deeds[k..], y)
  {
    hide Alone, Lists, Reconcile, Do, Then, Unwind;
    var restart := [RestartStream, LoadKillForReady] + back;
    var fetch := [FetchOpen, InstallOpen] + restart;
    assert RECOVER + back == [StoreReady(false)] + fetch;
    NotReadyGoes(x, call, fetch, deeds, y);
    var i: nat;
    open, i := FetchAlone(x.(ready := false), call, restart, deeds[1..], y);
    assert deeds[1..][i..] == deeds[1 + i..];
    var z := x.(ready := false, m := Reconcile(x.m, open));
    UnwindsPast([RestartStream, LoadKillForReady], back);
    RecoveringLater(deeds, 1, 0, open, false);
    ok := false;
    k := 1 + i;
    if open.Listed? {
      ReconcileKeepsKill(x.m, open);
      ok := RestartAlone(z, call, back, deeds[3..], y);
      k := if ok then 6 else 4;
      assert ok ==> deeds[3..][3..] == deeds[6..];
      assert deeds[3..][1..] == deeds[4..];
    }
  }

  lemma ReconcileKeepsKill(m: Manager, open: OpenOrders)
    ensures Reconcile(m, open).kill == m.kill
  {
  }

  lemma NotReadyGoes(x: Shared, call: Call, rest: seq<Action>, deeds: seq<Deed>, y: Shared)
    requires Alone(x, call, [StoreReady(false)] + rest, deeds, y)
    ensures deeds != [] && deeds[0].action == StoreReady(false) && Alone(x.(ready := false), call, rest, deeds[1..], y)
  {
    hide Alone, Do, Then;
    if deeds != [] { DoStoreReady(x, call, false, deeds[0].input); }
    Tests(x, call, StoreReady(false), rest, deeds, y, x.(ready := false), true);
  }

  /** The rest of a recovery that has installed a list. */
  lemma RestartAlone(x: Shared, call: Call, back: seq<Action>, deeds: seq<Deed>, y: Shared) returns (ok: bool)
    requires Alone(x, call, [RestartStream, LoadKillForReady] + back, deeds, y)
    ensures deeds != [] && deeds[0].action.RestartStream? && ok == deeds[0].input.ok && (ok ==> |deeds| >= 3)
    ensures ok ==> Alone(x.(ready := !x.m.kill), call, back, deeds[3..], y)
    ensures !ok ==> Alone(x, call, Unwind(back), deeds[1..], y)
  {
    hide Alone, Do, Then, Unwind;
    var loading := [LoadKillForReady] + back;
    assert [RestartStream, LoadKillForReady] + back == [RestartStream] + loading;
    ok := deeds != [] && deeds[0].input.ok;
    if deeds != [] { DoAnswered(x, call, RestartStream, deeds[0].input); }
    Tests(x, call, RestartStream, loading, deeds, y, x, ok);
    UnwindsPast([LoadKillForReady], back);
    if ok {
      if |deeds| > 1 { DoLoadKill(x, call, deeds[1].input); }
      if |deeds| > 2 { DoStoreReady(x, call, !x.m.kill, deeds[2].input); }
      Goes(x, call, LoadKillForReady, back, deeds[1..], y, x, [StoreReady(!x.m.kill)] + back);
      assert deeds[1..][1..] == deeds[2..];
      Tests(x, call, StoreReady(!x.m.kill), back, deeds[2..], y, x.(ready := !x.m.kill), true);
      assert deeds[2..][1..] == deeds[3..];
    }
  }

  /** `start` by itself: nothing when the session was started before. Otherwise the open orders
      are installed, and the session is ready iff the recovery succeeded and it is not killed. */
  lemma StartAlone(x: Shared, deeds: seq<Deed>, y: Shared) returns (open: OpenOrders, ok: bool)
    requires Alone(x, Start, Program(Start), deeds, y)
    ensures x.started ==> y == x
    ensures !x.started ==>
              && Recovering(deeds, 2, open, ok)
              && y == x.(started := true, handler := true, m := Reconcile(x.m, open), ready := ok && !x.m.kill)
  {
    hide Alone, Lists, Reconcile;
    var rest := [SetHandler] + RECOVER;
    assert Program(Start) == [ExchangeStarted(true)] + rest;
    open, ok := Unavailable, false;
    if x.started {
      Starts(x, Start, ExchangeStarted(true), rest, deeds, y);
      Ended(x, Start, deeds[1..], y);
    } else {
      var begun := x.(started := true);
      assert [] + rest == rest && [] + RECOVER == RECOVER == RECOVER + [];
      Goes(x, Start, ExchangeStarted(true), rest, deeds, y, begun, rest);
      Goes(begun, Start, SetHandler, RECOVER, deeds[1..], y, begun.(handler := true), RECOVER);
      assert deeds[1..][1..] == deeds[2..];
      var k: nat;
      open, ok, k := RecoverAlone(begun.(handler := true), Start, [], deeds[2..], y);
      RecoveringLater(deeds, 2, 0, open, ok);
      Ended(begun.(handler := true, m := Reconcile(x.m, open), ready := ok && !x.m.kill), Start, deeds[2..][k..], y);
    }
  }

  /** `resume_after_reconcile` by itself: exactly when the session becomes ready again, and what
      it leaves otherwise. */
  lemma ResumeAlone(x: Shared, c: string, deeds: seq<Deed>, y: Shared) returns (first: OpenOrders, second: OpenOrders, ok: bool)
    requires Alone(x, Resume(c), Program(Resume(c)), deeds, y)
    ensures c != RESUME_CONFIRMATION || !x.started ==> y == x
    ensures c == RESUME_CONFIRMATION && x.started ==>
              && Fetching(deeds, 1, first)
              && (first.Listed? ==> Recovering(deeds, 3, second, ok))
              && y == if first.Listed? && ok && AllTerminal(Tracked(second.orders))
                      then x.(m := Manager(Tracked(second.orders), true, false), ready := true)
                      else x.(m := if first.Listed? then Reconcile(Reconcile(x.m, first), second) else Reconcile(x.m, first),
                              ready := false)
  {
    hide Alone, Lists, Reconcile, AllTerminal, Tracked;
    first, second, ok := Unavailable, Unavailable, false;
    if c != RESUME_CONFIRMATION {
      Ended(x, Resume(c), deeds, y);
      return;
    }
    var recover := RECOVER + CLEARING;
    var rest := [FetchOpen, InstallOpen] + recover;
    assert Program(Resume(c)) == [TestResumable] + rest;
    if !x.started {
      Starts(x, Resume(c), TestResumable, rest, deeds, y);
      Ended(x, Resume(c), deeds[1..], y);
      return;
    }
    assert [] + rest == rest;
    Goes(x, Resume(c), TestResumable, rest, deeds, y, x, rest);
    first, second, ok := ResumingAlone(x, c, deeds[1..], y);
    RecoveringLater(deeds, 1, 0, first, false);
    RecoveringLater(deeds, 1, 2, second, ok);
  }

  /** The try block of a resume. */
  lemma ResumingAlone(x: Shared, c: string, deeds: seq<Deed>, y: Shared) returns (first: OpenOrders, second: OpenOrders, ok: bool)
    requires Alone(x, Resume(c), [FetchOpen, InstallOpen] + (RECOVER + CLEARING), deeds, y)
    ensures Fetching(deeds, 0, first) && (first.Listed? ==> Recovering(deeds, 2, second, ok))
    ensures y == if first.Listed? && ok && AllTerminal(Tracked(second.orders))
                 then x.(m := Manager(Tracked(second.orders), true, false), ready := true)
                 else x.(m := if first.Listed? then Reconcile(Reconcile(x.m, first), second) else Reconcile(x.m, first),
                         ready := false)
  {
    hide Alone, Reconcile, Unwind, AllTerminal, Tracked, Do, Then;
    second, ok := Unavailable, false;
    var i: nat;
    first, i := FetchAlone(x, Resume(c), RECOVER + CLEARING, deeds, y);
    var m := Reconcile(x.m, first);
    if first.Listed? {
      second, ok := RecoveringAlone(x.(m := m), c, deeds[2..], y);
      RecoveringLater(deeds, 2, 0, second, ok);
      ListIsInstalled(m, second);
    } else {
      UnwindsPast(RECOVER, CLEARING);
      ClearingFails(x.(m := m), c, deeds[i..], y);
    }
  }

  /** Its recovery and what follows. */
  lemma RecoveringAlone(x: Shared, c: string, deeds: seq<Deed>, y: Shared) returns (open: OpenOrders, ok: bool)
    requires Alone(x, Resume(c), RECOVER + CLEARING, deeds, y)
    ensures Recovering(deeds, 0, open, ok)
    ensures y == if ok && AllTerminal(Tracked(open.orders)) then x.(m := Reconcile(x.m, open).(kill := false), ready := true)
                 else x.(m := Reconcile(x.m, open), ready := false)
  {
    hide Alone, Reconcile, Unwind, AllTerminal, Tracked, Do, Then;
    var k: nat;
    open, ok, k := RecoverAlone(x, Resume(c), CLEARING, deeds, y);
    var z := x.(m := Reconcile(x.m, open), ready := ok && !x.m.kill);
    ListIsInstalled(x.m, open);
    if ok { ClearingAlone(z, c, deeds[k..], y); } else { ClearingFails(z, c, deeds[k..], y); }
  }

  const CLEARING: seq<Action> := [CheckReconciled, ClearKill, StoreReady(true), CatchNotReady]

  lemma ListIsInstalled(m: Manager, open: OpenOrders)
    ensures open.Listed? ==> Reconcile(m, open) == Manager(Tracked(open.orders), true, m.kill)
  {
  }

  lemma ClearingFails(x: Shared, c: string, deeds: seq<Deed>, y: Shared)
    requires Alone(x, Resume(c), Unwind(CLEARING), deeds, y)
    ensures y == x.(ready := false)
  {
    UnwindsPast(CLEARING[..3], [CatchNotReady]);
    assert CLEARING == CLEARING[..3] + [CatchNotReady] && Unwind([CatchNotReady]) == [StoreReady(false)];
    hide Alone;
    StoresNotReady(x, Resume(c), deeds, y);
  }

  lemma ClearingAlone(x: Shared, c: string, deeds: seq<Deed>, y: Shared)
    requires x.m.reconciled && Alone(x, Resume(c), CLEARING, deeds, y)
    ensures y == if AllTerminal(x.m.orders) then x.(m := x.m.(kill := false), ready := true) else x.(ready := false)
  {
    hide Alone, AllTerminal, Do, Then, Unwind;
    var call := Resume(c);
    var storing := [StoreReady(true), CatchNotReady];
    var clearing := [ClearKill] + storing;
    assert CLEARING == [CheckReconciled] + clearing;
    forall z: Shared, input ensures Do(z, call, CheckReconciled, input) == Check(z, z.m.reconciled)
      ensures Then(z, CheckReconciled, input) == [] && Then(z, ClearKill, input) == []
      ensures Do(z, call, ClearKill, input) == if AllTerminal(z.m.orders) then Outcome.Goes(z.(m := z.m.(kill := false))) else Throws(z)
    {
      DoClear(z, call, input);
    }
    Tests(x, call, CheckReconciled, clearing, deeds, y, x, true);
    var cleared := if AllTerminal(x.m.orders) then x.(m := x.m.(kill := false)) else x;
    Tests(x, call, ClearKill, storing, deeds[1..], y, cleared, AllTerminal(x.m.orders));
    if AllTerminal(x.m.orders) {
      ReadyAtLast(cleared, c, deeds[1..][1..], y);
    } else {
      UnwindsPast([StoreReady(true)], [CatchNotReady]);
      assert storing == [StoreReady(true)] + [CatchNotReady];
      CaughtNotReady();
      StoresNotReady(x, call, deeds[1..][1..], y);
    }
  }

  lemma CaughtNotReady()
    ensures Unwind([CatchNotReady]) == [StoreReady(false)]
  {
  }

  lemma ReadyAtLast(x: Shared, c: string, deeds: seq<Deed>, y: Shared)
    requires Alone(x, Resume(c), [StoreReady(true), CatchNotReady], deeds, y)
    ensures y == x.(ready := true)
  {
    hide Alone, Do, Then, Unwind;
    var call, z := Resume(c), x.(ready := true);
    assert [StoreReady(true), CatchNotReady] == [StoreReady(true)] + [CatchNotReady] && [CatchNotReady] == [CatchNotReady] + [];
    if deeds != [] { DoStoreReady(x, call, true, deeds[0].input); }
    Tests(x, call, StoreReady(true), [CatchNotReady], deeds, y, z, true);
    if deeds[1..] != [] { DoCatch(z, call, CatchNotReady, deeds[1..][0].input); }
    Tests(z, call, CatchNotReady, [], deeds[1..], y, z, true);
    Ended(z, call, deeds[1..][1..], y);
  }

  /** A failed keepalive by itself: killed, every live order cancelled, the open orders
      installed, and not ready whether or not the recovery succeeds. */
  lemma KeepaliveAlone(x: Shared, deeds: seq<Deed>, y: Shared) returns (k: nat, open: OpenOrders, ok: bool)
    requires Alone(x, KeepaliveFailed, Program(KeepaliveFailed), deeds, y)
    ensures k <= |deeds| && Recovering(deeds, k, open, ok)
    ensures forall id :: Called(deeds[..k], id) <==> id in x.m.orders && Live(x.m.orders[id].state)
    ensures y == x.(m := Reconcile(Manager(AllCancelling(x.m.orders), x.m.reconciled, true), open), ready := false)
  {
    hide Alone, Lists, Reconcile, Unwind, Live, AllCancelling;
    var recover := RECOVER + [CatchAndIgnore];
    var killing := [StoreKill, CollectLive] + recover;
    assert Program(KeepaliveFailed) == [StoreReady(false)] + killing;
    NotReadyGoes(x, KeepaliveFailed, killing, deeds, y);
    var i := KillingAlone(x.(ready := false), KeepaliveFailed, recover, deeds[1..], y);
    var killed := Manager(AllCancelling(x.m.orders), x.m.reconciled, true);
    k := 1 + i;
    assert deeds[1..][i..] == deeds[k..];
    var j: nat;
    open, ok, j := RecoverAlone(x.(ready := false, m := killed), KeepaliveFailed, [CatchAndIgnore], deeds[k..], y);
    RecoveringLater(deeds, k, 0, open, ok);
    CalledBehindOne(deeds, i);
    var z := x.(ready := false, m := Reconcile(killed, open));
    IgnoresAll(z, KeepaliveFailed, ok, deeds[k..][j..], y);
  }

  lemma CalledBehindOne(deeds: seq<Deed>, i: nat)
    requires 1 + i <= |deeds| && !deeds[0].action.CallCancel?
    ensures forall id :: Called(deeds[..1 + i], id) <==> Called(deeds[1..][..i], id)
  {
    assert deeds[..1 + i] == [deeds[0]] + deeds[1..][..i];
  }

  lemma IgnoresAll(x: Shared, call: Call, ok: bool, deeds: seq<Deed>, y: Shared)
    requires Alone(x, call, if ok then [CatchAndIgnore] else Unwind([CatchAndIgnore]), deeds, y)
    ensures y == x
  {
    if ok {
      assert [CatchAndIgnore] == [CatchAndIgnore] + [];
      CatchAlone(x, call, [], deeds, y);
      Ended(x, call, deeds[1..], y);
    } else {
      assert Unwind([CatchAndIgnore]) == [];
    }
  }

  // ---------------------------------------------------------------- orders

  /** `cancel` by itself. */
  lemma CancelAlone(x: Shared, id: string, deeds: seq<Deed>, y: Shared)
    requires Alone(x, CancelOrder(id), Program(CancelOrder(id)), deeds, y)
    ensures var cancels := id in x.m.orders && !Terminal(x.m.orders[id].state);
            && y == (if cancels then x.(m := MarkCancelling(x.m, id)) else x)
            && forall other :: Called(deeds, other) <==> cancels && other == id
  {
    hide Alone, Terminal, MarkCancelling, Lists;
    assert [MarkCancel(id)] == [MarkCancel(id)] + [] && Unwind([]) == [];
    if id in x.m.orders && !Terminal(x.m.orders[id].state) {
      MarkAlone(x, CancelOrder(id), id, [], deeds, y);
      Ended(x.(m := MarkCancelling(x.m, id)), CancelOrder(id), deeds[3..], y);
      assert deeds == [deeds[0], deeds[1], deeds[2]];
    } else {
      Starts(x, CancelOrder(id), MarkCancel(id), [], deeds, y);
      Ended(x, CancelOrder(id), deeds[1..], y);
      assert deeds == [deeds[0]];
    }
  }

  /** A check that a call makes before it does anything. */
  lemma ChecksAlone(x: Shared, call: Call, a: Action, rest: seq<Action>, deeds: seq<Deed>, y: Shared, ok: bool)
    requires Alone(x, call, [a] + rest, deeds, y) && forall b | b in rest :: !Catches(b)
    requires deeds != [] ==> Do(x, call, a, deeds[0].input) == (if ok then Outcome.Goes(x) else Throws(x))
    ensures deeds != [] && deeds[0].action == a
    ensures ok ==> Alone(x, call, Then(x, a, deeds[0].input) + rest, deeds[1..], y)
    ensures !ok ==> |deeds| == 1 && y == x
  {
    hide Alone, Do, Then;
    Starts(x, call, a, rest, deeds, y);
    UnwindsPast(rest, []);
    assert rest + [] == rest;
    if !ok { Ended(x, call, deeds[1..], y); }
  }

  /** The exchange was asked to place the order, and this was its answer. */
  ghost predicate Asked(deeds: seq<Deed>, r: Request, answer: Result<int, string>) {
    && |deeds| >= 9 && deeds[7].action == Place(r)
    && (answer.Ok? <==> deeds[7].input.ok && deeds[8].input.ok)
    && (answer.Ok? ==> answer.value == deeds[8].input.exchangeId)
  }

  ghost predicate NoPlace(deeds: seq<Deed>) {
    forall d | d in deeds :: !d.action.Place?
  }

  lemma NoPlaceSplit(deeds: seq<Deed>, k: nat)
    requires k <= |deeds|
    ensures NoPlace(deeds) <==> NoPlace(deeds[..k]) && NoPlace(deeds[k..])
  {
    assert deeds == deeds[..k] + deeds[k..];
  }

  lemma NoPlaceOfOne(deeds: seq<Deed>)
    requires |deeds| == 1
    ensures NoPlace(deeds) <==> !deeds[0].action.Place?
  {
    assert deeds == [deeds[0]];
  }

  /** One check after the other. */
  lemma CheckThenAlone(x: Shared, call: Call, a: Action, rest: seq<Action>, deeds: seq<Deed>, y: Shared, ok: bool)
    requires Alone(x, call, [a] + rest, deeds, y) && (forall b | b in rest :: !Catches(b)) && !a.Place?
    requires deeds != [] ==> Do(x, call, a, deeds[0].input) == (if ok then Outcome.Goes(x) else Throws(x))
    ensures ok ==> deeds != [] && NoPlace(deeds[..1]) && Alone(x, call, Then(x, a, deeds[0].input) + rest, deeds[1..], y)
    ensures !ok ==> y == x && NoPlace(deeds)
  {
    hide Alone, Do, Then;
    ChecksAlone(x, call, a, rest, deeds, y, ok);
    NoPlaceOfOne(deeds[..1]);
    assert !ok ==> deeds == deeds[..1];
  }

  lemma SessionChecks(x: Shared, r: Request, deeds: seq<Deed>, y: Shared)
    requires Alone(x, Submit(r), Program(Submit(r)), deeds, y)
    ensures var passes := x.started && x.ready && !x.m.kill;
            && (passes ==> |deeds| >= 3 && NoPlace(deeds[..3]) && Alone(x, Submit(r), [LoadReconciled(r)], deeds[3..], y))
            && (!passes ==> y == x && NoPlace(deeds))
  {
    hide Alone, NoPlace;
    var call := Submit(r);
    var d1, d2, d3 := [LoadReady, TestNotKilled, LoadReconciled(r)], [TestNotKilled, LoadReconciled(r)], [LoadReconciled(r)];
    assert Program(call) == [TestStarted] + d1 && d1 == [LoadReady] + d2 && d2 == [TestNotKilled] + d3;
    assert [] + d1 == d1 && [] + d2 == d2 && [] + d3 == d3;
    CheckThenAlone(x, call, TestStarted, d1, deeds, y, x.started);
    if x.started {
      CheckThenAlone(x, call, LoadReady, d2, deeds[1..], y, x.ready);
      NoPlaceSplit(deeds, 1);
      if x.ready {
        CheckThenAlone(x, call, TestNotKilled, d3, deeds[1..][1..], y, !x.m.kill);
        NoPlaceSplit(deeds[1..], 1);
        if !x.m.kill {
          assert deeds[1..][1..][1..] == deeds[3..];
          NoPlaceSplit(deeds[..3], 1);
          NoPlaceSplit(deeds[..3][1..], 1);
          assert deeds[..3][..1] == deeds[..1] && deeds[..3][1..][..1] == deeds[1..][..1] && deeds[..3][1..][1..] == deeds[1..][1..][..1];
        }
      }
    }
  }

  lemma ManagerChecks(x: Shared, r: Request, deeds: seq<Deed>, y: Shared)
    requires !x.m.kill && Alone(x, Submit(r), [LoadReconciled(r)], deeds, y)
    ensures x.m.reconciled ==> |deeds| >= 2 && NoPlace(deeds[..2]) && Alone(x, Submit(r), [InsertPending(r)], deeds[2..], y)
    ensures !x.m.reconciled ==> y == x && NoPlace(deeds)
  {
    hide Alone, NoPlace;
    var call := Submit(r);
    assert [LoadReconciled(r)] == [LoadReconciled(r)] + [];
    CheckThenAlone(x, call, LoadReconciled(r), [], deeds, y, x.m.reconciled);
    if x.m.reconciled {
      assert [CheckKill(r)] + [] == [CheckKill(r)] && [InsertPending(r)] + [] == [InsertPending(r)];
      CheckThenAlone(x, call, CheckKill(r), [], deeds[1..], y, true);
      assert deeds[1..][1..] == deeds[2..];
      NoPlaceSplit(deeds[..2], 1);
      assert deeds[..2][..1] == deeds[..1] && deeds[..2][1..] == deeds[1..][..1];
    }
  }

  lemma SubmitChecks(x: Shared, r: Request, deeds: seq<Deed>, y: Shared)
    requires Alone(x, Submit(r), Program(Submit(r)), deeds, y)
    ensures var passes := x.started && x.ready && !x.m.kill && x.m.reconciled;
            && (passes ==> |deeds| >= 5 && NoPlace(deeds[..5]) && Alone(x, Submit(r), [InsertPending(r)], deeds[5..], y))
            && (!passes ==> y == x && NoPlace(deeds))
  {
    hide Alone, NoPlace;
    SessionChecks(x, r, deeds, y);
    if x.started && x.ready && !x.m.kill {
      ManagerChecks(x, r, deeds[3..], y);
      NoPlaceSplit(deeds, 3);
      if x.m.reconciled {
        assert deeds[3..][2..] == deeds[5..];
        NoPlaceSplit(deeds[..5], 3);
        assert deeds[..5][..3] == deeds[..3] && deeds[..5][3..] == deeds[3..][..2];
      }
    }
  }

  lemma RejectAlone(x: Shared, r: Request, deeds: seq<Deed>, y: Shared) returns (answer: Result<int, string>)
    requires r.clientOrderId in x.m.orders && Alone(x, Submit(r), [Reject(r.clientOrderId)], deeds, y)
    ensures answer.Err? && deeds != [] && y == x.(m := Answer(x.m, r.clientOrderId, answer))
  {
    hide Alone, Lists, AllTerminal;
    var call, id := Submit(r), r.clientOrderId;
    assert [Reject(id)] == [Reject(id)] + [];
    Starts(x, call, Reject(id), [], deeds, y);
    answer := Err(deeds[0].input.reason);
    var z := x.(m := Answer(x.m, id, answer));
    NoFillNoChange(z, call, z.m.orders[id]);
    Ended(z, call, deeds[1..], y);
  }

  lemma AcknowledgeAlone(x: Shared, r: Request, deeds: seq<Deed>, y: Shared) returns (answer: Result<int, string>)
    requires r.clientOrderId in x.m.orders
    requires Alone(x, Submit(r), [Acknowledge(r.clientOrderId), CatchReject(r.clientOrderId)], deeds, y)
    ensures deeds != [] && y == x.(m := Answer(x.m, r.clientOrderId, answer))
    ensures (answer.Ok? <==> deeds[0].input.ok) && (answer.Ok? ==> answer.value == deeds[0].input.exchangeId)
  {
    hide Alone, Do, Then, Unwind, Answer;
    var call, id := Submit(r), r.clientOrderId;
    assert [Acknowledge(id), CatchReject(id)] == [Acknowledge(id)] + [CatchReject(id)] && [CatchReject(id)] == [CatchReject(id)] + [];
    var ok := deeds != [] && deeds[0].input.ok;
    answer := if ok then Ok(deeds[0].input.exchangeId) else Err("");
    var z := if ok then x.(m := Answer(x.m, id, answer)) else x;
    if deeds != [] { DoAcknowledge(x, call, id, deeds[0].input); }
    Tests(x, call, Acknowledge(id), [CatchReject(id)], deeds, y, z, ok);
    if ok {
      if deeds[1..] != [] { DoCatch(z, call, CatchReject(id), deeds[1..][0].input); }
      Tests(z, call, CatchReject(id), [], deeds[1..], y, z, true);
      Ended(z, call, deeds[1..][1..], y);
    } else {
      CaughtReject(id);
      answer := RejectAlone(x, r, deeds[1..], y);
    }
  }

  lemma DoAcknowledge(x: Shared, call: Call, id: string, input: Input)
    requires id in x.m.orders && !call.Event?
    ensures Do(x, call, Acknowledge(id), input) ==
            if input.ok then Outcome.Goes(x.(m := Answer(x.m, id, Ok(input.exchangeId)))) else Throws(x)
    ensures Then(x, Acknowledge(id), input) == []
  {
    var z := x.(m := Answer(x.m, id, Ok(input.exchangeId)));
    NoFillNoChange(z, call, z.m.orders[id]);
  }

  lemma CaughtReject(id: string)
    ensures Unwind([CatchReject(id)]) == [Reject(id)]
  {
  }

  /** The rest of a submit that has inserted its order. */
  lemma PlacingAlone(x: Shared, r: Request, deeds: seq<Deed>, y: Shared) returns (answer: Result<int, string>)
    requires r.clientOrderId in x.m.orders
    requires Alone(x, Submit(r), [Place(r), Acknowledge(r.clientOrderId), CatchReject(r.clientOrderId)], deeds, y)
    ensures |deeds| >= 2 && deeds[0].action == Place(r) && y == x.(m := Answer(x.m, r.clientOrderId, answer))
    ensures (answer.Ok? <==> deeds[0].input.ok && deeds[1].input.ok) && (answer.Ok? ==> answer.value == deeds[1].input.exchangeId)
  {
    hide Alone, Lists, AllTerminal, Unwind, Answer;
    var id := r.clientOrderId;
    var acknowledging := [Acknowledge(id), CatchReject(id)];
    assert [Place(r), Acknowledge(id), CatchReject(id)] == [Place(r)] + acknowledging && [] + acknowledging == acknowledging;
    Starts(x, Submit(r), Place(r), acknowledging, deeds, y);
    if deeds[0].input.ok {
      answer := AcknowledgeAlone(x, r, deeds[1..], y);
    } else {
      UnwindsPast([Acknowledge(id)], [CatchReject(id)]);
      assert acknowledging == [Acknowledge(id)] + [CatchReject(id)];
      CaughtReject(id);
      answer := RejectAlone(x, r, deeds[1..], y);
    }
  }

  /** The rest of a submit that passed its checks. */
  lemma InsertingAlone(x: Shared, r: Request, deeds: seq<Deed>, y: Shared) returns (answer: Result<int, string>)
    requires Alone(x, Submit(r), [InsertPending(r)], deeds, y)
    ensures var places := ValidRequest(r) && r.clientOrderId !in x.m.orders;
            && (places ==>
                  && |deeds| >= 4 && deeds[2].action == Place(r) && y == x.(m := Answer(Insert(x.m, r), r.clientOrderId, answer))
                  && (answer.Ok? <==> deeds[2].input.ok && deeds[3].input.ok)
                  && (answer.Ok? ==> answer.value == deeds[3].input.exchangeId))
            && (!places ==> y == x && NoPlace(deeds))
  {
    hide Alone, Do, Then, ValidRequest, Unwind;
    var call := Submit(r);
    answer := Err("");
    assert [InsertPending(r)] == [InsertPending(r)] + [];
    if deeds != [] { DoInsert(x, r, deeds[0].input); }
    Starts(x, call, InsertPending(r), [], deeds, y);
    if ValidRequest(r) && r.clientOrderId !in x.m.orders {
      var z := x.(m := Insert(x.m, r));
      var placing := [Place(r), Acknowledge(r.clientOrderId), CatchReject(r.clientOrderId)];
      assert Then(x, InsertPending(r), deeds[0].input) + [] == [Publish(NewOrder(r))] + placing && [] + placing == placing;
      NoFillNoChange(z, call, NewOrder(r));
      if deeds[1..] != [] { DoPublish(z, call, NewOrder(r), deeds[1..][0].input); }
      Goes(z, call, Publish(NewOrder(r)), placing, deeds[1..], y, z, placing);
      assert deeds[1..][1..] == deeds[2..];
      answer := PlacingAlone(z, r, deeds[2..], y);
    } else {
      NothingUnwound();
      Ended(x, call, deeds[1..], y);
      NoPlaceOfOne(deeds);
    }
  }

  lemma DoInsert(x: Shared, r: Request, input: Input)
    ensures Do(x, Submit(r), InsertPending(r), input) ==
            if ValidRequest(r) && r.clientOrderId !in x.m.orders then Outcome.Goes(x.(m := Insert(x.m, r))) else Throws(x)
    ensures Then(x, InsertPending(r), input) ==
            [Publish(NewOrder(r)), Place(r), Acknowledge(r.clientOrderId), CatchReject(r.clientOrderId)]
  {
  }

  lemma NothingUnwound()
    ensures Unwind([]) == []
  {
  }

  /** `submit` by itself: places exactly when the class says so, and leaves the order as answered. */
  lemma SubmitAlone(x: Shared, r: Request, deeds: seq<Deed>, y: Shared) returns (answer: Result<int, string>)
    requires Alone(x, Submit(r), Program(Submit(r)), deeds, y)
    ensures var places := x.started && x.ready && !x.m.kill && x.m.reconciled && ValidRequest(r) && r.clientOrderId !in x.m.orders;
            && (places ==> Asked(deeds, r, answer) && y == x.(m := Answer(Insert(x.m, r), r.clientOrderId, answer)))
            && (!places ==> y == x && NoPlace(deeds))
  {
    hide Alone, ValidRequest, NoPlace;
    SubmitChecks(x, r, deeds, y);
    answer := Err("");
    if x.started && x.ready && !x.m.kill && x.m.reconciled {
      answer := InsertingAlone(x, r, deeds[5..], y);
      NoPlaceSplit(deeds, 5);
    }
  }

  /** A stream event by itself. */
  lemma EventAlone(x: Shared, e: Report, deeds: seq<Deed>, y: Shared)
    requires Alone(x, Event(e), Program(Event(e)), deeds, y)
    ensures y.m == if IsExecutionReport(e) then ApplyReport(x.m, e) else x.m
    ensures var update := Updated(Known(x.m, e.clientOrderId), e);
            var published := IsExecutionReport(e) && e.stage == Whole && x.handler;
            && y.positions == (if published then Applied(x.positions, update) else x.positions)
            && y.reported == (if published then x.reported + [update] else x.reported)
    ensures y.started == x.started && y.ready == x.ready && y.handler == x.handler
  {
    hide Alone, Do, Then, Unwind, Applied, Updated, ApplyReport, IsExecutionReport, Known;
    assert [Receive(e)] == [Receive(e)] + [];
    NothingUnwound();
    var update, z := Updated(Known(x.m, e.clientOrderId), e), if IsExecutionReport(e) then x.(m := ApplyReport(x.m, e)) else x;
    if deeds != [] { DoReceive(x, e, deeds[0].input); }
    if IsExecutionReport(e) && e.stage == Whole {
      assert [Publish(update)] + [] == [Publish(update)] == [Publish(update)] + [];
      Goes(x, Event(e), Receive(e), [], deeds, y, z, [Publish(update)]);
      if deeds[1..] != [] { DoPublish(z, Event(e), update, deeds[1..][0].input); }
      Tests(z, Event(e), Publish(update), [], deeds[1..], y, Published(z, Event(e), update), true);
      Ended(Published(z, Event(e), update), Event(e), deeds[1..][1..], y);
    } else {
      Starts(x, Event(e), Receive(e), [], deeds, y);
      Ended(z, Event(e), deeds[1..], y);
    }
  }

  lemma DoReceive(x: Shared, e: Report, input: Input)
    ensures Do(x, Event(e), Receive(e), input) ==
            if IsExecutionReport(e) then Check(x.(m := ApplyReport(x.m, e)), e.stage == Whole) else Check(x, e.stage != AtEvent)
    ensures Then(x, Receive(e), input) ==
            if IsExecutionReport(e) then [Publish(Updated(Known(x.m, e.clientOrderId), e))] else []
  {
  }
}
