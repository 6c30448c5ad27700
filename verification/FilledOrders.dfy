/** When a filled order stays filled. The answer to a placement overwrites whatever is known of
    the order by then, so a fill can be taken back; here is exactly by what. */
module FilledOrders {
  import opened Wrappers
  import opened Orders
  import opened OrderManager
  import opened OrderProtocol

  // ---------------------------------------------------------------- when a filled order stays filled

  predicate FilledIn(s: SessionState, id: string) {
    id in s.shared.m.orders && s.shared.m.orders[id].state == Filled
  }

  /** A reconciliation leaves the order filled: the list is unusable, or gives it as filled. */
  predicate KeepsFilled(open: OpenOrders, id: string) {
    open.Unavailable? || (id in Tracked(open.orders) && Tracked(open.orders)[id].state == Filled)
  }

  /** The steps that take back a fill: the answer or the rejection of its own submit, a report
      with another status, and a reconciliation that does not list it as filled. */
  predicate Unfills(s: SessionState, step: Step, id: string)
    requires Enabled(s, step)
  {
    step.Advance? &&
    match s.threads[step.thread].todo[0]
    case Acknowledge(other) => other == id && step.input.ok
    case Reject(other) => other == id
    case Receive(e) => IsExecutionReport(e) && e.clientOrderId == id && StatusIsRead(e.stage) && e.status != "FILLED"
    case InstallOpen => !KeepsFilled(step.input.open, id)
    case _ => false
  }

  /** Actions that touch the tracked orders. */
  predicate TouchesOrders(a: Action) {
    a.InsertPending? || a.Acknowledge? || a.Reject? || a.MarkCancel? || a.InstallOpen? || a.Receive?
  }

  lemma OthersKeepOrders(x: Shared, call: Call, a: Action, reply: Input)
    requires !TouchesOrders(a)
    ensures Do(x, call, a, reply).x.m.orders == x.m.orders
  {
    hide Published, Answers, Reconcile, AllTerminal, ApplyReport, Insert, MarkCancelling;
  }

  lemma AnswerActions(x: Shared, call: Call, a: Action, reply: Input, id: string)
    requires id in x.m.orders && x.m.orders[id].state == Filled && (a.Acknowledge? || a.Reject?)
    ensures var m := Do(x, call, a, reply).x.m;
            (id in m.orders && m.orders[id].state == Filled) <==> !(a.id == id && (a.Acknowledge? ==> reply.ok))
  {
    hide Published, Tracked, AllTerminal, ValidRequest, ApplyReport, Reconcile, Insert, MarkCancelling;
  }

  lemma SectionActions(x: Shared, call: Call, a: Action, reply: Input, id: string)
    requires id in x.m.orders && x.m.orders[id].state == Filled
    requires a.InsertPending? || a.MarkCancel? || a.InstallOpen?
    ensures var m := Do(x, call, a, reply).x.m;
            (id in m.orders && m.orders[id].state == Filled) <==> (a.InstallOpen? ==> KeepsFilled(reply.open, id))
  {
    hide Published, Answers, Tracked, AllTerminal, ValidRequest, ApplyReport, NewOrder;
  }

  lemma ReportAction(x: Shared, call: Call, e: Report, reply: Input, id: string)
    requires id in x.m.orders && x.m.orders[id].state == Filled
    ensures var m := Do(x, call, Receive(e), reply).x.m;
            (id in m.orders && m.orders[id].state == Filled) <==>
              !(IsExecutionReport(e) && e.clientOrderId == id && StatusIsRead(e.stage) && e.status != "FILLED")
  {
    ReceivedState(Known(x.m, e.clientOrderId), e);
    hide Received, Published, IsExecutionReport, StatusIsRead;
  }

  lemma ReceivedState(known: Snapshot, e: Report)
    ensures Received(known, e).state == if StatusIsRead(e.stage) then StateOf(e.status) else known.state
  {
    hide StateOf;
  }

  /** Every step from a state in which an order is filled leaves it filled iff it is none of these. */
  lemma FilledStaysExactly(s: SessionState, step: Step, id: string)
    requires Enabled(s, step) && FilledIn(s, id)
    ensures FilledIn(Next(s, step), id) <==> !Unfills(s, step, id)
  {
    hide Do, Left, Lists, KeepsFilled, StatusIsRead, IsExecutionReport, Program;
    if step.Advance? {
      var x, call, a := s.shared, s.threads[step.thread].call, s.threads[step.thread].todo[0];
      if a.Receive? {
        ReportAction(x, call, a.report, step.input, id);
      } else if a.Acknowledge? || a.Reject? {
        AnswerActions(x, call, a, step.input, id);
      } else if TouchesOrders(a) {
        SectionActions(x, call, a, step.input, id);
      } else {
        OthersKeepOrders(x, call, a, step.input);
      }
    }
  }

  /** Over runs: an order once filled is filled all the way iff no such step is taken. */
  lemma {:induction false} FilledUntilTakenBack(states: seq<SessionState>, steps: seq<Step>, id: string, i: nat, j: nat)
    requires Run(states, steps) && i <= j < |states| && FilledIn(states[i], id)
    ensures (forall k | i <= k <= j :: FilledIn(states[k], id)) <==> (forall k | i <= k < j :: !Unfills(states[k], steps[k], id))
  {
    hide FilledIn, Unfills, Next, Enabled;
    if i < j {
      FilledUntilTakenBack(states, steps, id, i, j - 1);
      assert states[(j - 1) + 1] == Next(states[j - 1], steps[j - 1]);
      if forall k | i <= k <= j - 1 :: FilledIn(states[k], id) {
        FilledStaysExactly(states[j - 1], steps[j - 1], id);
      }
    }
  }

  // ---------------------------------------------------------------- a fill that is taken back

  ghost predicate Reachable(s: SessionState) {
    exists states, steps :: Run(states, steps) && states[0] == INITIAL && states[|steps|] == s
  }

  lemma InitialIsReachable()
    ensures Reachable(INITIAL)
  {
    assert Run([INITIAL], []);
  }

  lemma NextIsReachable(s: SessionState, step: Step)
    requires Reachable(s) && Enabled(s, step)
    ensures Reachable(Next(s, step))
  {
    hide Next, Enabled;
    var states, steps :| Run(states, steps) && states[0] == INITIAL && states[|steps|] == s;
    var longer, more := states + [Next(s, step)], steps + [step];
    forall i | 0 <= i < |more| ensures Enabled(longer[i], more[i]) && longer[i + 1] == Next(longer[i], more[i]) {
      if i < |steps| {
        assert longer[i] == states[i] && longer[i + 1] == states[i + 1] && more[i] == steps[i];
      }
    }
    assert Run(longer, more) && longer[|more|] == Next(s, step);
  }

  const REQUEST: Request := Request("A", Buy, 1.0, "x")
  const FILL: Report := Report(Whole, "executionReport", "x", Some("A"), Some(1), "BUY", Some(1.0), Some(1.0), Some(1.0), "FILLED", "")
  const GRANTED: Input := Input(true, 1, "", Listed([]), [])

  /** A thread whose next action goes through. */
  lemma GoesOn(threads: map<nat, Thread>, t: nat, call: Call, todo: seq<Action>, x: Shared, y: Shared, left: seq<Action>)
    requires Reachable(SessionState(x, threads[t := Thread(call, todo)])) && todo != [] && !todo[0].CollectLive?
    requires Do(x, call, todo[0], GRANTED) == Goes(y) && Then(x, todo[0], GRANTED) + todo[1..] == left
    ensures Reachable(SessionState(y, threads[t := Thread(call, left)]))
  {
    hide Reachable, Do, Then;
    var s := SessionState(x, threads[t := Thread(call, todo)]);
    NextIsReachable(s, Advance(t, GRANTED));
    assert threads[t := Thread(call, todo)][t := Thread(call, left)] == threads[t := Thread(call, left)];
    assert Next(s, Advance(t, GRANTED)) == SessionState(y, threads[t := Thread(call, left)]);
  }

  const STARTED: Shared := Shared(Manager(map[], true, false), true, true, true, map[], [])

  /** `start` up to the reconciliation. */
  lemma StartBegins()
    ensures Reachable(SessionState(STARTED.(ready := false, m := Manager(map[], false, false)), map[0 := Thread(Start, RECOVER)]))
  {
    hide Reachable;
    var x := INITIAL.shared;
    InitialIsReachable();
    NextIsReachable(INITIAL, Begin(0, Start));
    GoesOn(map[], 0, Start, Program(Start), x, x.(started := true), [SetHandler] + RECOVER);
    GoesOn(map[], 0, Start, [SetHandler] + RECOVER, x.(started := true), x.(started := true, handler := true), RECOVER);
  }

  lemma StartFetches()
    ensures Reachable(SessionState(STARTED.(ready := false, m := Manager(map[], false, false)), map[0 := Thread(Start, RECOVER[2..])]))
  {
    hide Reachable;
    StartBegins();
    var x := STARTED.(ready := false, m := Manager(map[], false, false));
    GoesOn(map[], 0, Start, RECOVER, x, x, RECOVER[1..]);
    GoesOn(map[], 0, Start, RECOVER[1..], x, x, RECOVER[2..]);
  }

  lemma StartIsReconciled()
    ensures Reachable(SessionState(STARTED.(ready := false), map[0 := Thread(Start, RECOVER[3..])]))
  {
    hide Reachable;
    StartFetches();
    var y := STARTED.(ready := false);
    var x := y.(m := Manager(map[], false, false));
    assert RECOVER[2..] == [InstallOpen] + RECOVER[3..];
    GoesOn(map[], 0, Start, RECOVER[2..], x, y, RECOVER[3..]);
  }

  lemma StartIsRecovered()
    ensures Reachable(SessionState(STARTED.(ready := false), map[0 := Thread(Start, [LoadKillForReady])]))
  {
    hide Reachable;
    StartIsReconciled();
    var y := STARTED.(ready := false);
    assert RECOVER[3..] == [RestartStream, LoadKillForReady];
    GoesOn(map[], 0, Start, [RestartStream, LoadKillForReady], y, y, [LoadKillForReady]);
  }

  /** The rest of `start`: the session is ready. */
  lemma StartIsReady()
    ensures Reachable(SessionState(STARTED, map[0 := Thread(Start, [])]))
  {
    hide Reachable;
    StartIsRecovered();
    var y := STARTED.(ready := false);
    GoesOn(map[], 0, Start, [LoadKillForReady], y, y, [StoreReady(true)]);
    GoesOn(map[], 0, Start, [StoreReady(true)], y, STARTED, []);
  }

  const IDLE: map<nat, Thread> := map[0 := Thread(Start, [])]

  /** A submit that has passed all checks. */
  lemma SubmitIsChecked()
    ensures Reachable(SessionState(STARTED, IDLE[1 := Thread(Submit(REQUEST), [InsertPending(REQUEST)])]))
  {
    hide Reachable;
    StartIsReady();
    var call, x := Submit(REQUEST), STARTED;
    NextIsReachable(SessionState(x, IDLE), Begin(1, call));
    GoesOn(IDLE, 1, call, Program(call), x, x, Program(call)[1..]);
    GoesOn(IDLE, 1, call, Program(call)[1..], x, x, Program(call)[2..]);
    GoesOn(IDLE, 1, call, Program(call)[2..], x, x, Program(call)[3..]);
    GoesOn(IDLE, 1, call, Program(call)[3..], x, x, [CheckKill(REQUEST)]);
    GoesOn(IDLE, 1, call, [CheckKill(REQUEST)], x, x, [InsertPending(REQUEST)]);
  }

  const ANSWER: seq<Action> := [Acknowledge("x"), CatchReject("x")]
  const PLACED: Shared := STARTED.(m := Insert(STARTED.m, REQUEST))

  /** It has called the exchange, and has not yet got its answer. */
  lemma SubmitIsPlaced()
    ensures Reachable(SessionState(PLACED, IDLE[1 := Thread(Submit(REQUEST), ANSWER)]))
  {
    hide Reachable;
    SubmitIsChecked();
    var call := Submit(REQUEST);
    var publishing := [Publish(NewOrder(REQUEST)), Place(REQUEST)] + ANSWER;
    GoesOn(IDLE, 1, call, [InsertPending(REQUEST)], STARTED, PLACED, publishing);
    GoesOn(IDLE, 1, call, publishing, PLACED, PLACED, [Place(REQUEST)] + ANSWER);
    GoesOn(IDLE, 1, call, [Place(REQUEST)] + ANSWER, PLACED, PLACED, ANSWER);
  }

  const THREADS: map<nat, Thread> := IDLE[1 := Thread(Submit(REQUEST), ANSWER)]
  const PUBLISH: seq<Action> := [Publish(Updated(NewOrder(REQUEST), FILL))]
  const FILLED: Shared := PLACED.(m := ApplyReport(PLACED.m, FILL))

  lemma FillIsReceived()
    ensures Reachable(SessionState(FILLED, THREADS[2 := Thread(Event(FILL), PUBLISH)]))
  {
    hide Reachable;
    SubmitIsPlaced();
    NextIsReachable(SessionState(PLACED, THREADS), Begin(2, Event(FILL)));
    GoesOn(THREADS, 2, Event(FILL), [Receive(FILL)], PLACED, FILLED, PUBLISH);
  }

  /** It does happen, from the start of the program: the fill report overtakes the answer to
      the placement, and the answer puts the filled order back to acknowledged. */
  lemma FillIsTakenBack() returns (s: SessionState, step: Step)
    ensures Reachable(s) && Enabled(s, step)
    ensures FilledIn(s, "x") && Unfills(s, step, "x") && !FilledIn(Next(s, step), "x")
  {
    hide Reachable, Next;
    FillIsReceived();
    s, step := SessionState(FILLED, THREADS[2 := Thread(Event(FILL), PUBLISH)]), Advance(1, GRANTED);
    FilledStaysExactly(s, step, "x");
  }
}
