/** The live order session as interleaved threads. Every call of the session, every stream
    event and every keepalive failure is a thread; one step is one atomic load or store, one
    critical section, or one exchange call. What the exchange answers is an input of the step. */
module OrderProtocol {
  import opened Wrappers
  import opened Orders
  import opened Ledger
  import opened OrderManager

  const RESUME_CONFIRMATION := "I_CONFIRM_RECONCILED_TESTNET_RESUME"

  datatype Call =
    | Start | Stop | Submit(request: Request) | CancelOrder(id: string) | Kill
    | Resume(confirmation: string) | KeepaliveFailed | Event(report: Report)

  /** What a thread still has to do. The Catch actions mark the end of a try block: reached
      normally they do nothing, an exception unwinds to them. */
  datatype Action =
    | TestStarted | LoadReady | TestNotKilled | LoadReconciled(request: Request) | CheckKill(request: Request)
    | InsertPending(request: Request) | Place(request: Request) | Acknowledge(id: string) | Reject(id: string)
    | MarkCancel(id: string) | CallCancel(id: string) | StoreKill | CollectLive
    | ExchangeStarted(value: bool) | SetHandler | TestResumable
    | StoreReady(value: bool) | FetchOpen | InstallOpen | RestartStream | LoadKillForReady
    | CheckReconciled | ClearKill
    | Receive(report: Report) | Publish(update: Snapshot)
    | CatchAndIgnore | CatchNotReady | CatchReject(id: string)

  const RECOVER: seq<Action> := [StoreReady(false), FetchOpen, InstallOpen, RestartStream, LoadKillForReady]

  function Program(call: Call): seq<Action> {
    match call
    case Start => [ExchangeStarted(true), SetHandler] + RECOVER
    case Stop => [ExchangeStarted(false), StoreKill, CollectLive, StoreReady(false)]
    case Submit(r) => [TestStarted, LoadReady, TestNotKilled, LoadReconciled(r)]
    case CancelOrder(id) => [MarkCancel(id)]
    case Kill => [StoreKill, CollectLive, StoreReady(false)]
    case Resume(c) =>
      if c != RESUME_CONFIRMATION then []
      else [TestResumable, FetchOpen, InstallOpen] + RECOVER + [CheckReconciled, ClearKill, StoreReady(true), CatchNotReady]
    case KeepaliveFailed => [StoreReady(false), StoreKill, CollectLive] + RECOVER + [CatchAndIgnore]
    case Event(e) => [Receive(e)]
  }

  datatype Thread = Thread(call: Call, todo: seq<Action>)

  /** `reported` collects the updates of execution reports that reached the ledger. */
  datatype Shared = Shared(
    m: Manager, started: bool, ready: bool, handler: bool, positions: Positions, reported: seq<Snapshot>)

  datatype SessionState = SessionState(shared: Shared, threads: map<nat, Thread>)

  const INITIAL: SessionState := SessionState(Shared(Manager(map[], false, false), false, false, false, map[], []), map[])

  /** `LiveOrderSession::ready` */
  predicate Ready(s: SessionState) {
    s.shared.ready && !s.shared.m.kill
  }

  /** What a step gets from outside: whether the exchange call went through, the id it gave,
      the text of an error, the open orders, the iteration order of the hash map. */
  datatype Input = Input(ok: bool, exchangeId: int, reason: string, open: OpenOrders, order: seq<string>)

  /** An exception skips to the end of the innermost try block and runs its handler. */
  function Unwind(todo: seq<Action>): seq<Action> {
    if todo == [] then []
    else match todo[0]
      case CatchAndIgnore => todo[1..]
      case CatchNotReady => [StoreReady(false)] + todo[1..]
      case CatchReject(id) => [Reject(id)] + todo[1..]
      case _ => Unwind(todo[1..])
  }

  function Published(x: Shared, call: Call, u: Snapshot): (y: Shared)
    ensures y.m == x.m && y.started == x.started && y.ready == x.ready && y.handler == x.handler
  {
    if !x.handler then x
    else x.(positions := Applied(x.positions, u), reported := if call.Event? then x.reported + [u] else x.reported)
  }

  /** The kill switch cancels one order after the other and ignores what goes wrong. */
  function CancelEach(ids: seq<string>): seq<Action> {
    if ids == [] then [] else [MarkCancel(ids[0]), CatchAndIgnore] + CancelEach(ids[1..])
  }

  /** How an action ends: normally, with an exception, or by returning from the call. */
  datatype Outcome = Goes(x: Shared) | Throws(x: Shared) | Returns(x: Shared)

  function Check(x: Shared, ok: bool): Outcome {
    if ok then Goes(x) else Throws(x)
  }

  /** The effect of one action on what the threads share. */
  function Do(x: Shared, call: Call, a: Action, reply: Input): Outcome {
    match a
    case TestStarted => Check(x, x.started)
    case LoadReady => Check(x, x.ready)
    case TestNotKilled => Check(x, !x.m.kill)
    case LoadReconciled(_) => Check(x, x.m.reconciled)
    case CheckKill(_) => Check(x, !x.m.kill)
    case InsertPending(r) =>
      if ValidRequest(r) && r.clientOrderId !in x.m.orders then Goes(x.(m := Insert(x.m, r))) else Throws(x)
    case Place(_) => Check(x, reply.ok)
    case Acknowledge(id) =>
      if reply.ok && id in x.m.orders then Goes(Answers(x, call, id, Ok(reply.exchangeId))) else Throws(x)
    case Reject(id) => if id in x.m.orders then Goes(Answers(x, call, id, Err(reply.reason))) else Throws(x)
    case MarkCancel(id) =>
      if id !in x.m.orders then Throws(x)
      else if Terminal(x.m.orders[id].state) then Goes(x)
      else Goes(x.(m := MarkCancelling(x.m, id)))
    case CallCancel(_) => Check(x, reply.ok)
    case StoreKill => Goes(x.(m := x.m.(kill := true)))
    case ExchangeStarted(v) => if x.started == v then Returns(x) else Goes(x.(started := v))
    case SetHandler => Goes(x.(handler := true))
    case TestResumable => if x.started then Goes(x) else Returns(x)
    case StoreReady(v) => Goes(x.(ready := v))
    case FetchOpen => Check(x, reply.ok)
    case InstallOpen => Check(x.(m := Reconcile(x.m, reply.open)), reply.open.Listed?)
    case RestartStream => Check(x, reply.ok)
    case CheckReconciled => Check(x, x.m.reconciled)
    case ClearKill => if AllTerminal(x.m.orders) then Goes(x.(m := x.m.(kill := false))) else Throws(x)
    case Receive(e) =>
      if IsExecutionReport(e) then Check(x.(m := ApplyReport(x.m, e)), e.stage == Whole) else Check(x, e.stage != AtEvent)
    case Publish(u) => Goes(Published(x, call, u))
    case _ => Goes(x)
  }

  /** What an action that goes through leaves to be done before the rest. */
  function Then(x: Shared, a: Action, reply: Input): seq<Action> {
    match a
    case LoadReconciled(r) => [CheckKill(r)]
    case CheckKill(r) => [InsertPending(r)]
    case InsertPending(r) => [Publish(NewOrder(r)), Place(r), Acknowledge(r.clientOrderId), CatchReject(r.clientOrderId)]
    case MarkCancel(id) =>
      if id in x.m.orders && !Terminal(x.m.orders[id].state) then [Publish(x.m.orders[id].(state := Cancelling)), CallCancel(id)]
      else []
    case CollectLive => CancelEach(reply.order)
    case LoadKillForReady => [StoreReady(!x.m.kill)]
    case Receive(e) => if IsExecutionReport(e) then [Publish(Updated(Known(x.m, e.clientOrderId), e))] else []
    case _ => []
  }

  function Left(x: Shared, outcome: Outcome, a: Action, rest: seq<Action>, reply: Input): seq<Action> {
    match outcome
    case Goes(_) => Then(x, a, reply) + rest
    case Throws(_) => Unwind(rest)
    case Returns(_) => []
  }

  /** The answer to a placement is stored and published in one critical section. */
  function Answers(x: Shared, call: Call, id: string, answer: Result<int, string>): (y: Shared)
    requires id in x.m.orders
    ensures y.m == Answer(x.m, id, answer)
  {
    var m := Answer(x.m, id, answer);
    Published(x.(m := m), call, m.orders[id])
  }

  datatype Step = Begin(thread: nat, call: Call) | Advance(thread: nat, input: Input)

  predicate Enabled(s: SessionState, step: Step) {
    match step
    case Begin(t, _) => t !in s.threads
    case Advance(t, input) =>
      && t in s.threads && s.threads[t].todo != []
      && (s.threads[t].todo[0].CollectLive? ==> Lists(input.order, s.shared.m.orders))
  }

  /** A listing of the live orders. */
  predicate Lists(ids: seq<string>, orders: map<string, Snapshot>) {
    && (forall id | id in ids :: id in orders && Live(orders[id].state))
    && (forall id | id in orders && Live(orders[id].state) :: id in ids)
    && (forall i, j | 0 <= i < j < |ids| :: ids[i] != ids[j])
  }

  function Next(s: SessionState, step: Step): SessionState
    requires Enabled(s, step)
  {
    match step
    case Begin(t, call) => s.(threads := s.threads[t := Thread(call, Program(call))])
    case Advance(t, input) =>
      var th := s.threads[t];
      var outcome := Do(s.shared, th.call, th.todo[0], input);
      SessionState(outcome.x, s.threads[t := th.(todo := Left(s.shared, outcome, th.todo[0], th.todo[1..], input))])
  }

  ghost predicate Run(states: seq<SessionState>, steps: seq<Step>) {
    && |states| == |steps| + 1
    && forall i | 0 <= i < |steps| :: Enabled(states[i], steps[i]) && states[i + 1] == Next(states[i], steps[i])
  }

  // ---------------------------------------------------------------- what every thread keeps

  /** An action belongs to a thread of a given call. */
  ghost predicate Fits(call: Call, a: Action, reconciled: bool) {
    match a
    case LoadReconciled(r) => call == Submit(r)
    case CheckKill(r) => call == Submit(r) && reconciled
    case InsertPending(r) => call == Submit(r) && reconciled
    case Place(r) => call == Submit(r) && reconciled && ValidRequest(r)
    case Acknowledge(_) => call.Submit?
    case Reject(_) => call.Submit?
    case CatchReject(_) => call.Submit?
    case MarkCancel(_) => !call.Event?
    case CollectLive => !call.Event?
    case ClearKill => call == Resume(RESUME_CONFIRMATION)
    case Receive(e) => call == Event(e)
    case Publish(u) =>
      if call.Event? then exists known :: IsExecutionReport(call.report) && u == Updated(known, call.report)
      else u.state == Pending || u.state == Cancelling
    case _ => true
  }

  ghost predicate AllFit(th: Thread, reconciled: bool) {
    forall a | a in th.todo :: Fits(th.call, a, reconciled)
  }

  ghost predicate Inv(s: SessionState) {
    && (forall t | t in s.threads :: AllFit(s.threads[t], s.shared.m.reconciled))
    && s.shared.positions == LedgerAfter(s.shared.reported)
  }

  lemma {:induction false} UnwindFits(call: Call, todo: seq<Action>, reconciled: bool)
    requires AllFit(Thread(call, todo), reconciled)
    ensures AllFit(Thread(call, Unwind(todo)), reconciled)
  {
    if todo != [] {
      assert Fits(call, todo[0], reconciled);
      assert forall a | a in todo[1..] :: a in todo;
      UnwindFits(call, todo[1..], reconciled);
    }
  }

  lemma {:induction false} CancelEachFits(call: Call, ids: seq<string>, reconciled: bool)
    requires !call.Event?
    ensures AllFit(Thread(call, CancelEach(ids)), reconciled)
    ensures forall a | a in CancelEach(ids) :: a.MarkCancel? || a.CatchAndIgnore?
  {
    if ids != [] { CancelEachFits(call, ids[1..], reconciled); }
  }

  /** Reconciliation is never taken back, so fitting actions go on fitting. */
  lemma FitsLater(th: Thread, before: bool, after: bool)
    requires AllFit(th, before) && (before ==> after)
    ensures AllFit(th, after)
  {
    forall a | a in th.todo ensures Fits(th.call, a, after) {
      assert Fits(th.call, a, before);
    }
  }

  lemma ThenFits(x: Shared, call: Call, a: Action, reply: Input)
    requires Fits(call, a, x.m.reconciled) && Do(x, call, a, reply).Goes?
    ensures AllFit(Thread(call, Then(x, a, reply)), x.m.reconciled)
  {
    hide Unwind, LedgerAfter, Applied, Tracked, AllTerminal;
    if a.CollectLive? { CancelEachFits(call, reply.order, x.m.reconciled); }
  }

  lemma LeftFits(x: Shared, th: Thread, reply: Input)
    requires th.todo != [] && AllFit(th, x.m.reconciled)
    ensures var outcome := Do(x, th.call, th.todo[0], reply);
            AllFit(Thread(th.call, Left(x, outcome, th.todo[0], th.todo[1..], reply)), x.m.reconciled)
  {
    hide AllFit, Unwind, Do, Then, Fits;
    HeadAndRest(th, x.m.reconciled);
    match Do(x, th.call, th.todo[0], reply)
    case Goes(_) =>
      ThenFits(x, th.call, th.todo[0], reply);
      JoinFits(th.call, Then(x, th.todo[0], reply), th.todo[1..], x.m.reconciled);
    case Throws(_) => UnwindFits(th.call, th.todo[1..], x.m.reconciled);
    case Returns(_) => NothingFits(th.call, x.m.reconciled);
  }

  lemma ReconciledStays(x: Shared, call: Call, a: Action, reply: Input)
    ensures x.m.reconciled ==> Do(x, call, a, reply).x.m.reconciled
  {
    hide Published, Answers, Tracked, AllTerminal, Updated, Known, Answered;
  }

  /** Only published execution reports reach the positions. */
  lemma PositionsFollowReports(x: Shared, call: Call, a: Action, reply: Input)
    requires Fits(call, a, x.m.reconciled) && x.positions == LedgerAfter(x.reported)
    ensures Do(x, call, a, reply).x.positions == LedgerAfter(Do(x, call, a, reply).x.reported)
    ensures Do(x, call, a, reply).x.reported != x.reported ==>
              call.Event? && a.Publish? && Do(x, call, a, reply).x.reported == x.reported + [a.update]
  {
    hide Tracked, AllTerminal, LedgerAfter;
    if a.Publish? && call.Event? { LedgerSnoc(x.reported, a.update); }
  }

  lemma RecoverFits(call: Call, reconciled: bool)
    ensures AllFit(Thread(call, RECOVER), reconciled)
  {
    forall a | a in RECOVER ensures Fits(call, a, reconciled) {
      assert a.StoreReady? || a.FetchOpen? || a.InstallOpen? || a.RestartStream? || a.LoadKillForReady?;
    }
  }

  lemma ShortProgramFits(call: Call, reconciled: bool)
    requires call.Stop? || call.Submit? || call.CancelOrder? || call.Kill? || call.Event?
    ensures AllFit(Thread(call, Program(call)), reconciled)
  {
  }

  lemma ResumeFits(call: Call, reconciled: bool)
    requires call == Resume(RESUME_CONFIRMATION)
    ensures AllFit(Thread(call, Program(call)), reconciled)
  {
    RecoveryFits(call, [TestResumable, FetchOpen, InstallOpen],
                 [CheckReconciled, ClearKill, StoreReady(true), CatchNotReady], reconciled);
  }

  lemma RecoveryFits(call: Call, front: seq<Action>, back: seq<Action>, reconciled: bool)
    requires AllFit(Thread(call, front), reconciled) && AllFit(Thread(call, back), reconciled)
    ensures AllFit(Thread(call, front + RECOVER + back), reconciled)
  {
    hide Fits, AllFit;
    RecoverFits(call, reconciled);
    JoinFits(call, front, RECOVER, reconciled);
    JoinFits(call, front + RECOVER, back, reconciled);
  }

  lemma ProgramFits(call: Call, reconciled: bool)
    ensures AllFit(Thread(call, Program(call)), reconciled)
  {
    match call
    case Start =>
      RecoveryFits(call, [ExchangeStarted(true), SetHandler], [], reconciled);
      assert Program(call) == [ExchangeStarted(true), SetHandler] + RECOVER + [];
    case KeepaliveFailed => RecoveryFits(call, [StoreReady(false), StoreKill, CollectLive], [CatchAndIgnore], reconciled);
    case Resume(c) => if c == RESUME_CONFIRMATION { ResumeFits(call, reconciled); }
    case _ => ShortProgramFits(call, reconciled);
  }

  lemma HeadAndRest(th: Thread, reconciled: bool)
    requires th.todo != [] && AllFit(th, reconciled)
    ensures Fits(th.call, th.todo[0], reconciled) && AllFit(Thread(th.call, th.todo[1..]), reconciled)
  {
    assert forall a | a in th.todo[1..] :: a in th.todo;
  }

  lemma NothingFits(call: Call, reconciled: bool)
    ensures AllFit(Thread(call, []), reconciled)
  {
  }

  lemma JoinFits(call: Call, front: seq<Action>, rest: seq<Action>, reconciled: bool)
    requires AllFit(Thread(call, front), reconciled) && AllFit(Thread(call, rest), reconciled)
    ensures AllFit(Thread(call, front + rest), reconciled)
  {
  }

  lemma NextKeepsInv(s: SessionState, step: Step)
    requires Inv(s) && Enabled(s, step)
    ensures Inv(Next(s, step)) && (s.shared.m.reconciled ==> Next(s, step).shared.m.reconciled)
  {
    hide AllFit, LedgerAfter, Do, Left, Fits, Program;
    match step
    case Begin(t, call) => ProgramFits(call, s.shared.m.reconciled);
    case Advance(t, input) =>
      var th := s.threads[t];
      HeadAndRest(th, s.shared.m.reconciled);
      LeftFits(s.shared, th, input);
      PositionsFollowReports(s.shared, th.call, th.todo[0], input);
      ReconciledStays(s.shared, th.call, th.todo[0], input);
      var n := Next(s, step);
      forall u | u in n.threads ensures AllFit(n.threads[u], n.shared.m.reconciled) {
        FitsLater(if u == t then n.threads[t] else s.threads[u], s.shared.m.reconciled, n.shared.m.reconciled);
      }
  }

  lemma {:induction false} RunKeepsInv(states: seq<SessionState>, steps: seq<Step>, n: nat)
    requires Run(states, steps) && states[0] == INITIAL && n < |states|
    ensures Inv(states[n])
  {
    if n > 0 {
      RunKeepsInv(states, steps, n - 1);
      NextKeepsInv(states[n - 1], steps[n - 1]);
    }
  }

  // ---------------------------------------------------------------- safety over runs

  /** The step by which a thread clears the kill switch. */
  ghost predicate Clears(s: SessionState, step: Step) {
    && step.Advance? && Enabled(s, step)
    && s.threads[step.thread].todo[0].ClearKill? && AllTerminal(s.shared.m.orders)
  }

  /** The step by which a thread calls the exchange to place an order. */
  ghost predicate Places(s: SessionState, step: Step, t: nat, r: Request) {
    step.Advance? && step.thread == t && Enabled(s, step) && s.threads[t].todo[0] == Place(r)
  }

  /** No placement is ahead of the thread unless it passes the kill check first. */
  ghost predicate Unchecked(s: SessionState, t: nat) {
    t in s.threads && forall a | a in s.threads[t].todo :: !a.InsertPending? && !a.Place?
  }

  lemma DoKeepsKill(x: Shared, call: Call, a: Action, reply: Input)
    requires x.m.kill
    ensures Do(x, call, a, reply).x.m.kill <==> !(a.ClearKill? && AllTerminal(x.m.orders))
  {
    hide Published, Answers, Reconcile, Insert, MarkCancelling, ApplyReport, AllTerminal, Terminal, ValidRequest, Answer;
    SectionsKeepKill(x.m, a, reply);
  }

  /** Critical sections on the orders leave the switch alone. */
  lemma SectionsKeepKill(m: Manager, a: Action, reply: Input)
    ensures Reconcile(m, reply.open).kill == m.kill
    ensures a.InsertPending? ==> Insert(m, a.request).kill == m.kill
    ensures a.MarkCancel? && a.id in m.orders ==> MarkCancelling(m, a.id).kill == m.kill
    ensures a.Acknowledge? && a.id in m.orders ==> Answer(m, a.id, Ok(reply.exchangeId)).kill == m.kill
    ensures a.Reject? && a.id in m.orders ==> Answer(m, a.id, Err(reply.reason)).kill == m.kill
    ensures a.Receive? ==> ApplyReport(m, a.report).kill == m.kill
  {
    hide Tracked, Updated, Known, Answered;
  }

  /** The switch is cleared by no other step. */
  lemma KillStays(s: SessionState, step: Step)
    requires Enabled(s, step) && s.shared.m.kill
    ensures Next(s, step).shared.m.kill <==> !Clears(s, step)
  {
    hide Do, Left, AllTerminal, Lists;
    if step.Advance? {
      DoKeepsKill(s.shared, s.threads[step.thread].call, s.threads[step.thread].todo[0], step.input);
    }
  }

  lemma {:induction false} UnwindUnchecked(todo: seq<Action>)
    requires forall a | a in todo :: !a.InsertPending? && !a.Place?
    ensures forall a | a in Unwind(todo) :: !a.InsertPending? && !a.Place?
  {
    if todo != [] {
      assert todo[0] in todo;
      assert forall a | a in todo[1..] :: a in todo;
      UnwindUnchecked(todo[1..]);
    }
  }

  /** While the switch is set, no thread gets past the kill check. */
  lemma StaysUnchecked(s: SessionState, step: Step, t: nat)
    requires Enabled(s, step) && s.shared.m.kill && Unchecked(s, t)
    ensures Unchecked(Next(s, step), t)
  {
    hide Applied, Tracked, AllTerminal, Published, Unwind, CancelEach;
    if step.Advance? && step.thread == t {
      var th := s.threads[t];
      var a, rest := th.todo[0], th.todo[1..];
      assert forall b | b in rest :: b in th.todo;
      UnwindUnchecked(rest);
      if a.CollectLive? { CancelEachFits(Kill, step.input.order, false); }
      assert a in th.todo;
    }
  }

  /** Kill safety. A submit that starts while the kill switch is set calls the exchange only
      if in between a confirmed resume cleared the switch, with every tracked order filled,
      cancelled or rejected at that moment. */
  lemma {:induction false} NoPlacementWhileKilled(states: seq<SessionState>, steps: seq<Step>, i: nat, j: nat, t: nat, r: Request)
    requires Run(states, steps) && states[0] == INITIAL
    requires i < j < |steps|
    requires states[i].shared.m.kill && steps[i] == Begin(t, Submit(r)) && Places(states[j], steps[j], t, r)
    ensures exists k :: i < k < j && Clears(states[k], steps[k])
  {
    assert Place(r) in states[j].threads[t].todo;
    if forall k :: i < k < j ==> !Clears(states[k], steps[k]) {
      StillUnchecked(states, steps, i, j, t, r);
      assert false;
    }
  }

  lemma {:induction false} StillUnchecked(states: seq<SessionState>, steps: seq<Step>, i: nat, j: nat, t: nat, r: Request)
    requires Run(states, steps) && i < j < |states|
    requires states[i].shared.m.kill && steps[i] == Begin(t, Submit(r))
    requires forall k :: i < k < j ==> !Clears(states[k], steps[k])
    ensures states[j].shared.m.kill && Unchecked(states[j], t)
  {
    hide Do, Left, Clears, Unchecked, Program;
    if j == i + 1 {
      SubmitIsUnchecked(states[i], t, r);
    } else {
      StillUnchecked(states, steps, i, j - 1, t, r);
      KillStays(states[j - 1], steps[j - 1]);
      StaysUnchecked(states[j - 1], steps[j - 1], t);
    }
  }

  lemma SubmitIsUnchecked(s: SessionState, t: nat, r: Request)
    requires Enabled(s, Begin(t, Submit(r)))
    ensures Unchecked(Next(s, Begin(t, Submit(r))), t)
  {
  }

  /** A call never changes hands, and every thread was begun. */
  lemma {:induction false} ThreadsWereBegun(states: seq<SessionState>, steps: seq<Step>, n: nat, t: nat)
    requires Run(states, steps) && states[0] == INITIAL && n < |states| && t in states[n].threads
    ensures exists b :: 0 <= b < n && steps[b] == Begin(t, states[n].threads[t].call)
  {
    hide Do, Left, Program;
    if steps[n - 1] != Begin(t, states[n].threads[t].call) {
      ThreadsWereBegun(states, steps, n - 1, t);
    }
  }

  /** Only a resume with the right confirmation makes the session ready again: stopping,
      starting, and recovering from a failed keepalive do not. */
  lemma {:induction false} OnlyResumeRestoresReady(states: seq<SessionState>, steps: seq<Step>, i: nat, j: nat)
    requires Run(states, steps) && states[0] == INITIAL
    requires i < j < |states| && states[i].shared.m.kill && Ready(states[j])
    ensures exists b, k :: 0 <= b < k < j && i <= k && Clears(states[k], steps[k])
              && steps[b] == Begin(steps[k].thread, Resume(RESUME_CONFIRMATION))
  {
    var k := LastKilled(states, i, j);
    KillStays(states[k], steps[k]);
    var t := steps[k].thread;
    RunKeepsInv(states, steps, k);
    ThreadsWereBegun(states, steps, k, t);
    HeadAndRest(states[k].threads[t], states[k].shared.m.reconciled);
  }

  lemma {:induction false} LastKilled(states: seq<SessionState>, i: nat, j: nat) returns (k: nat)
    requires i < j < |states| && states[i].shared.m.kill && !states[j].shared.m.kill
    ensures i <= k < j && states[k].shared.m.kill && !states[k + 1].shared.m.kill
  {
    if states[j - 1].shared.m.kill { k := j - 1; } else { k := LastKilled(states, i, j - 1); }
  }

  /** An order is placed only for a valid request, by the submit it belongs to, after a
      reconciliation. */
  lemma PlacementsAreReconciled(states: seq<SessionState>, steps: seq<Step>, n: nat, t: nat, r: Request)
    requires Run(states, steps) && states[0] == INITIAL && n < |steps| && Places(states[n], steps[n], t, r)
    ensures states[n].shared.m.reconciled && ValidRequest(r)
    ensures exists b :: 0 <= b < n && steps[b] == Begin(t, Submit(r))
  {
    RunKeepsInv(states, steps, n);
    ThreadsWereBegun(states, steps, n, t);
    HeadAndRest(states[n].threads[t], states[n].shared.m.reconciled);
  }

  // ---------------------------------------------------------------- the ledger over runs

  /** The confirmed positions change only when a thread publishes the update of an execution
      report that says filled: no submit, answer, rejection, cancel, kill or reconciliation
      changes them. */
  lemma OnlyFillsChangePositions(states: seq<SessionState>, steps: seq<Step>, n: nat)
    requires Run(states, steps) && states[0] == INITIAL && n < |steps|
    requires states[n + 1].shared.positions != states[n].shared.positions
    ensures steps[n].Advance?
    ensures var th := states[n].threads[steps[n].thread];
            && th.call.Event? && th.call.report.status == "FILLED"
            && th.todo[0].Publish? && ConfirmedFill(th.todo[0].update)
            && (exists known :: th.todo[0].update == Updated(known, th.call.report))
            && states[n + 1].shared.positions == Applied(states[n].shared.positions, th.todo[0].update)
  {
    RunKeepsInv(states, steps, n);
    var s := states[n];
    if steps[n].Advance? {
      var th := s.threads[steps[n].thread];
      HeadAndRest(th, s.shared.m.reconciled);
      PositionsFollowReports(s.shared, th.call, th.todo[0], steps[n].input);
    }
  }

  /** In every state of every run the ledger is the fold of the filled reports, each position
      being what its fills say. */
  lemma LedgerOfRun(states: seq<SessionState>, steps: seq<Step>, n: nat, symbol: string)
    requires Run(states, steps) && states[0] == INITIAL && n < |states|
    ensures states[n].shared.positions == LedgerAfter(Fills(states[n].shared.reported))
    ensures Matches(states[n].shared.positions, symbol, HoldingAfter(states[n].shared.reported, symbol))
  {
    RunKeepsInv(states, steps, n);
    OnlyFillsMatter(states[n].shared.reported);
    LedgerIsWhatWasFilled(states[n].shared.reported, symbol);
  }
}
