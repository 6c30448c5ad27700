/** What a call has done by the time it does something else, over every interleaving: a resume
    has reconciled twice and restarted the stream before it clears the kill switch, and a kill
    cancels every order it listed before it ends. */
module SessionHistories {
  import opened Wrappers
  import opened Orders
  import opened OrderManager
  import opened OrderProtocol
  import opened SessionCalls

  /** The thread performs this action in this step. */
  ghost predicate Performs(s: SessionState, step: Step, t: nat, a: Action) {
    step.Advance? && step.thread == t && Enabled(s, step) && s.threads[t].todo[0] == a
  }

  // ---------------------------------------------------------------- resume

  /** It installs a list of the open orders. */
  ghost predicate Installs(s: SessionState, step: Step, t: nat) {
    Performs(s, step, t, InstallOpen) && step.input.open.Listed?
  }

  /** It opens a new stream. */
  ghost predicate Restarts(s: SessionState, step: Step, t: nat) {
    Performs(s, step, t, RestartStream) && step.input.ok
  }

  /** When the call began, installed its lists, and restarted the stream. */
  datatype Past = Past(begun: nat, first: nat, second: nat, stream: nat)

  const RESUMING: seq<Action> :=
    [TestResumable, FetchOpen, InstallOpen] + RECOVER + [CheckReconciled, ClearKill, StoreReady(true), CatchNotReady]

  /** With k actions of a resume behind it. A resume that failed has at most to store that it did. */
  predicate Stands(todo: seq<Action>, k: nat) {
    || (k <= 12 && todo == RESUMING[k..])
    || (k == 8 && |todo| == 5 && todo[0].StoreReady? && todo[1..] == RESUMING[8..])
    || (k == 0 && (todo == [] || todo == [StoreReady(false)]))
  }

  ghost predicate Happened(states: seq<SessionState>, steps: seq<Step>, t: nat, n: nat, k: nat, p: Past)
    requires |states| == |steps| + 1 && n < |states|
  {
    && p.begun < n && steps[p.begun] == Begin(t, Resume(RESUME_CONFIRMATION))
    && (k > 2 ==> p.begun < p.first < n && Installs(states[p.first], steps[p.first], t))
    && (k > 5 ==> p.first < p.second < n && Installs(states[p.second], steps[p.second], t))
    && (k > 6 ==> p.second < p.stream < n && Restarts(states[p.stream], steps[p.stream], t))
  }

  lemma ResumingAt(k: nat)
    requires k < 12
    ensures RESUMING[k..] == [RESUMING[k]] + RESUMING[k + 1..]
    ensures RESUMING[k] == ClearKill <==> k == 9
    ensures RESUMING[k] == InstallOpen <==> k == 2 || k == 5
    ensures RESUMING[k] == RestartStream <==> k == 6
    ensures RESUMING[k] == LoadKillForReady <==> k == 7
    ensures Catches(RESUMING[k]) <==> k == 11
  {
  }

  lemma UnwindResuming(k: nat)
    requires k <= 11
    ensures Unwind(RESUMING[k..]) == [StoreReady(false)]
  {
    forall a | a in RESUMING[k..11] ensures !Catches(a) {
      var i :| k <= i < 11 && RESUMING[i] == a;
      ResumingAt(i);
    }
    assert RESUMING[k..] == RESUMING[k..11] + [CatchNotReady];
    UnwindsPast(RESUMING[k..11], [CatchNotReady]);
    CaughtNotReady();
  }

  /** How the actions of a resume end. */
  lemma ResumeEffects(x: Shared, k: nat, input: Input)
    requires k < 12
    ensures var a, call := RESUMING[k], Resume(RESUME_CONFIRMATION);
            && Then(x, a, input) == (if k == 7 then [StoreReady(!x.m.kill)] else [])
            && (Do(x, call, a, input).Goes? && (k == 2 || k == 5) ==> input.open.Listed?)
            && (Do(x, call, a, input).Goes? && k == 6 ==> input.ok)
            && (k == 11 ==> Do(x, call, a, input).Goes?)
  {
    hide Reconcile, AllTerminal;
  }

  /** One more action of a resume. */
  lemma ResumeStep(x: Shared, todo: seq<Action>, k: nat, input: Input) returns (j: nat)
    requires todo != [] && Stands(todo, k)
    ensures Stands(Left(x, Do(x, Resume(RESUME_CONFIRMATION), todo[0], input), todo[0], todo[1..], input), j)
    ensures j == 0 || j == k || (j == k + 1 && k < 12 && todo == RESUMING[k..] && todo[0] == RESUMING[k])
    ensures j == k + 1 && (k == 2 || k == 5) ==> input.open.Listed?
    ensures j == k + 1 && k == 6 ==> input.ok
  {
    hide Do, Then, Unwind;
    var call := Resume(RESUME_CONFIRMATION);
    var outcome := Do(x, call, todo[0], input);
    if k < 12 && todo == RESUMING[k..] {
      ResumingAt(k);
      ResumeEffects(x, k, input);
      assert todo[1..] == RESUMING[k + 1..] && [] + todo[1..] == todo[1..];
      if k < 11 { UnwindResuming(k + 1); }
      j := if outcome.Goes? then k + 1 else 0;
    } else {
      assert todo[0].StoreReady? && [] + todo[1..] == todo[1..];
      DoStoreReady(x, call, todo[0].value, input);
      j := k;
    }
  }

  lemma {:induction false} ResumePast(states: seq<SessionState>, steps: seq<Step>, n: nat, t: nat) returns (k: nat, p: Past)
    requires Run(states, steps) && states[0] == INITIAL && n < |states|
    requires t in states[n].threads && states[n].threads[t].call == Resume(RESUME_CONFIRMATION)
    ensures Stands(states[n].threads[t].todo, k) && Happened(states, steps, t, n, k, p)
    decreases n
  {
    hide Do, Left, Stands, Lists;
    assert states[(n - 1) + 1] == Next(states[n - 1], steps[n - 1]);
    if steps[n - 1] == Begin(t, Resume(RESUME_CONFIRMATION)) {
      k, p := 0, Past(n - 1, 0, 0, 0);
      ResumeBegins();
    } else {
      k, p := ResumePast(states, steps, n - 1, t);
      if steps[n - 1].Advance? && steps[n - 1].thread == t {
        var s := states[n - 1];
        var j := ResumeStep(s.shared, s.threads[t].todo, k, steps[n - 1].input);
        p := Advanced(states, steps, n, t, k, j, p);
        k := j;
      }
    }
  }

  lemma ResumeBegins()
    ensures Stands(Program(Resume(RESUME_CONFIRMATION)), 0)
  {
    assert RESUMING[0..] == RESUMING;
  }

  lemma Advanced(states: seq<SessionState>, steps: seq<Step>, n: nat, t: nat, k: nat, j: nat, p: Past) returns (q: Past)
    requires Run(states, steps) && 0 < n < |states| && steps[n - 1].Advance? && steps[n - 1].thread == t
    requires Happened(states, steps, t, n - 1, k, p)
    requires j == 0 || j == k || (j == k + 1 && k < 12 && states[n - 1].threads[t].todo[0] == RESUMING[k])
    requires j == k + 1 && (k == 2 || k == 5) ==> steps[n - 1].input.open.Listed?
    requires j == k + 1 && k == 6 ==> steps[n - 1].input.ok
    ensures Happened(states, steps, t, n, j, q)
  {
    hide Next, Happened, Enabled;
    q := p;
    HappenedLater(states, steps, t, n, k, p);
    if j == k + 1 {
      ResumingAt(k);
      if k == 2 { q := p.(first := n - 1); }
      if k == 5 { q := p.(second := n - 1); }
      if k == 6 { q := p.(stream := n - 1); }
      HappenedNow(states, steps, t, n, k, p, q);
    }
  }

  lemma HappenedLater(states: seq<SessionState>, steps: seq<Step>, t: nat, n: nat, k: nat, p: Past)
    requires |states| == |steps| + 1 && 0 < n < |states| && Happened(states, steps, t, n - 1, k, p)
    ensures Happened(states, steps, t, n, k, p) && Happened(states, steps, t, n, 0, p)
  {
    hide Installs, Restarts;
  }

  lemma HappenedNow(states: seq<SessionState>, steps: seq<Step>, t: nat, n: nat, k: nat, p: Past, q: Past)
    requires |states| == |steps| + 1 && 0 < n < |states| && Happened(states, steps, t, n - 1, k, p)
    requires k == 2 || k == 5 ==> Installs(states[n - 1], steps[n - 1], t)
    requires k == 6 ==> Restarts(states[n - 1], steps[n - 1], t)
    requires q == if k == 2 then p.(first := n - 1) else if k == 5 then p.(second := n - 1)
                  else if k == 6 then p.(stream := n - 1) else p
    ensures Happened(states, steps, t, n, k + 1, q)
  {
    hide Installs, Restarts;
  }

  /** Whatever else goes on: the kill switch is cleared only by a confirmed resume that has, one
      after the other, installed the open orders twice and opened a new stream since it began. */
  lemma ClearingIsReconciled(states: seq<SessionState>, steps: seq<Step>, n: nat) returns (p: Past)
    requires Run(states, steps) && states[0] == INITIAL && n < |steps| && Clears(states[n], steps[n])
    ensures var t := steps[n].thread;
            && p.begun < p.first < p.second < p.stream < n
            && steps[p.begun] == Begin(t, Resume(RESUME_CONFIRMATION))
            && Installs(states[p.first], steps[p.first], t) && Installs(states[p.second], steps[p.second], t)
            && Restarts(states[p.stream], steps[p.stream], t)
  {
    hide AllTerminal, Lists, Installs, Restarts;
    var t := steps[n].thread;
    RunKeepsInv(states, steps, n);
    HeadAndRest(states[n].threads[t], states[n].shared.m.reconciled);
    var k: nat;
    k, p := ResumePast(states, steps, n, t);
    ClearStandsNinth(states[n].threads[t].todo, k);
  }

  lemma ClearStandsNinth(todo: seq<Action>, k: nat)
    requires Stands(todo, k) && todo != [] && todo[0].ClearKill?
    ensures k == 9
  {
    if k < 12 { ResumingAt(k); }
  }

  lemma SectionsKeepReconciled(m: Manager, a: Action, reply: Input)
    ensures a.InsertPending? ==> Insert(m, a.request).reconciled == m.reconciled
    ensures a.MarkCancel? && a.id in m.orders ==> MarkCancelling(m, a.id).reconciled == m.reconciled
    ensures a.Acknowledge? && a.id in m.orders ==> Answer(m, a.id, Ok(reply.exchangeId)).reconciled == m.reconciled
    ensures a.Reject? && a.id in m.orders ==> Answer(m, a.id, Err(reply.reason)).reconciled == m.reconciled
    ensures a.Receive? ==> ApplyReport(m, a.report).reconciled == m.reconciled
    ensures Reconcile(m, reply.open).reconciled <==> m.reconciled || reply.open.Listed?
  {
    hide Tracked, Updated, Known, Answered, Received;
  }

  /** Actions that go into the order manager. */
  predicate Manages(a: Action) {
    a.InsertPending? || a.Acknowledge? || a.Reject? || a.MarkCancel? || a.InstallOpen? || a.Receive?
  }

  lemma OthersReconcileNothing(x: Shared, call: Call, a: Action, reply: Input)
    requires !x.m.reconciled && !Manages(a)
    ensures !Do(x, call, a, reply).x.m.reconciled
  {
    hide Published, Answers, Reconcile, AllTerminal, ApplyReport, Insert, MarkCancelling;
  }

  lemma ManagingReconciles(x: Shared, call: Call, a: Action, reply: Input)
    requires !x.m.reconciled && Manages(a)
    ensures Do(x, call, a, reply).x.m.reconciled <==> a.InstallOpen? && reply.open.Listed?
  {
    hide Published, Answers, Reconcile, Insert, MarkCancelling, ApplyReport, AllTerminal, Terminal, ValidRequest, Answer;
    SectionsKeepReconciled(x.m, a, reply);
  }

  lemma DoReconciles(x: Shared, call: Call, a: Action, reply: Input)
    requires !x.m.reconciled
    ensures Do(x, call, a, reply).x.m.reconciled <==> a.InstallOpen? && reply.open.Listed?
  {
    hide Do;
    if Manages(a) { ManagingReconciles(x, call, a, reply); } else { OthersReconcileNothing(x, call, a, reply); }
  }

  lemma InstallingReconciles(s: SessionState, step: Step)
    requires Enabled(s, step) && !s.shared.m.reconciled
    ensures Next(s, step).shared.m.reconciled <==> step.Advance? && Installs(s, step, step.thread)
  {
    hide Do, Left, Lists;
    if step.Advance? { DoReconciles(s.shared, s.threads[step.thread].call, s.threads[step.thread].todo[0], step.input); }
  }

  /** The session counts as reconciled exactly from the first whole list of open orders on that
      some thread has installed. */
  lemma {:induction false} ReconciledExactly(states: seq<SessionState>, steps: seq<Step>, n: nat)
    requires Run(states, steps) && states[0] == INITIAL && n < |states|
    ensures states[n].shared.m.reconciled <==> exists k :: 0 <= k < n && steps[k].Advance? && Installs(states[k], steps[k], steps[k].thread)
  {
    hide Do, Left, Installs, Lists;
    if n > 0 {
      ReconciledExactly(states, steps, n - 1);
      assert states[(n - 1) + 1] == Next(states[n - 1], steps[n - 1]);
      if states[n - 1].shared.m.reconciled {
        ReconciledStaysIn(states[n - 1], steps[n - 1]);
      } else {
        InstallingReconciles(states[n - 1], steps[n - 1]);
      }
    }
  }

  lemma ReconciledStaysIn(s: SessionState, step: Step)
    requires Enabled(s, step) && s.shared.m.reconciled
    ensures Next(s, step).shared.m.reconciled
  {
    hide Do, Left, Lists;
    if step.Advance? { ReconciledStays(s.shared, s.threads[step.thread].call, s.threads[step.thread].todo[0], step.input); }
  }

  // ---------------------------------------------------------------- kill

  /** The thread has marked the order as being cancelled, or found that it is resolved or gone. */
  ghost predicate Marked(states: seq<SessionState>, steps: seq<Step>, c: nat, n: nat, t: nat, id: string)
    requires |states| == |steps| + 1 && n < |states|
  {
    exists m :: c < m < n && Performs(states[m], steps[m], t, MarkCancel(id))
  }

  /** What may be left of cancelling one order. */
  predicate Finishing(front: seq<Action>) {
    || front == [] || front == [CatchAndIgnore]
    || (|front| == 2 && front[0].CallCancel? && front[1].CatchAndIgnore?)
    || (|front| == 3 && front[0].Publish? && front[1].CallCancel? && front[2].CatchAndIgnore?)
  }

  /** These orders are still to be cancelled. */
  ghost predicate Cancelling(todo: seq<Action>, ids: seq<string>, back: seq<Action>) {
    exists front :: Finishing(front) && todo == front + (CancelEach(ids) + back)
  }

  lemma CancelStep(x: Shared, call: Call, todo: seq<Action>, ids: seq<string>, back: seq<Action>, input: Input)
    returns (left: seq<string>)
    requires ids != [] && Cancelling(todo, ids, back)
    ensures todo != [] && Cancelling(Left(x, Do(x, call, todo[0], input), todo[0], todo[1..], input), left, back)
    ensures left == ids || (left == ids[1..] && todo[0] == MarkCancel(ids[0]))
  {
    hide Do, Left, CancelEach, Finishing;
    var rest := CancelEach(ids) + back;
    var front :| Finishing(front) && todo == front + rest;
    var tail := CancelEach(ids[1..]) + back;
    FirstCancel(ids, back);
    if front == [] {
      left := ids[1..];
      MarkStep(x, call, ids[0], tail, input);
      assert todo[0] == MarkCancel(ids[0]) && todo[1..] == [CatchAndIgnore] + tail;
    } else {
      left := ids;
      FinishStep(x, call, front, rest, input);
      assert todo[0] == front[0] && todo[1..] == front[1..] + rest;
    }
  }

  lemma FirstCancel(ids: seq<string>, back: seq<Action>)
    requires ids != []
    ensures CancelEach(ids) + back == [MarkCancel(ids[0])] + ([CatchAndIgnore] + (CancelEach(ids[1..]) + back))
  {
  }

  lemma MarkStep(x: Shared, call: Call, id: string, tail: seq<Action>, input: Input)
    ensures exists front :: Finishing(front) && front + tail ==
              Left(x, Do(x, call, MarkCancel(id), input), MarkCancel(id), [CatchAndIgnore] + tail, input)
  {
    hide Terminal;
    var left := Left(x, Do(x, call, MarkCancel(id), input), MarkCancel(id), [CatchAndIgnore] + tail, input);
    if id !in x.m.orders {
      CaughtAndIgnored(tail);
      assert Finishing([]) && [] + tail == left;
    } else if Terminal(x.m.orders[id].state) {
      assert Finishing([CatchAndIgnore]) && [CatchAndIgnore] + tail == left;
    } else {
      var u := x.m.orders[id].(state := State.Cancelling);
      assert Finishing([Publish(u), CallCancel(id), CatchAndIgnore]);
      assert [Publish(u), CallCancel(id), CatchAndIgnore] + tail == left;
    }
  }

  lemma CaughtAndIgnored(tail: seq<Action>)
    ensures Unwind([CatchAndIgnore] + tail) == tail
  {
    assert ([CatchAndIgnore] + tail)[1..] == tail;
  }

  lemma FinishStep(x: Shared, call: Call, front: seq<Action>, rest: seq<Action>, input: Input)
    requires Finishing(front) && front != []
    ensures exists next :: Finishing(next) && next + rest == Left(x, Do(x, call, front[0], input), front[0], front[1..] + rest, input)
  {
    hide Do, Then, Published;
    var left := Left(x, Do(x, call, front[0], input), front[0], front[1..] + rest, input);
    assert [] + (front[1..] + rest) == front[1..] + rest;
    if front[0].Publish? {
      DoPublish(x, call, front[0].update, input);
      assert Finishing(front[1..]) && front[1..] + rest == left;
    } else if front[0].CallCancel? {
      DoAnswered(x, call, front[0], input);
      assert front[1..] == [CatchAndIgnore];
      CaughtAndIgnored(rest);
      assert Finishing([]) && [] + rest == rest && Finishing(front[1..]);
    } else {
      DoCatch(x, call, front[0], input);
      assert Finishing([]) && front[1..] == [] && [] + rest == left;
    }
  }

  lemma {:induction false} CancelsInTurn(states: seq<SessionState>, steps: seq<Step>, c: nat, n: nat, t: nat) returns (ids: seq<string>)
    requires Run(states, steps) && c < n < |states| && Performs(states[c], steps[c], t, CollectLive)
    ensures t in states[n].threads
    ensures ids != [] ==> Cancelling(states[n].threads[t].todo, ids, states[c].threads[t].todo[1..])
    ensures forall id | id in steps[c].input.order && id !in ids :: Marked(states, steps, c, n, t, id)
    decreases n
  {
    hide Do, Left, Cancelling, Lists;
    var s, step := states[n - 1], steps[n - 1];
    assert states[(n - 1) + 1] == Next(s, step);
    if n == c + 1 {
      ids := step.input.order;
      ListingStarts(s.shared, s.threads[t].call, s.threads[t].todo, step.input);
    } else {
      var before := CancelsInTurn(states, steps, c, n - 1, t);
      ids := before;
      if before != [] && step.Advance? && step.thread == t {
        ids := CancelStep(s.shared, s.threads[t].call, s.threads[t].todo, before, states[c].threads[t].todo[1..], step.input);
        assert ids == before || (ids == before[1..] && Performs(states[n - 1], steps[n - 1], t, MarkCancel(before[0])));
      }
      forall id | id in steps[c].input.order && id !in ids ensures Marked(states, steps, c, n, t, id) {
        if id in before {
          assert id == before[0];
        } else {
          StaysMarked(states, steps, c, n, t, id);
        }
      }
    }
  }

  lemma StaysMarked(states: seq<SessionState>, steps: seq<Step>, c: nat, n: nat, t: nat, id: string)
    requires |states| == |steps| + 1 && 0 < n < |states| && Marked(states, steps, c, n - 1, t, id)
    ensures Marked(states, steps, c, n, t, id)
  {
  }

  lemma ListingStarts(x: Shared, call: Call, todo: seq<Action>, input: Input)
    requires todo != [] && todo[0].CollectLive?
    ensures Cancelling(Left(x, Do(x, call, todo[0], input), todo[0], todo[1..], input), input.order, todo[1..])
  {
    var front: seq<Action> := [];
    assert Finishing(front) && front + (CancelEach(input.order) + todo[1..]) == CancelEach(input.order) + todo[1..];
  }

  /** Whatever else goes on: a thread that has listed the live orders does not end before it
      has sent each of them a cancel. */
  lemma ListedAreCancelled(states: seq<SessionState>, steps: seq<Step>, c: nat, n: nat, t: nat)
    requires Run(states, steps) && c < n < |states| && Performs(states[c], steps[c], t, CollectLive)
    requires t in states[n].threads && states[n].threads[t].todo == []
    ensures forall id | id in states[c].shared.m.orders && Live(states[c].shared.m.orders[id].state) :: Marked(states, steps, c, n, t, id)
  {
    hide Next, Performs, Cancelling;
    PerformerRuns(states[c], steps[c], t);
    var ids := CancelsInTurn(states, steps, c, n, t);
    SomethingLeft(states[n].threads[t].todo, ids, states[c].threads[t].todo[1..]);
    ListingIsWhole(states[c], steps[c], t);
  }

  lemma PerformerRuns(s: SessionState, step: Step, t: nat)
    requires Performs(s, step, t, CollectLive)
    ensures t in s.threads && s.threads[t].todo != []
  {
  }

  lemma ListingIsWhole(s: SessionState, step: Step, t: nat)
    requires Performs(s, step, t, CollectLive)
    ensures forall id | id in s.shared.m.orders && Live(s.shared.m.orders[id].state) :: id in step.input.order
  {
  }

  lemma SomethingLeft(todo: seq<Action>, ids: seq<string>, back: seq<Action>)
    ensures ids != [] && Cancelling(todo, ids, back) ==> todo != []
  {
  }

  /** And a kill that has ended has set the switch, listed them, and cancelled them. */
  lemma KillIsCarriedOut(states: seq<SessionState>, steps: seq<Step>, n: nat, t: nat) returns (b: nat, k: nat, c: nat)
    requires Run(states, steps) && states[0] == INITIAL && n < |states|
    requires t in states[n].threads && states[n].threads[t] == Thread(Kill, [])
    ensures b < k < c < n && steps[b] == Begin(t, Kill)
    ensures Performs(states[k], steps[k], t, StoreKill) && Performs(states[c], steps[c], t, CollectLive)
    ensures forall id | id in states[c].shared.m.orders && Live(states[c].shared.m.orders[id].state) :: Marked(states, steps, c, n, t, id)
  {
    hide Next, Performs, Marked, Live;
    var done: nat;
    b, k, c, done := KillPast(states, steps, n, t);
    ListedAreCancelled(states, steps, c, n, t);
  }

  /** How far a kill has come: begun, killed, listed. */
  lemma {:induction false} KillPast(states: seq<SessionState>, steps: seq<Step>, n: nat, t: nat) returns (b: nat, k: nat, c: nat, done: nat)
    requires Run(states, steps) && states[0] == INITIAL && n < |states|
    requires t in states[n].threads && states[n].threads[t].call == Kill
    ensures b < n && steps[b] == Begin(t, Kill) && done <= 2
    ensures done < 2 ==> states[n].threads[t].todo == Program(Kill)[done..]
    ensures done >= 1 ==> b < k < n && Performs(states[k], steps[k], t, StoreKill)
    ensures done == 2 ==> k < c < n && Performs(states[c], steps[c], t, CollectLive)
    decreases n
  {
    hide Do, Left, Lists;
    var s, step := states[n - 1], steps[n - 1];
    assert states[(n - 1) + 1] == Next(s, step);
    b, k, c, done := n - 1, 0, 0, 0;
    if step == Begin(t, Kill) {
      assert Program(Kill)[0..] == Program(Kill);
    } else {
      b, k, c, done := KillPast(states, steps, n - 1, t);
      if step.Advance? && step.thread == t && done < 2 {
        if done == 0 {
          k := n - 1;
          KillStep(s.shared, step.input);
          assert Program(Kill)[0..] == Program(Kill);
        } else {
          c := n - 1;
        }
        done := done + 1;
      }
    }
  }

  lemma KillStep(x: Shared, input: Input)
    ensures var todo := Program(Kill);
            Left(x, Do(x, Kill, todo[0], input), todo[0], todo[1..], input) == todo[1..]
  {
  }
}
