/** The worker pool of the research runner: threads that claim trials from a shared counter.
    One step is one fetch-and-add, or the evaluation of a claimed trial with the store of its
    result; `evaluate` stands for the trial, which depends on nothing but its parameter set. */
module ResearchWorkers {
  import opened Wrappers

  datatype Worker = Claiming | Evaluating(trial: nat) | Stopped

  /** `evaluated` lists the trials in the order in which they were finished. */
  datatype Pool<R> = Pool(next: nat, workers: seq<Worker>, results: seq<Option<R>>, evaluated: seq<nat>)

  datatype Step = Claim(worker: nat) | Finish(worker: nat)

  function WorkerCount(requested: nat, trials: nat): (count: nat)
    ensures 1 <= count && (1 <= requested <= trials ==> count == requested) && (1 <= trials < requested ==> count == trials)
  {
    var wanted := if requested < trials then requested else trials;
    if wanted < 1 then 1 else wanted
  }

  function Initial<R>(requested: nat, trials: nat): Pool<R> {
    Pool(0, seq(WorkerCount(requested, trials), _ => Claiming), seq(trials, _ => None), [])
  }

  predicate Enabled<R>(s: Pool<R>, step: Step) {
    && step.worker < |s.workers|
    && if step.Claim? then s.workers[step.worker].Claiming?
       else s.workers[step.worker].Evaluating? && s.workers[step.worker].trial < |s.results|
  }

  function Next<R>(s: Pool<R>, step: Step, evaluate: nat -> R): Pool<R>
    requires Enabled(s, step)
  {
    match step
    case Claim(w) =>
      s.(next := s.next + 1,
         workers := s.workers[w := if s.next >= |s.results| then Stopped else Evaluating(s.next)])
    case Finish(w) =>
      var trial := s.workers[w].trial;
      s.(workers := s.workers[w := Claiming],
         results := s.results[trial := Some(evaluate(trial))],
         evaluated := s.evaluated + [trial])
  }

  ghost predicate Run<R>(states: seq<Pool<R>>, steps: seq<Step>, evaluate: nat -> R, requested: nat, trials: nat) {
    && |states| == |steps| + 1 && states[0] == Initial(requested, trials)
    && forall i | 0 <= i < |steps| :: Enabled(states[i], steps[i]) && states[i + 1] == Next(states[i], steps[i], evaluate)
  }

  // ---------------------------------------------------------------- invariant

  /** A trial is unclaimed, with exactly one worker, or finished with its own result. */
  ghost predicate Inv<R>(s: Pool<R>, evaluate: nat -> R, trials: nat) {
    && |s.results| == trials && |s.workers| >= 1
    && (forall w | 0 <= w < |s.workers| && s.workers[w].Evaluating? ::
          s.workers[w].trial < trials && s.workers[w].trial < s.next && s.results[s.workers[w].trial].None?)
    && (forall v, w | 0 <= v < w < |s.workers| && s.workers[v].Evaluating? && s.workers[w].Evaluating? ::
          s.workers[v].trial != s.workers[w].trial)
    && (forall w | 0 <= w < |s.workers| && s.workers[w].Stopped? :: s.next >= trials)
    && (forall i | 0 <= i < trials && s.results[i].Some? :: s.results[i].value == evaluate(i) && i < s.next)
    && (forall i | 0 <= i < trials && i < s.next && s.results[i].None? ::
          exists w :: 0 <= w < |s.workers| && s.workers[w] == Evaluating(i))
  }

  /** The log of finished trials names each finished trial once. */
  ghost predicate Logged<R>(s: Pool<R>) {
    && (forall k | 0 <= k < |s.evaluated| :: s.evaluated[k] < |s.results| && s.results[s.evaluated[k]].Some?)
    && (forall i | 0 <= i < |s.results| && s.results[i].Some? :: i in s.evaluated)
    && (forall j, k | 0 <= j < k < |s.evaluated| :: s.evaluated[j] != s.evaluated[k])
  }

  lemma ClaimKeepsInv<R>(s: Pool<R>, w: nat, evaluate: nat -> R, trials: nat)
    requires Inv(s, evaluate, trials) && Enabled(s, Claim(w))
    ensures Inv(Next(s, Claim(w), evaluate), evaluate, trials)
  {
    var n := Next(s, Claim(w), evaluate);
    forall i | 0 <= i < trials && i < n.next && n.results[i].None?
      ensures exists v :: 0 <= v < |n.workers| && n.workers[v] == Evaluating(i)
    {
      if i < s.next {
        var v :| 0 <= v < |s.workers| && s.workers[v] == Evaluating(i);
        assert n.workers[v] == Evaluating(i);
      } else {
        assert n.workers[w] == Evaluating(i);
      }
    }
  }

  lemma FinishKeepsInv<R>(s: Pool<R>, w: nat, evaluate: nat -> R, trials: nat)
    requires Inv(s, evaluate, trials) && Enabled(s, Finish(w))
    ensures Inv(Next(s, Finish(w), evaluate), evaluate, trials)
  {
    var n := Next(s, Finish(w), evaluate);
    forall i | 0 <= i < trials && i < n.next && n.results[i].None?
      ensures exists v :: 0 <= v < |n.workers| && n.workers[v] == Evaluating(i)
    {
      var v :| 0 <= v < |s.workers| && s.workers[v] == Evaluating(i);
      assert n.workers[v] == Evaluating(i);
    }
  }

  lemma NextKeepsLog<R>(s: Pool<R>, step: Step, evaluate: nat -> R, trials: nat)
    requires Inv(s, evaluate, trials) && Logged(s) && Enabled(s, step)
    ensures Logged(Next(s, step, evaluate))
  {
    if step.Finish? {
      var trial := s.workers[step.worker].trial;
      assert trial !in s.evaluated;
      assert (s.evaluated + [trial])[|s.evaluated|] == trial;
    }
  }

  lemma {:induction false} RunKeepsInv<R>(states: seq<Pool<R>>, steps: seq<Step>, evaluate: nat -> R, requested: nat, trials: nat, n: nat)
    requires Run(states, steps, evaluate, requested, trials) && n < |states|
    ensures Inv(states[n], evaluate, trials) && Logged(states[n]) && |states[n].workers| == WorkerCount(requested, trials)
  {
    if n > 0 {
      hide Inv, Logged;
      RunKeepsInv(states, steps, evaluate, requested, trials, n - 1);
      var s, step := states[n - 1], steps[n - 1];
      match step {
        case Claim(w) => ClaimKeepsInv(s, w, evaluate, trials);
        case Finish(w) => FinishKeepsInv(s, w, evaluate, trials);
      }
      NextKeepsLog(s, step, evaluate, trials);
    }
  }

  // ---------------------------------------------------------------- termination

  function Weight(workers: seq<Worker>): nat {
    if workers == [] then 0
    else Weight(workers[..|workers| - 1]) +
         match workers[|workers| - 1] { case Claiming => 1 case Evaluating(_) => 2 case Stopped => 0 }
  }

  lemma {:induction false} WeightOfUpdate(workers: seq<Worker>, w: nat, to: Worker)
    requires w < |workers|
    ensures Weight(workers[w := to]) == Weight(workers) - Weight([workers[w]]) + Weight([to])
  {
    var n := |workers| - 1;
    if w < n {
      WeightOfUpdate(workers[..n], w, to);
      assert workers[w := to][..n] == workers[..n][w := to];
    } else {
      assert workers[w := to][..n] == workers[..n];
    }
    assert [workers[w]][..0] == [] && [to][..0] == [];
  }

  /** Steps left to take. */
  function StepsLeft<R>(s: Pool<R>): nat {
    2 * (if s.next < |s.results| then |s.results| - s.next else 0) + Weight(s.workers)
  }

  lemma EachStepCounts<R>(s: Pool<R>, step: Step, evaluate: nat -> R)
    requires Enabled(s, step)
    ensures StepsLeft(Next(s, step, evaluate)) == StepsLeft(s) - 1
  {
    var n := Next(s, step, evaluate);
    WeightOfUpdate(s.workers, step.worker, n.workers[step.worker]);
    assert [s.workers[step.worker]][..0] == [] && [n.workers[step.worker]][..0] == [];
  }

  lemma {:induction false} FreshWeight(count: nat)
    ensures Weight(seq(count, _ => Claiming)) == count
  {
    if count > 0 {
      FreshWeight(count - 1);
      assert seq(count, _ => Claiming)[..count - 1] == seq(count - 1, _ => Claiming);
    }
  }

  lemma {:induction false} StepsAreBounded<R>(states: seq<Pool<R>>, steps: seq<Step>, evaluate: nat -> R, requested: nat, trials: nat, n: nat)
    requires Run(states, steps, evaluate, requested, trials) && n < |states|
    ensures n + StepsLeft(states[n]) == 2 * trials + WorkerCount(requested, trials)
  {
    if n == 0 {
      FreshWeight(WorkerCount(requested, trials));
    } else {
      hide StepsLeft;
      StepsAreBounded(states, steps, evaluate, requested, trials, n - 1);
      EachStepCounts(states[n - 1], steps[n - 1], evaluate);
    }
  }

  ghost predicate AllStopped<R>(s: Pool<R>) {
    forall w | 0 <= w < |s.workers| :: s.workers[w].Stopped?
  }

  lemma {:induction false} StoppedWeighsNothing(workers: seq<Worker>)
    requires forall w | 0 <= w < |workers| :: workers[w].Stopped?
    ensures Weight(workers) == 0
  {
    if workers != [] { StoppedWeighsNothing(workers[..|workers| - 1]); }
  }

  // ---------------------------------------------------------------- main results

  /** Every worker that has not stopped can take a step, so a pool gets stuck only when all have
      stopped; and no run is longer than two steps a trial and one a worker. */
  lemma AllWorkersTerminate<R>(states: seq<Pool<R>>, steps: seq<Step>, evaluate: nat -> R, requested: nat, trials: nat)
    requires Run(states, steps, evaluate, requested, trials)
    ensures |steps| <= 2 * trials + WorkerCount(requested, trials)
    ensures (exists step :: Enabled(states[|steps|], step)) <==> !AllStopped(states[|steps|])
    ensures AllStopped(states[|steps|]) <==> |steps| == 2 * trials + WorkerCount(requested, trials)
  {
    var s := states[|steps|];
    StepsAreBounded(states, steps, evaluate, requested, trials, |steps|);
    RunKeepsInv(states, steps, evaluate, requested, trials, |steps|);
    if AllStopped(s) {
      StoppedWeighsNothing(s.workers);
      assert s.workers[0].Stopped?;
    } else {
      var w :| 0 <= w < |s.workers| && !s.workers[w].Stopped?;
      var step := if s.workers[w].Claiming? then Claim(w) else Finish(w);
      assert Enabled(s, step);
      EachStepCounts(s, step, evaluate);
    }
  }

  /** Scheduling does not matter: whatever the number of workers and the interleaving, when all
      have stopped each trial was evaluated exactly once, and slot i holds the result of trial i. */
  lemma SchedulingIndependence<R>(states: seq<Pool<R>>, steps: seq<Step>, evaluate: nat -> R, requested: nat, trials: nat)
    requires Run(states, steps, evaluate, requested, trials) && AllStopped(states[|steps|])
    ensures |states[|steps|].results| == trials && forall i | 0 <= i < trials :: states[|steps|].results[i] == Some(evaluate(i))
    ensures forall i | 0 <= i < trials :: i in states[|steps|].evaluated
    ensures forall j, k | 0 <= j < k < |states[|steps|].evaluated| :: states[|steps|].evaluated[j] != states[|steps|].evaluated[k]
    ensures forall i | i in states[|steps|].evaluated :: i < trials
  {
    RunKeepsInv(states, steps, evaluate, requested, trials, |steps|);
    var s := states[|steps|];
    assert s.workers[0].Stopped?;
    forall i | 0 <= i < trials ensures s.results[i] == Some(evaluate(i)) {
      assert s.results[i].Some?;
    }
  }
}
