/** What the limits on losses mean over a whole simulation, and what scaling a trade keeps. */
module PortfolioLimits {
  import opened Reals
  import opened Positions
  import opened Portfolio
  import opened PortfolioRun

  // ---------------------------------------------------------------- what is closed when a candidate comes

  lemma {:induction false} DueExactly(open: seq<TradePosition>, at: int)
    ensures forall p :: p in Due(open, at) <==> p in open && p.exitTime <= at
    ensures forall p :: p in Held(open, at) <==> p in open && p.exitTime > at
  {
    if open != [] {
      var n := |open| - 1;
      DueExactly(open[..n], at);
      assert open == open[..n] + [open[n]];
    }
  }

  /** The open trades of a book exit later than this, the closed ones do not. */
  ghost predicate SplitAt(b: Book, at: int) {
    && (forall p | p in b.open :: p.exitTime > at)
    && (forall p | p in b.closed :: p.exitTime <= at)
  }

  lemma ClosingSplits(b: Book, earlier: int, at: int)
    requires SplitAt(b, earlier) && earlier <= at
    ensures SplitAt(CloseUntil(b, at), at)
  {
    hide Due, Held;
    DueExactly(b.open, at);
  }

  /** A book whose closed trades exited by the last candidate. */
  ghost predicate ClosedBy(b: Book, at: int) {
    forall p | p in b.closed :: p.exitTime <= at
  }

  lemma ClosingSplitsAll(b: Book, at: int)
    requires ClosedBy(b, at)
    ensures SplitAt(CloseUntil(b, at), at)
  {
    hide Due, Held;
    DueExactly(b.open, at);
  }

  lemma {:induction false} RunClosedBy(inputs: Inputs, candidates: seq<TradePosition>, at: int)
    requires InEntryOrder(candidates) && (candidates != [] ==> candidates[|candidates| - 1].entryTime <= at)
    ensures ClosedBy(Run(inputs, candidates), at)
    decreases |candidates|
  {
    if candidates != [] {
      var n := |candidates| - 1;
      RunClosedBy(inputs, candidates[..n], candidates[n].entryTime);
      hide Run, DecisionOn, Due, Held, Net, Streak;
      var b := Run(inputs, candidates[..n]);
      RunLast(inputs, candidates);
      ClosingSplitsAll(b, candidates[n].entryTime);
      assert Step(inputs, b, candidates[n]).closed == CloseUntil(b, candidates[n].entryTime).closed;
    }
  }

  lemma RunLast(inputs: Inputs, candidates: seq<TradePosition>)
    requires candidates != []
    ensures Run(inputs, candidates) == Step(inputs, Run(inputs, candidates[..|candidates| - 1]), candidates[|candidates| - 1])
  {
  }

  /** When a candidate is judged, the closed trades are exactly the accepted ones that have
      exited by its entry. */
  lemma ClosedAreExited(inputs: Inputs, candidates: seq<TradePosition>, t: TradePosition)
    requires InEntryOrder(candidates + [t])
    ensures var c := CloseUntil(Run(inputs, candidates), t.entryTime);
            && multiset(c.open) + multiset(c.closed) == multiset(c.entries)
            && SplitAt(c, t.entryTime)
  {
    hide Run, Due, Held, Net, Streak;
    assert forall i | 0 <= i < |candidates| :: (candidates + [t])[i] == candidates[i];
    assert (candidates + [t])[|candidates|] == t;
    RunClosedBy(inputs, candidates, t.entryTime);
    var b := Run(inputs, candidates);
    ClosingSplitsAll(b, t.entryTime);
    RunAccounted(inputs, candidates);
    DueAndHeldSplit(b.open, t.entryTime);
  }

  // ---------------------------------------------------------------- drawdown

  /** Over a whole simulation: a candidate is accepted only while the loss of the closed trades
      is below the drawdown limit. */
  lemma DrawdownStopsEntries(inputs: Inputs, candidates: seq<TradePosition>, t: TradePosition)
    requires DecisionOn(inputs, Run(inputs, candidates), t).Approved? && inputs.startingEquity > 0.0
    ensures -Net(CloseUntil(Run(inputs, candidates), t.entryTime).closed) < Times(inputs.config.maxDailyDrawdown, inputs.startingEquity)
  {
    hide Run, Due, Held, Streak, Approve, Net, Times;
    var b := Run(inputs, candidates);
    RunAccounted(inputs, candidates);
    var c := CloseUntil(b, t.entryTime);
    NetConcat(b.closed, Due(b.open, t.entryTime));
    ApprovedExactly(inputs.config, t.symbol, Notional(t), SnapshotOf(inputs, c), t.entryTime);
  }

  // ---------------------------------------------------------------- losing streaks

  lemma {:induction false} StreakConcat(before: nat, a: seq<TradePosition>, b: seq<TradePosition>)
    ensures Streak(before, a + b) == Streak(Streak(before, a), b)
    decreases |b|
  {
    if b == [] {
      assert a + b == a;
    } else {
      var n := |b| - 1;
      StreakConcat(before, a, b[..n]);
      assert (a + b)[..|a + b| - 1] == a + b[..n];
    }
  }

  /** The streak is at least k iff the last k closed trades all lost. */
  lemma {:induction false} StreakExactly(closed: seq<TradePosition>, k: nat)
    ensures Streak(0, closed) >= k <==> k <= |closed| && forall i | |closed| - k <= i < |closed| :: closed[i].netProfit < 0.0
    decreases |closed|
  {
    if closed != [] && k > 0 {
      var n := |closed| - 1;
      StreakExactly(closed[..n], k - 1);
      StreakIsNoNegative(closed[..n]);
    }
  }

  lemma StreakIsNoNegative(closed: seq<TradePosition>)
    ensures Streak(0, closed) >= 0
  {
  }

  lemma {:induction false} RunStreak(inputs: Inputs, candidates: seq<TradePosition>)
    ensures Run(inputs, candidates).losses == Streak(0, Run(inputs, candidates).closed)
  {
    if candidates != [] {
      var n := |candidates| - 1;
      RunStreak(inputs, candidates[..n]);
      RunLast(inputs, candidates);
      var b := Run(inputs, candidates[..n]);
      hide Run, DecisionOn, Due, Held, Net, Streak;
      StreakConcat(0, b.closed, Due(b.open, candidates[n].entryTime));
    }
  }

  /** Over a whole simulation: no candidate is accepted while the last so many closed trades, as
      many as the limit says, all lost. */
  lemma StreakStopsEntries(inputs: Inputs, candidates: seq<TradePosition>, t: TradePosition)
    requires DecisionOn(inputs, Run(inputs, candidates), t).Approved?
    ensures var closed, k := CloseUntil(Run(inputs, candidates), t.entryTime).closed, inputs.config.maxConsecutiveLosses;
            k > |closed| || exists i :: |closed| - k <= i < |closed| && closed[i].netProfit >= 0.0
  {
    hide Run, Due, Held, Streak, Approve, Net;
    var b := Run(inputs, candidates);
    RunStreak(inputs, candidates);
    var c := CloseUntil(b, t.entryTime);
    StreakConcat(0, b.closed, Due(b.open, t.entryTime));
    ApprovedExactly(inputs.config, t.symbol, Notional(t), SnapshotOf(inputs, c), t.entryTime);
    StreakExactly(c.closed, inputs.config.maxConsecutiveLosses);
  }

  // ---------------------------------------------------------------- scaling

  /** The books of a trade agree with its prices and quantity. */
  predicate Booked(t: TradePosition, buyFee: real, sellFee: real, risk: real) {
    && t.grossProfit == Times(t.exitPrice - t.entryPrice, t.quantity)
    && t.feeEntry == Times(Times(t.entryPrice, buyFee), t.quantity) && t.feeExit == Times(Times(t.exitPrice, sellFee), t.quantity)
    && t.netProfit == t.grossProfit - t.feeEntry - t.feeExit
    && t.capitalAtRisk == Times(risk, t.quantity)
  }

  /** Scaling a trade keeps its books in order: it is the same trade in another quantity. */
  lemma ScaleKeepsBooks(t: TradePosition, m: real, buyFee: real, sellFee: real, risk: real)
    requires Booked(t, buyFee, sellFee, risk)
    ensures Booked(Scale(t, m), buyFee, sellFee, risk)
    ensures Scale(t, m) == t.(quantity := Scale(t, m).quantity, grossProfit := Scale(t, m).grossProfit, netProfit := Scale(t, m).netProfit,
                              feeEntry := Scale(t, m).feeEntry, feeExit := Scale(t, m).feeExit, capitalAtRisk := Scale(t, m).capitalAtRisk)
    ensures Notional(Scale(t, m)) == Times(Notional(t), m)
  {
    hide Times;
    TimesReorder(t.exitPrice - t.entryPrice, t.quantity, m);
    TimesReorder(Times(t.entryPrice, buyFee), t.quantity, m);
    TimesReorder(Times(t.exitPrice, sellFee), t.quantity, m);
    TimesReorder(risk, t.quantity, m);
    TimesReorder(t.entryPrice, t.quantity, m);
    TimesSum(t.grossProfit, t.feeEntry, m);
    TimesSum(t.grossProfit - t.feeEntry, t.feeExit, m);
  }
}
