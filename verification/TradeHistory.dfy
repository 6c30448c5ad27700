/** The completed trades of a run, by the evaluations and fills they come from: when they were
    opened and closed, why, and for how much; and the cooldown between them. */
module TradeHistory {
  import opened Reals
  import opened Positions
  import opened RiskManager
  import opened SimulatedVenue
  import opened TradeEngine
  import opened TradeEngineRun

  /** Event i opens a position. */
  predicate Opens(states: seq<EngineState>, i: nat) {
    i + 1 < |states| && !states[i].open && states[i + 1].open
  }

  predicate Closes(states: seq<EngineState>, i: nat) {
    i + 1 < |states| && states[i].open && !states[i + 1].open
  }

  // ---------------------------------------------------------------- one event

  lemma OpeningEvent(e: Setup, s: EngineState, event: Event)
    requires ValidConfig(e.risk) && !s.open && Apply(e, s, event).0.open
    ensures TickOf(event).Some?
    ensures var n, t := Apply(e, s, event).0, TickOf(event).value;
            && n.position.entryTime == t.now && n.completed == s.completed && n.lastExit == s.lastExit
            && |n.fills| == |s.fills| + 1 && n.fills[..|s.fills|] == s.fills && n.fills[|s.fills|].time == t.now
            && (s.lastExit == 0 || t.wallClock - s.lastExit >= e.risk.cooldownSeconds * SECOND)
  {
    hide Times, Price, FillPrice, Notional, CapitalAtRisk, LossPerUnit, Size, Accepted;
  }

  lemma ClosingEvent(e: Setup, s: EngineState, event: Event)
    requires ValidConfig(e.risk) && s.open && !Apply(e, s, event).0.open
    ensures TickOf(event).Some?
    ensures var n, t := Apply(e, s, event).0, TickOf(event).value;
            && n.completed == s.completed + [n.position]
            && n.position.exitTime == n.lastExit == t.now && n.position.entryTime == s.position.entryTime
            && |n.fills| == |s.fills| + 1 && n.fills[..|s.fills|] == s.fills && n.fills[|s.fills|].time == t.now
  {
    hide Times, Price, Fee, Enter, Accepted, ExitReason, Tracked;
    if TickOf(event).Some? { TrackingKeepsEntry(e.risk, s.position, TickOf(event).value.price); }
  }

  /** An event that neither opens nor closes. */
  lemma OtherEvent(e: Setup, s: EngineState, event: Event)
    requires ValidConfig(e.risk) && Apply(e, s, event).0.open == s.open
    ensures var n := Apply(e, s, event).0;
            && n.completed == s.completed && n.lastExit == s.lastExit && n.fills == s.fills
            && (s.open ==> n.position.entryTime == s.position.entryTime)
  {
    hide Times, Price, Fee, Accepted, ExitReason, Tracked, ApproveEntry, Closed, Opened;
    if TickOf(event).Some? { TrackingKeepsEntry(e.risk, s.position, TickOf(event).value.price); }
  }

  // ---------------------------------------------------------------- times

  /** The evaluation an open position comes from. */
  lemma {:induction false} EntryOf(e: Setup, states: seq<EngineState>, events: seq<Event>, n: nat) returns (i: nat)
    requires Run(e, states, events) && n < |states| && states[n].open
    ensures i < n && Opens(states, i) && forall m | i < m <= n :: states[m].open
    ensures TickOf(events[i]).Some? && states[n].fills != []
    ensures states[n].position.entryTime == TickOf(events[i]).value.now == states[n].fills[|states[n].fills| - 1].time
  {
    hide Apply;
    assert states[(n - 1) + 1] == Apply(e, states[n - 1], events[n - 1]).0;
    if states[n - 1].open {
      OtherEvent(e, states[n - 1], events[n - 1]);
      i := EntryOf(e, states, events, n - 1);
    } else {
      OpeningEvent(e, states[n - 1], events[n - 1]);
      i := n - 1;
    }
  }

  /** Every completed trade was opened by one evaluation and closed by a later one, with the
      position open in between. Its entry and exit times are the times of these evaluations and
      of its two fills. */
  lemma {:induction false} TradeTimes(e: Setup, states: seq<EngineState>, events: seq<Event>, n: nat, k: nat) returns (i: nat, j: nat)
    requires Run(e, states, events) && n < |states| && k < |states[n].completed|
    ensures i < j < n && Opens(states, i) && Closes(states, j) && forall m | i < m <= j :: states[m].open
    ensures TickOf(events[i]).Some? && TickOf(events[j]).Some? && 2 * k + 1 < |states[n].fills|
    ensures states[n].completed[k].entryTime == TickOf(events[i]).value.now == states[n].fills[2 * k].time
    ensures states[n].completed[k].exitTime == TickOf(events[j]).value.now == states[n].fills[2 * k + 1].time
    decreases n
  {
    hide Apply, Balanced;
    var s, event := states[n - 1], events[n - 1];
    assert states[(n - 1) + 1] == Apply(e, s, event).0;
    if s.open && !states[n].open {
      ClosingEvent(e, s, event);
    } else if !s.open && states[n].open {
      OpeningEvent(e, s, event);
    } else {
      OtherEvent(e, s, event);
    }
    if k < |s.completed| {
      i, j := TradeTimes(e, states, events, n - 1, k);
      assert states[n].fills[..|s.fills|] == s.fills;
    } else {
      RunIsAccounted(e, states, events, n - 1);
      FillsOfTrade(s, k);
      i := EntryOf(e, states, events, n - 1);
      j := n - 1;
    }
  }

  lemma FillsOfTrade(s: EngineState, k: nat)
    requires Alternate(s) && s.open && k == |s.completed|
    ensures |s.fills| == 2 * k + 1
  {
  }

  // ---------------------------------------------------------------- cooldown

  lemma {:induction false} FlatKeepsLastExit(e: Setup, states: seq<EngineState>, events: seq<Event>, i: nat, j: nat)
    requires Run(e, states, events) && i <= j < |states| && forall m | i <= m <= j :: !states[m].open
    ensures states[j].lastExit == states[i].lastExit
  {
    hide Apply;
    if i < j {
      FlatKeepsLastExit(e, states, events, i, j - 1);
      assert states[(j - 1) + 1] == Apply(e, states[j - 1], events[j - 1]).0;
      OtherEvent(e, states[j - 1], events[j - 1]);
    }
  }

  /** The cooldown, over whole runs: from the evaluation that closes a position to the wall clock
      of the one that opens the next, at least the configured seconds go by. An exit at time 0
      counts as none. */
  lemma CooldownIsKept(e: Setup, states: seq<EngineState>, events: seq<Event>, i: nat, j: nat)
    requires Run(e, states, events) && i < j && Closes(states, i) && Opens(states, j)
    requires forall m | i < m <= j :: !states[m].open
    ensures TickOf(events[i]).Some? && TickOf(events[j]).Some?
    ensures TickOf(events[i]).value.now != 0 ==>
              TickOf(events[j]).value.wallClock - TickOf(events[i]).value.now >= e.risk.cooldownSeconds * SECOND
  {
    hide Apply;
    ClosingEvent(e, states[i], events[i]);
    FlatKeepsLastExit(e, states, events, i + 1, j);
    OpeningEvent(e, states[j], events[j]);
  }

  // ---------------------------------------------------------------- entries

  /** Exactly when an event opens a position, in every run: the engine is flat and evaluates it,
      it is not paused and not stopped, the strategy says buy at a positive price that is not
      too old, the cooldown since the last exit is over, and the largest affordable quantity
      passes the filters. */
  lemma OpensExactly(e: Setup, states: seq<EngineState>, events: seq<Event>, n: nat)
    requires Run(e, states, events) && n < |events| && !states[n].open
    ensures states[n + 1].open <==>
            && Evaluates(e, events[n]) && states[n].trading
            && var t := TickOf(events[n]).value;
               && !t.paused && t.buy && t.price > 0.0 && Timely(e.risk, t.now, states[n].lastExit, t.wallClock)
               && exists q :: LargestAffordable(e.risk, t.price, q) && WithinFilters(e.risk, t.price, q)
  {
    hide Apply, Evaluates, Timely, LargestAffordable, WithinFilters;
    assert states[n + 1] == Apply(e, states[n], events[n]).0;
    EntersExactly(e, states[n], events[n]);
  }

  lemma EntersExactly(e: Setup, s: EngineState, event: Event)
    requires ValidConfig(e.risk) && !s.open
    ensures Apply(e, s, event).0.open <==>
            && Evaluates(e, event) && s.trading
            && var t := TickOf(event).value;
               && !t.paused && t.buy && t.price > 0.0 && Timely(e.risk, t.now, s.lastExit, t.wallClock)
               && exists q :: LargestAffordable(e.risk, t.price, q) && WithinFilters(e.risk, t.price, q)
  {
    hide Times, Price, Notional, CapitalAtRisk, LossPerUnit, Size, Accepted, LargestAffordable, Timely, ApproveEntry, Opened;
    if TickOf(event).Some? {
      var t := TickOf(event).value;
      ApprovalExists(e.risk, t, s.lastExit);
    }
  }

  lemma ApprovalExists(c: RiskConfig, t: Tick, lastExit: int)
    requires ValidConfig(c)
    ensures var decision := ApproveEntry(c, t.buy, t.price, t.now, lastExit, t.wallClock);
            && (decision.Approved? <==>
                  && t.buy && t.price > 0.0 && Timely(c, t.now, lastExit, t.wallClock)
                  && exists q :: LargestAffordable(c, t.price, q) && WithinFilters(c, t.price, q))
            && (decision.Approved? ==> decision.quantity > 0.0)
  {
    hide LargestAffordable, Timely, Times, Size, LossPerUnit, CapitalAtRisk, Notional;
    var decision := ApproveEntry(c, t.buy, t.price, t.now, lastExit, t.wallClock);
    if decision.Approved? {
      ApprovedExactly(c, t.buy, t.price, t.now, lastExit, t.wallClock, decision.quantity);
    }
    if q :| LargestAffordable(c, t.price, q) && WithinFilters(c, t.price, q) {
      ApprovedExactly(c, t.buy, t.price, t.now, lastExit, t.wallClock, q);
    }
  }

  // ---------------------------------------------------------------- reasons and money

  /** Why an evaluation closes a position: a pending request comes first, then the stop, the
      take-profit price, and the holding time. */
  lemma CloseReasonExactly(e: Setup, states: seq<EngineState>, events: seq<Event>, n: nat)
    requires Run(e, states, events) && Closes(states, n)
    ensures TickOf(events[n]).Some?
    ensures var s, t, reason := states[n], TickOf(events[n]).value, states[n + 1].position.closeReason;
            var stop := StopAfter(e.risk, s.position.entryPrice, s.seen + [Quote(t.price, t.now)]);
            var target := Times(s.position.entryPrice, 1.0 + e.risk.takeProfit);
            && (reason == "manual_close" <==> s.closeRequested)
            && (reason == "stop_loss" <==> !s.closeRequested && t.price <= stop)
            && (reason == "take_profit" <==> !s.closeRequested && t.price > stop && t.price >= target)
            && (reason == "maximum_holding_time" <==>
                  !s.closeRequested && stop < t.price < target && !InTime(e.risk, s.position.entryTime, t.now))
            && (reason == "manual_close" || reason == "stop_loss" || reason == "take_profit" || reason == "maximum_holding_time")
  {
    hide Apply, StopAfter, Times, Profiled;
    RunIsProfiled(e, states, events, n);
    assert states[n + 1] == Apply(e, states[n], events[n]).0;
    ClosingEvent(e, states[n], events[n]);
    ClosingReason(e, states[n], events[n]);
  }

  lemma ClosingReason(e: Setup, s: EngineState, event: Event)
    requires ValidConfig(e.risk) && Profiled(e.risk, s) && s.open && !Apply(e, s, event).0.open && TickOf(event).Some?
    ensures var t, reason := TickOf(event).value, Apply(e, s, event).0.position.closeReason;
            var stop := StopAfter(e.risk, s.position.entryPrice, s.seen + [Quote(t.price, t.now)]);
            var target := Times(s.position.entryPrice, 1.0 + e.risk.takeProfit);
            reason == if s.closeRequested then "manual_close" else if t.price <= stop then "stop_loss"
                      else if t.price >= target then "take_profit" else "maximum_holding_time"
    ensures var t := TickOf(event).value;
            var stop := StopAfter(e.risk, s.position.entryPrice, s.seen + [Quote(t.price, t.now)]);
            var target := Times(s.position.entryPrice, 1.0 + e.risk.takeProfit);
            !s.closeRequested && stop < t.price < target ==> !InTime(e.risk, s.position.entryTime, t.now)
  {
    hide Times, Profiled, StopAfter, Tracked, Price, Fee, Accepted, Enter;
    var t := TickOf(event).value;
    TrackingIsProfiled(e.risk, s, t.price, t.now);
    var tracked := s.(position := Tracked(e.risk, s.position, t.price), seen := s.seen + [Quote(t.price, t.now)]);
    ProfileAtLast(e.risk, tracked, t.price, t.now);
    TrackingKeepsEntry(e.risk, s.position, t.price);
  }

  /** What a fill moved, before fees. */
  function Amount(f: Fill): real { Times(f.order.averageFill, f.order.executed) }

  /** The books of a trade, from the prices and quantities of two fills. */
  predicate Settles(c: RiskConfig, p: TradePosition, buy: Fill, sell: Fill) {
    && p.grossProfit == Amount(sell) - Amount(buy)
    && p.feeEntry == Times(Amount(buy), c.buyFee) && p.feeExit == Times(Amount(sell), c.sellFee)
    && p.netProfit == p.grossProfit - p.feeEntry - p.feeExit
  }

  lemma SaleSettled(e: Setup, s: EngineState, market: real, reason: string, now: int, buy: Fill)
    requires s.open && Bought(s.position, buy.order)
    requires s.position.feeEntry == Fee(s.position.entryPrice, s.position.quantity, e.risk.buyFee)
    requires s.fills != [] && s.fills[|s.fills| - 1] == buy
    ensures var n := Close(e, s, market, reason, now).0;
            !n.open ==> |n.fills| == |s.fills| + 1 && n.fills[|s.fills| - 1] == buy && Settles(e.risk, n.position, buy, n.fills[|s.fills|])
  {
    hide Times, Price;
    var n := Close(e, s, market, reason, now).0;
    TimesSum(n.position.exitPrice, s.position.entryPrice, s.position.quantity);
  }

  lemma TrackingKeepsBooks(c: RiskConfig, p: TradePosition, price: real)
    ensures var t := Tracked(c, p, price); t.entryPrice == p.entryPrice && t.quantity == p.quantity && t.feeEntry == p.feeEntry
  {
  }

  lemma ClosingSettles(e: Setup, s: EngineState, event: Event)
    requires ValidConfig(e.risk) && Accounted(e.risk, s) && s.open && !Apply(e, s, event).0.open
    ensures var n := Apply(e, s, event).0; |n.fills| >= 2 && Settles(e.risk, n.position, n.fills[|n.fills| - 2], n.fills[|n.fills| - 1])
  {
    hide Times, Fee, Close, Enter, Accepted, ExitReason, Cash, Net, NotLost, Tracked, Settles;
    if TickOf(event).Some? {
      var t := TickOf(event).value;
      var p := Tracked(e.risk, s.position, t.price);
      var held := s.(position := p, seen := s.seen + [Quote(t.price, t.now)]);
      TrackingKeepsBooks(e.risk, s.position, t.price);
      SaleSettled(e, s.(closeRequested := false), t.price, "manual_close", t.now, s.fills[|s.fills| - 1]);
      SaleSettled(e, held, t.price, ExitReason(e.risk, p, t.price, t.now), t.now, s.fills[|s.fills| - 1]);
    }
  }

  /** The profit and the fees of every completed trade are those of its two fills. */
  lemma {:induction false} TradeMoney(e: Setup, states: seq<EngineState>, events: seq<Event>, n: nat, k: nat)
    requires Run(e, states, events) && n < |states| && k < |states[n].completed|
    ensures 2 * k + 1 < |states[n].fills|
    ensures Settles(e.risk, states[n].completed[k], states[n].fills[2 * k], states[n].fills[2 * k + 1])
    decreases n
  {
    hide Apply, Balanced, Settles;
    var s, event := states[n - 1], events[n - 1];
    assert states[(n - 1) + 1] == Apply(e, s, event).0;
    if s.open && !states[n].open {
      ClosingEvent(e, s, event);
    } else if !s.open && states[n].open {
      OpeningEvent(e, s, event);
    } else {
      OtherEvent(e, s, event);
    }
    if k < |s.completed| {
      TradeMoney(e, states, events, n - 1, k);
      assert states[n].fills[..|s.fills|] == s.fills;
    } else {
      RunIsAccounted(e, states, events, n - 1);
      FillsOfTrade(s, k);
      ClosingSettles(e, s, event);
    }
  }
}
