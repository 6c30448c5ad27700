/** Whole runs of the trade engine: conservation of money, exits, sizing, and
    what a manual close request closes. */
module TradeEngineRun {
  import opened Wrappers
  import opened Orders
  import opened Reals
  import opened Positions
  import opened RiskManager
  import opened SimulatedVenue
  import opened TradeEngine
  import Metrics

  datatype Event =
    | RequestClose | StopTrading | Evaluation(tick: Tick) | MarketEvent(symbol: string, clock: int, tick: Tick)

  function Apply(e: Setup, s: EngineState, event: Event): Outcome
    requires e.risk.stepSize > 0.0
  {
    match event
    case RequestClose => (s.(closeRequested := true), Ok(NONE))
    case StopTrading => (s.(trading := false), Ok(NONE))
    case Evaluation(t) => Evaluate(e, s, t)
    case MarketEvent(symbol, clock, t) =>
      if Accepted(e, symbol, t.price, t.now, clock) then Evaluate(e, s, t) else (s, Ok(NONE))
  }

  ghost predicate Run(e: Setup, states: seq<EngineState>, events: seq<Event>) {
    && ValidConfig(e.risk) && |states| == |events| + 1 && states[0] == INITIAL
    && forall i | 0 <= i < |events| :: states[i + 1] == Apply(e, states[i], events[i]).0
  }

  function TickOf(event: Event): Option<Tick> {
    match event
    case Evaluation(t) => Some(t)
    case MarketEvent(_, _, t) => Some(t)
    case _ => None
  }

  predicate Evaluates(e: Setup, event: Event) {
    match event
    case Evaluation(_) => true
    case MarketEvent(symbol, clock, t) => Accepted(e, symbol, t.price, t.now, clock)
    case _ => false
  }

  // ---------------------------------------------------------------- money

  /** Money moved by one fill, fees included. */
  function Flow(c: RiskConfig, order: Snapshot): real {
    var amount := Times(order.averageFill, order.executed);
    if order.side == Buy then -amount - Times(amount, c.buyFee) else amount - Times(amount, c.sellFee)
  }

  function Cash(c: RiskConfig, fills: seq<Fill>): real {
    if fills == [] then 0.0 else Cash(c, fills[..|fills| - 1]) + Flow(c, fills[|fills| - 1].order)
  }

  lemma CashSnoc(c: RiskConfig, fills: seq<Fill>, f: Fill)
    ensures Cash(c, fills + [f]) == Cash(c, fills) + Flow(c, f.order)
  {
    assert (fills + [f])[..|fills|] == fills;
  }

  predicate Bought(p: TradePosition, order: Snapshot) {
    order.side == Buy && order.executed == p.quantity && order.averageFill == p.entryPrice && p.quantity > 0.0
  }

  predicate Sold(p: TradePosition, order: Snapshot) {
    order.side == Sell && order.executed == p.quantity && order.averageFill == p.exitPrice
  }

  /** The fills are one buy and one sell of the same quantity for each completed trade, in
      order, and one buy for an open position. */
  ghost predicate Alternate(s: EngineState) {
    && |s.fills| == 2 * |s.completed| + (if s.open then 1 else 0)
    && (forall i | 0 <= i < |s.completed| ::
          Bought(s.completed[i], s.fills[2 * i].order) && Sold(s.completed[i], s.fills[2 * i + 1].order))
    && (s.open ==> Bought(s.position, s.fills[|s.fills| - 1].order))
  }

  /** What an open position cost. */
  function Invested(s: EngineState): real {
    if s.open then Times(s.position.entryPrice, s.position.quantity) + s.position.feeEntry else 0.0
  }

  function NotLost(trades: seq<TradePosition>): nat {
    if trades == [] then 0 else NotLost(trades[..|trades| - 1]) + if trades[|trades| - 1].netProfit >= 0.0 then 1 else 0
  }

  ghost predicate Balanced(c: RiskConfig, s: EngineState) {
    && (s.open ==> s.position.feeEntry == Fee(s.position.entryPrice, s.position.quantity, c.buyFee))
    && Cash(c, s.fills) == s.totalProfit - Invested(s)
    && s.totalProfit == Net(s.completed)
    && s.wins == NotLost(s.completed) && s.wins + s.losses == |s.completed|
    && s.lastExit == if s.completed == [] then 0 else s.completed[|s.completed| - 1].exitTime
  }

  ghost predicate Accounted(c: RiskConfig, s: EngineState) {
    Alternate(s) && Balanced(c, s)
  }

  lemma CloseKeepsAlternation(e: Setup, s: EngineState, market: real, reason: string, now: int)
    requires Alternate(s) && s.open
    ensures Alternate(Close(e, s, market, reason, now).0)
  {
    hide Times, Fee, Price, FillPrice;
  }

  /** Selling turns what was invested into profit. */
  lemma SaleSettles(c: RiskConfig, p: TradePosition, fill: Fill, reason: string)
    requires fill.order.side == Sell && fill.order.executed == p.quantity
    ensures Flow(c, fill.order) - Times(p.entryPrice, p.quantity) - p.feeEntry == Closed(c, p, fill, reason).netProfit
  {
    hide Times;
    TimesSum(fill.order.averageFill, p.entryPrice, p.quantity);
  }

  lemma NotLostSnoc(trades: seq<TradePosition>, t: TradePosition)
    ensures NotLost(trades + [t]) == NotLost(trades) + if t.netProfit >= 0.0 then 1 else 0
  {
    assert (trades + [t])[..|trades|] == trades;
  }

  lemma CloseKeepsBalance(e: Setup, s: EngineState, market: real, reason: string, now: int)
    requires Balanced(e.risk, s) && s.open
    ensures Balanced(e.risk, Close(e, s, market, reason, now).0)
  {
    hide Times, Fee, Price, FillPrice, Closed, Flow, Cash, Net, NotLost;
    var sale := Execute(e, s, Sell, s.position.quantity, market, now);
    if sale.Ok? {
      SaleSettles(e.risk, s.position, sale.value, reason);
      CashSnoc(e.risk, s.fills, sale.value);
      NetSnoc(s.completed, Closed(e.risk, s.position, sale.value, reason));
      NotLostSnoc(s.completed, Closed(e.risk, s.position, sale.value, reason));
    }
  }

  lemma EnterKeepsAccounts(e: Setup, s: EngineState, t: Tick)
    requires e.risk.stepSize > 0.0 && Accounted(e.risk, s) && !s.open
    ensures Accounted(e.risk, Enter(e, s, t).0)
  {
    var n := Enter(e, s, t).0;
    if n.open {
      CashSnoc(e.risk, s.fills, n.fills[|s.fills|]);
      hide Times, Price, FillPrice, Cash, Net, NotLost, ApproveEntry, CapitalAtRisk;
    }
  }

  lemma EvaluateKeepsAccounts(e: Setup, s: EngineState, t: Tick)
    requires e.risk.stepSize > 0.0 && Accounted(e.risk, s)
    ensures Accounted(e.risk, Evaluate(e, s, t).0)
  {
    hide Times, Fee, Cash, Net, NotLost, Enter, Close, ExitReason;
    if s.open && s.closeRequested {
      CloseKeepsAlternation(e, s.(closeRequested := false), t.price, "manual_close", t.now);
      CloseKeepsBalance(e, s.(closeRequested := false), t.price, "manual_close", t.now);
    } else if !s.open {
      EnterKeepsAccounts(e, s.(closeRequested := t.lateRequest), t);
    } else {
      var p := Tracked(e.risk, s.position, t.price);
      var held := s.(position := p, seen := s.seen + [Quote(t.price, t.now)]);
      assert Accounted(e.risk, held);
      CloseKeepsAlternation(e, held, t.price, ExitReason(e.risk, p, t.price, t.now), t.now);
      CloseKeepsBalance(e, held, t.price, ExitReason(e.risk, p, t.price, t.now), t.now);
    }
  }

  lemma ApplyKeepsAccounts(e: Setup, s: EngineState, event: Event)
    requires e.risk.stepSize > 0.0 && Accounted(e.risk, s)
    ensures Accounted(e.risk, Apply(e, s, event).0)
  {
    hide Times, Fee, Cash, Net, NotLost, Evaluate;
    if event.Evaluation? || event.MarketEvent? { EvaluateKeepsAccounts(e, s, event.tick); }
  }

  lemma {:induction false} RunIsAccounted(e: Setup, states: seq<EngineState>, events: seq<Event>, n: nat)
    requires Run(e, states, events) && n < |states|
    ensures Accounted(e.risk, states[n])
  {
    if n > 0 {
      RunIsAccounted(e, states, events, n - 1);
      ApplyKeepsAccounts(e, states[n - 1], events[n - 1]);
    }
  }

  /** Conservation, in every state of every run: fills alternate between buy and sell of equal
      quantity, and all money moved, net of fees, is the total profit less what the open
      position cost. The total profit is the sum over the completed trades. */
  lemma Conservation(e: Setup, states: seq<EngineState>, events: seq<Event>, n: nat)
    requires Run(e, states, events) && n < |states|
    ensures Alternate(states[n])
    ensures Cash(e.risk, states[n].fills) == states[n].totalProfit - Invested(states[n])
    ensures states[n].totalProfit == Net(states[n].completed)
    ensures states[n].totalProfit == Metrics.Curve(states[n].completed)[|states[n].completed|]
    ensures states[n].wins + states[n].losses == |states[n].completed|
  {
    RunIsAccounted(e, states, events, n);
    var trades := states[n].completed;
    Metrics.CurveIsRunningNet(trades, |trades|);
    assert trades[..|trades|] == trades;
  }

  /** The engine and the metrics agree on the number of wins exactly when no trade broke even. */
  lemma {:induction false} WinsAgreeWithoutBreakEven(trades: seq<TradePosition>)
    ensures NotLost(trades) >= Metrics.Wins(trades)
    ensures NotLost(trades) == Metrics.Wins(trades) <==> forall t | t in trades :: t.netProfit != 0.0
  {
    if trades != [] {
      var n := |trades| - 1;
      WinsAgreeWithoutBreakEven(trades[..n]);
      assert trades == trades[..n] + [trades[n]];
    }
  }

  // ---------------------------------------------------------------- an open position

  function Top(entry: real, seen: seq<Quote>): real {
    if seen == [] then entry else Max(Top(entry, seen[..|seen| - 1]), seen[|seen| - 1].price)
  }

  function Bottom(entry: real, seen: seq<Quote>): real {
    if seen == [] then entry
    else if seen[|seen| - 1].price < Bottom(entry, seen[..|seen| - 1]) then seen[|seen| - 1].price
    else Bottom(entry, seen[..|seen| - 1])
  }

  lemma {:induction false} TopAndBottomAreExtremes(entry: real, seen: seq<Quote>)
    ensures Top(entry, seen) == entry || exists q | q in seen :: q.price == Top(entry, seen)
    ensures Bottom(entry, seen) == entry || exists q | q in seen :: q.price == Bottom(entry, seen)
    ensures Bottom(entry, seen) <= entry <= Top(entry, seen)
    ensures forall q | q in seen :: Bottom(entry, seen) <= q.price <= Top(entry, seen)
  {
    if seen != [] {
      var n := |seen| - 1;
      TopAndBottomAreExtremes(entry, seen[..n]);
      assert seen == seen[..n] + [seen[n]];
    }
  }

  /** The stop in force when the highest price so far is `top`. */
  function StopAt(c: RiskConfig, entry: real, top: real): real {
    if c.trailing && top > entry then Times(top, 1.0 - c.trail) else Times(entry, 1.0 - c.stopLoss)
  }

  function StopAfter(c: RiskConfig, entry: real, seen: seq<Quote>): real {
    StopAt(c, entry, Top(entry, seen))
  }

  /** An open position is a function of its entry and of the quotes seen since. */
  ghost predicate Profiled(c: RiskConfig, s: EngineState) {
    var p := s.position;
    s.open ==>
      && p.highestPrice == Top(p.entryPrice, s.seen) && p.lowestPrice == Bottom(p.entryPrice, s.seen)
      && p.stopLossPrice == StopAfter(c, p.entryPrice, s.seen)
      && p.takeProfitPrice == Times(p.entryPrice, 1.0 + c.takeProfit)
      && p.capitalAtRisk == CapitalAtRisk(c)
      && s.entryMarket > 0.0 && p.entryPrice == Price(c, Buy, s.entryMarket)
      && LargestAffordable(c, s.entryMarket, p.quantity) && WithinFilters(c, s.entryMarket, p.quantity)
  }

  lemma EnterIsProfiled(e: Setup, s: EngineState, t: Tick)
    requires ValidConfig(e.risk) && !s.open
    ensures Profiled(e.risk, Enter(e, s, t).0)
  {
    var decision := ApproveEntry(e.risk, t.buy, t.price, t.now, s.lastExit, t.wallClock);
    if decision.Approved? {
      ApprovedExactly(e.risk, t.buy, t.price, t.now, s.lastExit, t.wallClock, decision.quantity);
    }
    hide Times, Price, CapitalAtRisk, LargestAffordable, Size, LossPerUnit, Notional, Timely;
  }

  lemma TrackingIsProfiled(c: RiskConfig, s: EngineState, price: real, now: int)
    requires s.open && Profiled(c, s)
    ensures Profiled(c, s.(position := Tracked(c, s.position, price), seen := s.seen + [Quote(price, now)]))
  {
    hide Times, Price, CapitalAtRisk, LargestAffordable, WithinFilters;
    TopAndBottomAreExtremes(s.position.entryPrice, s.seen);
    assert (s.seen + [Quote(price, now)])[..|s.seen|] == s.seen;
  }

  lemma EvaluateIsProfiled(e: Setup, s: EngineState, t: Tick)
    requires ValidConfig(e.risk) && Profiled(e.risk, s)
    ensures Profiled(e.risk, Evaluate(e, s, t).0)
  {
    hide Tracked, Enter, Times, Price, LargestAffordable, WithinFilters, StopAfter, Top, Bottom, Execute, Closed, ExitReason;
    if !s.open {
      EnterIsProfiled(e, s.(closeRequested := t.lateRequest), t);
    } else if !s.closeRequested {
      TrackingIsProfiled(e.risk, s, t.price, t.now);
    }
  }

  lemma {:induction false} RunIsProfiled(e: Setup, states: seq<EngineState>, events: seq<Event>, n: nat)
    requires Run(e, states, events) && n < |states|
    ensures Profiled(e.risk, states[n])
  {
    if n > 0 {
      hide Profiled, Evaluate;
      RunIsProfiled(e, states, events, n - 1);
      var s, event := states[n - 1], events[n - 1];
      if event.Evaluation? || event.MarketEvent? { EvaluateIsProfiled(e, s, event.tick); }
      RequestsKeepProfile(e.risk, s);
    }
  }

  lemma RequestsKeepProfile(c: RiskConfig, s: EngineState)
    requires Profiled(c, s)
    ensures Profiled(c, s.(closeRequested := true)) && Profiled(c, s.(trading := false))
  {
  }

  // ---------------------------------------------------------------- an entry that succeeds

  lemma BuysArePositive(c: RiskConfig, market: real)
    requires ValidConfig(c) && market > 0.0
    ensures Price(c, Buy, market) > 0.0
  {
    FillsAreAdverse(market, c.spread, c.slippage);
  }

  /** An entry that the risk manager approves in a fresh engine. */
  predicate CanEnter(e: Setup, t: Tick) {
    && ValidConfig(e.risk) && t.buy && !t.paused
    && ApproveEntry(e.risk, true, t.price, t.now, 0, t.wallClock).Approved?
  }

  lemma EntryOpens(e: Setup, t: Tick)
    requires CanEnter(e, t)
    ensures var s := Evaluate(e, INITIAL, t).0;
            && s.open && s.closeRequested == t.lateRequest && s.trading && s.seen == [] && Profiled(e.risk, s)
            && s.position.entryTime == t.now && s.position.entryPrice > 0.0 && s.position.quantity > 0.0
  {
    var decision := ApproveEntry(e.risk, true, t.price, t.now, 0, t.wallClock);
    ApprovedExactly(e.risk, true, t.price, t.now, 0, t.wallClock, decision.quantity);
    EnterIsProfiled(e, INITIAL, t);
    BuysArePositive(e.risk, t.price);
    hide Profiled, Times, Price, LargestAffordable, Notional, Size, LossPerUnit, CapitalAtRisk, FillPrice;
  }

  // ---------------------------------------------------------------- exits

  /** Every quote seen lies strictly between the stop then in force and the take-profit price,
      and came before the longest holding time was over. */
  ghost predicate Justified(c: RiskConfig, p: TradePosition, seen: seq<Quote>) {
    forall k | 0 <= k < |seen| :: HoldsAt(c, p.entryPrice, seen, k) && InTime(c, p.entryTime, seen[k].time)
  }

  predicate InTime(c: RiskConfig, entryTime: int, now: int) {
    now - entryTime < c.maxHoldingSeconds * SECOND
  }

  predicate HoldsAt(c: RiskConfig, entry: real, seen: seq<Quote>, k: nat)
    requires k < |seen|
  {
    StopAfter(c, entry, seen[..k + 1]) < seen[k].price < Times(entry, 1.0 + c.takeProfit)
  }

  lemma HoldingIsJustified(e: Setup, s: EngineState, t: Tick)
    requires ValidConfig(e.risk) && Profiled(e.risk, s) && s.open && Justified(e.risk, s.position, s.seen)
    requires Evaluate(e, s, t).0.open && Evaluate(e, s, t).1.Ok?
    ensures Justified(e.risk, Evaluate(e, s, t).0.position, Evaluate(e, s, t).0.seen)
  {
    hide Tracked, Times, Profiled, StopAfter;
    var p, seen := s.position, s.seen + [Quote(t.price, t.now)];
    var n := s.(position := Tracked(e.risk, p, t.price), seen := seen);
    TrackingIsProfiled(e.risk, s, t.price, t.now);
    ProfileAtLast(e.risk, n, t.price, t.now);
    TrackingKeepsEntry(e.risk, p, t.price);
    forall k | 0 <= k < |seen|
      ensures HoldsAt(e.risk, p.entryPrice, seen, k) && InTime(e.risk, p.entryTime, seen[k].time)
    {
      if k < |s.seen| {
        assert seen[..k + 1] == s.seen[..k + 1];
        assert HoldsAt(e.risk, p.entryPrice, s.seen, k);
      } else {
        assert seen[..k + 1] == seen;
      }
    }
  }

  lemma TrackingKeepsEntry(c: RiskConfig, p: TradePosition, price: real)
    ensures Tracked(c, p, price).entryPrice == p.entryPrice && Tracked(c, p, price).entryTime == p.entryTime
    ensures Tracked(c, p, price).takeProfitPrice == p.takeProfitPrice
  {
  }

  lemma ProfileAtLast(c: RiskConfig, s: EngineState, price: real, now: int)
    requires s.open && Profiled(c, s)
    ensures s.position.stopLossPrice == StopAfter(c, s.position.entryPrice, s.seen)
    ensures s.position.takeProfitPrice == Times(s.position.entryPrice, 1.0 + c.takeProfit)
  {
  }

  /** Exit completeness over runs: a position opened by event i, for which the venue refused no
      order since, is open only because no quote evaluated since called for an exit. */
  lemma {:induction false} OpenIsJustified(e: Setup, states: seq<EngineState>, events: seq<Event>, i: nat, n: nat)
    requires Run(e, states, events) && i < n < |states|
    requires !states[i].open && forall k | i < k <= n :: states[k].open
    requires forall k | i <= k < n :: Apply(e, states[k], events[k]).1.Ok?
    ensures Justified(e.risk, states[n].position, states[n].seen)
    decreases n
  {
    hide Justified, Profiled, Apply;
    RunIsProfiled(e, states, events, n - 1);
    if i < n - 1 { OpenIsJustified(e, states, events, i, n - 1); }
    assert states[(n - 1) + 1] == Apply(e, states[n - 1], events[n - 1]).0;
    ApplyIsJustified(e, states[n - 1], events[n - 1]);
  }

  lemma ApplyIsJustified(e: Setup, s: EngineState, event: Event)
    requires ValidConfig(e.risk) && Profiled(e.risk, s) && (s.open ==> Justified(e.risk, s.position, s.seen))
    requires Apply(e, s, event).1.Ok?
    ensures var n := Apply(e, s, event).0; n.open ==> Justified(e.risk, n.position, n.seen)
  {
    hide Justified, Profiled, Evaluate;
    if event.Evaluation? || (event.MarketEvent? && Accepted(e, event.symbol, event.tick.price, event.tick.now, event.clock)) {
      EvaluateIsJustified(e, s, event.tick);
    }
  }

  lemma EvaluateIsJustified(e: Setup, s: EngineState, t: Tick)
    requires ValidConfig(e.risk) && Profiled(e.risk, s) && (s.open ==> Justified(e.risk, s.position, s.seen))
    requires Evaluate(e, s, t).1.Ok?
    ensures var n := Evaluate(e, s, t).0; n.open ==> Justified(e.risk, n.position, n.seen)
  {
    if s.open && Evaluate(e, s, t).0.open {
      HoldingIsJustified(e, s, t);
    } else {
      hide Times, Execute, ApproveEntry, Opened;
    }
  }

  /** The quote lies strictly between the stop it leaves in force and the take-profit price, and
      within the holding time. */
  predicate Holds(c: RiskConfig, p: TradePosition, seen: seq<Quote>, t: Tick) {
    HoldsAt(c, p.entryPrice, seen + [Quote(t.price, t.now)], |seen|) && InTime(c, p.entryTime, t.now)
  }

  lemma NoReasonExactly(e: Setup, s: EngineState, t: Tick)
    requires Profiled(e.risk, s) && s.open
    ensures ExitReason(e.risk, Tracked(e.risk, s.position, t.price), t.price, t.now) == "" <==> Holds(e.risk, s.position, s.seen, t)
  {
    hide Tracked, Times, Profiled, StopAfter;
    var seen := s.seen + [Quote(t.price, t.now)];
    TrackingIsProfiled(e.risk, s, t.price, t.now);
    ProfileAtLast(e.risk, s.(position := Tracked(e.risk, s.position, t.price), seen := seen), t.price, t.now);
    TrackingKeepsEntry(e.risk, s.position, t.price);
    assert seen[..|s.seen| + 1] == seen;
  }

  lemma StaysOpenExactly(e: Setup, s: EngineState, t: Tick)
    requires e.risk.stepSize > 0.0 && Profiled(e.risk, s) && s.open && s.position.quantity > 0.0
    ensures Evaluate(e, s, t).0.open <==>
            !s.trading || t.price <= 0.0 || (!s.closeRequested && Holds(e.risk, s.position, s.seen, t))
  {
    NoReasonExactly(e, s, t);
    TrackingKeepsQuantity(e.risk, s.position, t.price);
    hide Times, Price, Tracked, Closed, ExitReason, Holds, Profiled;
  }

  /** Event by event, in every run and whatever was refused before: an open position stays open
      iff the event is no evaluation, or the venue cannot sell (it was stopped, or there is no
      price), or nothing calls for an exit: no close request is pending, and the quote lies
      between stop and take-profit price and within the holding time. */
  lemma OpenStaysExactly(e: Setup, states: seq<EngineState>, events: seq<Event>, n: nat)
    requires Run(e, states, events) && n < |events| && states[n].open
    ensures states[n + 1].open <==>
            || !Evaluates(e, events[n])
            || !states[n].trading || TickOf(events[n]).value.price <= 0.0
            || (!states[n].closeRequested && Holds(e.risk, states[n].position, states[n].seen, TickOf(events[n]).value))
  {
    RunIsProfiled(e, states, events, n);
    RunIsAccounted(e, states, events, n);
    if Evaluates(e, events[n]) { StaysOpenExactly(e, states[n], TickOf(events[n]).value); }
    hide Evaluate, Holds, Profiled, Accepted;
  }

  /** The venue refuses an order only when trading was stopped or the price is not positive. */
  lemma RefusalsExactly(e: Setup, s: EngineState, t: Tick)
    requires e.risk.stepSize > 0.0 && s.open && s.closeRequested && s.position.quantity > 0.0
    ensures Evaluate(e, s, t).1.Err? <==> !s.trading || t.price <= 0.0
    ensures Evaluate(e, s, t).1.Err? ==> Evaluate(e, s, t).0 == s.(closeRequested := false)
  {
    hide Times, Price, Closed;
  }

  // ---------------------------------------------------------------- sizing

  lemma StoppedLoss(m: real, a: real, b: real, stop: real, q: real)
    ensures Times(Times(Times(m, a), b) - Times(Times(Times(m, a), b), 1.0 - stop), q)
         == Times(Times(Times(q, Times(m, stop)), a), b)
  {
  }

  /** Across risk manager, venue and engine: the quantity of an open position is a whole number
      of steps, one more step would have risked more than configured, and the gross loss from
      the entry fill to the initial stop exceeds the capital at risk by at most the costs of
      the fill. */
  lemma SizingBound(e: Setup, states: seq<EngineState>, events: seq<Event>, n: nat)
    requires Run(e, states, events) && n < |states| && states[n].open
    ensures var c, p := e.risk, states[n].position;
            && LargestAffordable(c, states[n].entryMarket, p.quantity)
            && p.capitalAtRisk == CapitalAtRisk(c)
            && Times(p.entryPrice - Times(p.entryPrice, 1.0 - c.stopLoss), p.quantity)
                 <= Times(Times(p.capitalAtRisk, 1.0 + c.spread * 0.5), 1.0 + c.slippage)
  {
    RunIsProfiled(e, states, events, n);
    var c, p, m := e.risk, states[n].position, states[n].entryMarket;
    var a, b := 1.0 + c.spread * 0.5, 1.0 + c.slippage;
    StoppedLoss(m, a, b, c.stopLoss, p.quantity);
    hide Times, Top, Bottom, StopAfter;
    TimesUp(Loss(c, p.quantity, m), CapitalAtRisk(c), a);
    TimesUp(Times(Loss(c, p.quantity, m), a), Times(CapitalAtRisk(c), a), b);
  }

  // ---------------------------------------------------------------- closing by hand

  /** A request that arrives while the engine is flat closes no later position, unless it
      arrives during the very evaluation that opens one, after the pending request was dropped. */
  lemma PendingAfterEntry(e: Setup, s: EngineState, t: Tick)
    requires e.risk.stepSize > 0.0 && !s.open && Evaluate(e, s, t).0.open
    ensures Evaluate(e, s, t).0.closeRequested == t.lateRequest
  {
    hide Times, Price, ApproveEntry;
  }

  /** Whether a request is pending before event j, for a position opened by event i: the last
      thing that happened to the flag is a request, and not an evaluation, which consumes it.
      No event before i is looked at. */
  predicate PendingSince(e: Setup, events: seq<Event>, i: nat, j: nat)
    requires i < j <= |events|
    decreases j
  {
    if j == i + 1 then TickOf(events[i]).Some? && TickOf(events[i]).value.lateRequest
    else if events[j - 1].RequestClose? then true
    else !Evaluates(e, events[j - 1]) && PendingSince(e, events, i, j - 1)
  }

  lemma EvaluationConsumes(e: Setup, s: EngineState, t: Tick)
    requires e.risk.stepSize > 0.0 && s.open && Evaluate(e, s, t).0.open
    ensures !Evaluate(e, s, t).0.closeRequested
  {
    hide Times, Price, Tracked, Closed, ExitReason;
  }

  /** In every run, for a position opened by event i and still open: a request is pending iff
      one came since the entry and was not consumed. What was requested before the entry plays
      no part. */
  lemma {:induction false} RequestsCountSinceEntry(e: Setup, states: seq<EngineState>, events: seq<Event>, i: nat, j: nat)
    requires Run(e, states, events) && i < j <= |events|
    requires !states[i].open && forall k | i < k <= j :: states[k].open
    ensures states[j].closeRequested <==> PendingSince(e, events, i, j)
    decreases j
  {
    hide Evaluate;
    var s, event := states[j - 1], events[j - 1];
    assert states[(j - 1) + 1] == Apply(e, s, event).0 && states[j].open;
    if j == i + 1 {
      PendingAfterEntry(e, s, TickOf(event).value);
    } else {
      RequestsCountSinceEntry(e, states, events, i, j - 1);
      if Evaluates(e, event) { EvaluationConsumes(e, s, TickOf(event).value); }
    }
  }

  /** A position is closed by hand exactly when such a request is pending at an evaluation that
      the venue can serve. */
  lemma CloseByHandExactly(e: Setup, states: seq<EngineState>, events: seq<Event>, i: nat, j: nat)
    requires Run(e, states, events) && i < j < |events|
    requires !states[i].open && forall k | i < k <= j :: states[k].open
    requires Evaluates(e, events[j]) && states[j].trading && TickOf(events[j]).value.price > 0.0
    ensures !states[j + 1].open && states[j + 1].position.closeReason == "manual_close" <==> PendingSince(e, events, i, j)
  {
    RequestsCountSinceEntry(e, states, events, i, j);
    RunIsAccounted(e, states, events, j);
    ServedEvaluation(e, states[j], TickOf(events[j]).value);
    hide Evaluate, PendingSince, Accounted;
  }

  lemma ServedEvaluation(e: Setup, s: EngineState, t: Tick)
    requires e.risk.stepSize > 0.0 && s.open && s.trading && t.price > 0.0 && s.position.quantity > 0.0
    ensures var n := Evaluate(e, s, t).0;
            !n.open && n.position.closeReason == "manual_close" <==> s.closeRequested
  {
    hide Times, Price, Tracked;
    var p := Tracked(e.risk, s.position, t.price);
    assert p.quantity == s.position.quantity by { TrackingKeepsQuantity(e.risk, s.position, t.price); }
    assert ExitReason(e.risk, p, t.price, t.now) != "manual_close";
  }

  lemma TrackingKeepsQuantity(c: RiskConfig, p: TradePosition, price: real)
    ensures Tracked(c, p, price).quantity == p.quantity
  {
  }

  /** The promise that a request made while flat closes no later position fails exactly for
      requests that come late in an entry: the next evaluation then closes the new position. */
  lemma LateRequestLeaks(e: Setup, states: seq<EngineState>, events: seq<Event>, i: nat)
    requires Run(e, states, events) && i + 1 < |events| && !states[i].open && states[i + 1].open
    requires Evaluates(e, events[i + 1]) && states[i + 1].trading && TickOf(events[i + 1]).value.price > 0.0
    ensures TickOf(events[i]).Some?
    ensures !states[i + 2].open && states[i + 2].position.closeReason == "manual_close" <==> TickOf(events[i]).value.lateRequest
  {
    CloseByHandExactly(e, states, events, i, i + 1);
    assert TickOf(events[i]).Some? by { hide Evaluate; }
  }

  /** A configuration of a paper account. */
  const PLAIN: RiskConfig :=
    RiskConfig(100.0, 0.1, 0.5, 0.5, false, 0.0, 0.0, 0.0, 0.0, 0.0, 1.0, 1.0, 0.0, 1.0, 1.0, 0, 60, 1000)

  /** And it does fail: for every entry that is approved, a request that comes late in it closes
      the new position at the next price. */
  lemma LateRequestCloses(e: Setup, t: Tick, q: Tick)
    requires CanEnter(e, t) && q.price > 0.0
    ensures var late := t.(lateRequest := true);
            var entered := Evaluate(e, INITIAL, late).0;
            var after := Evaluate(e, entered, q).0;
            && Run(e, [INITIAL, entered, after], [Evaluation(late), Evaluation(q)])
            && entered.open && !after.open && after.position.closeReason == "manual_close"
  {
    var late := t.(lateRequest := true);
    EntryOpens(e, late);
    ServedEvaluation(e, Evaluate(e, INITIAL, late).0, q);
    hide Evaluate;
  }

  /** Such engines and entries exist. */
  lemma EntryExists()
    ensures CanEnter(Setup("BTCUSDT", PLAIN), Tick(1.0, 0, 0, true, false, false))
  {
  }
}
