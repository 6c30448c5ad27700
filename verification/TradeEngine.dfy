/** The one-position paper trading engine. What comes from outside is an input of each step:
    the price, the engine clock, the wall clock, the signal of the strategy, the pause switch,
    and the requests to close by hand. */
module TradeEngine {
  import opened Wrappers
  import opened Orders
  import opened Reals
  import opened Positions
  import opened RiskManager
  import opened SimulatedVenue

  datatype TradeAction = NONE | BUY | SELL

  datatype Setup = Setup(symbol: string, risk: RiskConfig)

  /** A price the engine evaluated while a position was open. */
  datatype Quote = Quote(price: real, time: int)

  /** `fills`, `seen` and `entryMarket` are history: every fill of the venue, the quotes since
      the position opened, and the market price it opened at. */
  datatype EngineState = EngineState(
    open: bool,
    position: TradePosition,
    totalProfit: real,
    wins: nat,
    losses: nat,
    completed: seq<TradePosition>,
    lastExit: int,
    closeRequested: bool,
    trading: bool,
    fills: seq<Fill>,
    seen: seq<Quote>,
    entryMarket: real)

  const NO_POSITION: TradePosition :=
    TradePosition("", 0, 0, 0.0, 0.0, 0.0, 0.0, 0.0, 0.0, 0.0, 0.0, 0.0, 0.0, 0.0, 0.0, "")

  const INITIAL: EngineState := EngineState(false, NO_POSITION, 0.0, 0, 0, [], 0, false, true, [], [], 0.0)

  /** One evaluation. `lateRequest`: a request to close arrives after the engine, being flat,
      dropped the pending one. */
  datatype Tick = Tick(price: real, now: int, wallClock: int, buy: bool, paused: bool, lateRequest: bool)

  type Outcome = (EngineState, Result<TradeAction, VenueError>)

  function Price(c: RiskConfig, side: Side, market: real): real {
    FillPrice(side, market, AtLeastZero(c.spread), AtLeastZero(c.slippage))
  }

  function OrderFor(e: Setup, side: Side, quantity: real): Request {
    Request(e.symbol, side, quantity, "sentum-" + e.symbol + (if side == Buy then "-buy-" else "-sell-"))
  }

  /** An order at the venue at a market price. */
  function Execute(e: Setup, s: EngineState, side: Side, quantity: real, market: real, now: int): Result<Fill, VenueError> {
    if !s.trading then Err(NotReady)
    else if quantity <= 0.0 || market <= 0.0 then Err(InvalidOrder)
    else Ok(Fill(FilledOrder(OrderFor(e, side, quantity), |s.fills| + 1, Price(e.risk, side, market)), now))
  }

  function Fee(price: real, quantity: real, percent: real): real { Times(Times(price, quantity), percent) }

  function Opened(e: Setup, fill: Fill): TradePosition {
    var price, quantity := fill.order.averageFill, fill.order.executed;
    NO_POSITION.(
      symbol := e.symbol,
      entryTime := fill.time,
      entryPrice := price,
      quantity := quantity,
      highestPrice := price,
      lowestPrice := price,
      stopLossPrice := Times(price, 1.0 - e.risk.stopLoss),
      takeProfitPrice := Times(price, 1.0 + e.risk.takeProfit),
      capitalAtRisk := CapitalAtRisk(e.risk),
      feeEntry := Fee(price, quantity, e.risk.buyFee))
  }

  /** Extremes and trailing stop after a price. */
  function Tracked(c: RiskConfig, p: TradePosition, price: real): TradePosition {
    var higher :=
      if price <= p.highestPrice then p
      else p.(highestPrice := price, stopLossPrice := if c.trailing then Times(price, 1.0 - c.trail) else p.stopLossPrice);
    if price < higher.lowestPrice then higher.(lowestPrice := price) else higher
  }

  function Closed(c: RiskConfig, p: TradePosition, fill: Fill, reason: string): TradePosition {
    var exit := fill.order.averageFill;
    var gross := Times(exit - p.entryPrice, p.quantity);
    var fee := Fee(exit, p.quantity, c.sellFee);
    p.(exitPrice := exit, exitTime := fill.time, closeReason := reason,
       grossProfit := gross, feeExit := fee, netProfit := gross - p.feeEntry - fee)
  }

  function Close(e: Setup, s: EngineState, market: real, reason: string, now: int): Outcome {
    match Execute(e, s, Sell, s.position.quantity, market, now)
    case Err(error) => (s, Err(error))
    case Ok(fill) =>
      var p := Closed(e.risk, s.position, fill, reason);
      (s.(open := false, position := p,
          totalProfit := s.totalProfit + p.netProfit,
          wins := if p.netProfit >= 0.0 then s.wins + 1 else s.wins,
          losses := if p.netProfit >= 0.0 then s.losses else s.losses + 1,
          completed := s.completed + [p],
          lastExit := p.exitTime,
          fills := s.fills + [fill]),
       Ok(SELL))
  }

  function Enter(e: Setup, s: EngineState, t: Tick): Outcome
    requires e.risk.stepSize > 0.0
  {
    if t.paused || !t.buy then (s, Ok(NONE))
    else
      match ApproveEntry(e.risk, t.buy, t.price, t.now, s.lastExit, t.wallClock)
      case Refused(_) => (s, Ok(NONE))
      case Approved(quantity, _) =>
        match Execute(e, s, Buy, quantity, t.price, t.now)
        case Err(error) => (s, Err(error))
        case Ok(fill) =>
          (s.(open := true, position := Opened(e, fill), fills := s.fills + [fill], seen := [], entryMarket := t.price),
           Ok(BUY))
  }

  function ExitReason(c: RiskConfig, p: TradePosition, price: real, now: int): string {
    if price <= p.stopLossPrice then "stop_loss"
    else if price >= p.takeProfitPrice then "take_profit"
    else if now - p.entryTime >= c.maxHoldingSeconds * SECOND then "maximum_holding_time"
    else ""
  }

  /** The effect of an evaluation. */
  function Evaluate(e: Setup, s: EngineState, t: Tick): Outcome
    requires e.risk.stepSize > 0.0
  {
    if s.open && s.closeRequested then Close(e, s.(closeRequested := false), t.price, "manual_close", t.now)
    else if !s.open then Enter(e, s.(closeRequested := t.lateRequest), t)
    else
      var p := Tracked(e.risk, s.position, t.price);
      var held := s.(position := p, seen := s.seen + [Quote(t.price, t.now)]);
      var reason := ExitReason(e.risk, p, t.price, t.now);
      if reason == "" then (held, Ok(NONE)) else Close(e, held, t.price, reason, t.now)
  }

  /** Events of another symbol, without a price, or too old are ignored. */
  predicate Accepted(e: Setup, symbol: string, price: real, timestamp: int, clock: int) {
    symbol == e.symbol && price > 0.0 && clock - timestamp <= e.risk.maxDataAgeMs * MILLISECOND
  }

  // ---------------------------------------------------------------- the class

  class TradeEngine {
    const setup: Setup
    const venue: SimulatedVenue
    var open: bool
    var position: TradePosition
    var totalProfit: real
    var wins: nat
    var losses: nat
    var completed: seq<TradePosition>
    var lastExit: int
    var closeRequested: bool
    var latestPrice: real
    ghost var fills: seq<Fill>
    ghost var seen: seq<Quote>
    ghost var entryMarket: real

    ghost function Abstract(): EngineState
      reads this, venue
    {
      EngineState(open, position, totalProfit, wins, losses, completed, lastExit, closeRequested,
            venue.ready && !venue.killed, fills, seen, entryMarket)
    }

    ghost predicate Valid()
      reads this, venue
    {
      && setup.risk.stepSize > 0.0
      && venue.spread == AtLeastZero(setup.risk.spread) && venue.slippage == AtLeastZero(setup.risk.slippage)
      && venue.nextId == |fills|
    }

    constructor (s: Setup)
      requires s.risk.stepSize > 0.0
      ensures Valid() && setup == s && Abstract() == INITIAL && fresh(venue)
    {
      setup := s;
      var v := new SimulatedVenue();
      v.SetFillModel(s.risk.spread, s.risk.slippage);
      v.Start();
      venue := v;
      open, position, totalProfit, wins, losses := false, NO_POSITION, 0.0, 0, 0;
      completed, lastExit, closeRequested, latestPrice := [], 0, false, 0.0;
      fills, seen, entryMarket := [], [], 0.0;
    }

    method Stop()
      requires Valid()
      modifies venue
      ensures Valid() && Abstract() == old(Abstract()).(trading := false)
    {
      venue.Stop();
    }

    method RequestManualClose()
      requires Valid()
      modifies this`closeRequested
      ensures Valid() && Abstract() == old(Abstract()).(closeRequested := true)
    {
      closeRequested := true;
    }

    method ExecuteOrder(side: Side, quantity: real, market: real, now: int) returns (r: Result<Fill, VenueError>)
      requires Valid()
      modifies this`fills, venue
      ensures Valid()
      ensures r == Execute(setup, old(Abstract()), side, quantity, market, now)
      ensures Abstract() == old(Abstract()).(fills := if r.Ok? then old(fills) + [r.value] else old(fills))
    {
      venue.SetMarket(market, now);
      r := venue.Submit(OrderFor(setup, side, quantity));
      if r.Ok? { fills := fills + [r.value]; }
    }

    method ClosePosition(market: real, reason: string, now: int) returns (r: Result<TradeAction, VenueError>)
      requires Valid()
      modifies this, venue
      ensures Valid()
      ensures (Abstract(), r) == Close(setup, old(Abstract()), market, reason, now)
      ensures latestPrice == old(latestPrice)
    {
      hide Execute, Closed;
      var filled := ExecuteOrder(Sell, position.quantity, market, now);
      if filled.Err? { return Err(filled.error); }
      RecordExit(filled.value, reason);
      BookTrade();
      return Ok(SELL);
    }

    /** The closed position becomes a completed trade. */
    method BookTrade()
      modifies this`totalProfit, this`wins, this`losses, this`completed, this`lastExit, this`open
      ensures !open && totalProfit == old(totalProfit) + position.netProfit
      ensures wins == old(wins) + (if position.netProfit >= 0.0 then 1 else 0)
      ensures losses == old(losses) + (if position.netProfit >= 0.0 then 0 else 1)
      ensures completed == old(completed) + [position] && lastExit == position.exitTime
    {
      totalProfit := totalProfit + position.netProfit;
      if position.netProfit >= 0.0 { wins := wins + 1; } else { losses := losses + 1; }
      completed := completed + [position];
      lastExit := position.exitTime;
      open := false;
    }

    method RecordExit(fill: Fill, reason: string)
      modifies this`position
      ensures position == Closed(setup.risk, old(position), fill, reason)
    {
      hide Fee, Times;
      position := position.(exitPrice := fill.order.averageFill, exitTime := fill.time, closeReason := reason);
      position := position.(grossProfit := Times(position.exitPrice - position.entryPrice, position.quantity));
      position := position.(feeExit := Fee(position.exitPrice, position.quantity, setup.risk.sellFee));
      position := position.(netProfit := position.grossProfit - position.feeEntry - position.feeExit);
    }

    method TryEntry(t: Tick) returns (r: Result<TradeAction, VenueError>)
      requires Valid() && !open
      modifies this, venue
      ensures Valid()
      ensures (Abstract(), r) == Enter(setup, old(Abstract()), t)
      ensures latestPrice == old(latestPrice)
    {
      hide Times, Fee, ApproveEntry, Price, FillPrice, Execute, Opened, FilledOrder, CapitalAtRisk;
      if t.paused { return Ok(NONE); }
      if !t.buy { return Ok(NONE); }
      var decision := ApproveEntry(setup.risk, t.buy, t.price, t.now, lastExit, t.wallClock);
      if decision.Refused? { return Ok(NONE); }
      var filled := ExecuteOrder(Buy, decision.quantity, t.price, t.now);
      if filled.Err? { return Err(filled.error); }
      position := Opened(setup, filled.value);
      open := true;
      seen, entryMarket := [], t.price;
      return Ok(BUY);
    }

    method TrackPrice(price: real)
      requires Valid()
      modifies this`position
      ensures Abstract() == old(Abstract()).(position := Tracked(setup.risk, old(position), price))
    {
      if price > position.highestPrice {
        position := position.(highestPrice := price);
        if setup.risk.trailing { position := position.(stopLossPrice := Times(price, 1.0 - setup.risk.trail)); }
      }
      if price < position.lowestPrice { position := position.(lowestPrice := price); }
    }

    method EvaluateAt(t: Tick) returns (r: Result<TradeAction, VenueError>)
      requires Valid()
      modifies this, venue
      ensures Valid()
      ensures (Abstract(), r) == Evaluate(setup, old(Abstract()), t)
      ensures latestPrice == old(latestPrice)
    {
      hide Close, Enter, Tracked;
      if open && closeRequested {
        closeRequested := false;
        r := ClosePosition(t.price, "manual_close", t.now);
        return;
      }
      if !open {
        closeRequested := false;
        // a request of another thread can land from here on
        if t.lateRequest { closeRequested := true; }
        r := TryEntry(t);
        return;
      }
      seen := seen + [Quote(t.price, t.now)];
      TrackPrice(t.price);
      if t.price <= position.stopLossPrice {
        r := ClosePosition(t.price, "stop_loss", t.now);
      } else if t.price >= position.takeProfitPrice {
        r := ClosePosition(t.price, "take_profit", t.now);
      } else if t.now - position.entryTime >= setup.risk.maxHoldingSeconds * SECOND {
        r := ClosePosition(t.price, "maximum_holding_time", t.now);
      } else {
        r := Ok(NONE);
      }
    }

    method ProcessEvent(symbol: string, clock: int, t: Tick) returns (r: Result<TradeAction, VenueError>)
      requires Valid()
      modifies this, venue
      ensures Valid()
      ensures (Abstract(), r) == if Accepted(setup, symbol, t.price, t.now, clock)
                                 then Evaluate(setup, old(Abstract()), t) else (old(Abstract()), Ok(NONE))
      ensures latestPrice == if Accepted(setup, symbol, t.price, t.now, clock) then t.price else old(latestPrice)
      ensures symbol != setup.symbol || t.price <= 0.0 || clock - t.now > setup.risk.maxDataAgeMs * MILLISECOND ==>
                r == Ok(NONE) && Abstract() == old(Abstract())
    {
      if symbol != setup.symbol || t.price <= 0.0 { return Ok(NONE); }
      if clock - t.now > setup.risk.maxDataAgeMs * MILLISECOND { return Ok(NONE); }
      latestPrice := t.price;
      r := EvaluateAt(t);
    }
  }
}
