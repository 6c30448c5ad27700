/** The simulated execution venue: every accepted order fills at once, away from the market
    price by half the spread and by the slippage. */
module SimulatedVenue {
  import opened Wrappers
  import opened Orders
  import opened Reals

  datatype VenueError = NotReady | InvalidOrder

  /** A filled order and the market time of its fill. */
  datatype Fill = Fill(order: Snapshot, time: int)

  function AtLeastZero(x: real): real { if x < 0.0 then 0.0 else x }

  function FillPrice(side: Side, market: real, spread: real, slippage: real): real {
    var half := spread * 0.5;
    if side == Buy then Times(Times(market, 1.0 + half), 1.0 + slippage)
    else Times(Times(market, 1.0 - half), 1.0 - slippage)
  }

  function FilledOrder(r: Request, id: int, price: real): Snapshot {
    Snapshot(r.symbol, r.clientOrderId, id, r.side, State.Filled, r.quantity, r.quantity, r.quantity * price, price, "")
  }

  /** The whole quantity of the request was executed, under this id; the quote is what it cost. */
  predicate FillsAt(o: Snapshot, r: Request, id: int) {
    && o.symbol == r.symbol && o.clientOrderId == r.clientOrderId && o.exchangeOrderId == id && o.side == r.side
    && o.state == Filled && o.requested == o.executed == r.quantity
    && o.quote == Times(o.averageFill, o.executed)
  }

  class SimulatedVenue {
    var ready: bool
    var killed: bool
    var nextId: nat
    var marketPrice: real
    var marketTime: int
    var spread: real
    var slippage: real

    constructor ()
      ensures !ready && !killed && nextId == 0 && spread == 0.0 && slippage == 0.0
    {
      ready, killed, nextId, marketPrice, marketTime, spread, slippage := false, false, 0, 0.0, 0, 0.0, 0.0;
    }

    method Start()
      modifies this`ready, this`killed
      ensures ready && !killed
    {
      killed := false;
      ready := true;
    }

    method Stop()
      modifies this`ready
      ensures !ready
    {
      ready := false;
    }

    method SetMarket(price: real, time: int)
      modifies this`marketPrice, this`marketTime
      ensures marketPrice == price && marketTime == time
    {
      marketPrice, marketTime := price, time;
    }

    method SetFillModel(spreadPercent: real, slippagePercent: real)
      modifies this`spread, this`slippage
      ensures spread == AtLeastZero(spreadPercent) && slippage == AtLeastZero(slippagePercent)
      ensures spread >= 0.0 && slippage >= 0.0
    {
      spread := if spreadPercent < 0.0 then 0.0 else spreadPercent;
      slippage := if slippagePercent < 0.0 then 0.0 else slippagePercent;
    }

    /** Order ids are handed out in order, one for each accepted order. */
    method Submit(r: Request) returns (result: Result<Fill, VenueError>)
      modifies this`nextId
      ensures result.Ok? <==> ready && !killed && r.quantity > 0.0 && marketPrice > 0.0
      ensures result.Err? ==> nextId == old(nextId)
      ensures result.Err? ==> result.error == if ready && !killed then InvalidOrder else NotReady
      ensures result.Ok? ==> nextId == old(nextId) + 1 && ConfirmedFill(result.value.order)
      ensures result.Ok? ==> FillsAt(result.value.order, r, nextId) && result.value.time == marketTime
      ensures result.Ok? ==>
                result.value == Fill(FilledOrder(r, nextId, FillPrice(r.side, marketPrice, spread, slippage)), marketTime)
    {
      if !ready || killed { return Err(NotReady); }
      if r.quantity <= 0.0 || marketPrice <= 0.0 { return Err(InvalidOrder); }
      var half := spread * 0.5;
      var touch := if r.side == Buy then marketPrice * (1.0 + half) else marketPrice * (1.0 - half);
      var price := if r.side == Buy then touch * (1.0 + slippage) else touch * (1.0 - slippage);
      nextId := nextId + 1;
      return Ok(Fill(FilledOrder(r, nextId, price), marketTime));
    }
  }

  /** What the costs are, exactly: without slippage, buying and selling are the spread apart, with
      the market price in the middle; and slippage moves either price by its share, upwards
      for a buy and downwards for a sell. */
  lemma CostsExactly(market: real, spread: real, slippage: real)
    ensures FillPrice(Buy, market, spread, 0.0) - FillPrice(Sell, market, spread, 0.0) == Times(market, spread)
    ensures FillPrice(Buy, market, spread, 0.0) + FillPrice(Sell, market, spread, 0.0) == 2.0 * market
    ensures FillPrice(Buy, market, spread, slippage) - FillPrice(Buy, market, spread, 0.0)
              == Times(FillPrice(Buy, market, spread, 0.0), slippage)
    ensures FillPrice(Sell, market, spread, 0.0) - FillPrice(Sell, market, spread, slippage)
              == Times(FillPrice(Sell, market, spread, 0.0), slippage)
  {
    hide Times;
    var half := spread * 0.5;
    var ask, bid := Times(market, 1.0 + half), Times(market, 1.0 - half);
    TimesUnit(ask);
    TimesUnit(bid);
    TimesUnit(market);
    TimesSum(1.0, half, market);
    TimesSum(half, half, market);
    TimesSum(1.0, slippage, ask);
    TimesSum(1.0, slippage, bid);
  }

  /** A buy never fills below the market and a sell never above it. */
  lemma FillsAreAdverse(market: real, spread: real, slippage: real)
    requires market > 0.0 && spread >= 0.0 && slippage >= 0.0
    ensures FillPrice(Buy, market, spread, slippage) >= market
    ensures spread <= 2.0 && slippage <= 1.0 ==> 0.0 <= FillPrice(Sell, market, spread, slippage) <= market
  {
    hide Times;
    var half := spread * 0.5;
    Scale(market, 1.0 + half);
    Scale(Times(market, 1.0 + half), 1.0 + slippage);
    if spread <= 2.0 && slippage <= 1.0 {
      Shrink(market, 1.0 - half);
      Shrink(Times(market, 1.0 - half), 1.0 - slippage);
    }
  }

  lemma Scale(x: real, k: real)
    requires x >= 0.0 && k >= 1.0
    ensures Times(x, k) >= x
  {
    TimesUp(1.0, k, x);
  }

  lemma Shrink(x: real, k: real)
    requires x >= 0.0 && 0.0 <= k <= 1.0
    ensures 0.0 <= Times(x, k) <= x
  {
    TimesUp(0.0, k, x);
    TimesUp(k, 1.0, x);
  }
}
