/** Positions confirmed by exchange fills, and nothing else. */
module Ledger {
  import opened Orders
  import opened Reals

  datatype ConfirmedPosition = ConfirmedPosition(
    symbol: string,
    quantity: real,
    averageEntryPrice: real,
    entryExchangeOrderId: int,
    entryClientOrderId: string)

  type Positions = map<string, ConfirmedPosition>

  const DUST: real := 0.000000000001

  function Applied(positions: Positions, order: Snapshot): Positions {
    if !ConfirmedFill(order) then positions
    else if order.side == Buy then
      var known := if order.symbol in positions then positions[order.symbol] else ConfirmedPosition("", 0.0, 0.0, 0, "");
      var quantity := known.quantity + order.executed;
      positions[order.symbol := ConfirmedPosition(
        order.symbol,
        quantity,
        if quantity > 0.0
        then Blend(known.quantity, known.averageEntryPrice, order.executed, order.averageFill, quantity) else 0.0,
        order.exchangeOrderId,
        order.clientOrderId)]
    else if order.symbol !in positions then positions
    else
      var left := positions[order.symbol].quantity - order.executed;
      if left <= DUST then positions - {order.symbol}
      else positions[order.symbol := positions[order.symbol].(quantity := left)]
  }

  /** Quote spent before and now, per unit held. */
  function Blend(held: real, average: real, added: real, price: real, quantity: real): real
    requires quantity > 0.0
  {
    (held * average + added * price) / quantity
  }

  class ConfirmedPositionLedger {
    var positions: Positions

    constructor ()
      ensures positions == map[]
    {
      positions := map[];
    }

    method OnOrderUpdate(order: Snapshot)
      modifies this
      ensures positions == Applied(old(positions), order)
    {
      if !ConfirmedFill(order) { return; }
      if order.side == Buy {
        var position := ConfirmedPosition("", 0.0, 0.0, 0, "");
        if order.symbol in positions { position := positions[order.symbol]; }
        var held, average := position.quantity, position.averageEntryPrice;
        position := position.(symbol := order.symbol, quantity := held + order.executed);
        var entry := 0.0;
        if position.quantity > 0.0 { entry := Blend(held, average, order.executed, order.averageFill, position.quantity); }
        position := position.(averageEntryPrice := entry,
                              entryExchangeOrderId := order.exchangeOrderId, entryClientOrderId := order.clientOrderId);
        positions := positions[order.symbol := position];
        return;
      }
      if order.symbol !in positions { return; }
      var position := positions[order.symbol];
      position := position.(quantity := position.quantity - order.executed);
      if position.quantity <= DUST { positions := positions - {order.symbol}; }
      else { positions := positions[order.symbol := position]; }
    }
  }

  /** The ledger after a sequence of published updates. */
  function LedgerAfter(updates: seq<Snapshot>): Positions {
    if updates == [] then map[]
    else Applied(LedgerAfter(updates[..|updates| - 1]), updates[|updates| - 1])
  }

  lemma LedgerSnoc(updates: seq<Snapshot>, u: Snapshot)
    ensures LedgerAfter(updates + [u]) == Applied(LedgerAfter(updates), u)
  {
    assert (updates + [u])[..|updates|] == updates;
  }

  // ---------------------------------------------------------------- what is held, by definition

  /** Buy fills since a symbol was last flat, how much of them was sold again, and what the rest
      has cost: the money of the buys, less what was sold at the average cost of its time. */
  datatype Holding = Flat | Holding(buys: seq<Snapshot>, sold: real, cost: real)

  function Bought(buys: seq<Snapshot>): real {
    if buys == [] then 0.0 else Bought(buys[..|buys| - 1]) + buys[|buys| - 1].executed
  }

  function HoldingAfter(updates: seq<Snapshot>, symbol: string): Holding {
    if updates == [] then Flat
    else NextHolding(HoldingAfter(updates[..|updates| - 1], symbol), updates[|updates| - 1], symbol)
  }

  function NextHolding(h: Holding, u: Snapshot, symbol: string): Holding {
    if !ConfirmedFill(u) || u.symbol != symbol then h
    else if u.side == Buy then
      match h
      case Flat => Holding([u], 0.0, Times(u.executed, u.averageFill))
      case Holding(buys, sold, cost) => Holding(buys + [u], sold, cost + Times(u.executed, u.averageFill))
    else
      match h
      case Flat => Flat
      case Holding(buys, sold, cost) =>
        if Bought(buys) - sold - u.executed <= DUST then Flat
        else Holding(buys, sold + u.executed, cost - Times(u.executed, PerUnit(cost, Bought(buys) - sold)))
  }

  function PerUnit(cost: real, quantity: real): real {
    if quantity > 0.0 then cost / quantity else 0.0
  }

  /** The position of a symbol is what its holding says: quantity bought minus sold, an average
      entry that is its cost per unit and within the buy prices, identified by the last buy. */
  ghost predicate Matches(positions: Positions, symbol: string, h: Holding) {
    match h
    case Flat => symbol !in positions
    case Holding(buys, sold, cost) =>
      && symbol in positions && buys != []
      && positions[symbol].quantity == Bought(buys) - sold
      && positions[symbol].quantity > 0.0
      && Times(positions[symbol].quantity, positions[symbol].averageEntryPrice) == cost
      && InPriceRange(positions[symbol].averageEntryPrice, buys)
      && positions[symbol].entryExchangeOrderId == buys[|buys| - 1].exchangeOrderId
      && positions[symbol].entryClientOrderId == buys[|buys| - 1].clientOrderId
  }

  /** Between the lowest and the highest of some buy prices. */
  ghost predicate InPriceRange(price: real, buys: seq<Snapshot>) {
    && (exists b | b in buys :: b.averageFill <= price)
    && (exists b | b in buys :: price <= b.averageFill)
  }

  /** A weighted average lies between its two prices. */
  lemma BlendIsBetween(held: real, average: real, added: real, price: real)
    requires held >= 0.0 && added > 0.0
    ensures average <= price ==> average <= Blend(held, average, added, price, held + added) <= price
    ensures price <= average ==> price <= Blend(held, average, added, price, held + added) <= average
    ensures held == 0.0 ==> Blend(held, average, added, price, held + added) == price
    ensures Times(held + added, Blend(held, average, added, price, held + added)) == Times(held, average) + Times(added, price)
  {
    var q := held + added;
    var b := Blend(held, average, added, price, q);
    assert b * q == held * average + added * price;
    if average <= price {
      Weighted(held, average, price);
      Weighted(added, average, price);
      assert average * q <= b * q <= price * q by {
        assert average * q == held * average + added * average;
        assert price * q == held * price + added * price;
      }
      Cancel(average, b, q);
      Cancel(b, price, q);
    }
    if price <= average {
      Weighted(held, price, average);
      Weighted(added, price, average);
      assert price * q <= b * q <= average * q by {
        assert average * q == held * average + added * average;
        assert price * q == held * price + added * price;
      }
      Cancel(price, b, q);
      Cancel(b, average, q);
    }
    if held == 0.0 {
      Cancel(b, price, q);
      Cancel(price, b, q);
    }
  }

  lemma Weighted(w: real, a: real, b: real)
    requires w >= 0.0 && a <= b
    ensures w * a <= w * b
  {
    assert w * (b - a) >= 0.0;
  }

  lemma Cancel(a: real, b: real, q: real)
    requires q > 0.0 && a * q <= b * q
    ensures a <= b
  {
    assert a > b ==> (a - b) * q > 0.0;
  }

  lemma MoreBuys(buys: seq<Snapshot>, u: Snapshot, price: real)
    requires InPriceRange(price, buys) || buys == []
    ensures InPriceRange(price, buys) ==> InPriceRange(price, buys + [u])
    ensures InPriceRange(u.averageFill, buys + [u])
    ensures Bought(buys + [u]) == Bought(buys) + u.executed
  {
    assert (buys + [u])[..|buys|] == buys;
    assert u in buys + [u];
    assert forall b | b in buys :: b in buys + [u];
  }

  lemma BuyKeepsRange(buys: seq<Snapshot>, u: Snapshot, held: real, average: real)
    requires held >= 0.0 && u.executed > 0.0 && InPriceRange(average, buys)
    ensures InPriceRange(Blend(held, average, u.executed, u.averageFill, held + u.executed), buys + [u])
  {
    BlendIsBetween(held, average, u.executed, u.averageFill);
    var low :| low in buys && low.averageFill <= average;
    var high :| high in buys && average <= high.averageFill;
    hide Blend;
    assert low in buys + [u] && high in buys + [u] && u in buys + [u];
  }

  /** The ledger entry of a symbol after a confirmed buy. */
  lemma AppliedBuy(positions: Positions, u: Snapshot)
    requires ConfirmedFill(u) && u.side == Buy
    ensures var held := if u.symbol in positions then positions[u.symbol].quantity else 0.0;
            var average := if u.symbol in positions then positions[u.symbol].averageEntryPrice else 0.0;
            && u.symbol in Applied(positions, u)
            && (held >= 0.0 ==> Applied(positions, u)[u.symbol] == ConfirmedPosition(
                  u.symbol, held + u.executed, Blend(held, average, u.executed, u.averageFill, held + u.executed),
                  u.exchangeOrderId, u.clientOrderId))
  {
    hide Blend;
  }

  lemma FirstBuyMatches(positions: Positions, u: Snapshot)
    requires ConfirmedFill(u) && u.side == Buy && u.symbol !in positions
    ensures Matches(Applied(positions, u), u.symbol, Holding([u], 0.0, Times(u.executed, u.averageFill)))
  {
    AppliedBuy(positions, u);
    BlendIsBetween(0.0, 0.0, u.executed, u.averageFill);
    MoreBuys([], u, 0.0);
    assert [] + [u] == [u];
    assert Bought([]) == 0.0;
    TimesUnit(0.0);
    hide InPriceRange, Blend, Applied, Bought, Times;
  }

  lemma MoreBuysMatch(positions: Positions, buys: seq<Snapshot>, sold: real, cost: real, u: Snapshot)
    requires ConfirmedFill(u) && u.side == Buy && Matches(positions, u.symbol, Holding(buys, sold, cost))
    ensures Matches(Applied(positions, u), u.symbol, Holding(buys + [u], sold, cost + Times(u.executed, u.averageFill)))
  {
    hide InPriceRange, Blend, Applied, Bought, Times;
    var p := positions[u.symbol];
    AppliedBuy(positions, u);
    BlendIsBetween(p.quantity, p.averageEntryPrice, u.executed, u.averageFill);
    MoreBuys(buys, u, p.averageEntryPrice);
    BuyKeepsRange(buys, u, p.quantity, p.averageEntryPrice);
  }

  lemma AppliedMatches(positions: Positions, h: Holding, u: Snapshot, symbol: string)
    requires Matches(positions, symbol, h)
    ensures Matches(Applied(positions, u), symbol, NextHolding(h, u, symbol))
  {
    if ConfirmedFill(u) && u.symbol == symbol && u.side == Buy {
      match h
      case Flat => FirstBuyMatches(positions, u);
      case Holding(buys, sold, cost) => MoreBuysMatch(positions, buys, sold, cost, u);
    } else {
      hide InPriceRange, Blend, Bought, Times;
      if ConfirmedFill(u) && u.symbol == symbol && h.Holding? {
        var position := positions[symbol];
        TimesSum(position.quantity, u.executed, position.averageEntryPrice);
        CostPerUnit(position.quantity, position.averageEntryPrice);
      }
    }
  }

  lemma CostPerUnit(quantity: real, average: real)
    requires quantity > 0.0
    ensures PerUnit(Times(quantity, average), quantity) == average
  {
  }

  /** For every stream of updates: the ledger is exactly the fold of the confirmed fills;
      held quantities are positive and averages lie within the buys since the position opened. */
  lemma {:induction false} LedgerIsWhatWasFilled(updates: seq<Snapshot>, symbol: string)
    ensures Matches(LedgerAfter(updates), symbol, HoldingAfter(updates, symbol))
  {
    if updates != [] {
      var n := |updates| - 1;
      LedgerIsWhatWasFilled(updates[..n], symbol);
      AppliedMatches(LedgerAfter(updates[..n]), HoldingAfter(updates[..n], symbol), updates[n], symbol);
    }
  }

  /** Only the confirmed fills of a stream matter. */
  function Fills(updates: seq<Snapshot>): seq<Snapshot> {
    if updates == [] then []
    else Fills(updates[..|updates| - 1]) + if ConfirmedFill(updates[|updates| - 1]) then [updates[|updates| - 1]] else []
  }

  lemma {:induction false} OnlyFillsMatter(updates: seq<Snapshot>)
    ensures LedgerAfter(updates) == LedgerAfter(Fills(updates))
  {
    if updates != [] {
      var n := |updates| - 1;
      OnlyFillsMatter(updates[..n]);
      if ConfirmedFill(updates[n]) {
        LedgerSnoc(Fills(updates[..n]), updates[n]);
      } else {
        assert Fills(updates) == Fills(updates[..n]);
      }
    }
  }
}
