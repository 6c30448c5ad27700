/** A trade from entry to exit, as the engine records it and research consumes it. */
module Positions {

  datatype TradePosition = TradePosition(
    symbol: string,
    entryTime: int,
    exitTime: int,
    entryPrice: real,
    exitPrice: real,
    quantity: real,
    highestPrice: real,
    lowestPrice: real,
    stopLossPrice: real,
    takeProfitPrice: real,
    capitalAtRisk: real,
    grossProfit: real,
    netProfit: real,
    feeEntry: real,
    feeExit: real,
    closeReason: string)

  /** Summed net profit. */
  function Net(trades: seq<TradePosition>): real {
    if trades == [] then 0.0 else Net(trades[..|trades| - 1]) + trades[|trades| - 1].netProfit
  }

  lemma NetSnoc(trades: seq<TradePosition>, t: TradePosition)
    ensures Net(trades + [t]) == Net(trades) + t.netProfit
  {
    assert (trades + [t])[..|trades|] == trades;
  }

  lemma {:induction false} NetConcat(a: seq<TradePosition>, b: seq<TradePosition>)
    ensures Net(a + b) == Net(a) + Net(b)
    decreases |b|
  {
    if b == [] {
      assert a + b == a;
    } else {
      var n := |b| - 1;
      NetConcat(a, b[..n]);
      NetSnoc(a + b[..n], b[n]);
      assert a + b == (a + b[..n]) + [b[n]];
    }
  }

  /** The order of the trades does not matter. */
  lemma {:induction false} NetOfPermutation(a: seq<TradePosition>, b: seq<TradePosition>)
    requires multiset(a) == multiset(b)
    ensures Net(a) == Net(b)
    decreases |a|
  {
    assert |a| == |multiset(a)| == |b|;
    if a != [] {
      var t := a[|a| - 1];
      assert a == a[..|a| - 1] + [t];
      assert t in multiset(b);
      var i :| 0 <= i < |b| && b[i] == t;
      var rest := b[..i] + b[i + 1..];
      assert b == b[..i] + [t] + b[i + 1..];
      assert multiset(b) == multiset(rest) + multiset{t};
      assert multiset(a) == multiset(a[..|a| - 1]) + multiset{t};
      assert multiset(rest) == multiset(b) - multiset{t} == multiset(a[..|a| - 1]);
      NetOfPermutation(a[..|a| - 1], rest);
      NetConcat(b[..i], b[i + 1..]);
      NetConcat(b[..i] + [t], b[i + 1..]);
      NetSnoc(b[..i], t);
    }
  }
}
