/** Online trade statistics: one pass over the trades. */
module Metrics {
  import opened Positions
  import opened Reals

  datatype Ratio = Finite(value: real) | Infinite

  datatype BacktestMetrics = BacktestMetrics(
    netProfit: real,
    maxDrawdown: real,
    profitFactor: Ratio,
    winRate: real,
    expectancy: real,
    feeShare: real,
    trades: nat)

  const NO_TRADES: BacktestMetrics := BacktestMetrics(0.0, 0.0, Finite(0.0), 0.0, 0.0, 0.0, 0)

  /** The equity curve from a zero start: entry i is the equity after the first i trades. */
  function Curve(trades: seq<TradePosition>): (curve: seq<real>)
    ensures |curve| == |trades| + 1
  {
    if trades == [] then [0.0]
    else
      var n := |trades| - 1;
      Curve(trades[..n]) + [Curve(trades[..n])[n] + trades[n].netProfit]
  }

  lemma {:induction false} CurveIsRunningNet(trades: seq<TradePosition>, i: nat)
    requires i <= |trades|
    ensures Curve(trades)[i] == Net(trades[..i])
  {
    if trades == [] {
      assert trades[..i] == [];
    } else {
      var n := |trades| - 1;
      if i <= n {
        CurveIsRunningNet(trades[..n], i);
        assert trades[..n][..i] == trades[..i];
      } else {
        CurveIsRunningNet(trades[..n], n);
        assert trades[..n][..n] == trades[..n];
        assert trades[..i] == trades;
      }
    }
  }

  ghost predicate IsPeak(peak: real, curve: seq<real>) {
    (forall e | e in curve :: e <= peak) && peak in curve
  }

  /** The largest fall from a point of the curve to a later (or the same) one. */
  ghost predicate IsMaxDrawdown(drawdown: real, curve: seq<real>) {
    && (forall i, j | 0 <= i <= j < |curve| :: curve[i] - curve[j] <= drawdown)
    && (exists i, j | 0 <= i <= j < |curve| :: curve[i] - curve[j] == drawdown)
  }

  lemma StartsFlat(e: real)
    ensures IsPeak(e, [e]) && IsMaxDrawdown(0.0, [e])
  {
    var curve := [e];
    assert curve[0] - curve[0] == 0.0;
  }

  lemma PeakStep(curve: seq<real>, equity: real, peak: real)
    requires IsPeak(peak, curve)
    ensures IsPeak(Max(peak, equity), curve + [equity])
  {
    assert (curve + [equity])[|curve|] == equity;
  }

  /** The running drawdown only has to look at the fall from the running peak. */
  lemma DrawdownStep(curve: seq<real>, equity: real, peak: real, drawdown: real)
    requires IsPeak(peak, curve) && IsMaxDrawdown(drawdown, curve)
    ensures IsMaxDrawdown(Max(drawdown, Max(peak, equity) - equity), curve + [equity])
  {
    var after, n := curve + [equity], |curve|;
    var top := Max(peak, equity);
    var fall := Max(drawdown, top - equity);
    forall i, j | 0 <= i <= j < |after| ensures after[i] - after[j] <= fall {
      if j < n {
        assert after[i] == curve[i] && after[j] == curve[j];
      } else if i < n {
        assert after[i] == curve[i] && curve[i] in curve;
      }
    }
    if fall == drawdown {
      var a, b :| 0 <= a <= b < n && curve[a] - curve[b] == drawdown;
      assert after[a] - after[b] == fall;
    } else {
      var p :| 0 <= p < n && curve[p] == peak;
      var from := if peak < equity then n else p;
      assert after[from] - after[n] == fall;
    }
  }

  function GrossWin(trades: seq<TradePosition>): real {
    if trades == [] then 0.0
    else GrossWin(trades[..|trades| - 1]) + Max(0.0, trades[|trades| - 1].netProfit)
  }

  function GrossLoss(trades: seq<TradePosition>): real {
    if trades == [] then 0.0
    else GrossLoss(trades[..|trades| - 1]) + Max(0.0, -trades[|trades| - 1].netProfit)
  }

  function Fees(trades: seq<TradePosition>): real {
    if trades == [] then 0.0
    else Fees(trades[..|trades| - 1]) + trades[|trades| - 1].feeEntry + trades[|trades| - 1].feeExit
  }

  function Wins(trades: seq<TradePosition>): nat {
    if trades == [] then 0
    else Wins(trades[..|trades| - 1]) + if trades[|trades| - 1].netProfit > 0.0 then 1 else 0
  }

  lemma {:induction false} SplitIsNet(trades: seq<TradePosition>)
    ensures GrossWin(trades) - GrossLoss(trades) == Net(trades)
    ensures GrossWin(trades) >= 0.0 && GrossLoss(trades) >= 0.0
    ensures GrossLoss(trades) == 0.0 ==> forall t | t in trades :: t.netProfit >= 0.0
  {
    if trades != [] {
      var n := |trades| - 1;
      SplitIsNet(trades[..n]);
      assert trades == trades[..n] + [trades[n]];
    }
  }

  /** The ratios of a non-empty list of trades. */
  function Summarise(net: real, drawdown: real, win: real, loss: real, fees: real, wins: nat, trades: nat): BacktestMetrics
    requires trades > 0
  {
    BacktestMetrics(
      net,
      drawdown,
      if loss > 0.0 then Finite(win / loss) else Infinite,
      100.0 * wins as real / trades as real,
      net / trades as real,
      if Abs(net) + fees > 0.0 then fees / (Abs(net) + fees) else 0.0,
      trades)
  }

  // ---------------------------------------------------------------- the ratios, over the trades

  /** The trades that won, in order; break-even is no win. */
  function Winners(trades: seq<TradePosition>): seq<TradePosition> {
    if trades == [] then []
    else Winners(trades[..|trades| - 1]) + if trades[|trades| - 1].netProfit > 0.0 then [trades[|trades| - 1]] else []
  }

  function Others(trades: seq<TradePosition>): seq<TradePosition> {
    if trades == [] then []
    else Others(trades[..|trades| - 1]) + if trades[|trades| - 1].netProfit > 0.0 then [] else [trades[|trades| - 1]]
  }

  lemma WinnersSnoc(trades: seq<TradePosition>, t: TradePosition)
    ensures Winners(trades + [t]) == (if t.netProfit > 0.0 then Winners(trades) + [t] else Winners(trades))
    ensures Others(trades + [t]) == (if t.netProfit > 0.0 then Others(trades) else Others(trades) + [t])
  {
    assert (trades + [t])[..|trades|] == trades;
    assert Winners(trades) + [] == Winners(trades) && Others(trades) + [] == Others(trades);
  }

  /** The winners and the others are the trades. */
  ghost predicate SplitsTrades(trades: seq<TradePosition>) {
    && multiset(Winners(trades)) + multiset(Others(trades)) == multiset(trades)
    && (forall t | t in Winners(trades) :: t.netProfit > 0.0) && (forall t | t in Others(trades) :: t.netProfit <= 0.0)
  }

  /** Wins, gross win and gross loss are count and money of the two. */
  predicate SplitsMoney(trades: seq<TradePosition>) {
    && Wins(trades) == |Winners(trades)|
    && GrossWin(trades) == Net(Winners(trades)) && GrossLoss(trades) == -Net(Others(trades))
  }

  lemma SplitsTradesSnoc(trades: seq<TradePosition>, t: TradePosition)
    requires SplitsTrades(trades)
    ensures SplitsTrades(trades + [t])
  {
    hide Winners, Others;
    WinnersSnoc(trades, t);
  }

  lemma GrossSnoc(trades: seq<TradePosition>, t: TradePosition)
    ensures GrossWin(trades + [t]) == GrossWin(trades) + Max(0.0, t.netProfit)
    ensures GrossLoss(trades + [t]) == GrossLoss(trades) + Max(0.0, -t.netProfit)
    ensures Wins(trades + [t]) == Wins(trades) + if t.netProfit > 0.0 then 1 else 0
  {
    assert (trades + [t])[..|trades|] == trades;
  }

  lemma SplitsMoneySnoc(trades: seq<TradePosition>, t: TradePosition)
    requires SplitsMoney(trades)
    ensures SplitsMoney(trades + [t])
  {
    hide Winners, Others, Wins, GrossWin, GrossLoss, Net;
    WinnersSnoc(trades, t);
    GrossSnoc(trades, t);
    NetSnoc(Winners(trades), t);
    NetSnoc(Others(trades), t);
  }

  lemma NothingToSplit()
    ensures SplitsTrades([]) && SplitsMoney([])
  {
  }

  lemma {:induction false} WinnersAndOthers(trades: seq<TradePosition>)
    ensures SplitsTrades(trades) && SplitsMoney(trades)
  {
    hide SplitsTrades, SplitsMoney;
    if trades == [] {
      NothingToSplit();
    } else {
      var n := |trades| - 1;
      WinnersAndOthers(trades[..n]);
      SplitsTradesSnoc(trades[..n], trades[n]);
      SplitsMoneySnoc(trades[..n], trades[n]);
      assert trades == trades[..n] + [trades[n]];
    }
  }

  /** The win rate is the percentage of winners; the profit factor times the losses of the others
      is the profit of the winners, and infinite exactly when there are no losses; the expectancy
      is the net profit per trade; and the fee share is that of the fees in fees and net profit. */
  predicate RatiosOf(trades: seq<TradePosition>, m: BacktestMetrics)
    requires trades != []
  {
    var n, losses, base := |trades| as real, -Net(Others(trades)), Abs(Net(trades)) + Fees(trades);
    && Times(m.winRate, n) == 100.0 * |Winners(trades)| as real
    && (m.profitFactor.Infinite? <==> losses == 0.0)
    && (m.profitFactor.Finite? ==> Times(m.profitFactor.value, losses) == Net(Winners(trades)))
    && Times(m.expectancy, n) == Net(trades)
    && (if base > 0.0 then Times(m.feeShare, base) == Fees(trades) else m.feeShare == 0.0)
  }

  lemma Divided(a: real, b: real)
    ensures b != 0.0 ==> Times(a / b, b) == a
  {
  }

  lemma SummaryHasRatios(trades: seq<TradePosition>, drawdown: real)
    requires trades != []
    ensures RatiosOf(trades, Summarise(Net(trades), drawdown, GrossWin(trades), GrossLoss(trades), Fees(trades), Wins(trades), |trades|))
  {
    hide Times, Abs, Winners, Others, Net, GrossWin, GrossLoss, Fees, Wins;
    WinnersAndOthers(trades);
    SplitIsNet(trades);
    Divided(100.0 * Wins(trades) as real, |trades| as real);
    Divided(Net(trades), |trades| as real);
    Divided(GrossWin(trades), GrossLoss(trades));
    Divided(Fees(trades), Abs(Net(trades)) + Fees(trades));
  }

  method Calculate(trades: seq<TradePosition>) returns (m: BacktestMetrics)
    ensures m.netProfit == Net(trades) && m.trades == |trades|
    ensures IsMaxDrawdown(m.maxDrawdown, Curve(trades))
    ensures trades != [] ==> RatiosOf(trades, m)
    ensures m == if trades == [] then NO_TRADES
                 else Summarise(Net(trades), m.maxDrawdown, GrossWin(trades), GrossLoss(trades), Fees(trades), Wins(trades), |trades|)
  {
    if trades == [] {
      StartsFlat(0.0);
      return NO_TRADES;
    }
    var equity, drawdown := ScanEquity(trades);
    var grossWin, grossLoss, fees, wins := ScanProfits(trades);
    SummaryFields(equity, drawdown, grossWin, grossLoss, fees, wins, |trades|);
    SummaryHasRatios(trades, drawdown);
    hide Summarise, IsMaxDrawdown, RatiosOf;
    m := Summarise(equity, drawdown, grossWin, grossLoss, fees, wins, |trades|);
  }

  method ScanEquity(trades: seq<TradePosition>) returns (equity: real, drawdown: real)
    ensures equity == Net(trades) && IsMaxDrawdown(drawdown, Curve(trades))
  {
    equity, drawdown := 0.0, 0.0;
    var peak := 0.0;
    StartsFlat(0.0);
    hide IsPeak, IsMaxDrawdown;
    for i := 0 to |trades|
      invariant equity == Net(trades[..i]) == Curve(trades[..i])[i]
      invariant IsPeak(peak, Curve(trades[..i])) && IsMaxDrawdown(drawdown, Curve(trades[..i]))
    {
      assert trades[..i + 1][..i] == trades[..i];
      PeakStep(Curve(trades[..i]), equity + trades[i].netProfit, peak);
      DrawdownStep(Curve(trades[..i]), equity + trades[i].netProfit, peak, drawdown);
      equity := equity + trades[i].netProfit;
      peak := Max(peak, equity);
      drawdown := Max(drawdown, peak - equity);
    }
    assert trades[..|trades|] == trades;
  }

  method ScanProfits(trades: seq<TradePosition>) returns (grossWin: real, grossLoss: real, fees: real, wins: nat)
    ensures grossWin == GrossWin(trades) && grossLoss == GrossLoss(trades)
    ensures fees == Fees(trades) && wins == Wins(trades)
  {
    grossWin, grossLoss, fees, wins := 0.0, 0.0, 0.0, 0;
    for i := 0 to |trades|
      invariant grossWin == GrossWin(trades[..i]) && grossLoss == GrossLoss(trades[..i])
      invariant fees == Fees(trades[..i]) && wins == Wins(trades[..i])
    {
      assert trades[..i + 1][..i] == trades[..i];
      var t := trades[i];
      if t.netProfit > 0.0 { grossWin, wins := grossWin + t.netProfit, wins + 1; }
      else { grossLoss := grossLoss + -t.netProfit; }
      fees := fees + t.feeEntry + t.feeExit;
    }
    assert trades[..|trades|] == trades;
  }

  lemma SummaryFields(net: real, drawdown: real, win: real, loss: real, fees: real, wins: nat, trades: nat)
    requires trades > 0
    ensures var m := Summarise(net, drawdown, win, loss, fees, wins, trades);
            m.netProfit == net && m.maxDrawdown == drawdown && m.trades == trades
  {
  }
}
