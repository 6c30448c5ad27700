/** Portfolio simulation: candidate trades in entry order pass a risk gate, accepted ones are
    scaled and held until their exit. */
module Portfolio {
  import opened Reals

  /** One hour of the clock, which counts nanoseconds. */
  const HOUR: int := 3_600_000_000_000

  datatype PortfolioRiskConfig = PortfolioRiskConfig(
    maxGrossExposure: real,
    maxAssetExposure: real,
    maxCorrelatedExposure: real,
    maxDailyDrawdown: real,
    maxConsecutiveLosses: nat,
    maxTradesPerHour: nat,
    targetVolatility: real,
    minimumSizeMultiplier: real,
    maximumSizeMultiplier: real,
    correlationThreshold: real)

  datatype PortfolioPosition = PortfolioPosition(symbol: string, notional: real)

  datatype Snapshot = Snapshot(
    equity: real,
    dayStartEquity: real,
    positions: seq<PortfolioPosition>,
    volatility: map<string, real>,
    correlations: map<string, map<string, real>>,
    consecutiveLosses: nat,
    tradeTimes: seq<int>)

  datatype Reason = InvalidInput | DailyDrawdown | LossStreak | TradeRate | GrossExposure | AssetExposure | CorrelatedExposure

  datatype Decision = Rejected(reason: Reason) | Approved(multiplier: real)

  // ---------------------------------------------------------------- the gate

  /** What an exposure limit counts. */
  datatype Limit = Gross | SameAsset | Correlated

  function CapOf(config: PortfolioRiskConfig, limit: Limit): real {
    match limit
    case Gross => config.maxGrossExposure
    case SameAsset => config.maxAssetExposure
    case Correlated => config.maxCorrelatedExposure
  }

  predicate IsCorrelated(correlations: map<string, map<string, real>>, threshold: real, symbol: string, other: string) {
    symbol in correlations && other in correlations[symbol] && Abs(correlations[symbol][other]) >= threshold
  }

  predicate Counts(limit: Limit, correlations: map<string, map<string, real>>, threshold: real, symbol: string, other: string) {
    match limit
    case Gross => true
    case SameAsset => other == symbol
    case Correlated => IsCorrelated(correlations, threshold, symbol, other)
  }

  /** Exposure, as a fraction of equity, that positions contribute to a limit of `symbol`. */
  function Exposure(limit: Limit, positions: seq<PortfolioPosition>, equity: real,
                    correlations: map<string, map<string, real>>, threshold: real, symbol: string): real
    requires equity > 0.0
  {
    if positions == [] then 0.0
    else
      var n := |positions| - 1;
      Exposure(limit, positions[..n], equity, correlations, threshold, symbol)
      + if Counts(limit, correlations, threshold, symbol, positions[n].symbol) then Abs(positions[n].notional) / equity else 0.0
  }

  function ExposureOf(limit: Limit, s: Snapshot, config: PortfolioRiskConfig, symbol: string): real
    requires s.equity > 0.0
  {
    Exposure(limit, s.positions, s.equity, s.correlations, config.correlationThreshold, symbol)
  }

  /** How many times are at or after the cutoff. */
  function CountSince(times: seq<int>, cutoff: int): nat {
    if times == [] then 0
    else CountSince(times[..|times| - 1], cutoff) + if times[|times| - 1] >= cutoff then 1 else 0
  }

  function Clamp(x: real, low: real, high: real): real {
    if x < low then low else if high < x then high else x
  }

  function Multiplier(config: PortfolioRiskConfig, s: Snapshot, symbol: string): real {
    var wanted :=
      if symbol in s.volatility && s.volatility[symbol] > 0.0 && config.targetVolatility > 0.0
      then config.targetVolatility / s.volatility[symbol] else 1.0;
    Clamp(wanted, config.minimumSizeMultiplier, config.maximumSizeMultiplier)
  }

  predicate DrawdownReached(config: PortfolioRiskConfig, s: Snapshot) {
    s.dayStartEquity > 0.0
    && Max(0.0, (s.dayStartEquity - s.equity) / s.dayStartEquity) >= config.maxDailyDrawdown
  }

  function Approve(config: PortfolioRiskConfig, symbol: string, proposed: real, s: Snapshot, now: int): Decision {
    if !(s.equity > 0.0) || !(proposed > 0.0) then Rejected(InvalidInput)
    else if DrawdownReached(config, s) then Rejected(DailyDrawdown)
    else if s.consecutiveLosses >= config.maxConsecutiveLosses then Rejected(LossStreak)
    else if CountSince(s.tradeTimes, now - HOUR) >= config.maxTradesPerHour then Rejected(TradeRate)
    else if ExposureOf(Gross, s, config, symbol) + proposed / s.equity > config.maxGrossExposure then Rejected(GrossExposure)
    else if ExposureOf(SameAsset, s, config, symbol) + proposed / s.equity > config.maxAssetExposure then Rejected(AssetExposure)
    else if ExposureOf(Correlated, s, config, symbol) + proposed / s.equity > config.maxCorrelatedExposure then Rejected(CorrelatedExposure)
    else Approved(Multiplier(config, s, symbol))
  }

  method ApproveTrade(config: PortfolioRiskConfig, symbol: string, proposed: real, s: Snapshot, now: int) returns (d: Decision)
    ensures d == Approve(config, symbol, proposed, s, now)
  {
    if !(s.equity > 0.0) || !(proposed > 0.0) { return Rejected(InvalidInput); }
    if s.dayStartEquity > 0.0 {
      var drawdown := Max(0.0, (s.dayStartEquity - s.equity) / s.dayStartEquity);
      if drawdown >= config.maxDailyDrawdown { return Rejected(DailyDrawdown); }
    }
    if s.consecutiveLosses >= config.maxConsecutiveLosses { return Rejected(LossStreak); }
    var cutoff := now - HOUR;
    var recent := 0;
    for i := 0 to |s.tradeTimes|
      invariant recent == CountSince(s.tradeTimes[..i], cutoff)
    {
      assert s.tradeTimes[..i + 1][..i] == s.tradeTimes[..i];
      if s.tradeTimes[i] >= cutoff { recent := recent + 1; }
    }
    assert s.tradeTimes[..|s.tradeTimes|] == s.tradeTimes;
    if recent >= config.maxTradesPerHour { return Rejected(TradeRate); }
    var gross, same, correlated := SumExposures(config, symbol, s);
    var fraction := proposed / s.equity;
    if gross + fraction > config.maxGrossExposure { return Rejected(GrossExposure); }
    if same + fraction > config.maxAssetExposure { return Rejected(AssetExposure); }
    if correlated + fraction > config.maxCorrelatedExposure { return Rejected(CorrelatedExposure); }
    return Approved(Multiplier(config, s, symbol));
  }

  method SumExposures(config: PortfolioRiskConfig, symbol: string, s: Snapshot) returns (gross: real, same: real, correlated: real)
    requires s.equity > 0.0
    ensures gross == ExposureOf(Gross, s, config, symbol)
    ensures same == ExposureOf(SameAsset, s, config, symbol)
    ensures correlated == ExposureOf(Correlated, s, config, symbol)
  {
    gross, same, correlated := 0.0, 0.0, 0.0;
    ghost var t := config.correlationThreshold;
    for i := 0 to |s.positions|
      invariant gross == Exposure(Gross, s.positions[..i], s.equity, s.correlations, t, symbol)
      invariant same == Exposure(SameAsset, s.positions[..i], s.equity, s.correlations, t, symbol)
      invariant correlated == Exposure(Correlated, s.positions[..i], s.equity, s.correlations, t, symbol)
    {
      assert s.positions[..i + 1][..i] == s.positions[..i];
      var p := s.positions[i];
      var normalized := Abs(p.notional) / s.equity;
      gross := gross + normalized;
      if p.symbol == symbol { same := same + normalized; }
      if symbol in s.correlations {
        var row := s.correlations[symbol];
        if p.symbol in row && Abs(row[p.symbol]) >= config.correlationThreshold { correlated := correlated + normalized; }
      }
    }
    assert s.positions[..|s.positions|] == s.positions;
  }

  // ---------------------------------------------------------------- what is approved, by definition

  /** Money in the positions that count. */
  function MoneyIn(positions: seq<PortfolioPosition>, counts: PortfolioPosition -> bool): real {
    if positions == [] then 0.0
    else MoneyIn(positions[..|positions| - 1], counts)
         + if counts(positions[|positions| - 1]) then Abs(positions[|positions| - 1].notional) else 0.0
  }

  /** The entries of the last hour. */
  function Recent(times: seq<int>, now: int): set<nat> {
    set i: nat | i < |times| && now - times[i] <= HOUR
  }

  lemma {:induction false} CountIsRecent(times: seq<int>, now: int)
    ensures CountSince(times, now - HOUR) == |Recent(times, now)|
  {
    if times != [] {
      var n: nat := |times| - 1;
      CountIsRecent(times[..n], now);
      assert Recent(times, now) == Recent(times[..n], now) + if now - times[n] <= HOUR then {n} else {};
    }
  }

  lemma {:induction false} ExposureIsMoney(limit: Limit, positions: seq<PortfolioPosition>, equity: real,
                                           correlations: map<string, map<string, real>>, threshold: real, symbol: string,
                                           counts: PortfolioPosition -> bool)
    requires equity > 0.0
    requires forall p | p in positions :: counts(p) <==> Counts(limit, correlations, threshold, symbol, p.symbol)
    ensures Times(Exposure(limit, positions, equity, correlations, threshold, symbol), equity) == MoneyIn(positions, counts)
    decreases |positions|
  {
    hide Times, Counts;
    if positions == [] {
      TimesUnit(equity);
    } else {
      var n := |positions| - 1;
      ExposureIsMoney(limit, positions[..n], equity, correlations, threshold, symbol, counts);
      TimesSum(Exposure(limit, positions[..n], equity, correlations, threshold, symbol), Abs(positions[n].notional) / equity, equity);
      TimesOver(Abs(positions[n].notional), equity);
      assert positions[n] in positions;
    }
  }

  /** An exposure and a proposal stay under a cap, in money. */
  lemma FitsInMoney(exposure: real, proposed: real, cap: real, equity: real)
    requires equity > 0.0
    ensures exposure + proposed / equity <= cap <==> Times(exposure, equity) + proposed <= Times(cap, equity)
  {
    hide Times;
    var all := exposure + proposed / equity;
    TimesOver(proposed, equity);
    TimesSum(exposure, proposed / equity, equity);
    if all <= cap { TimesUp(all, cap, equity); } else { TimesUpStrictly(cap, all, equity); }
  }

  /** The loss of the day is below its limit. */
  predicate DayIsFine(config: PortfolioRiskConfig, dayStart: real, equity: real) {
    dayStart > 0.0 ==> config.maxDailyDrawdown > 0.0 && dayStart - equity < Times(config.maxDailyDrawdown, dayStart)
  }

  lemma DrawdownExactly(config: PortfolioRiskConfig, s: Snapshot)
    ensures DrawdownReached(config, s) <==> !DayIsFine(config, s.dayStartEquity, s.equity)
  {
    hide Times;
    if s.dayStartEquity > 0.0 {
      var fall := (s.dayStartEquity - s.equity) / s.dayStartEquity;
      TimesOver(s.dayStartEquity - s.equity, s.dayStartEquity);
      if fall < config.maxDailyDrawdown {
        TimesUpStrictly(fall, config.maxDailyDrawdown, s.dayStartEquity);
      } else {
        TimesUp(config.maxDailyDrawdown, fall, s.dayStartEquity);
      }
    }
  }

  /** Exactly what is approved, on the numbers of the snapshot: equity and proposal are positive,
      the loss of the day and the losing streak are below their limits, fewer entries than
      allowed fall into the last hour, and with the proposal the money in all positions, in
      those of the asset, and in those correlated with it stays within each cap. */
  lemma ApprovedExactly(config: PortfolioRiskConfig, symbol: string, proposed: real, s: Snapshot, now: int)
    ensures Approve(config, symbol, proposed, s, now).Approved? <==>
            && s.equity > 0.0 && proposed > 0.0
            && DayIsFine(config, s.dayStartEquity, s.equity)
            && s.consecutiveLosses < config.maxConsecutiveLosses
            && |Recent(s.tradeTimes, now)| < config.maxTradesPerHour
            && MoneyIn(s.positions, Any()) + proposed <= Times(config.maxGrossExposure, s.equity)
            && MoneyIn(s.positions, OfAsset(symbol)) + proposed <= Times(config.maxAssetExposure, s.equity)
            && MoneyIn(s.positions, CorrelatedWith(s.correlations, config.correlationThreshold, symbol)) + proposed
                 <= Times(config.maxCorrelatedExposure, s.equity)
  {
    hide Times, Recent, MoneyIn, Exposure, DayIsFine, DrawdownReached, CountSince;
    DrawdownExactly(config, s);
    CountIsRecent(s.tradeTimes, now);
    if s.equity > 0.0 {
      var c, t := s.correlations, config.correlationThreshold;
      ExposureIsMoney(Gross, s.positions, s.equity, c, t, symbol, Any());
      ExposureIsMoney(SameAsset, s.positions, s.equity, c, t, symbol, OfAsset(symbol));
      ExposureIsMoney(Correlated, s.positions, s.equity, c, t, symbol, CorrelatedWith(c, t, symbol));
      FitsInMoney(ExposureOf(Gross, s, config, symbol), proposed, config.maxGrossExposure, s.equity);
      FitsInMoney(ExposureOf(SameAsset, s, config, symbol), proposed, config.maxAssetExposure, s.equity);
      FitsInMoney(ExposureOf(Correlated, s, config, symbol), proposed, config.maxCorrelatedExposure, s.equity);
    }
  }

  function Any(): PortfolioPosition -> bool { (p: PortfolioPosition) => true }

  function OfAsset(symbol: string): PortfolioPosition -> bool { (p: PortfolioPosition) => p.symbol == symbol }

  /** The correlation of the asset with that of the position is known, and at least the
      threshold in one direction or the other. */
  function CorrelatedWith(correlations: map<string, map<string, real>>, threshold: real, symbol: string): PortfolioPosition -> bool {
    (p: PortfolioPosition) =>
      && symbol in correlations && p.symbol in correlations[symbol]
      && (correlations[symbol][p.symbol] >= threshold || -correlations[symbol][p.symbol] >= threshold)
  }

  /** Sizing: the multiplier brings the volatility of the asset to the target, as far as the
      bounds allow; an asset of unknown volatility is not scaled. */
  lemma MultiplierExactly(config: PortfolioRiskConfig, s: Snapshot, symbol: string)
    requires config.minimumSizeMultiplier <= config.maximumSizeMultiplier
    ensures var m, low, high := Multiplier(config, s, symbol), config.minimumSizeMultiplier, config.maximumSizeMultiplier;
            && low <= m <= high
            && if symbol in s.volatility && s.volatility[symbol] > 0.0 && config.targetVolatility > 0.0
               then var v := s.volatility[symbol];
                    && (Times(low, v) <= config.targetVolatility <= Times(high, v) ==> Times(m, v) == config.targetVolatility)
                    && (config.targetVolatility < Times(low, v) ==> m == low)
                    && (config.targetVolatility > Times(high, v) ==> m == high)
               else low <= 1.0 <= high ==> m == 1.0
  {
    hide Times;
    if symbol in s.volatility && s.volatility[symbol] > 0.0 {
      var v := s.volatility[symbol];
      var wanted, low, high := config.targetVolatility / v, config.minimumSizeMultiplier, config.maximumSizeMultiplier;
      TimesOver(config.targetVolatility, v);
      if wanted < low { TimesUpStrictly(wanted, low, v); } else { TimesUp(low, wanted, v); }
      if high < wanted { TimesUpStrictly(high, wanted, v); } else { TimesUp(wanted, high, v); }
    }
  }
}
