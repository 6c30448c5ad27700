/** Entry approval and position sizing. The wall clock the approval reads is a parameter of its
    own, because it is not the clock of the engine. Times are in nanoseconds; 0 stands for "never". */
module RiskManager {
  import opened Reals

  const MILLISECOND := 1_000_000
  const SECOND := 1_000_000_000

  datatype RiskConfig = RiskConfig(
    maxTotalCapital: real,
    riskPerTrade: real,
    stopLoss: real,
    takeProfit: real,
    trailing: bool,
    trail: real,
    buyFee: real,
    sellFee: real,
    slippage: real,
    spread: real,
    leverage: real,
    minQuantity: real,
    maxQuantity: real,
    stepSize: real,
    minNotional: real,
    cooldownSeconds: int,
    maxHoldingSeconds: int,
    maxDataAgeMs: int)

  /** What the loader insists on. The trailing distance is not among it. */
  predicate ValidConfig(c: RiskConfig) {
    && c.maxTotalCapital > 0.0 && 0.0 < c.riskPerTrade <= 1.0
    && c.stopLoss > 0.0 && c.takeProfit > 0.0
    && c.buyFee >= 0.0 && c.sellFee >= 0.0 && c.slippage >= 0.0 && c.spread >= 0.0
    && c.leverage > 0.0 && c.stepSize > 0.0 && c.minQuantity > 0.0 && c.minNotional > 0.0
    && (c.maxQuantity > 0.0 ==> c.maxQuantity >= c.minQuantity)
    && c.cooldownSeconds >= 0 && c.maxHoldingSeconds > 0 && c.maxDataAgeMs > 0
  }

  datatype Decision = Approved(quantity: real, notional: real) | Refused(reason: string)

  function CapitalAtRisk(c: RiskConfig): real { Times(c.maxTotalCapital, c.riskPerTrade) }

  function LossPerUnit(c: RiskConfig, price: real): real { Times(price, c.stopLoss) }

  function Notional(quantity: real, price: real): real { Times(quantity, price) }

  function Steps(count: int, step: real): real { Times(count as real, step) }

  /** The money at risk, divided by the loss per unit and rounded down to whole steps. */
  function Size(c: RiskConfig, price: real): real
    requires c.stepSize > 0.0 && LossPerUnit(c, price) > 0.0
  {
    Steps((CapitalAtRisk(c) / LossPerUnit(c, price) / c.stepSize).Floor, c.stepSize)
  }

  function ApproveEntry(c: RiskConfig, buy: bool, price: real, priceTime: int, lastExit: int, wallClock: int): Decision
    requires c.stepSize > 0.0
  {
    if !buy then Refused("signal is not BUY")
    else if price <= 0.0 then Refused("invalid market price")
    else if wallClock - priceTime > c.maxDataAgeMs * MILLISECOND then Refused("market data is stale")
    else if lastExit != 0 && wallClock - lastExit < c.cooldownSeconds * SECOND then Refused("cooldown active")
    else if LossPerUnit(c, price) <= 0.0 then Refused("invalid stop-loss distance")
    else
      var quantity := Size(c, price);
      var notional := Notional(quantity, price);
      if quantity < c.minQuantity then Refused("quantity below exchange minimum")
      else if c.maxQuantity > 0.0 && quantity > c.maxQuantity then Refused("quantity above exchange maximum")
      else if notional < c.minNotional then Refused("notional below exchange minimum")
      else if notional > c.maxTotalCapital * c.leverage then Refused("position exceeds configured capital")
      else Approved(quantity, notional)
  }

  // ---------------------------------------------------------------- what is approved, by definition

  /** The loss of a quantity at the configured stop distance. */
  function Loss(c: RiskConfig, quantity: real, price: real): real { Times(quantity, LossPerUnit(c, price)) }

  /** The largest whole number of steps whose loss at the stop fits the capital at risk. */
  ghost predicate LargestAffordable(c: RiskConfig, price: real, quantity: real) {
    && (exists count: int :: quantity == Steps(count, c.stepSize))
    && Loss(c, quantity, price) <= CapitalAtRisk(c) < Loss(c, quantity + c.stepSize, price)
  }

  predicate WithinFilters(c: RiskConfig, price: real, quantity: real) {
    && c.minQuantity <= quantity && (c.maxQuantity > 0.0 ==> quantity <= c.maxQuantity)
    && c.minNotional <= Notional(quantity, price) <= c.maxTotalCapital * c.leverage
  }

  predicate Timely(c: RiskConfig, priceTime: int, lastExit: int, wallClock: int) {
    && wallClock - priceTime <= c.maxDataAgeMs * MILLISECOND
    && (lastExit == 0 || wallClock - lastExit >= c.cooldownSeconds * SECOND)
  }

  lemma SizeIsLargest(c: RiskConfig, price: real)
    requires c.stepSize > 0.0 && LossPerUnit(c, price) > 0.0
    ensures LargestAffordable(c, price, Size(c, price))
  {
    hide Times, CapitalAtRisk, LossPerUnit;
    var loss := LossPerUnit(c, price);
    var raw := CapitalAtRisk(c) / loss;
    var count := (raw / c.stepSize).Floor;
    TimesOver(raw, c.stepSize);
    TimesOver(CapitalAtRisk(c), loss);
    OneMore(count, c.stepSize);
    TimesUp(count as real, raw / c.stepSize, c.stepSize);
    TimesUpStrictly(raw / c.stepSize, (count + 1) as real, c.stepSize);
    TimesUp(Size(c, price), raw, loss);
    TimesUpStrictly(raw, Size(c, price) + c.stepSize, loss);
  }

  lemma OneMore(count: int, step: real)
    ensures Steps(count + 1, step) == Steps(count, step) + step
  {
    assert (count + 1) as real == count as real + 1.0;
  }

  lemma LargestIsUnique(c: RiskConfig, price: real, q: real, r: real)
    requires c.stepSize > 0.0 && LossPerUnit(c, price) > 0.0
    requires LargestAffordable(c, price, q) && LargestAffordable(c, price, r)
    ensures q == r
  {
    var i: int :| q == Steps(i, c.stepSize);
    var j: int :| r == Steps(j, c.stepSize);
    hide Times, CapitalAtRisk, LossPerUnit;
    if i < j { StepsBeyond(i, j, c.stepSize, LossPerUnit(c, price)); }
    if j < i { StepsBeyond(j, i, c.stepSize, LossPerUnit(c, price)); }
  }

  /** More steps cost at least what one more step costs. */
  lemma StepsBeyond(i: int, j: int, step: real, loss: real)
    requires i < j && step > 0.0 && loss > 0.0
    ensures Times(Steps(i, step) + step, loss) <= Times(Steps(j, step), loss)
  {
    hide Times;
    OneMore(i, step);
    TimesUp((i + 1) as real, j as real, step);
    TimesUp(Steps(i, step) + step, Steps(j, step), loss);
  }

  /** Exactly what is approved: a timely buy signal at a positive price, sized at the largest
      affordable number of steps, when that size passes the exchange filters. */
  lemma ApprovedExactly(c: RiskConfig, buy: bool, price: real, priceTime: int, lastExit: int, wallClock: int, quantity: real)
    requires ValidConfig(c)
    ensures ApproveEntry(c, buy, price, priceTime, lastExit, wallClock) == Approved(quantity, Notional(quantity, price))
       <==> && buy && price > 0.0 && Timely(c, priceTime, lastExit, wallClock)
            && LargestAffordable(c, price, quantity) && WithinFilters(c, price, quantity)
  {
    hide Times, LossPerUnit, Size, LargestAffordable, Notional;
    if price > 0.0 {
      LossIsPositive(c, price);
      SizeIsLargest(c, price);
      if LargestAffordable(c, price, quantity) { LargestIsUnique(c, price, quantity, Size(c, price)); }
    }
  }

  lemma LossIsPositive(c: RiskConfig, price: real)
    requires ValidConfig(c) && price > 0.0
    ensures LossPerUnit(c, price) > 0.0
  {
    TimesPositive(price, c.stopLoss);
  }
}
