/** Incremental indicators: rings and running averages that equal a definition over the
    whole history of pushed values. */
module Indicators {
  import opened Reals
  import opened RingIndex
  import opened Wrappers
  import Store = MarketDataStore

  function Sum(values: seq<real>): real {
    if values == [] then 0.0 else Sum(values[..|values| - 1]) + values[|values| - 1]
  }

  lemma SumSnoc(values: seq<real>, x: real)
    ensures Sum(values + [x]) == Sum(values) + x
  {
    assert (values + [x])[..|values|] == values;
  }

  lemma {:induction false} SumTail(values: seq<real>)
    requires values != []
    ensures Sum(values) == values[0] + Sum(values[1..])
  {
    if |values| == 1 {
      assert values[..0] == values[1..] == [];
    } else {
      var n := |values| - 1;
      SumTail(values[..n]);
      assert values[1..][..n - 1] == values[..n][1..];
    }
  }

  // ---------------------------------------------------------------- rolling return

  /** First-to-last return over the last `window` values, once there are that many. */
  function WindowReturn(history: seq<real>, window: nat): real
    requires window >= 1
  {
    if |history| < window then 0.0
    else
      match Store.ReturnBetween(history[|history| - window], history[|history| - 1])
      case Some(r) => r
      case None => 0.0
  }

  class RollingReturn {
    const values: array<real>
    var head: nat
    var size: nat
    ghost var history: seq<real>

    ghost predicate Valid()
      reads this, values
    {
      && RingShape(values.Length, head, size)
      && Unroll(values[..], head, size) == Suffix(history, values.Length)
    }

    constructor (period: nat)
      ensures Valid() && fresh(values) && history == [] && values.Length == AtLeast(2, period)
    {
      values := new real[AtLeast(2, period)](_ => 0.0);
      head, size := 0, 0;
      history := [];
    }

    method Push(value: real)
      requires Valid()
      modifies this, values
      ensures Valid() && history == old(history) + [value]
    {
      hide Suffix, Unroll, Wrap;
      ghost var before := values[..];
      UnrollPush(before, head, size, value);
      SuffixOfSuffix(history, value, values.Length);
      values[head] := value;
      assert values[..] == before[head := value];
      head := Wrap(head + 1, values.Length);
      if size < values.Length { size := size + 1; }
      history := history + [value];
    }

    method Value() returns (r: real)
      requires Valid()
      ensures r == WindowReturn(history, values.Length)
    {
      if size != values.Length { return 0.0; }
      UnrollAt(values[..], head, size, size, 0);
      UnrollLast(values[..], head, size, 0.0);
      var first := values[head];
      var last := values[Wrap(head + values.Length - 1, values.Length)];
      return if first > 0.0 then (last - first) / first else 0.0;
    }

    method Reset()
      requires Valid()
      modifies this
      ensures Valid() && history == []
    {
      head, size := 0, 0;
      history := [];
    }
  }

  function Closes(log: seq<Store.Kline>): seq<real> {
    if log == [] then [] else Closes(log[..|log| - 1]) + [log[|log| - 1].close]
  }

  lemma {:induction false} ClosesAt(log: seq<Store.Kline>)
    ensures |Closes(log)| == |log|
    ensures forall i | 0 <= i < |log| :: Closes(log)[i] == log[i].close
  {
    if log != [] {
      ClosesAt(log[..|log| - 1]);
    }
  }

  lemma {:induction false} DistinctTimesAreKept(candles: seq<Store.Kline>)
    requires forall i | 0 < i < |candles| :: candles[i - 1].timestamp != candles[i].timestamp
    ensures Store.Stored(candles) == candles
  {
    if candles != [] {
      DistinctTimesAreKept(candles[..|candles| - 1]);
    }
  }

  /** Once the window is full the two momentum values agree: the momentum strategy's rolling
      return of the closes is the cumulative return the scanner asks the store for, and it is 0
      exactly where the store gives none because the first close is not positive. */
  lemma FullWindowReturn(candles: seq<Store.Kline>, window: nat)
    requires 2 <= window <= |candles|
    requires forall i | 0 < i < |candles| :: candles[i - 1].timestamp != candles[i].timestamp
    ensures match Store.ReturnOver(Suffix(Store.Stored(candles), window))
            case Some(r) => WindowReturn(Closes(candles), window) == r
            case None => WindowReturn(Closes(candles), window) == 0.0 && candles[|candles| - window].close <= 0.0
  {
    DistinctTimesAreKept(candles);
    ClosesAt(candles);
    SuffixEnds(candles, window);
    hide Suffix, Store.Stored, Closes;
    var first := candles[|candles| - window].close;
    assert Store.ReturnBetween(first, candles[|candles| - 1].close).None? <==> first <= 0.0;
    hide Store.ReturnBetween;
  }

  function OrZero(r: Option<real>): real {
    match r
    case Some(v) => v
    case None => 0.0
  }

  /** Before that the rolling return is 0, and the store compares the first candle with the last. */
  lemma ShortWindowReturn(candles: seq<Store.Kline>, window: nat)
    requires |candles| < window
    requires forall i | 0 < i < |candles| :: candles[i - 1].timestamp != candles[i].timestamp
    ensures WindowReturn(Closes(candles), window) == 0.0
    ensures Store.ReturnOver(Suffix(Store.Stored(candles), window)) == Store.ReturnOver(candles)
  {
    DistinctTimesAreKept(candles);
    ClosesAt(candles);
  }

  lemma NoChange(first: real, last: real)
    ensures OrZero(Store.ReturnBetween(first, last)) == 0.0 <==> first <= 0.0 || first == last
  {
    if first > 0.0 { QuotientIsZero(last - first, first); }
  }

  lemma QuotientIsZero(a: real, b: real)
    requires b > 0.0
    ensures a / b == 0.0 <==> a == 0.0
  {
    assert (a / b) * b == a;
  }

  /** On candles with distinct timestamps, and a window no longer than the store's ring, the
      rolling return equals the store's cumulative return, with 0 for none, exactly when the
      window is full, there are not even two candles, or the first close is not positive or
      the same as the last. */
  lemma RollingReturnIsCumulativeReturn(candles: seq<Store.Kline>, window: nat, capacity: nat)
    requires 2 <= window <= capacity
    requires forall i | 0 < i < |candles| :: candles[i - 1].timestamp != candles[i].timestamp
    ensures WindowReturn(Closes(candles), window) == OrZero(Store.ReturnOver(Suffix(Store.Stored(candles), Least(window, capacity))))
            <==> || |candles| >= window || |candles| < 2
                 || candles[0].close <= 0.0 || candles[0].close == candles[|candles| - 1].close
  {
    hide Suffix, Store.Stored, Closes, WindowReturn;
    if |candles| >= window {
      FullWindowReturn(candles, window);
    } else {
      ShortWindowReturn(candles, window);
      if |candles| >= 2 { NoChange(candles[0].close, candles[|candles| - 1].close); }
    }
  }

  /** Two candles in a window of three: the price doubled, and the rolling return is still 0. */
  lemma ShortWindowDiffers()
    ensures var candles := [Store.Kline(1, 1.0, 1.0, 1.0, 1.0, 0.0), Store.Kline(2, 2.0, 2.0, 2.0, 2.0, 0.0)];
            && Store.ReturnOver(Suffix(Store.Stored(candles), 3)) == Some(1.0)
            && WindowReturn(Closes(candles), 3) == 0.0
  {
    ShortWindowReturn([Store.Kline(1, 1.0, 1.0, 1.0, 1.0, 0.0), Store.Kline(2, 2.0, 2.0, 2.0, 2.0, 0.0)], 3);
  }

  lemma SuffixEnds(candles: seq<Store.Kline>, window: nat)
    requires 1 <= window <= |candles|
    ensures |Suffix(candles, window)| == window
    ensures Suffix(candles, window)[0] == candles[|candles| - window]
    ensures Suffix(candles, window)[window - 1] == candles[|candles| - 1]
  {
  }

  // ---------------------------------------------------------------- moving average

  function Mean(values: seq<real>): real {
    if values == [] then 0.0 else Sum(values) / |values| as real
  }

  /** An average lies within any bounds of the values, and the average of equal values is theirs. */
  lemma {:induction false} MeanStaysInRange(values: seq<real>, low: real, high: real)
    requires values != [] && forall x | x in values :: low <= x <= high
    ensures low <= Mean(values) <= high
  {
    hide Times;
    var n := |values| as real;
    SumStaysInRange(values, low, high);
    TimesOver(Sum(values), n);
    if Mean(values) < low { TimesUpStrictly(Mean(values), low, n); }
    if high < Mean(values) { TimesUpStrictly(high, Mean(values), n); }
  }

  lemma {:induction false} SumStaysInRange(values: seq<real>, low: real, high: real)
    requires forall x | x in values :: low <= x <= high
    ensures Times(low, |values| as real) <= Sum(values) <= Times(high, |values| as real)
  {
    hide Times;
    if values == [] {
      TimesUnit(low);
      TimesUnit(high);
    } else {
      var n := |values| - 1;
      assert values[n] in values && forall x | x in values[..n] :: x in values;
      SumStaysInRange(values[..n], low, high);
      TimesSum(n as real, 1.0, low);
      TimesSum(n as real, 1.0, high);
      TimesUnit(low);
      TimesUnit(high);
    }
  }

  class RollingSma {
    const values: array<real>
    var head: nat
    var size: nat
    var sum: real
    ghost var history: seq<real>

    ghost predicate Valid()
      reads this, values
    {
      && RingShape(values.Length, head, size)
      && Unroll(values[..], head, size) == Suffix(history, values.Length)
      && sum == Sum(Suffix(history, values.Length))
    }

    constructor (period: nat)
      ensures Valid() && fresh(values) && history == [] && values.Length == AtLeast(1, period)
    {
      values := new real[AtLeast(1, period)](_ => 0.0);
      head, size, sum := 0, 0, 0.0;
      history := [];
    }

    method Push(value: real) returns (average: real)
      requires Valid()
      modifies this, values
      ensures Valid() && history == old(history) + [value]
      ensures average == Mean(Suffix(history, values.Length))
    {
      hide Suffix, Unroll, Wrap, Sum;
      ghost var before := values[..];
      UnrollPush(before, head, size, value);
      SuffixOfSuffix(history, value, values.Length);
      WindowSum(history, value, values.Length);
      if size == values.Length { UnrollOldest(before, head); }
      if size < values.Length {
        sum := sum + value;
        size := size + 1;
      } else {
        sum := sum - values[head];
        sum := sum + value;
      }
      values[head] := value;
      assert values[..] == before[head := value];
      head := Wrap(head + 1, values.Length);
      history := history + [value];
      average := Current();
    }

    method Current() returns (average: real)
      requires Valid()
      ensures average == Mean(Suffix(history, values.Length))
    {
      return if size == 0 then 0.0 else sum / size as real;
    }
  }

  /** Sliding the window by one value. */
  lemma WindowSum(history: seq<real>, value: real, window: nat)
    requires window >= 1
    ensures Sum(Suffix(history + [value], window)) ==
            Sum(Suffix(history, window)) + value - (if |history| < window then 0.0 else Suffix(history, window)[0])
  {
    var kept := Suffix(history, window);
    SumSnoc(kept, value);
    if |history| < window {
      assert Suffix(history + [value], window) == kept + [value];
    } else {
      SumTail(kept + [value]);
      assert Suffix(history + [value], window) == (kept + [value])[1..];
    }
  }

  // ---------------------------------------------------------------- exponential average

  function EmaOf(history: seq<real>, alpha: real): real {
    var n := |history| - 1;
    if history == [] then 0.0
    else if n == 0 then history[0]
    else EmaOf(history[..n], alpha) + Times(alpha, history[n] - EmaOf(history[..n], alpha))
  }

  class Ema {
    const alpha: real
    var value: real
    var initialized: bool
    ghost var history: seq<real>

    ghost predicate Valid()
      reads this
    {
      0.0 < alpha <= 1.0 && (initialized <==> history != []) && value == EmaOf(history, alpha)
    }

    constructor (period: nat)
      ensures Valid() && history == []
      ensures alpha * (AtLeast(1, period) + 1) as real == 2.0
    {
      alpha := 2.0 / (AtLeast(1, period) as real + 1.0);
      value, initialized := 0.0, false;
      history := [];
    }

    method Push(x: real) returns (r: real)
      requires Valid()
      modifies this
      ensures Valid() && history == old(history) + [x] && r == EmaOf(history, alpha)
    {
      assert (history + [x])[..|history|] == history;
      if !initialized { value, initialized := x, true; } else { value := value + Times(alpha, x - value); }
      history := history + [x];
      return value;
    }
  }

  /** An exponential average never leaves the range of the values it averages. */
  lemma {:induction false} EmaStaysInRange(history: seq<real>, alpha: real, low: real, high: real)
    requires history != [] && 0.0 < alpha <= 1.0
    requires forall x | x in history :: low <= x <= high
    ensures low <= EmaOf(history, alpha) <= high
  {
    var n := |history| - 1;
    assert history[n] in history;
    if n > 0 {
      assert forall x | x in history[..n] :: x in history;
      EmaStaysInRange(history[..n], alpha, low, high);
      Between(EmaOf(history[..n], alpha), history[n], alpha, low, high);
    }
  }

  function Power(x: real, k: nat): real {
    if k == 0 then 1.0 else Times(x, Power(x, k - 1))
  }

  /** How much the i-th of n values counts: the newest alpha, each older one a factor 1 - alpha
      less, and the first what is left. */
  function WeightAt(n: nat, i: nat, alpha: real): real
    requires i < n
  {
    if i == 0 then Power(1.0 - alpha, n - 1) else Times(alpha, Power(1.0 - alpha, n - 1 - i))
  }

  /** The first k of n values, weighted. */
  function WeightedSum(history: seq<real>, n: nat, k: nat, alpha: real): real
    requires k <= |history| && k <= n
  {
    if k == 0 then 0.0 else WeightedSum(history, n, k - 1, alpha) + Times(WeightAt(n, k - 1, alpha), history[k - 1])
  }

  lemma {:induction false} OlderWeighsLess(history: seq<real>, x: real, n: nat, k: nat, alpha: real)
    requires k <= |history| && k <= n
    ensures WeightedSum(history + [x], n + 1, k, alpha) == Times(1.0 - alpha, WeightedSum(history, n, k, alpha))
  {
    hide Times;
    if k == 0 {
      TimesUnit(1.0 - alpha);
    } else {
      OlderWeighsLess(history, x, n, k - 1, alpha);
      var rest, w := Power(1.0 - alpha, n - k), WeightAt(n, k - 1, alpha);
      assert Power(1.0 - alpha, n + 1 - k) == Times(1.0 - alpha, rest);
      TimesReorder(alpha, 1.0 - alpha, rest);
      TimesReorder(1.0 - alpha, alpha, rest);
      assert WeightAt(n + 1, k - 1, alpha) == Times(1.0 - alpha, w);
      TimesReorder(1.0 - alpha, w, history[k - 1]);
      TimesSum(WeightedSum(history, n, k - 1, alpha), Times(w, history[k - 1]), 1.0 - alpha);
    }
  }

  /** The exponential average is the weighted sum of all values ever pushed. */
  lemma {:induction false} EmaIsWeightedSum(history: seq<real>, alpha: real)
    requires history != []
    ensures EmaOf(history, alpha) == WeightedSum(history, |history|, |history|, alpha)
  {
    hide Times;
    var n := |history| - 1;
    TimesUnit(history[0]);
    TimesUnit(alpha);
    if n > 0 {
      EmaIsWeightedSum(history[..n], alpha);
      OlderWeighsLess(history[..n], history[n], n, n, alpha);
      assert history == history[..n] + [history[n]];
      var before := EmaOf(history[..n], alpha);
      assert WeightAt(n + 1, n, alpha) == Times(alpha, 1.0);
      TimesUnit(before);
      TimesSum(1.0, alpha, before);
      TimesSum(history[n], before, alpha);
    }
  }

  lemma Between(a: real, b: real, t: real, low: real, high: real)
    requires low <= a <= high && low <= b <= high && 0.0 <= t <= 1.0
    ensures low <= a + Times(t, b - a) <= high
  {
    hide Times;
    TimesUnit(b - a);
    if a <= b {
      TimesUp(0.0, t, b - a);
      TimesUp(t, 1.0, b - a);
    } else {
      TimesUnit(a - b);
      TimesSum(b, a, t);
      TimesSum(a, b, t);
      TimesUp(0.0, t, a - b);
      TimesUp(t, 1.0, a - b);
    }
  }

  // ---------------------------------------------------------------- relative strength

  function Gain(delta: real): real { if delta > 0.0 then delta else 0.0 }

  /** The gains among the first n prices. */
  function GainsAmong(prices: seq<real>, n: nat): seq<real>
    requires n <= |prices|
  {
    if n < 2 then [] else GainsAmong(prices, n - 1) + [Gain(prices[n - 1] - prices[n - 2])]
  }

  function LossesAmong(prices: seq<real>, n: nat): seq<real>
    requires n <= |prices|
  {
    if n < 2 then [] else LossesAmong(prices, n - 1) + [Gain(prices[n - 2] - prices[n - 1])]
  }

  function Gains(prices: seq<real>): seq<real> { GainsAmong(prices, |prices|) }

  function Losses(prices: seq<real>): seq<real> { LossesAmong(prices, |prices|) }

  function Updated(average: real, x: real, period: nat): real
    requires period >= 1
  {
    (average * (period - 1) as real + x) / period as real
  }

  /** Wilder's smoothing: the mean of the first `period` changes, then a weighted update. */
  function Smoothed(changes: seq<real>, period: nat): real
    requires period >= 1
    decreases |changes|
  {
    var n := |changes| - 1;
    if |changes| < period then Sum(changes)
    else if |changes| == period then Sum(changes) / period as real
    else Updated(Smoothed(changes[..n], period), changes[n], period)
  }

  /** 50 until enough prices are known, then 100 - 100 / (1 + gain / loss). */
  function RsiOf(prices: seq<real>, period: nat): real
    requires period >= 1
  {
    var gain, loss := Smoothed(Gains(prices), period), Smoothed(Losses(prices), period);
    if |prices| <= period then 50.0 else Strength(gain, loss)
  }

  function Strength(gain: real, loss: real): real {
    if loss <= 0.0 then 100.0
    else if 1.0 + gain / loss == 0.0 then 0.0
    else 100.0 - 100.0 / (1.0 + gain / loss)
  }

  ghost predicate NonNegative(values: seq<real>) {
    forall i | 0 <= i < |values| :: values[i] >= 0.0
  }

  lemma {:induction false} CountsAmong(prices: seq<real>, n: nat)
    requires n <= |prices|
    ensures |GainsAmong(prices, n)| == |LossesAmong(prices, n)| == if n == 0 then 0 else n - 1
    ensures NonNegative(GainsAmong(prices, n)) && NonNegative(LossesAmong(prices, n))
  {
    if n >= 2 { CountsAmong(prices, n - 1); }
  }

  lemma ChangeCounts(prices: seq<real>)
    ensures |Gains(prices)| == |Losses(prices)| == if prices == [] then 0 else |prices| - 1
    ensures NonNegative(Gains(prices)) && NonNegative(Losses(prices))
  {
    CountsAmong(prices, |prices|);
  }

  lemma {:induction false} LaterPricesDoNotMatter(prices: seq<real>, price: real, n: nat)
    requires n <= |prices|
    ensures GainsAmong(prices + [price], n) == GainsAmong(prices, n)
    ensures LossesAmong(prices + [price], n) == LossesAmong(prices, n)
  {
    hide Gain;
    if n >= 2 { LaterPricesDoNotMatter(prices, price, n - 1); }
  }

  lemma ChangesSnoc(prices: seq<real>, price: real)
    requires prices != []
    ensures Gains(prices + [price]) == Gains(prices) + [Gain(price - prices[|prices| - 1])]
    ensures Losses(prices + [price]) == Losses(prices) + [Gain(prices[|prices| - 1] - price)]
  {
    hide Gain;
    LaterPricesDoNotMatter(prices, price, |prices|);
  }

  lemma FirstPrice(price: real, period: nat)
    requires period >= 1
    ensures Gains([price]) == Gains([]) && Losses([price]) == Losses([])
  {
  }

  class Rsi {
    const period: nat
    var samples: nat
    var previous: real
    var avgGain: real
    var avgLoss: real
    var hasPrevious: bool
    ghost var prices: seq<real>

    ghost predicate Valid()
      reads this
    {
      && period >= 1
      && (hasPrevious <==> prices != [])
      && (hasPrevious ==> previous == prices[|prices| - 1])
      && samples == Least(period, |Gains(prices)|)
      && avgGain == Smoothed(Gains(prices), period)
      && avgLoss == Smoothed(Losses(prices), period)
    }

    constructor (window: nat)
      ensures Valid() && prices == [] && period == AtLeast(1, window)
    {
      period := AtLeast(1, window);
      samples, previous, avgGain, avgLoss, hasPrevious := 0, 0.0, 0.0, 0.0, false;
      prices := [];
    }

    method Push(price: real) returns (r: real)
      requires Valid()
      modifies this
      ensures Valid() && prices == old(prices) + [price]
      ensures r == RsiOf(prices, period)
    {
      hide Gains, Losses, Smoothed, Strength, NextAverage, Gain;
      ChangeCounts(prices);
      if !hasPrevious {
        FirstPrice(price, period);
        previous, hasPrevious, prices := price, true, [price];
        return 50.0;
      }
      var delta := price - previous;
      SmoothedSnoc(Gains(prices), Gain(delta), period);
      SmoothedSnoc(Losses(prices), Gain(-delta), period);
      ChangesSnoc(prices, price);
      previous, prices := price, prices + [price];
      Average(Gain(delta), Gain(-delta));
      if samples < period { return 50.0; }
      return Strength(avgGain, avgLoss);
    }

    method Average(gain: real, loss: real)
      requires period >= 1 && samples <= period
      modifies this`samples, this`avgGain, this`avgLoss
      ensures samples == Least(period, old(samples) + 1)
      ensures avgGain == NextAverage(old(avgGain), old(samples), gain, period)
      ensures avgLoss == NextAverage(old(avgLoss), old(samples), loss, period)
    {
      if samples < period {
        avgGain := avgGain + gain;
        avgLoss := avgLoss + loss;
        samples := samples + 1;
        if samples == period {
          avgGain := avgGain / period as real;
          avgLoss := avgLoss / period as real;
        }
      } else {
        avgGain := (avgGain * (period - 1) as real + gain) / period as real;
        avgLoss := (avgLoss * (period - 1) as real + loss) / period as real;
      }
    }
  }

  /** One more change, when `known` (at most `period`) have been averaged. */
  function NextAverage(average: real, known: nat, x: real, period: nat): real
    requires period >= 1
  {
    if known + 1 < period then average + x
    else if known + 1 == period then (average + x) / period as real
    else Updated(average, x, period)
  }

  lemma SmoothedSnoc(changes: seq<real>, x: real, period: nat)
    requires period >= 1
    ensures Smoothed(changes + [x], period) == NextAverage(Smoothed(changes, period), Least(period, |changes|), x, period)
  {
    assert (changes + [x])[..|changes|] == changes;
    if |changes| < period {
      SumSnoc(changes, x);
    } else {
      SmoothedUpdate(changes, x, period);
    }
  }

  lemma SmoothedUpdate(changes: seq<real>, x: real, period: nat)
    requires 1 <= period <= |changes|
    ensures Smoothed(changes + [x], period) == NextAverage(Smoothed(changes, period), period, x, period)
  {
    var after := changes + [x];
    assert after[..|after| - 1] == changes && after[|after| - 1] == x;
    var average := Smoothed(changes, period);
    hide Updated;
    assert Smoothed(after, period) == Updated(average, x, period);
  }

  /** Once there are enough changes, Wilder's smoothing is the exponential average, with the
      factor 1 / period, that starts from the mean of the first ones. */
  lemma {:induction false} SmoothedIsEma(changes: seq<real>, period: nat)
    requires 1 <= period <= |changes|
    ensures Smoothed(changes, period) == EmaOf([Mean(changes[..period])] + changes[period..], 1.0 / period as real)
    decreases |changes|
  {
    var seed := [Mean(changes[..period])];
    if |changes| == period {
      assert changes[..period] == changes && seed + changes[period..] == seed;
    } else {
      var n := |changes| - 1;
      SmoothedIsEma(changes[..n], period);
      var front := seed + changes[..n][period..];
      assert changes[..n][..period] == changes[..period];
      assert seed + changes[period..] == front + [changes[n]];
      assert (front + [changes[n]])[..|front|] == front;
      UpdatedIsBlend(Smoothed(changes[..n], period), changes[n], period);
    }
  }

  lemma UpdatedIsBlend(average: real, x: real, period: nat)
    requires period >= 1
    ensures Updated(average, x, period) == average + Times(1.0 / period as real, x - average)
  {
    var p := period as real;
    assert (period - 1) as real == p - 1.0;
    Quotients(average * (p - 1.0) + x, average, x, p);
  }

  lemma Quotients(sum: real, average: real, x: real, p: real)
    requires p > 0.0 && sum == average * (p - 1.0) + x
    ensures sum / p == average + Times(1.0 / p, x - average)
  {
    var inverse := 1.0 / p;
    assert inverse * p == 1.0;
    assert sum / p == sum * inverse;
    assert average * p * inverse == average;
  }

  lemma {:induction false} SmoothedIsNonNegative(changes: seq<real>, period: nat)
    requires period >= 1 && NonNegative(changes)
    ensures Smoothed(changes, period) >= 0.0
    decreases |changes|
  {
    if |changes| <= period {
      SumIsNonNegative(changes);
    } else {
      SmoothedIsNonNegative(changes[..|changes| - 1], period);
    }
  }

  lemma {:induction false} SumIsNonNegative(values: seq<real>)
    requires NonNegative(values)
    ensures Sum(values) >= 0.0
  {
    if values != [] {
      SumIsNonNegative(values[..|values| - 1]);
    }
  }

  /** The index stays in 0..100, and once ready it is the gains' share of all movement. */
  lemma RsiIsShareOfGains(prices: seq<real>, period: nat)
    requires period >= 1
    ensures 0.0 <= RsiOf(prices, period) <= 100.0
    ensures var gain, loss := Smoothed(Gains(prices), period), Smoothed(Losses(prices), period);
            && gain >= 0.0 && loss >= 0.0
            && (|prices| > period && loss > 0.0 ==> RsiOf(prices, period) == 100.0 * gain / (gain + loss))
            && (|prices| > period && loss == 0.0 ==> RsiOf(prices, period) == 100.0)
    ensures |prices| <= period ==> RsiOf(prices, period) == 50.0
  {
    ChangeCounts(prices);
    var gain, loss := Smoothed(Gains(prices), period), Smoothed(Losses(prices), period);
    SmoothedIsNonNegative(Gains(prices), period);
    SmoothedIsNonNegative(Losses(prices), period);
    if loss > 0.0 {
      ShareOf(gain, loss);
    }
  }

  lemma ShareOf(gain: real, loss: real)
    requires gain >= 0.0 && loss > 0.0
    ensures Strength(gain, loss) == 100.0 * gain / (gain + loss)
    ensures 0.0 <= Strength(gain, loss) <= 100.0
  {
    var rs := gain / loss;
    assert rs * loss == gain;
    assert rs >= 0.0;
    var s := 100.0 / (1.0 + rs);
    assert s * (1.0 + rs) == 100.0;
    assert 0.0 < s <= 100.0;
    assert (100.0 - s) * (gain + loss) == 100.0 * gain by {
      assert (gain + loss) == loss * (1.0 + rs);
      assert s * (gain + loss) == 100.0 * loss;
    }
  }
}
