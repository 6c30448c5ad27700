/** The parameter grid: counting its trials without overflow, and enumerating them. */
module ResearchGrid {
  import opened RingIndex
  import opened Wrappers

  datatype ParameterSet = ParameterSet(
    lookback: nat, entryThreshold: real, stopLoss: real, takeProfit: real, slippage: real)

  datatype Grid = Grid(
    lookbacks: seq<nat>, entryThresholds: seq<real>, stopLosses: seq<real>, takeProfits: seq<real>, slippages: seq<real>)

  datatype Error = NoTrialsAllowed | EmptyDimension | TooManyTrials

  function Dimensions(g: Grid): seq<nat> {
    [|g.lookbacks|, |g.entryThresholds|, |g.stopLosses|, |g.takeProfits|, |g.slippages|]
  }

  function Product(dimensions: seq<nat>): nat {
    if dimensions == [] then 1 else Product(dimensions[..|dimensions| - 1]) * dimensions[|dimensions| - 1]
  }

  lemma GuardOf(count: nat, dimension: nat, bound: nat, quotient: nat, rest: nat)
    requires bound == quotient * dimension + rest && rest < dimension
    ensures count > quotient <==> count * dimension > bound
  {
    MulSpreads(count - quotient, dimension);
    assert count * dimension - quotient * dimension == (count - quotient) * dimension;
  }

  /** The division guard says exactly whether the next product stays within the bound. */
  lemma GuardIsExact(count: nat, dimension: nat, bound: nat)
    requires dimension > 0
    ensures count > bound / dimension <==> count * dimension > bound
  {
    GuardOf(count, dimension, bound, bound / dimension, bound % dimension);
  }

  lemma {:induction false} ProductGrows(dimensions: seq<nat>, k: nat)
    requires k <= |dimensions| && forall i | k <= i < |dimensions| :: dimensions[i] > 0
    ensures Product(dimensions[..k]) <= Product(dimensions)
    decreases |dimensions|
  {
    if k == |dimensions| {
      assert dimensions[..k] == dimensions;
    } else {
      var n := |dimensions| - 1;
      ProductGrows(dimensions[..n], k);
      assert dimensions[..n][..k] == dimensions[..k];
      var front := Product(dimensions[..n]);
      assert front * (dimensions[n] - 1) >= 0;
      assert front * dimensions[n] == front + front * (dimensions[n] - 1);
    }
  }

  /** No product computed on the way exceeds the bound, so none can overflow when the bound is
      representable; `products` are the values the counter takes. */
  method CheckedTrialCount(g: Grid, maxTrials: nat) returns (r: Result<nat, Error>, ghost products: seq<nat>)
    ensures r.Ok? <==> maxTrials >= 1 && 0 !in Dimensions(g) && Product(Dimensions(g)) <= maxTrials
    ensures r.Ok? ==> r.value == Product(Dimensions(g)) >= 1
    ensures forall p | p in products :: p <= maxTrials
    ensures r.Err? && maxTrials >= 1 && 0 !in Dimensions(g) ==> r.error == TooManyTrials
  {
    products := [];
    if maxTrials == 0 { return Err(NoTrialsAllowed), products; }
    var dimensions := Dimensions(g);
    assert |dimensions| == 5;
    hide Dimensions;
    var count: nat := 1;
    for i := 0 to |dimensions|
      invariant count == Product(dimensions[..i]) && 1 <= count <= maxTrials
      invariant forall k | 0 <= k < i :: dimensions[k] > 0
      invariant forall p | p in products :: p <= maxTrials
    {
      var dimension := dimensions[i];
      if dimension == 0 { return Err(EmptyDimension), products; }
      GuardIsExact(count, dimension, maxTrials);
      assert dimensions[..i + 1][..i] == dimensions[..i];
      if count > maxTrials / dimension {
        if 0 !in dimensions {
          assert forall k | 0 <= k < |dimensions| :: dimensions[k] in dimensions;
          ProductGrows(dimensions, i + 1);
        }
        return Err(TooManyTrials), products;
      }
      Positive(count, dimension);
      count := count * dimension;
      products := products + [count];
    }
    assert dimensions[..|dimensions|] == dimensions;
    return Ok(count), products;
  }

  lemma Positive(a: nat, b: nat)
    requires a >= 1 && b >= 1
    ensures a * b >= 1
  {
    assert (a - 1) * (b - 1) >= 0;
  }

  // ---------------------------------------------------------------- enumeration

  /** f applied to each element, concatenated: what a loop that appends produces. */
  function Each<A, B>(items: seq<A>, f: A -> seq<B>): seq<B> {
    if items == [] then [] else Each(items[..|items| - 1], f) + f(items[|items| - 1])
  }

  lemma {:induction false} EachHolds<A, B>(items: seq<A>, f: A -> seq<B>, x: B)
    ensures x in Each(items, f) <==> exists a :: a in items && x in f(a)
  {
    if items != [] {
      var n := |items| - 1;
      assert items == items[..n] + [items[n]];
      EachHolds(items[..n], f, x);
    }
  }

  lemma {:induction false} EachCounts<A, B>(items: seq<A>, f: A -> seq<B>, n: nat)
    requires forall a | a in items :: |f(a)| == n
    ensures |Each(items, f)| == |items| * n
  {
    if items != [] {
      var k := |items| - 1;
      EachCounts(items[..k], f, n);
      assert |f(items[k])| == n;
      assert (k + 1) * n == k * n + n;
    }
  }

  function WithSlippage(g: Grid, l: nat, e: real, s: real, t: real): seq<ParameterSet> {
    Each(g.slippages, x => [ParameterSet(l, e, s, t, x)])
  }

  function WithTakeProfit(g: Grid, l: nat, e: real, s: real): seq<ParameterSet> {
    Each(g.takeProfits, t => WithSlippage(g, l, e, s, t))
  }

  function WithStopLoss(g: Grid, l: nat, e: real): seq<ParameterSet> {
    Each(g.stopLosses, s => WithTakeProfit(g, l, e, s))
  }

  function WithThreshold(g: Grid, l: nat): seq<ParameterSet> {
    Each(g.entryThresholds, e => WithStopLoss(g, l, e))
  }

  function Trials(g: Grid): seq<ParameterSet> {
    Each(g.lookbacks, l => WithThreshold(g, l))
  }

  lemma EachStep<A, B>(before: seq<B>, items: seq<A>, f: A -> seq<B>, i: nat)
    requires i < |items|
    ensures before + Each(items[..i + 1], f) == before + Each(items[..i], f) + f(items[i])
  {
    assert items[..i + 1][..i] == items[..i];
    assert before + Each(items[..i], f) + f(items[i]) == before + (Each(items[..i], f) + f(items[i]));
  }

  lemma EachEnds<A, B>(before: seq<B>, items: seq<A>, f: A -> seq<B>)
    ensures before + Each(items[..0], f) == before && Each(items[..|items|], f) == Each(items, f)
  {
    assert items[..|items|] == items;
  }

  // the nested loops of the runner, one method for each level

  method AppendSlippages(g: Grid, l: nat, e: real, s: real, t: real, before: seq<ParameterSet>) returns (ps: seq<ParameterSet>)
    ensures ps == before + WithSlippage(g, l, e, s, t)
  {
    ps := before;
    ghost var f := x => [ParameterSet(l, e, s, t, x)];
    EachEnds(before, g.slippages, f);
    hide Each;
    for i := 0 to |g.slippages|
      invariant ps == before + Each(g.slippages[..i], f)
    {
      EachStep(before, g.slippages, f, i);
      ps := ps + [ParameterSet(l, e, s, t, g.slippages[i])];
    }
  }

  method AppendTakeProfits(g: Grid, l: nat, e: real, s: real, before: seq<ParameterSet>) returns (ps: seq<ParameterSet>)
    ensures ps == before + WithTakeProfit(g, l, e, s)
  {
    ps := before;
    ghost var f := t => WithSlippage(g, l, e, s, t);
    EachEnds(before, g.takeProfits, f);
    hide Each, WithSlippage;
    for i := 0 to |g.takeProfits|
      invariant ps == before + Each(g.takeProfits[..i], f)
    {
      EachStep(before, g.takeProfits, f, i);
      ps := AppendSlippages(g, l, e, s, g.takeProfits[i], ps);
    }
  }

  method AppendStopLosses(g: Grid, l: nat, e: real, before: seq<ParameterSet>) returns (ps: seq<ParameterSet>)
    ensures ps == before + WithStopLoss(g, l, e)
  {
    ps := before;
    ghost var f := s => WithTakeProfit(g, l, e, s);
    EachEnds(before, g.stopLosses, f);
    hide Each, WithTakeProfit;
    for i := 0 to |g.stopLosses|
      invariant ps == before + Each(g.stopLosses[..i], f)
    {
      EachStep(before, g.stopLosses, f, i);
      ps := AppendTakeProfits(g, l, e, g.stopLosses[i], ps);
    }
  }

  method AppendThresholds(g: Grid, l: nat, before: seq<ParameterSet>) returns (ps: seq<ParameterSet>)
    ensures ps == before + WithThreshold(g, l)
  {
    ps := before;
    ghost var f := e => WithStopLoss(g, l, e);
    EachEnds(before, g.entryThresholds, f);
    hide Each, WithStopLoss;
    for i := 0 to |g.entryThresholds|
      invariant ps == before + Each(g.entryThresholds[..i], f)
    {
      EachStep(before, g.entryThresholds, f, i);
      ps := AppendStopLosses(g, l, g.entryThresholds[i], ps);
    }
  }

  method EnumerateTrials(g: Grid) returns (ps: seq<ParameterSet>)
    ensures ps == Trials(g)
  {
    ps := [];
    ghost var f := l => WithThreshold(g, l);
    EachEnds([], g.lookbacks, f);
    hide Each, WithThreshold;
    for i := 0 to |g.lookbacks|
      invariant ps == [] + Each(g.lookbacks[..i], f)
    {
      EachStep([], g.lookbacks, f, i);
      ps := AppendThresholds(g, g.lookbacks[i], ps);
    }
  }

  lemma CombinationsWithStopLoss(g: Grid, l: nat, e: real, p: ParameterSet)
    ensures p in WithStopLoss(g, l, e) <==>
              && p.lookback == l && p.entryThreshold == e
              && p.stopLoss in g.stopLosses && p.takeProfit in g.takeProfits && p.slippage in g.slippages
  {
    EachHolds(g.stopLosses, s => WithTakeProfit(g, l, e, s), p);
    forall s ensures p in WithTakeProfit(g, l, e, s) <==>
                       p == ParameterSet(l, e, s, p.takeProfit, p.slippage) && p.takeProfit in g.takeProfits && p.slippage in g.slippages
    {
      CombinationsWithTakeProfit(g, l, e, s, p);
    }
  }

  lemma CombinationsWithTakeProfit(g: Grid, l: nat, e: real, s: real, p: ParameterSet)
    ensures p in WithTakeProfit(g, l, e, s) <==>
              p == ParameterSet(l, e, s, p.takeProfit, p.slippage) && p.takeProfit in g.takeProfits && p.slippage in g.slippages
  {
    EachHolds(g.takeProfits, t => WithSlippage(g, l, e, s, t), p);
    forall t ensures p in WithSlippage(g, l, e, s, t) <==> p == ParameterSet(l, e, s, t, p.slippage) && p.slippage in g.slippages {
      EachHolds(g.slippages, x => [ParameterSet(l, e, s, t, x)], p);
    }
  }

  /** The enumerated parameter sets are exactly the combinations of the grid. */
  lemma TrialsAreCombinations(g: Grid, p: ParameterSet)
    ensures p in Trials(g) <==>
              && p.lookback in g.lookbacks && p.entryThreshold in g.entryThresholds
              && p.stopLoss in g.stopLosses && p.takeProfit in g.takeProfits && p.slippage in g.slippages
  {
    EachHolds(g.lookbacks, l => WithThreshold(g, l), p);
    forall l ensures p in WithThreshold(g, l) <==>
                       && p.lookback == l && p.entryThreshold in g.entryThresholds
                       && p.stopLoss in g.stopLosses && p.takeProfit in g.takeProfits && p.slippage in g.slippages
    {
      EachHolds(g.entryThresholds, e => WithStopLoss(g, l, e), p);
      forall e { CombinationsWithStopLoss(g, l, e, p); }
    }
  }

  // ---------------------------------------------------------------- counting and order

  /** The number of sets on each level of the loops. */
  function Inner(g: Grid, level: nat): nat
    requires level <= 4
    decreases 4 - level
  {
    if level == 4 then 1 else Dimensions(g)[level + 1] * Inner(g, level + 1)
  }

  lemma CountSlippages(g: Grid, l: nat, e: real, s: real, t: real)
    ensures |WithSlippage(g, l, e, s, t)| == Inner(g, 3)
  {
    EachCounts(g.slippages, x => [ParameterSet(l, e, s, t, x)], 1);
  }

  lemma CountTakeProfits(g: Grid, l: nat, e: real, s: real)
    ensures |WithTakeProfit(g, l, e, s)| == Inner(g, 2)
  {
    hide WithSlippage;
    forall t ensures |WithSlippage(g, l, e, s, t)| == Inner(g, 3) { CountSlippages(g, l, e, s, t); }
    EachCounts(g.takeProfits, t => WithSlippage(g, l, e, s, t), Inner(g, 3));
  }

  lemma CountStopLosses(g: Grid, l: nat, e: real)
    ensures |WithStopLoss(g, l, e)| == Inner(g, 1)
  {
    hide WithTakeProfit;
    forall s ensures |WithTakeProfit(g, l, e, s)| == Inner(g, 2) { CountTakeProfits(g, l, e, s); }
    EachCounts(g.stopLosses, s => WithTakeProfit(g, l, e, s), Inner(g, 2));
  }

  lemma CountThresholds(g: Grid, l: nat)
    ensures |WithThreshold(g, l)| == Inner(g, 0)
  {
    hide WithStopLoss;
    forall e ensures |WithStopLoss(g, l, e)| == Inner(g, 1) { CountStopLosses(g, l, e); }
    EachCounts(g.entryThresholds, e => WithStopLoss(g, l, e), Inner(g, 1));
  }

  /** The number of parameter sets is the checked count. */
  lemma TrialsAreCounted(g: Grid)
    ensures |Trials(g)| == Product(Dimensions(g))
  {
    hide WithThreshold;
    forall l ensures |WithThreshold(g, l)| == Inner(g, 0) { CountThresholds(g, l); }
    EachCounts(g.lookbacks, l => WithThreshold(g, l), Inner(g, 0));
    ProductOfFive(|g.lookbacks|, |g.entryThresholds|, |g.stopLosses|, |g.takeProfits|, |g.slippages|);
  }

  lemma {:induction false} EachAt<A, B>(items: seq<A>, f: A -> seq<B>, n: nat, k: nat, j: nat)
    requires (forall a | a in items :: |f(a)| == n) && k < |items| && j < n
    ensures k * n + j < |Each(items, f)| && Each(items, f)[k * n + j] == f(items[k])[j]
  {
    var last := |items| - 1;
    EachCounts(items[..last], f, n);
    assert items[last] in items && items[k] in items && forall a | a in items[..last] :: a in items;
    if k < last {
      EachAt(items[..last], f, n, k, j);
    }
  }

  /** Where the loops put a parameter set: lookbacks vary slowest, slippages fastest. */
  function Place(g: Grid, at: seq<nat>, level: nat): nat
    requires |at| == 5 && level <= 5
    decreases 5 - level
  {
    if level == 5 then 0 else at[level] * (if level == 4 then 1 else Inner(g, level)) + Place(g, at, level + 1)
  }

  lemma AtSlippage(g: Grid, l: nat, e: real, s: real, t: real, at: seq<nat>)
    requires |at| == 5 && at[4] < |g.slippages|
    ensures Place(g, at, 4) < |WithSlippage(g, l, e, s, t)|
    ensures WithSlippage(g, l, e, s, t)[Place(g, at, 4)] == ParameterSet(l, e, s, t, g.slippages[at[4]])
  {
    EachAt(g.slippages, x => [ParameterSet(l, e, s, t, x)], 1, at[4], 0);
  }

  lemma AtTakeProfit(g: Grid, l: nat, e: real, s: real, at: seq<nat>)
    requires |at| == 5 && at[3] < |g.takeProfits| && at[4] < |g.slippages|
    ensures Place(g, at, 3) < |WithTakeProfit(g, l, e, s)|
    ensures WithTakeProfit(g, l, e, s)[Place(g, at, 3)] == ParameterSet(l, e, s, g.takeProfits[at[3]], g.slippages[at[4]])
  {
    hide WithSlippage;
    forall t ensures |WithSlippage(g, l, e, s, t)| == Inner(g, 3) { CountSlippages(g, l, e, s, t); }
    AtSlippage(g, l, e, s, g.takeProfits[at[3]], at);
    EachAt(g.takeProfits, t => WithSlippage(g, l, e, s, t), Inner(g, 3), at[3], Place(g, at, 4));
  }

  lemma AtStopLoss(g: Grid, l: nat, e: real, at: seq<nat>)
    requires |at| == 5 && at[2] < |g.stopLosses| && at[3] < |g.takeProfits| && at[4] < |g.slippages|
    ensures Place(g, at, 2) < |WithStopLoss(g, l, e)|
    ensures WithStopLoss(g, l, e)[Place(g, at, 2)] ==
            ParameterSet(l, e, g.stopLosses[at[2]], g.takeProfits[at[3]], g.slippages[at[4]])
  {
    hide WithTakeProfit;
    forall s ensures |WithTakeProfit(g, l, e, s)| == Inner(g, 2) { CountTakeProfits(g, l, e, s); }
    AtTakeProfit(g, l, e, g.stopLosses[at[2]], at);
    EachAt(g.stopLosses, s => WithTakeProfit(g, l, e, s), Inner(g, 2), at[2], Place(g, at, 3));
  }

  lemma AtThreshold(g: Grid, l: nat, at: seq<nat>)
    requires |at| == 5 && at[1] < |g.entryThresholds| && at[2] < |g.stopLosses| && at[3] < |g.takeProfits| && at[4] < |g.slippages|
    ensures Place(g, at, 1) < |WithThreshold(g, l)|
    ensures WithThreshold(g, l)[Place(g, at, 1)] ==
            ParameterSet(l, g.entryThresholds[at[1]], g.stopLosses[at[2]], g.takeProfits[at[3]], g.slippages[at[4]])
  {
    hide WithStopLoss;
    forall e ensures |WithStopLoss(g, l, e)| == Inner(g, 1) { CountStopLosses(g, l, e); }
    AtStopLoss(g, l, g.entryThresholds[at[1]], at);
    EachAt(g.entryThresholds, e => WithStopLoss(g, l, e), Inner(g, 1), at[1], Place(g, at, 2));
  }

  /** The order of the enumeration, which numbers the trials: the combination of the values at
      these positions of the five dimensions stands at their place in mixed radix. */
  lemma TrialAt(g: Grid, at: seq<nat>)
    requires |at| == 5 && forall d | 0 <= d < 5 :: at[d] < Dimensions(g)[d]
    ensures Place(g, at, 0) < |Trials(g)|
    ensures Trials(g)[Place(g, at, 0)] ==
            ParameterSet(g.lookbacks[at[0]], g.entryThresholds[at[1]], g.stopLosses[at[2]], g.takeProfits[at[3]], g.slippages[at[4]])
  {
    hide WithThreshold;
    assert at[0] < Dimensions(g)[0] && at[1] < Dimensions(g)[1] && at[2] < Dimensions(g)[2] && at[3] < Dimensions(g)[3]
           && at[4] < Dimensions(g)[4];
    forall l ensures |WithThreshold(g, l)| == Inner(g, 0) { CountThresholds(g, l); }
    AtThreshold(g, g.lookbacks[at[0]], at);
    EachAt(g.lookbacks, l => WithThreshold(g, l), Inner(g, 0), at[0], Place(g, at, 1));
  }

  lemma ProductOfFive(a: nat, b: nat, c: nat, d: nat, e: nat)
    ensures Product([a, b, c, d, e]) == a * (b * (c * (d * e)))
  {
    ProductSnoc([], a);
    ProductSnoc([a], b);
    ProductSnoc([a, b], c);
    ProductSnoc([a, b, c], d);
    ProductSnoc([a, b, c, d], e);
    hide Product;
    assert [] + [a] == [a] && [a] + [b] == [a, b] && [a, b] + [c] == [a, b, c];
    assert [a, b, c] + [d] == [a, b, c, d] && [a, b, c, d] + [e] == [a, b, c, d, e];
    Reassociate(a * b, c, d, e);
    Reassociate3(a, b, c * (d * e));
  }

  lemma ProductSnoc(dimensions: seq<nat>, d: nat)
    ensures Product(dimensions + [d]) == Product(dimensions) * d && Product([]) == 1
  {
    assert (dimensions + [d])[..|dimensions|] == dimensions;
  }

  lemma Reassociate3(a: nat, b: nat, c: nat)
    ensures a * b * c == a * (b * c)
  {
  }

  lemma Reassociate(p: nat, c: nat, d: nat, e: nat)
    ensures p * c * d * e == p * (c * (d * e))
  {
    Reassociate3(p * c, d, e);
    Reassociate3(p, c, d * e);
  }
}
