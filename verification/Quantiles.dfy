/** Interpolated quantiles and confidence intervals. */
module Quantiles {
  import opened Reals
  import opened Sorting

  function Clamp01(p: real): real {
    if p < 0.0 then 0.0 else if p > 1.0 then 1.0 else p
  }

  predicate Less(a: real, b: real) { a < b }

  function SortedValues(values: seq<real>): seq<real> {
    Sort(Less, values)
  }

  /** The value at a position between two entries. */
  function At(v: seq<real>, position: real): real
    requires 0.0 <= position && position <= (|v| - 1) as real
  {
    var low := position.Floor;
    if position == low as real then v[low]
    else
      var w := position - low as real;
      Times(v[low], 1.0 - w) + Times(v[low + 1], w)
  }

  function Quantile(values: seq<real>, p: real): real {
    if values == [] then 0.0
    else
      SizeIsKept(values);
      PositionFits(Clamp01(p), |values| - 1);
      At(SortedValues(values), Times(Clamp01(p), (|values| - 1) as real))
  }

  datatype Interval = Interval(lower: real, median: real, upper: real)

  function MakeInterval(values: seq<real>, confidence: real): Interval {
    var a := (1.0 - confidence) * 0.5;
    Interval(Quantile(values, a), Quantile(values, 0.5), Quantile(values, 1.0 - a))
  }

  lemma SizeIsKept(values: seq<real>)
    ensures |SortedValues(values)| == |values|
  {
    SortPermutes(Less, values);
  }

  lemma PositionFits(p: real, n: nat)
    requires 0.0 <= p <= 1.0
    ensures 0.0 <= Times(p, n as real) <= n as real
  {
    TimesUp(0.0, p, n as real);
    TimesUp(p, 1.0, n as real);
  }

  predicate AtMost(a: real, b: real) { a <= b }

  lemma ValuesAreSorted(values: seq<real>)
    ensures Ordered(AtMost, SortedValues(values))
  {
    SortOrders(Less, AtMost, values, values);
  }

  /** Between two entries the value lies between them and grows with the position. */
  lemma Between(low: real, high: real, w: real)
    requires low <= high && 0.0 <= w <= 1.0
    ensures low <= Times(low, 1.0 - w) + Times(high, w) <= high
  {
    TimesSum(1.0, w, low);
    TimesSum(1.0, w, high);
    TimesUnit(low);
    TimesUnit(high);
    TimesUp(low, high, w);
    TimesUp(low, high, 1.0 - w);
  }

  lemma MoreWeight(low: real, high: real, w: real, x: real)
    requires low <= high && w <= x
    ensures Times(low, 1.0 - w) + Times(high, w) <= Times(low, 1.0 - x) + Times(high, x)
  {
    TimesSum(1.0, w, low);
    TimesSum(1.0, x, low);
    TimesUp(w, x, high - low);
    TimesSum(high, low, w);
    TimesSum(high, low, x);
  }

  lemma AtIsBetween(v: seq<real>, position: real)
    requires Ordered(AtMost, v) && 0.0 <= position && position <= (|v| - 1) as real
    ensures var low := position.Floor;
            && 0 <= low < |v| && v[low] <= At(v, position)
            && (low + 1 < |v| ==> At(v, position) <= v[low + 1])
            && (low + 1 == |v| ==> At(v, position) == v[low])
  {
    hide Times;
    var low := position.Floor;
    if position != low as real {
      assert AtMost(v[low], v[low + 1]);
      Between(v[low], v[low + 1], position - low as real);
    } else if low + 1 < |v| {
      assert AtMost(v[low], v[low + 1]);
    }
  }

  lemma AtGrows(v: seq<real>, a: real, b: real)
    requires Ordered(AtMost, v) && 0.0 <= a <= b && b <= (|v| - 1) as real
    ensures At(v, a) <= At(v, b)
  {
    AtIsBetween(v, a);
    AtIsBetween(v, b);
    var i, j := a.Floor, b.Floor;
    hide Times;
    if i == j {
      if a != i as real && b != i as real {
        assert AtMost(v[i], v[i + 1]);
        MoreWeight(v[i], v[i + 1], a - i as real, b - i as real);
      }
    } else {
      assert i + 1 == j || AtMost(v[i + 1], v[j]);
    }
  }

  /** Quantiles grow with the probability and stay between the least and the greatest value;
      probabilities 0 and 1 give exactly these. */
  lemma QuantileGrows(values: seq<real>, p: real, q: real)
    requires p <= q
    ensures Quantile(values, p) <= Quantile(values, q)
  {
    if values != [] {
      var n := |values| - 1;
      SizeIsKept(values);
      ValuesAreSorted(values);
      PositionFits(Clamp01(p), n);
      PositionFits(Clamp01(q), n);
      TimesUp(Clamp01(p), Clamp01(q), n as real);
      hide Times, At, Ordered, SortedValues;
      AtGrows(SortedValues(values), Times(Clamp01(p), n as real), Times(Clamp01(q), n as real));
    }
  }

  lemma QuantileEnds(values: seq<real>)
    requires values != []
    ensures Quantile(values, 0.0) in values && Quantile(values, 1.0) in values
    ensures forall x | x in values :: Quantile(values, 0.0) <= x <= Quantile(values, 1.0)
  {
    var v, n := SortedValues(values), |values| - 1;
    SizeIsKept(values);
    ValuesAreSorted(values);
    SortPermutes(Less, values);
    TimesUnit(n as real);
    hide Times, Sort;
    assert Quantile(values, 0.0) == v[0] && Quantile(values, 1.0) == v[n];
    assert v[0] in v && v[n] in v;
    forall x | x in values ensures v[0] <= x <= v[n] {
      assert x in v;
      var k :| 0 <= k <= n && v[k] == x;
      assert k == 0 || AtMost(v[0], v[k]);
      assert k == n || AtMost(v[k], v[n]);
    }
  }

  /** Interpolation: where the probability falls on an entry of the sorted values, the quantile is
      that entry; between two it moves in proportion from the one to the other. */
  lemma QuantileInterpolates(values: seq<real>, p: real, k: nat, w: real)
    requires 0.0 <= p <= 1.0 && k < |values| && 0.0 <= w < 1.0 && (k + 1 == |values| ==> w == 0.0)
    requires Times(p, (|values| - 1) as real) == k as real + w
    ensures |SortedValues(values)| == |values|
    ensures var v := SortedValues(values);
            Quantile(values, p) == if w == 0.0 then v[k] else v[k] + Times(v[k + 1] - v[k], w)
  {
    SizeIsKept(values);
    var v := SortedValues(values);
    assert (k as real + w).Floor == k;
    if w > 0.0 {
      TimesSum(1.0, w, v[k]);
      TimesSum(v[k + 1], v[k], w);
      TimesUnit(v[k]);
    }
    hide Times, SortedValues;
  }

  lemma QuantileIsWithin(values: seq<real>, p: real)
    requires values != []
    ensures Quantile(values, 0.0) <= Quantile(values, p) <= Quantile(values, 1.0)
  {
    QuantileIsClamped(values, p);
    QuantileGrows(values, 0.0, Clamp01(p));
    QuantileGrows(values, Clamp01(p), 1.0);
  }

  lemma QuantileIsClamped(values: seq<real>, p: real)
    ensures Quantile(values, p) == Quantile(values, Clamp01(p))
  {
    assert Clamp01(Clamp01(p)) == Clamp01(p);
  }

  /** The interval is in order for every confidence level from 0 up. */
  lemma IntervalIsOrdered(values: seq<real>, confidence: real)
    requires confidence >= 0.0
    ensures var i := MakeInterval(values, confidence); i.lower <= i.median <= i.upper
    // the median is that of the values, and the ends leave out equally much on either side
    ensures exists a, b :: a + b == 1.0 && b - a == confidence
              && MakeInterval(values, confidence) == Interval(Quantile(values, a), Quantile(values, 0.5), Quantile(values, b))
  {
    var a := (1.0 - confidence) * 0.5;
    assert a + (1.0 - a) == 1.0 && (1.0 - a) - a == confidence;
    QuantileGrows(values, a, 0.5);
    QuantileGrows(values, 0.5, 1.0 - a);
  }
}
