/** Reals: comparisons, and products under a name, so that proofs can treat them as atoms. */
module Reals {

  function Max(a: real, b: real): real { if a < b then b else a }

  function Min(a: real, b: real): real { if b < a then b else a }

  function Abs(a: real): real { if a < 0.0 then -a else a }

  function Times(a: real, b: real): real { a * b }

  lemma TimesSum(a: real, b: real, k: real)
    ensures Times(a + b, k) == Times(a, k) + Times(b, k)
    ensures Times(k, a + b) == Times(k, a) + Times(k, b)
    ensures Times(a - b, k) == Times(a, k) - Times(b, k)
    ensures Times(k, a - b) == Times(k, a) - Times(k, b)
  {
  }

  lemma TimesUp(a: real, b: real, k: real)
    requires k >= 0.0 && a <= b
    ensures Times(a, k) <= Times(b, k) && Times(k, a) <= Times(k, b)
  {
    assert (b - a) * k >= 0.0;
  }

  lemma TimesUpStrictly(a: real, b: real, k: real)
    requires k > 0.0 && a < b
    ensures Times(a, k) < Times(b, k) && Times(k, a) < Times(k, b)
  {
    assert (b - a) * k > 0.0;
  }

  lemma TimesUnit(a: real)
    ensures Times(a, 1.0) == a && Times(1.0, a) == a && Times(a, 0.0) == 0.0 && Times(0.0, a) == 0.0
  {
  }

  lemma TimesPositive(a: real, b: real)
    requires a > 0.0 && b > 0.0
    ensures Times(a, b) > 0.0
  {
  }

  lemma TimesReorder(a: real, b: real, c: real)
    ensures Times(a, b) == Times(b, a)
    ensures Times(Times(a, b), c) == Times(a, Times(b, c))
  {
  }

  lemma TimesOver(a: real, b: real)
    requires b != 0.0
    ensures Times(a / b, b) == a
  {
  }

  lemma TimesDivided(a: real, b: real, d: real)
    requires d != 0.0
    ensures Times(a, b) / d == Times(a, b / d)
  {
  }

  lemma AbsTimes(a: real, b: real)
    requires a >= 0.0
    ensures Abs(Times(a, b)) == Times(Abs(b), a)
  {
    if b >= 0.0 { TimesUp(0.0, b, a); } else { TimesUp(b, 0.0, a); }
  }
}
