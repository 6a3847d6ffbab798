/** Rounding half away from zero on a decimal grid, over exact reals. */
module Rounding {
  function Abs(x: real): real { if x < 0.0 then -x else x }

  function Min(a: real, b: real): real { if a < b then a else b }

  function Clamp(value: real, low: real, high: real): real
  {
    if value < low then low else if value > high then high else value
  }

  /** The nearest integer, halves away from zero. */
  function Nearest(x: real): int
  {
    if x < 0.0 then -((-x + 0.5).Floor) else (x + 0.5).Floor
  }

  /** `g` is closer to `x` than any other integer, a tie going to the one further from zero. */
  predicate IsNearest(x: real, g: int)
  {
    var distance := Abs(g as real - x);
    distance < 0.5 || (distance == 0.5 && Abs(g as real) > Abs(x))
  }

  /**
   * `scale` is 10, 100 or 10000: the number of grid points per unit. The two correction branches
   * are there for the binary fractions of the original.
   */
  function RoundHalfAwayFromZero(value: real, scale: real): real
    requires scale > 0.0
  {
    var f := Nearest(value * scale) as real;
    var g :=
      if value > 0.0 then (if (f + 0.5) / scale <= value then f + 1.0 else f)
      else if value < 0.0 then (if (f - 0.5) / scale >= value then f - 1.0 else f)
      else f;
    g / scale
  }

  lemma NearestIsNearest(x: real)
    ensures IsNearest(x, Nearest(x))
  {
  }

  lemma NearestIsUnique(x: real, g: int)
    requires IsNearest(x, g)
    ensures g == Nearest(x)
  {
  }

  lemma DivideBack(x: real, scale: real)
    requires scale > 0.0
    ensures x / scale * scale == x
  {
  }

  /** Scaling down keeps the order of two numbers. */
  lemma DivideMonotone(a: real, b: real, scale: real)
    requires scale > 0.0
    ensures a < b <==> a / scale < b / scale
  {
    DivideBack(a, scale);
    DivideBack(b, scale);
    if a / scale < b / scale {
      assert (a / scale) * scale < (b / scale) * scale;
    } else {
      assert (b / scale) * scale <= (a / scale) * scale;
    }
  }

  lemma TimesMonotone(a: real, b: real, scale: real)
    requires scale > 0.0 && a <= b
    ensures a * scale <= b * scale
  {
    assert 0.0 <= (b - a) * scale;
  }

  lemma TimesDivide(x: real, scale: real)
    requires scale > 0.0
    ensures x * scale / scale == x
  {
  }

  lemma QuotientBelow(value: real, f: real, scale: real)
    requires scale > 0.0 && value * scale < f
    ensures value < f / scale
  {
    var quotient := f / scale;
    DivideBack(f, scale);
    if quotient <= value {
      TimesMonotone(quotient, value, scale);
    }
  }

  lemma QuotientAbove(value: real, f: real, scale: real)
    requires scale > 0.0 && f < value * scale
    ensures f / scale < value
  {
    var quotient := f / scale;
    DivideBack(f, scale);
    if value <= quotient {
      TimesMonotone(value, quotient, scale);
    }
  }

  /** In exact arithmetic neither correction branch is ever taken. */
  lemma CorrectionNeverFires(value: real, scale: real)
    requires scale > 0.0
    ensures RoundHalfAwayFromZero(value, scale) == Nearest(value * scale) as real / scale
  {
    var f := Nearest(value * scale) as real;
    NearestIsNearest(value * scale);
    if value > 0.0 {
      TimesMonotone(0.0, value, scale);
      QuotientBelow(value, f + 0.5, scale);
    } else if value < 0.0 {
      TimesMonotone(value, 0.0, scale);
      QuotientAbove(value, f - 0.5, scale);
    }
  }

  /**
   * What rounding means: the result is the one grid point nearest to the value, ties away from
   * zero. Both directions: no other grid point qualifies.
   */
  lemma RoundingIsNearest(value: real, scale: real, g: int)
    requires scale > 0.0
    ensures RoundHalfAwayFromZero(value, scale) == g as real / scale <==> IsNearest(value * scale, g)
  {
    CorrectionNeverFires(value, scale);
    NearestIsNearest(value * scale);
    if IsNearest(value * scale, g) {
      NearestIsUnique(value * scale, g);
    }
    SameQuotient(g as real, Nearest(value * scale) as real, scale);
    hide RoundHalfAwayFromZero, Nearest, IsNearest;
  }

  lemma SameQuotient(a: real, b: real, scale: real)
    requires scale > 0.0
    ensures a / scale == b / scale <==> a == b
  {
    DivideBack(a, scale);
    DivideBack(b, scale);
  }

  lemma NearestMonotone(x: real, y: real)
    requires x <= y
    ensures Nearest(x) <= Nearest(y)
  {
  }

  lemma RoundingMonotone(a: real, b: real, scale: real)
    requires scale > 0.0 && a <= b
    ensures RoundHalfAwayFromZero(a, scale) <= RoundHalfAwayFromZero(b, scale)
  {
    TimesMonotone(a, b, scale);
    NearestMonotone(a * scale, b * scale);
    CorrectionNeverFires(a, scale);
    CorrectionNeverFires(b, scale);
    DivideMonotone(Nearest(b * scale) as real, Nearest(a * scale) as real, scale);
  }

  lemma RoundingOnGrid(value: real, scale: real, g: int)
    requires scale > 0.0 && value * scale == g as real
    ensures RoundHalfAwayFromZero(value, scale) == g as real / scale
  {
    hide RoundHalfAwayFromZero;
    assert IsNearest(value * scale, g);
    RoundingIsNearest(value, scale, g);
  }

  /** A value already on the grid is left alone, so rounding twice is rounding once. */
  lemma RoundingFixesGrid(g: int, scale: real)
    requires scale > 0.0
    ensures RoundHalfAwayFromZero(g as real / scale, scale) == g as real / scale
  {
    hide RoundHalfAwayFromZero, IsNearest;
    var value := g as real / scale;
    DivideBack(g as real, scale);
    RoundingOnGrid(value, scale, g);
  }

  lemma RoundingIdempotent(value: real, scale: real)
    requires scale > 0.0
    ensures var once := RoundHalfAwayFromZero(value, scale); RoundHalfAwayFromZero(once, scale) == once
  {
    CorrectionNeverFires(value, scale);
    RoundingFixesGrid(Nearest(value * scale), scale);
  }

  lemma RoundingWithinHalfStep(value: real, scale: real)
    requires scale > 0.0
    ensures Abs(RoundHalfAwayFromZero(value, scale) - value) * scale <= 0.5
  {
    var f := Nearest(value * scale) as real;
    CorrectionNeverFires(value, scale);
    NearestIsNearest(value * scale);
    assert Abs(f - value * scale) <= 0.5;
    hide RoundHalfAwayFromZero, Nearest, IsNearest;
    QuotientDistance(f, value, scale);
  }

  lemma QuotientDistance(f: real, value: real, scale: real)
    requires scale > 0.0
    ensures Abs(f / scale - value) * scale == Abs(f - value * scale)
  {
    var quotient := f / scale;
    DivideBack(f, scale);
    DifferenceTimes(quotient, value, scale);
    AbsTimes(quotient - value, scale);
  }

  lemma DifferenceTimes(a: real, b: real, scale: real)
    ensures (a - b) * scale == a * scale - b * scale
  {
  }

  lemma AbsTimes(d: real, scale: real)
    requires scale > 0.0
    ensures Abs(d) * scale == Abs(d * scale)
  {
    if d < 0.0 {
      TimesMonotone(d, 0.0, scale);
    } else {
      TimesMonotone(0.0, d, scale);
    }
  }

  /** Rounding on a grid finer than the integers cannot leave an interval with integer ends. */
  lemma RoundingStaysWithin(value: real, scale: nat, lo: int, hi: int)
    requires scale > 0 && lo as real <= value <= hi as real
    ensures lo as real <= RoundHalfAwayFromZero(value, scale as real) <= hi as real
  {
    IntegersAreOnGrid(lo, scale);
    IntegersAreOnGrid(hi, scale);
    RoundingMonotone(lo as real, value, scale as real);
    RoundingMonotone(value, hi as real, scale as real);
  }

  lemma {:induction false} ProductAsReal(k: int, n: nat)
    ensures (k * n) as real == k as real * n as real
  {
    if n > 0 {
      ProductAsReal(k, n - 1);
      assert k * n == k * (n - 1) + k;
    }
  }

  lemma IntegersAreOnGrid(k: int, scale: nat)
    requires scale > 0
    ensures RoundHalfAwayFromZero(k as real, scale as real) == k as real
  {
    ProductAsReal(k, scale);
    TimesDivide(k as real, scale as real);
    RoundingFixesGrid(k * scale, scale as real);
  }
}
