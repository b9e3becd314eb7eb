/** Exact arithmetic that stands for the JavaScript number operations of the grading code. */
module Numeric {

  /**
   * `Math.round` on an exact real: the nearest integer, halves rounded up.
   * The ensures pins the result down uniquely.
   */
  function Round(x: real): (r: int)
    ensures r as real - 1.0 / 2.0 <= x < r as real + 1.0 / 2.0
  {
    (x + 1.0 / 2.0).Floor
  }

  lemma RoundMonotone(x: real, y: real)
    requires x <= y
    ensures Round(x) <= Round(y)
  {
  }

  lemma RoundOfInt(n: int)
    ensures Round(n as real) == n
  {
  }

  /** Rounding preserves integer bounds: lo <= x <= hi gives lo <= Round(x) <= hi. */
  lemma RoundBetween(x: real, lo: int, hi: int)
    ensures lo as real <= x <= hi as real ==> lo <= Round(x) <= hi
  {
    if lo as real <= x <= hi as real {
      RoundMonotone(lo as real, x);
      RoundMonotone(x, hi as real);
      RoundOfInt(lo);
      RoundOfInt(hi);
    }
  }

  /** `xs.reduce((s, v) => s + v, 0)`. */
  function Sum(xs: seq<real>): real
  {
    if xs == [] then 0.0 else xs[0] + Sum(xs[1..])
  }

  lemma {:induction false} SumAppend(xs: seq<real>, ys: seq<real>)
    ensures Sum(xs + ys) == Sum(xs) + Sum(ys)
  {
    if xs == [] {
      assert xs + ys == ys;
    } else {
      assert (xs + ys)[1..] == xs[1..] + ys;
      SumAppend(xs[1..], ys);
    }
  }

  predicate AllBetween(xs: seq<real>, lo: real, hi: real)
  {
    forall i :: 0 <= i < |xs| ==> lo <= xs[i] <= hi
  }

  lemma {:induction false} SumBetween(xs: seq<real>, lo: real, hi: real)
    requires AllBetween(xs, lo, hi)
    ensures |xs| as real * lo <= Sum(xs) <= |xs| as real * hi
  {
    if xs != [] {
      assert AllBetween(xs[1..], lo, hi) by {
        forall i | 0 <= i < |xs[1..]| ensures lo <= xs[1..][i] <= hi {
          assert xs[1..][i] == xs[i + 1];
        }
      }
      SumBetween(xs[1..], lo, hi);
    }
  }

  /** Arithmetic mean of a non-empty list. */
  function Mean(xs: seq<real>): real
    requires |xs| > 0
  {
    Sum(xs) / |xs| as real
  }

  /** The mean of values in [lo, hi] lies in [lo, hi]. */
  lemma MeanBetween(xs: seq<real>, lo: real, hi: real)
    requires |xs| > 0
    ensures AllBetween(xs, lo, hi) ==> lo <= Mean(xs) <= hi
  {
    if AllBetween(xs, lo, hi) {
      SumBetween(xs, lo, hi);
      var n := |xs| as real;
      assert n * lo <= Sum(xs) <= n * hi;
      DivBetween(Sum(xs), n, lo, hi);
    }
  }

  lemma DivBetween(s: real, n: real, lo: real, hi: real)
    requires n > 0.0 && n * lo <= s <= n * hi
    ensures lo <= s / n <= hi
  {
    assert s / n - lo == (s - n * lo) / n;
    assert hi - s / n == (n * hi - s) / n;
  }

  lemma FractionOfWhole(part: real, whole: real)
    requires whole > 0.0
    ensures 0.0 <= part <= whole ==> 0.0 <= part / whole <= 1.0
  {
    if 0.0 <= part <= whole {
      DivBetween(part, whole, 0.0, 1.0);
    }
  }

  /** `a / b * 100`, guarded: 0 when b <= 0 (as every percentage in the source is). */
  function Percent(part: real, whole: real): (r: real)
    ensures whole <= 0.0 ==> r == 0.0
    ensures 0.0 <= part <= whole ==> 0.0 <= r <= 100.0
  {
    if whole > 0.0 then PercentOf(part, whole) else 0.0
  }

  function PercentOf(part: real, whole: real): (r: real)
    requires whole > 0.0
    ensures 0.0 <= part <= whole ==> 0.0 <= r <= 100.0
    ensures r * whole == part * 100.0
  {
    FractionOfWhole(part, whole);
    part / whole * 100.0
  }

  /** All of a positive whole is 100 percent of it. */
  lemma PercentOfWhole(part: real, whole: real)
    requires whole > 0.0
    ensures part == whole ==> PercentOf(part, whole) == 100.0
  {
    if part == whole {
      assert part / whole == 1.0;
    }
  }

  /** A guarded percentage is the part's share of a positive whole, 0 otherwise, and 100 for the whole. */
  lemma PercentShare(part: real, whole: real)
    ensures whole <= 0.0 ==> Percent(part, whole) == 0.0
    ensures whole > 0.0 ==> Percent(part, whole) * whole == part * 100.0
    ensures 0.0 <= part <= whole ==> 0.0 <= Percent(part, whole) <= 100.0
    ensures whole > 0.0 && part == whole ==> Percent(part, whole) == 100.0
  {
    if whole > 0.0 {
      PercentOfWhole(part, whole);
    }
  }
}
