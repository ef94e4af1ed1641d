/**
 * The degenerate-frame check of the video adapter: a frame whose gray
 * levels have a mean below 15 (a black screen) or a population standard
 * deviation below 10 (a uniform colour) is marked anomalous and left out of
 * the overall score.
 */
module Quality {

  import opened Wrappers

  function Sum(g: seq<int>): int
  {
    if g == [] then 0 else Sum(g[..|g| - 1]) + g[|g| - 1]
  }

  function SumSquares(g: seq<int>): int
  {
    if g == [] then 0 else SumSquares(g[..|g| - 1]) + g[|g| - 1] * g[|g| - 1]
  }

  /** `Σ (g[j] - m)²`, the sum of squared deviations from m. */
  function SquaredDeviations(g: seq<int>, m: real): real
  {
    if g == [] then 0.0
    else SquaredDeviations(g[..|g| - 1], m) + (g[|g| - 1] as real - m) * (g[|g| - 1] as real - m)
  }

  /** `np.mean(gray)`; None for an empty image, where numpy yields NaN. */
  function Mean(g: seq<int>): (r: Option<real>)
    ensures r.Some? <==> |g| > 0
    ensures r.Some? ==> r.value * |g| as real == Sum(g) as real
  {
    if |g| == 0 then None else Some(Sum(g) as real / |g| as real)
  }

  /** `np.std(gray) ** 2`, the population variance; None for an empty image. */
  function Variance(g: seq<int>): (r: Option<real>)
    ensures r.Some? <==> |g| > 0
  {
    if |g| == 0 then None
    else Some(SquaredDeviations(g, Sum(g) as real / |g| as real) / |g| as real)
  }

  /**
   * `_is_black_or_low_contrast`: mean below 15, or standard deviation below
   * 10, which for a non-negative deviation is variance below 100.  On an
   * empty image both statistics are NaN and both comparisons fail.
   */
  predicate IsBlackOrLowContrast(g: seq<int>)
  {
    match Mean(g)
    case None => false
    case Some(m) => m < 15.0 || Variance(g).value < 100.0
  }

  lemma {:induction false} SquaredDeviationsExpand(g: seq<int>, m: real)
    ensures SquaredDeviations(g, m) == SumSquares(g) as real - 2.0 * m * Sum(g) as real + |g| as real * m * m
  {
    if g != [] {
      SquaredDeviationsExpand(g[..|g| - 1], m);
    }
  }

  /** The integer criterion over the pixel count n, sum S and sum of squares Q. */
  predicate DegenerateByCounts(n: int, s: int, q: int)
  {
    n > 0 && (s < 15 * n || LowSpread(n, s, q))
  }

  predicate LowSpread(n: int, s: int, q: int)
  {
    n * q - s * s < 100 * n * n
  }

  predicate LowSpreadReal(n: real, s: real, q: real)
  {
    n * q - s * s < 100.0 * n * n
  }

  /**
   * The check in exact integer arithmetic: with n pixels of sum S and sum of
   * squares Q, a frame is anomalous iff `S < 15n` or `n·Q − S² < 100n²`.
   */
  lemma {:induction false} IntegerForm(g: seq<int>)
    ensures IsBlackOrLowContrast(g) <==> DegenerateByCounts(|g|, Sum(g), SumSquares(g))
  {
    if |g| > 0 {
      MeanClosedForm(g);
      VarianceClosedForm(g);
      CastLowSpread(|g|, Sum(g), SumSquares(g));
    }
  }

  lemma {:induction false} MeanClosedForm(g: seq<int>)
    requires |g| > 0
    ensures Mean(g).value < 15.0 <==> Sum(g) < 15 * |g|
  {
    DivLess(Sum(g) as real, |g| as real, 15.0);
  }

  lemma {:induction false} VarianceClosedForm(g: seq<int>)
    requires |g| > 0
    ensures Variance(g).value < 100.0 <==> LowSpreadReal(|g| as real, Sum(g) as real, SumSquares(g) as real)
  {
    var n, s, q := |g| as real, Sum(g) as real, SumSquares(g) as real;
    var sd := SquaredDeviations(g, s / n);
    assert Variance(g) == Some(sd / n);
    assert sd == q - s * s / n by { SquaredDeviationsAtMean(g); }
    VarianceReal(n, s, q, sd);
  }

  lemma {:induction false} VarianceReal(n: real, s: real, q: real, sd: real)
    requires n > 0.0 && sd == q - s * s / n
    ensures sd / n < 100.0 <==> LowSpreadReal(n, s, q)
  {
    DivLess(sd, n, 100.0);
    ScaleLess(sd, n, 100.0 * n);
    CancelDiv(s * s, n);
    assert n * sd == n * q - s * s;
  }

  lemma {:induction false} CastLowSpread(n: int, s: int, q: int)
    ensures LowSpread(n, s, q) <==> LowSpreadReal(n as real, s as real, q as real)
  {
    assert (n * q) as real == n as real * q as real;
    assert (s * s) as real == s as real * s as real;
    assert (100 * n * n) as real == 100.0 * n as real * n as real;
  }

  lemma {:induction false} SquaredDeviationsAtMean(g: seq<int>)
    requires |g| > 0
    ensures SquaredDeviations(g, Sum(g) as real / |g| as real)
         == SumSquares(g) as real - Sum(g) as real * Sum(g) as real / |g| as real
  {
    var n, s, q := |g| as real, Sum(g) as real, SumSquares(g) as real;
    var m := s / n;
    SquaredDeviationsExpand(g, m);
    DeviationsClosedForm(n, s, q, m, SquaredDeviations(g, m));
  }

  lemma {:induction false} DeviationsClosedForm(n: real, s: real, q: real, m: real, sd: real)
    requires n > 0.0 && m == s / n
    requires sd == q - 2.0 * m * s + n * m * m
    ensures sd == q - s * s / n
  {
    CancelDiv(s, n);
    assert n * m == s;
    assert n * m * m == s * m;
    assert m * s == s * s / n;
  }

  lemma CancelDiv(x: real, d: real)
    requires d > 0.0
    ensures d * (x / d) == x
  {}

  lemma {:induction false} DivLess(x: real, d: real, c: real)
    requires d > 0.0
    ensures x / d < c <==> x < c * d
  {
    var y := x / d;
    CancelDiv(x, d);
    if y < c {
      assert d * y < d * c;
    } else {
      assert d * y >= d * c;
    }
  }

  lemma {:induction false} ScaleLess(x: real, d: real, c: real)
    requires d > 0.0
    ensures x < c <==> d * x < d * c
  {
    if x < c {
      assert d * (c - x) > 0.0;
    } else {
      assert d * (x - c) >= 0.0;
    }
  }

  /** Scenario: an all-black frame and a uniform mid-gray frame are anomalous; a two-tone frame is not. */
  lemma {:induction false} Scenarios()
    ensures IsBlackOrLowContrast([0, 0, 0, 0])
    ensures IsBlackOrLowContrast([128, 128, 128, 128])
    ensures !IsBlackOrLowContrast([0, 200, 0, 200])
    ensures !IsBlackOrLowContrast([])
  {
    IntegerForm([0, 0, 0, 0]);
    assert [0, 0, 0, 0][..3] == [0, 0, 0];
    assert [0, 0, 0][..2] == [0, 0];
    assert [0, 0][..1] == [0];
    IntegerForm([128, 128, 128, 128]);
    IntegerForm([0, 200, 0, 200]);
    assert [0, 200, 0, 200][..3] == [0, 200, 0];
    assert [0, 200, 0][..2] == [0, 200];
    assert [0, 200][..1] == [0];
    assert [128, 128, 128, 128][..3] == [128, 128, 128];
    assert [128, 128, 128][..2] == [128, 128];
    assert [128, 128][..1] == [128];
  }
}
