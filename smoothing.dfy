/**
 * Moving-average smoothing as numpy computes it:
 * `np.convolve(s, np.ones(W) / W, mode='same')`.  The signal is zero-padded,
 * so the window at position i covers source indices
 * `[i + ⌊(W-1)/2⌋ - (W-1), i + ⌊(W-1)/2⌋]` clipped to `[0, n)`, always divided
 * by W, and the values near either edge are damped.  All three pipelines
 * leave a series shorter than the window untouched.
 */
module Smoothing {

  import opened Wrappers

  /** Sum of `s[j]` over the positions j of `s` with `lo <= j < hi`. */
  function WindowSum(s: seq<real>, lo: int, hi: int): real
  {
    if s == [] then 0.0
    else WindowSum(s[..|s| - 1], lo, hi) + (if lo <= |s| - 1 < hi then s[|s| - 1] else 0.0)
  }

  /** First source index of the window of output position i. */
  function WindowStart(i: int, w: nat): int
    requires w >= 1
  {
    i + (w - 1) / 2 - (w - 1)
  }

  datatype SmoothError = EmptyKernel | NegativeDimensions

  /**
   * `smooth_scores(scores, window_size)`: the input itself when shorter than
   * the window; otherwise numpy's 'same' moving average.  A window of 0 makes
   * numpy reject the empty kernel, a negative one the negative array size.
   */
  function Smooth(s: seq<real>, w: int): (r: Result<seq<real>, SmoothError>)
    ensures |s| < w ==> r == Ok(s)
    ensures r.Err? <==> w <= 0
    ensures r.Ok? ==> |r.value| == |s|
  {
    if |s| < w then Ok(s)
    else if w == 0 then Err(EmptyKernel)
    else if w < 0 then Err(NegativeDimensions)
    else Ok(seq(|s|, i requires 0 <= i < |s| => SmoothedAt(s, w, i)))
  }

  /** Output position i of the 'same' moving average. */
  function SmoothedAt(s: seq<real>, w: nat, i: int): real
    requires w >= 1
  {
    WindowSum(s, WindowStart(i, w), WindowStart(i, w) + w) / w as real
  }

  // ---------------------------------------------------------------------------
  // Reference definition: numpy's full convolution, then the centred slice.

  /** The kernel `np.ones(W) / W`, indexed by t (zero outside `[0, W)`). */
  function Kernel(w: nat, t: int): real
    requires w >= 1
  {
    if 0 <= t < w then 1.0 / w as real else 0.0
  }

  /** Full convolution at output index k: `Σ_j s[j] · kernel[k - j]`. */
  function FullConvolution(s: seq<real>, w: nat, k: int): real
    requires w >= 1
  {
    if s == [] then 0.0
    else FullConvolution(s[..|s| - 1], w, k) + s[|s| - 1] * Kernel(w, k - (|s| - 1))
  }

  /** The full convolution with the box kernel is the window sum divided by W. */
  lemma {:induction false} FullConvolutionIsWindow(s: seq<real>, w: nat, k: int)
    requires w >= 1
    ensures FullConvolution(s, w, k) == WindowSum(s, k - w + 1, k + 1) / w as real
  {
    if s != [] {
      FullConvolutionIsWindow(s[..|s| - 1], w, k);
    }
  }

  /**
   * numpy's mode 'same' keeps n entries of the full convolution starting at
   * offset ⌊(W-1)/2⌋; Smooth is exactly that slice.
   */
  lemma {:induction false} SmoothIsCentredConvolution(s: seq<real>, w: int, i: nat)
    requires 1 <= w <= |s| && i < |s|
    ensures Smooth(s, w).Ok?
    ensures Smooth(s, w).value[i] == FullConvolution(s, w, i + (w - 1) / 2)
  {
    assert Smooth(s, w).value[i] == SmoothedAt(s, w, i);
    FullConvolutionIsWindow(s, w, i + (w - 1) / 2);
  }

  // ---------------------------------------------------------------------------
  // Bounds: smoothing keeps probabilities probabilities.

  /** Number of positions of a length-n sequence inside `[lo, hi)`. */
  function Overlap(n: nat, lo: int, hi: int): nat
  {
    var a := if lo < 0 then 0 else lo;
    var b := if hi < n then hi else n;
    if a < b then b - a else 0
  }

  lemma {:induction false} WindowSumBounds(s: seq<real>, lo: int, hi: int, m: real)
    requires m >= 0.0
    requires forall j :: 0 <= j < |s| ==> 0.0 <= s[j] <= m
    ensures 0.0 <= WindowSum(s, lo, hi) <= Overlap(|s|, lo, hi) as real * m
  {
    if s != [] {
      WindowSumBounds(s[..|s| - 1], lo, hi, m);
    }
  }

  /** Values in `[0, m]` smooth to values in `[0, m]`: probabilities stay in [0, 1]. */
  lemma {:induction false} SmoothBounded(s: seq<real>, w: int, m: real)
    requires m >= 0.0
    requires forall j :: 0 <= j < |s| ==> 0.0 <= s[j] <= m
    ensures Smooth(s, w).Ok? ==> forall i :: 0 <= i < |s| ==> 0.0 <= Smooth(s, w).value[i] <= m
  {
    if 1 <= w <= |s| {
      forall i | 0 <= i < |s| ensures 0.0 <= Smooth(s, w).value[i] <= m {
        var lo := WindowStart(i, w);
        var x := WindowSum(s, lo, lo + w);
        assert Smooth(s, w).value[i] == x / w as real;
        WindowSumBounds(s, lo, lo + w, m);
        MeanBound(x, Overlap(|s|, lo, lo + w), w, m);
      }
    }
  }

  /** A sum of at most k ≤ W values in [0, m], divided by W, stays in [0, m]. */
  lemma {:induction false} MeanBound(x: real, k: nat, w: int, m: real)
    requires 1 <= w && k <= w && m >= 0.0 && 0.0 <= x <= k as real * m
    ensures 0.0 <= x / w as real <= m
  {
    var d := w as real;
    var y := d * m;
    assert k as real * m <= y by {
      assert (d - k as real) * m >= 0.0;
    }
    assert x / d <= y / d;
    assert y / d == m;
  }

  lemma OverlapStep(n: nat, lo: int, hi: int)
    ensures Overlap(n + 1, lo, hi) == Overlap(n, lo, hi) + (if lo <= n < hi then 1 else 0)
  {}

  lemma {:induction false} WindowSumConstant(s: seq<real>, lo: int, hi: int, c: real)
    requires forall j :: 0 <= j < |s| ==> s[j] == c
    ensures WindowSum(s, lo, hi) == Overlap(|s|, lo, hi) as real * c
  {
    if s != [] {
      WindowSumConstant(s[..|s| - 1], lo, hi, c);
      OverlapStep(|s| - 1, lo, hi);
    }
  }

  /** c scaled by the share k / W of a window that lies inside the series. */
  function Scaled(k: nat, c: real, w: int): real
    requires w >= 1
  {
    k as real * c / w as real
  }

  /** On a constant series each output is c scaled by the share of its window inside the series. */
  lemma {:induction false} SmoothConstant(s: seq<real>, w: int, c: real, i: nat)
    requires 1 <= w <= |s| && i < |s|
    requires forall j :: 0 <= j < |s| ==> s[j] == c
    ensures Smooth(s, w).Ok?
    ensures Smooth(s, w).value[i] == Scaled(Overlap(|s|, WindowStart(i, w), WindowStart(i, w) + w), c, w)
  {
    var lo := WindowStart(i, w);
    var sum := WindowSum(s, lo, lo + w);
    assert Smooth(s, w).value[i] == sum / w as real;
    WindowSumConstant(s, lo, lo + w, c);
    ConstantQuotient(Smooth(s, w).value[i], sum, Overlap(|s|, lo, lo + w), c, w);
  }

  lemma ConstantQuotient(v: real, sum: real, k: nat, c: real, w: int)
    requires w >= 1 && v == sum / w as real && sum == k as real * c
    ensures v == Scaled(k, c, w)
  {
  }

  /**
   * Zero padding damps the edges: on a constant series c the first output
   * is only `(⌊(W-1)/2⌋ + 1) / W` of c.
   */
  lemma {:induction false} EdgeDamped(s: seq<real>, w: int, c: real)
    requires 1 <= w <= |s|
    requires forall j :: 0 <= j < |s| ==> s[j] == c
    ensures Smooth(s, w).Ok?
    ensures Smooth(s, w).value[0] == Scaled((w - 1) / 2 + 1, c, w)
  {
    var h := (w - 1) / 2;
    assert 0 <= h <= w - 1;
    assert WindowStart(0, w) == h - (w - 1) <= 0;
    assert Overlap(|s|, h - (w - 1), h - (w - 1) + w) == h + 1;
    SmoothConstant(s, w, c, 0);
  }

  /** Positions whose whole window lies inside a constant series keep its value. */
  lemma {:induction false} InteriorKept(s: seq<real>, w: int, c: real, i: nat)
    requires 1 <= w <= |s| && i < |s|
    requires forall j :: 0 <= j < |s| ==> s[j] == c
    requires 0 <= WindowStart(i, w) && WindowStart(i, w) + w <= |s|
    ensures Smooth(s, w).Ok?
    ensures Smooth(s, w).value[i] == c
  {
    assert Overlap(|s|, WindowStart(i, w), WindowStart(i, w) + w) == w;
    SmoothConstant(s, w, c, i);
    WholeWindow(c, w);
  }

  lemma WholeWindow(c: real, w: int)
    requires w >= 1
    ensures Scaled(w, c, w) == c
  {}

  /** Scenario: five frames at probability 1 smooth to 0.6, 0.8, 1, 0.8, 0.6 with the window of 5. */
  lemma {:induction false} ConstantScenario()
    ensures Smooth([1.0, 1.0, 1.0, 1.0, 1.0], 5) == Ok([0.6, 0.8, 1.0, 0.8, 0.6])
  {
    var s := [1.0, 1.0, 1.0, 1.0, 1.0];
    forall i | 0 <= i < 5 ensures Smooth(s, 5).value[i] == [0.6, 0.8, 1.0, 0.8, 0.6][i] {
      SmoothConstant(s, 5, 1.0, i);
    }
    assert Smooth(s, 5).value == [0.6, 0.8, 1.0, 0.8, 0.6];
  }
}
