/**
 * Frame sampling shared by the video adapter and the frame-scoring script:
 * the step between scored source frames, Python's `round` (half to even),
 * and which decoded frames are scored.
 */
module Sampling {

  import opened Wrappers

  /** Python's built-in `round(x)`: nearest integer, ties to the even one. */
  function RoundHalfEven(x: real): (r: int)
    ensures -1.0 / 2.0 <= r as real - x <= 1.0 / 2.0
    ensures r as real - x == 1.0 / 2.0 || x - r as real == 1.0 / 2.0 ==> r % 2 == 0
  {
    var f := x.Floor;
    var d := x - f as real;
    if d < 1.0 / 2.0 then f
    else if d > 1.0 / 2.0 then f + 1
    else if f % 2 == 0 then f
    else f + 1
  }

  /** The contract of RoundHalfEven pins its result down: no other integer satisfies it. */
  lemma RoundHalfEvenUnique(x: real, r: int)
    requires -1.0 / 2.0 <= r as real - x <= 1.0 / 2.0
    requires r as real - x == 1.0 / 2.0 || x - r as real == 1.0 / 2.0 ==> r % 2 == 0
    ensures r == RoundHalfEven(x)
  {
  }

  /** Python's `int(x)` on a float: truncation toward zero. */
  function Trunc(x: real): (r: int)
    ensures x >= 0.0 ==> r == x.Floor
    ensures x < 0.0 ==> r == -((-x).Floor)
    ensures -1.0 < x - r as real < 1.0
    ensures x >= 0.0 ==> 0 <= r && r as real <= x
    ensures x < 0.0 ==> r <= 0 && x <= r as real
  {
    if x >= 0.0 then x.Floor else -((-x).Floor)
  }

  /** The source frame rate as used: a reported rate of 0 counts as 25 frames per second. */
  function EffectiveSourceFps(srcFps: real): (r: real)
    ensures srcFps != 0.0 ==> r == srcFps
    ensures srcFps == 0.0 ==> r == 25.0
  {
    if srcFps == 0.0 then 25.0 else srcFps
  }

  /**
   * `max(int(round(source_fps / fps)), 1)`, with `source_fps or 25.0`.
   * A target rate of 0 is a division by zero in the source: None.
   */
  function FrameStep(srcFps: real, fps: real): (r: Option<nat>)
    ensures r.None? <==> fps == 0.0
    ensures r.Some? ==> r.value >= 1
    ensures r.Some? && RoundHalfEven(EffectiveSourceFps(srcFps) / fps) >= 1 ==>
              r.value == RoundHalfEven(EffectiveSourceFps(srcFps) / fps)
    ensures r.Some? && RoundHalfEven(EffectiveSourceFps(srcFps) / fps) < 1 ==> r.value == 1
  {
    if fps == 0.0 then None
    else
      var k := RoundHalfEven(EffectiveSourceFps(srcFps) / fps);
      Some(if k < 1 then 1 else k)
  }

  /** The source indices that are scored, in order: 0, step, 2·step, … below n. */
  function SampledIndices(n: nat, step: nat): (r: seq<nat>)
    requires step >= 1
  {
    seq(CeilDiv(n, step), k => k * step)
  }

  /** ⌈n / d⌉. */
  function CeilDiv(n: nat, d: nat): (r: nat)
    requires d >= 1
    ensures r * d >= n
    ensures r == 0 || (r - 1) * d < n
  {
    (n + d - 1) / d
  }

  /** A decoded frame is scored iff its index is a multiple of the step. */
  lemma {:induction false} SampledIndicesExact(n: nat, step: nat, i: nat)
    requires step >= 1
    ensures i in SampledIndices(n, step) <==> i < n && i % step == 0
  {
    var s := SampledIndices(n, step);
    if i < n && i % step == 0 {
      var k := i / step;
      assert k * step == i;
      assert k < CeilDiv(n, step) by {
        if k >= CeilDiv(n, step) {
          MulMono(CeilDiv(n, step), k, step);
        }
      }
      assert s[k] == i;
    }
    if i in s {
      var k :| 0 <= k < |s| && s[k] == i;
      assert k * step < n by {
        if k * step >= n {
          MulMono(k, CeilDiv(n, step) - 1, step);
        }
      }
      ModMultiple(k, step);
    }
  }

  lemma MulMono(a: nat, b: nat, c: nat)
    requires a <= b
    ensures a * c <= b * c
  {}

  lemma {:induction false} ModMultiple(k: nat, step: nat)
    requires step >= 1
    ensures (k * step) % step == 0
  {
    DivModUnique(k * step, step, k, 0);
  }

  /** Quotient and remainder are unique: `i == q·d + r` with `0 <= r < d` fixes `i / d` and `i % d`. */
  lemma {:induction false} DivModUnique(i: int, d: int, q: int, r: int)
    requires d >= 1 && 0 <= r < d && i == q * d + r
    ensures i / d == q && i % d == r
  {
    var q0, r0 := i / d, i % d;
    assert (q - q0) * d == r0 - r;
    if q - q0 >= 1 {
      MulMono(1, q - q0, d);
    } else if q0 - q >= 1 {
      MulMono(1, q0 - q, d);
    }
  }

  /**
   * Advancing over one decoded frame: the scored count grows by one exactly
   * when the frame's index is a multiple of the step, and that frame is the
   * one at position `count · step`.
   */
  lemma {:induction false} CeilDivStep(i: nat, step: nat)
    requires step >= 1
    ensures i % step == 0 ==> CeilDiv(i, step) * step == i && CeilDiv(i + 1, step) == CeilDiv(i, step) + 1
    ensures i % step != 0 ==> CeilDiv(i + 1, step) == CeilDiv(i, step)
  {
    var q, r := i / step, i % step;
    assert i == q * step + r;
    assert (q + 1) * step == q * step + step;
    if r == 0 {
      DivModUnique(i + step - 1, step, q, step - 1);
      DivModUnique(i + step, step, q + 1, 0);
    } else {
      DivModUnique(i + step - 1, step, q + 1, r - 1);
      DivModUnique(i + step, step, q + 1, r);
    }
  }

  /** How many of the first i decoded frames are scored, counted one frame at a time as the loop does. */
  function ScoredBefore(i: nat, step: nat): (r: nat)
    requires step >= 1
    ensures r <= i
  {
    if i == 0 then 0 else ScoredBefore(i - 1, step) + (if (i - 1) % step == 0 then 1 else 0)
  }

  /** The running count agrees with the closed form ⌈i / step⌉. */
  lemma {:induction false} ScoredBeforeIsCeilDiv(i: nat, step: nat)
    requires step >= 1
    ensures ScoredBefore(i, step) == CeilDiv(i, step)
  {
    if i == 0 {
      DivModUnique(step - 1, step, 0, step - 1);
    } else {
      ScoredBeforeIsCeilDiv(i - 1, step);
      CeilDivStep(i - 1, step);
    }
  }

  /** ⌈a / d⌉ grows with a. */
  lemma {:induction false} CeilDivMono(a: nat, b: nat, d: nat)
    requires d >= 1 && a <= b
    ensures CeilDiv(a, d) <= CeilDiv(b, d)
  {
    DivMono(a + d - 1, b + d - 1, d);
  }

  lemma {:induction false} DivMono(a: nat, b: nat, d: nat)
    requires d >= 1 && a <= b
    ensures a / d <= b / d
  {
    if a / d > b / d {
      MulMono(b / d + 1, a / d, d);
    }
  }

  /** A number below c·d has a quotient by d below c. */
  lemma {:induction false} DivBelow(a: nat, d: nat, c: nat)
    requires d >= 1 && a < c * d
    ensures a / d < c
  {
    if a / d >= c {
      MulMono(c, a / d, d);
    }
  }

  /** The k-th scored frame exists: `k < ⌈n / step⌉` puts `k · step` below n. */
  lemma {:induction false} ScoredInRange(k: nat, n: nat, step: nat)
    requires step >= 1 && k < CeilDiv(n, step)
    ensures k * step < n
  {
    MulMono(k, CeilDiv(n, step) - 1, step);
  }

  /** The frames kept when every `step`-th one is scored: positions 0, step, 2·step, … */
  function Subsample<T>(xs: seq<T>, step: nat): (r: seq<T>)
    requires step >= 1
    ensures |r| == CeilDiv(|xs|, step)
    decreases |xs|
  {
    if xs == [] then
      DivModUnique(step - 1, step, 0, step - 1);
      []
    else
      CeilDivDrop(|xs|, step);
      [xs[0]] + Subsample(xs[if step <= |xs| then step else |xs|..], step)
  }

  /** Dropping the first `step` frames removes exactly one sampled frame. */
  lemma {:induction false} CeilDivDrop(n: nat, step: nat)
    requires step >= 1 && n > 0
    ensures CeilDiv(n, step) == 1 + CeilDiv(if step <= n then n - step else 0, step)
  {
    DivModUnique(step - 1, step, 0, step - 1);
    if step <= n {
      var q, r := (n - 1) / step, (n - 1) % step;
      DivModUnique(n - 1, step, q, r);
      DivModUnique(n + step - 1, step, q + 1, r);
    } else {
      DivModUnique(n + step - 1, step, 1, n - 1);
    }
  }

  /** The k-th kept frame is the one at position `k · step`. */
  lemma {:induction false} SubsampleAt<T>(xs: seq<T>, step: nat, k: nat)
    requires step >= 1 && k < CeilDiv(|xs|, step)
    ensures k * step < |xs| && Subsample(xs, step)[k] == xs[k * step]
    decreases k
  {
    ScoredInRange(k, |xs|, step);
    if k > 0 {
      DropOneStep(|xs|, step, k);
      SubsampleAt(xs[step..], step, k - 1);
      ShiftArith(k, step, |xs|);
      ShiftIndex(xs, step, k, k * step);
    }
  }

  /** Sampled frame k > 0 is sampled frame k − 1 of the frames after the first step. */
  lemma DropOneStep(n: nat, step: nat, k: nat)
    requires step >= 1 && 0 < k < CeilDiv(n, step)
    ensures step <= n && k - 1 < CeilDiv(n - step, step)
  {
    CeilDivDrop(n, step);
    DivModUnique(step - 1, step, 0, step - 1);
  }

  lemma ShiftIndex<T>(xs: seq<T>, step: nat, k: nat, i: nat)
    requires step >= 1 && 0 < k && step <= i < |xs|
    requires k - 1 < |Subsample(xs[step..], step)| && Subsample(xs[step..], step)[k - 1] == xs[step..][i - step]
    ensures Subsample(xs, step)[k] == xs[i]
  {
    SubsampleStep(xs, step);
  }

  lemma ShiftArith(k: nat, step: nat, n: nat)
    requires k > 0 && step >= 1 && step <= n && (k - 1) * step < n - step
    ensures step <= k * step < n && k * step - step == (k - 1) * step
  {
    assert k * step == (k - 1) * step + step;
  }

  /** Past the first kept frame, the sampled frames are those of the frames after the first step. */
  lemma SubsampleStep<T>(xs: seq<T>, step: nat)
    requires step >= 1 && step <= |xs|
    ensures Subsample(xs, step) == [xs[0]] + Subsample(xs[step..], step)
  {
  }

  /** `output_idx / fps`: the k-th scored frame is stamped on the target rate's clock. */
  function Timestamp(k: nat, fps: real): real
    requires fps != 0.0
  {
    k as real / fps
  }

  /** At a positive rate the stamps of later frames are strictly later, and stamps are never negative. */
  lemma {:induction false} TimestampsIncrease(a: nat, b: nat, fps: real)
    requires fps > 0.0
    ensures Timestamp(a, fps) >= 0.0
    ensures a < b ==> Timestamp(a, fps) < Timestamp(b, fps)
  {
    if a < b {
      assert Timestamp(b, fps) - Timestamp(a, fps) == (b - a) as real / fps;
    }
  }

  /** The scored indices increase strictly: scores come out in temporal order. */
  lemma {:induction false} SampledIndicesIncreasing(n: nat, step: nat, a: nat, b: nat)
    requires step >= 1
    requires a < b < |SampledIndices(n, step)|
    ensures SampledIndices(n, step)[a] < SampledIndices(n, step)[b]
  {
    MulMono(a + 1, b, step);
  }

  /** Scenario: a 30 frames-per-second source sampled at 3 per second keeps every 10th frame. */
  lemma {:induction false} ThirtyAtThree()
    ensures FrameStep(30.0, 3.0) == Some(10)
    ensures FrameStep(0.0, 3.0) == Some(8)
    ensures FrameStep(25.0, 10.0) == Some(2)
  {
    assert RoundHalfEven(30.0 / 3.0) == 10;
    assert (25.0 / 3.0).Floor == 8;
    assert (25.0 / 10.0).Floor == 2;
  }
}
