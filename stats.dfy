/**
 * The numpy reductions the pipelines apply to score lists: `np.sum`,
 * `np.mean`, `np.min`, `np.max` and `np.argmax` (first index of the
 * maximum).
 */
module Stats {

  function Total(xs: seq<real>): real
  {
    if xs == [] then 0.0 else Total(xs[..|xs| - 1]) + xs[|xs| - 1]
  }

  /** `np.mean`; numpy's NaN for an empty list is excluded by the precondition. */
  function Mean(xs: seq<real>): (m: real)
    requires |xs| > 0
    ensures m * |xs| as real == Total(xs)
  {
    Total(xs) / |xs| as real
  }

  /** `np.max`: an element of the list that no element exceeds. */
  function Max(xs: seq<real>): (m: real)
    requires |xs| > 0
    ensures forall i :: 0 <= i < |xs| ==> xs[i] <= m
    ensures exists i :: 0 <= i < |xs| && xs[i] == m
  {
    if |xs| == 1 then xs[0]
    else
      var m' := Max(xs[..|xs| - 1]);
      if xs[|xs| - 1] > m' then xs[|xs| - 1] else m'
  }

  /** `np.min`, `min(...)` and `Math.min(...xs)` of a non-empty list: an element no element undercuts. */
  function Min(xs: seq<real>): (m: real)
    requires |xs| > 0
    ensures forall i :: 0 <= i < |xs| ==> m <= xs[i]
    ensures m in xs
  {
    if |xs| == 1 then xs[0]
    else
      var m' := Min(xs[..|xs| - 1]);
      if xs[|xs| - 1] < m' then xs[|xs| - 1] else m'
  }

  /** `np.argmax`: the first index holding the maximum. */
  function FirstArgMax(xs: seq<real>): (k: nat)
    requires |xs| > 0
    ensures k < |xs|
    ensures forall i :: 0 <= i < |xs| ==> xs[i] <= xs[k]
    ensures forall i :: 0 <= i < k ==> xs[i] < xs[k]
  {
    if |xs| == 1 then 0
    else
      var k' := FirstArgMax(xs[..|xs| - 1]);
      if xs[|xs| - 1] > xs[k'] then |xs| - 1 else k'
  }

  lemma {:induction false} TotalUpper(xs: seq<real>, hi: real)
    requires forall i :: 0 <= i < |xs| ==> xs[i] <= hi
    ensures Total(xs) <= hi * |xs| as real
  {
    if xs != [] {
      TotalUpper(xs[..|xs| - 1], hi);
    }
  }

  lemma {:induction false} TotalLower(xs: seq<real>, lo: real)
    requires forall i :: 0 <= i < |xs| ==> lo <= xs[i]
    ensures lo * |xs| as real <= Total(xs)
  {
    if xs != [] {
      TotalLower(xs[..|xs| - 1], lo);
    }
  }

  /** A mean lies within any bounds that hold for every element. */
  lemma {:induction false} MeanWithin(xs: seq<real>, lo: real, hi: real)
    requires |xs| > 0
    requires forall i :: 0 <= i < |xs| ==> lo <= xs[i] <= hi
    ensures lo <= Mean(xs) <= hi
  {
    var n := |xs| as real;
    TotalUpper(xs, hi);
    TotalLower(xs, lo);
    CancelScale(Mean(xs), hi, n);
    CancelScale(lo, Mean(xs), n);
  }

  lemma {:induction false} CancelScale(a: real, b: real, n: real)
    requires n > 0.0 && a * n <= b * n
    ensures a <= b
  {
    assert a * n - b * n == (a - b) * n;
  }

  /** The mean never exceeds the maximum. */
  lemma {:induction false} MeanAtMostMax(xs: seq<real>)
    requires |xs| > 0
    ensures Mean(xs) <= Max(xs)
  {
    var m, n, t := Max(xs), |xs| as real, Total(xs);
    TotalUpper(xs, m);
    assert Mean(xs) * n == t;
    assert t <= m * n;
    CancelScale(Mean(xs), m, n);
  }

  /** Dividing by a positive number keeps the order. */
  lemma DivideMonotone(u: real, v: real, d: real)
    requires d > 0.0 && u <= v
    ensures u / d <= v / d
  {
  }
}
