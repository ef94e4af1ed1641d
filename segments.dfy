/**
 * The two-state suspicious-segment scan that the video adapter, the
 * frame-scoring script and the score-fusion script each contain.  A run
 * opens at the first value at or above the threshold, closes just before
 * the first later value below it, and a run still open after the last
 * value closes there.  A run is reported iff the timestamps of its first and
 * last frame lie at least `minDur` apart.
 *
 * Runs are index pairs `[start, end]` (both inclusive); each script then
 * turns them into its own record.
 */
module Segments {

  datatype Run = Run(start: nat, end: nat)

  /** `r` is a maximal stretch of values at or above the threshold. */
  ghost predicate IsRun(v: seq<real>, thr: real, r: Run) {
    r.start <= r.end < |v| &&
    (forall k :: r.start <= k <= r.end ==> v[k] >= thr) &&
    (r.start == 0 || v[r.start - 1] < thr) &&
    (r.end == |v| - 1 || v[r.end + 1] < thr)
  }

  /** The run lasts at least `minDur` seconds, measured between its first and last timestamps. */
  predicate LongEnough(ts: seq<real>, minDur: real, r: Run)
    requires r.start <= r.end < |ts|
  {
    ts[r.end] - ts[r.start] >= minDur
  }

  ghost predicate Reported(v: seq<real>, ts: seq<real>, thr: real, minDur: real, r: Run)
    requires |ts| == |v|
  {
    IsRun(v, thr, r) && LongEnough(ts, minDur, r)
  }

  /** Runs in increasing order, separated by at least one frame below the threshold. */
  ghost predicate Ordered(out: seq<Run>) {
    forall a, b :: 0 <= a < b < |out| ==> out[a].end + 1 < out[b].start
  }

  /** The segment list is exactly the reported runs, in order. */
  ghost predicate SegmentsSpec(v: seq<real>, ts: seq<real>, thr: real, minDur: real, out: seq<Run>)
    requires |ts| == |v|
  {
    (forall a :: 0 <= a < |out| ==> Reported(v, ts, thr, minDur, out[a])) &&
    Ordered(out) &&
    (forall r :: Reported(v, ts, thr, minDur, r) ==> r in out)
  }

  /** Two runs that end at the same index start at the same index. */
  lemma RunStartUnique(v: seq<real>, thr: real, r1: Run, r2: Run)
    requires IsRun(v, thr, r1) && IsRun(v, thr, r2) && r1.end == r2.end
    ensures r1 == r2
  {
  }

  /**
   * The scan shared by the three pipelines: `v` are the (smoothed) scores,
   * `ts` their timestamps.
   */
  method FindRuns(v: seq<real>, ts: seq<real>, thr: real, minDur: real) returns (out: seq<Run>)
    requires |ts| == |v|
    ensures SegmentsSpec(v, ts, thr, minDur, out)
  {
    out := [];
    var inSeg := false;
    var segStart := 0;
    var i := 0;
    while i < |v|
      invariant i <= |v| && Scanned(v, ts, thr, minDur, i, inSeg, segStart, out)
    {
      inSeg, segStart, out := ScanScore(v, ts, thr, minDur, i, inSeg, segStart, out);
      i := i + 1;
    }
    out := CloseLast(v, ts, thr, minDur, inSeg, segStart, out);
  }

  /**
   * The scan after the first i scores: the open run (if any) starts at
   * `segStart` after a score below the threshold, and `out` holds, in
   * order, exactly the reported runs that closed before score i − 1.
   */
  ghost predicate Scanned(v: seq<real>, ts: seq<real>, thr: real, minDur: real,
                          i: nat, inSeg: bool, segStart: nat, out: seq<Run>)
    requires |ts| == |v| && i <= |v|
  {
    (inSeg ==> segStart < i && (segStart == 0 || v[segStart - 1] < thr)) &&
    (inSeg ==> forall k :: segStart <= k < i ==> v[k] >= thr) &&
    (inSeg ==> forall a :: 0 <= a < |out| ==> out[a].end + 1 < segStart) &&
    (!inSeg ==> i == 0 || v[i - 1] < thr) &&
    (forall a :: 0 <= a < |out| ==> Reported(v, ts, thr, minDur, out[a]) && out[a].end + 1 < i) &&
    Ordered(out) &&
    (forall r :: Reported(v, ts, thr, minDur, r) && r.end + 1 < i ==> r in out)
  }

  /** One score of the scan: a run opens at a score reaching the threshold and closes at one below it. */
  method ScanScore(v: seq<real>, ts: seq<real>, thr: real, minDur: real,
                   i: nat, inSeg: bool, segStart: nat, out: seq<Run>)
    returns (inSeg': bool, segStart': nat, out': seq<Run>)
    requires |ts| == |v| && i < |v| && Scanned(v, ts, thr, minDur, i, inSeg, segStart, out)
    ensures Scanned(v, ts, thr, minDur, i + 1, inSeg', segStart', out')
  {
    inSeg', segStart', out' := inSeg, segStart, out;
    if !inSeg && v[i] >= thr {
      inSeg' := true;
      segStart' := i;
    } else if inSeg && v[i] < thr {
      inSeg' := false;
      var r := Run(segStart, i - 1);
      assert IsRun(v, thr, r);
      forall r' | Reported(v, ts, thr, minDur, r') && r'.end == i - 1 ensures r' == r {
        RunStartUnique(v, thr, r', r);
      }
      if ts[i - 1] - ts[segStart] >= minDur {
        out' := out + [r];
      }
    }
  }

  /** After the last score, a run still open ends there and is reported if it lasts long enough. */
  method CloseLast(v: seq<real>, ts: seq<real>, thr: real, minDur: real, inSeg: bool, segStart: nat, out: seq<Run>)
    returns (out': seq<Run>)
    requires |ts| == |v| && Scanned(v, ts, thr, minDur, |v|, inSeg, segStart, out)
    ensures SegmentsSpec(v, ts, thr, minDur, out')
  {
    out' := out;
    if inSeg {
      var r := Run(segStart, |v| - 1);
      assert IsRun(v, thr, r);
      forall r' | Reported(v, ts, thr, minDur, r') && r'.end == |v| - 1 ensures r' == r {
        RunStartUnique(v, thr, r', r);
      }
      if ts[|v| - 1] - ts[segStart] >= minDur {
        out' := out + [r];
      }
    }
  }

  // ---------------------------------------------------------------------------
  // The specification fixes the result: the scan is a pure function of its inputs.

  ghost predicate StartsIncrease(s: seq<Run>) {
    forall a, b :: 0 <= a < b < |s| ==> s[a].start < s[b].start
  }

  lemma HeadIn(s: seq<Run>)
    requires s != []
    ensures s[0] in s
  {}

  lemma {:induction false} SameElementsSameSeq(s1: seq<Run>, s2: seq<Run>)
    requires StartsIncrease(s1) && StartsIncrease(s2)
    requires forall r :: r in s1 <==> r in s2
    ensures s1 == s2
    decreases |s1|
  {
    if s1 == [] {
      if s2 != [] {
        HeadIn(s2);
        assert false;
      }
    } else {
      assert s2 != [] by { assert s1[0] in s2; }
      assert s1[0] == s2[0] by {
        assert s1[0] in s2;
        assert s2[0] in s1;
      }
      forall r ensures r in s1[1..] <==> r in s2[1..] {
        if r in s1[1..] {
          var a :| 0 <= a < |s1[1..]| && s1[1..][a] == r;
          assert r != s1[0] by { assert s1[a + 1].start > s1[0].start; }
          assert r in s2;
          var b :| 0 <= b < |s2| && s2[b] == r;
          assert b != 0;
          assert s2[1..][b - 1] == r;
        }
        if r in s2[1..] {
          var b :| 0 <= b < |s2[1..]| && s2[1..][b] == r;
          assert r != s2[0] by { assert s2[b + 1].start > s2[0].start; }
          assert r in s1;
          var a :| 0 <= a < |s1| && s1[a] == r;
          assert a != 0;
          assert s1[1..][a - 1] == r;
        }
      }
      SameElementsSameSeq(s1[1..], s2[1..]);
    }
  }

  /** Any two lists meeting the specification are equal, so FindRuns is deterministic. */
  lemma {:induction false} SpecDeterminesSegments(v: seq<real>, ts: seq<real>, thr: real, minDur: real, out1: seq<Run>, out2: seq<Run>)
    requires |ts| == |v|
    requires SegmentsSpec(v, ts, thr, minDur, out1) && SegmentsSpec(v, ts, thr, minDur, out2)
    ensures out1 == out2
  {
    forall r ensures r in out1 <==> r in out2 {
      if r in out1 {
        var a :| 0 <= a < |out1| && out1[a] == r;
        assert Reported(v, ts, thr, minDur, r);
      }
      if r in out2 {
        var a :| 0 <= a < |out2| && out2[a] == r;
        assert Reported(v, ts, thr, minDur, r);
      }
    }
    SameElementsSameSeq(out1, out2);
  }

  /** With a positive minimum duration, a crossing of a single frame is never reported. */
  lemma {:induction false} SingleFrameNeverReported(v: seq<real>, ts: seq<real>, thr: real, minDur: real, out: seq<Run>, a: nat)
    requires |ts| == |v|
    requires minDur > 0.0
    requires SegmentsSpec(v, ts, thr, minDur, out)
    requires a < |out|
    ensures out[a].start < out[a].end
  {
    assert Reported(v, ts, thr, minDur, out[a]);
  }

  /** Every run lies within the first n frames. */
  predicate RunsWithin(runs: seq<Run>, n: nat) {
    forall a :: 0 <= a < |runs| ==> runs[a].start <= runs[a].end < n
  }

  /** The reported runs lie within the series. */
  lemma {:induction false} ReportedRunsWithin(v: seq<real>, ts: seq<real>, thr: real, minDur: real, out: seq<Run>)
    requires |ts| == |v| && SegmentsSpec(v, ts, thr, minDur, out)
    ensures RunsWithin(out, |v|)
  {
    forall a | 0 <= a < |out| ensures out[a].start <= out[a].end < |v| {
      assert Reported(v, ts, thr, minDur, out[a]);
    }
  }

  // ---------------------------------------------------------------------------
  // Segments in seconds.

  /** `[ts[start], ts[end]]` for every run, as the scripts emit them. */
  function TimePairs(ts: seq<real>, runs: seq<Run>): (r: seq<(real, real)>)
    requires forall a :: 0 <= a < |runs| ==> runs[a].start <= runs[a].end < |ts|
    ensures |r| == |runs|
    ensures forall a :: 0 <= a < |r| ==> r[a] == (ts[runs[a].start], ts[runs[a].end])
  {
    if runs == [] then []
    else [(ts[runs[0].start], ts[runs[0].end])] + TimePairs(ts, runs[1..])
  }

  /**
   * The scan as the scripts report it: `[start_ts, end_ts]` of every
   * reported run, in order (`find_suspicious_segments`, `find_segments`).
   */
  method SegmentTimes(v: seq<real>, ts: seq<real>, thr: real, minDur: real)
    returns (segments: seq<(real, real)>, runs: seq<Run>)
    requires |ts| == |v|
    ensures SegmentsSpec(v, ts, thr, minDur, runs)
    ensures RunsWithin(runs, |v|)
    ensures segments == TimePairs(ts, runs)
  {
    runs := FindRuns(v, ts, thr, minDur);
    ReportedRunsWithin(v, ts, thr, minDur, runs);
    segments := [];
    for a := 0 to |runs|
      invariant segments == TimePairs(ts, runs[..a])
    {
      segments := segments + [(ts[runs[a].start], ts[runs[a].end])];
    }
    assert runs[..|runs|] == runs;
  }

  ghost predicate StrictlyIncreasing(ts: seq<real>) {
    forall a, b :: 0 <= a < b < |ts| ==> ts[a] < ts[b]
  }

  /**
   * Over strictly increasing timestamps the segments in seconds are
   * increasing and pairwise disjoint, and each one spans at least `minDur`.
   */
  lemma {:induction false} TimePairsOrdered(v: seq<real>, ts: seq<real>, thr: real, minDur: real, out: seq<Run>)
    requires |ts| == |v|
    requires StrictlyIncreasing(ts)
    requires SegmentsSpec(v, ts, thr, minDur, out)
    ensures forall a :: 0 <= a < |out| ==> out[a].start <= out[a].end < |ts|
    ensures forall a :: 0 <= a < |out| ==> TimePairs(ts, out)[a].1 - TimePairs(ts, out)[a].0 >= minDur
    ensures forall a, b :: 0 <= a < b < |out| ==> TimePairs(ts, out)[a].1 < TimePairs(ts, out)[b].0
  {
    forall a | 0 <= a < |out| ensures out[a].start <= out[a].end < |ts| {
      assert Reported(v, ts, thr, minDur, out[a]);
    }
    var p := TimePairs(ts, out);
    forall a | 0 <= a < |out| ensures p[a].1 - p[a].0 >= minDur {
      assert Reported(v, ts, thr, minDur, out[a]);
    }
    forall a, b | 0 <= a < b < |out| ensures p[a].1 < p[b].0 {
      assert out[a].end < out[b].start;
    }
  }
}
