/**
 * The fusion script: frame-level scores are aligned with clip-level
 * (VideoMAE) scores by timestamp, blended with weight alpha, smoothed with a
 * configurable window, and scanned for suspicious segments.
 */
module FuseScores {

  import opened Wrappers
  import opened Strings
  import opened Smoothing
  import opened Segments
  import opened Stats

  // ---------------------------------------------------------------------------
  // Column detection in the clip file's header.

  datatype Role = StartColumn | EndColumn | ProbColumn | OtherColumn

  /** What a header name is taken for, by the `if`/`elif` chain of the scan. */
  function ColumnRole(col: string): Role
  {
    var l := Lower(col);
    if Find(l, "start").Some? || Find(l, "begin").Some? then StartColumn
    else if Find(l, "end").Some? then EndColumn
    else if Find(l, "prob").Some? || Find(l, "score").Some? then ProbColumn
    else OtherColumn
  }

  /**
   * The roles in terms of substrings of the lower-cased name: "start" or
   * "begin" wins over "end", which wins over "prob" or "score".
   */
  lemma ColumnRoleMeaning(col: string)
    ensures ColumnRole(col) == StartColumn <==> Contains(Lower(col), "start") || Contains(Lower(col), "begin")
    ensures ColumnRole(col) == EndColumn <==>
              !Contains(Lower(col), "start") && !Contains(Lower(col), "begin") && Contains(Lower(col), "end")
    ensures ColumnRole(col) == ProbColumn <==>
              !Contains(Lower(col), "start") && !Contains(Lower(col), "begin") && !Contains(Lower(col), "end") &&
              (Contains(Lower(col), "prob") || Contains(Lower(col), "score"))
  {
  }

  /** The position of the last column, in header order, taken for `role`. */
  function LastOfRole(cols: seq<string>, role: Role): (r: Option<nat>)
    ensures r.Some? ==> r.value < |cols| && ColumnRole(cols[r.value]) == role
    ensures r.Some? ==> forall j :: r.value < j < |cols| ==> ColumnRole(cols[j]) != role
    ensures r.None? <==> forall k :: 0 <= k < |cols| ==> ColumnRole(cols[k]) != role
  {
    LastIndex(Roles(cols), role)
  }

  /** The role of every column, in order. */
  function Roles(cols: seq<string>): (r: seq<Role>)
    ensures |r| == |cols| && forall k :: 0 <= k < |cols| ==> r[k] == ColumnRole(cols[k])
  {
    seq(|cols|, k requires 0 <= k < |cols| => ColumnRole(cols[k]))
  }

  /** The last position holding `x`, scanning from the end. */
  function LastIndex<T(==)>(xs: seq<T>, x: T): (r: Option<nat>)
    ensures r.Some? ==> r.value < |xs| && xs[r.value] == x
    ensures r.Some? ==> forall j :: r.value < j < |xs| ==> xs[j] != x
    ensures r.None? <==> forall k :: 0 <= k < |xs| ==> xs[k] != x
  {
    if xs == [] then None
    else if xs[|xs| - 1] == x then Some(|xs| - 1)
    else
      var r := LastIndex(xs[..|xs| - 1], x);
      assert forall k :: 0 <= k < |xs| - 1 ==> xs[..|xs| - 1][k] == xs[k];
      r
  }

  /** One more element seen: the last position of `x` is that element's if it holds `x`, else unchanged. */
  lemma {:induction false} LastIndexStep<T>(xs: seq<T>, x: T, i: nat)
    requires i < |xs|
    ensures LastIndex(xs[..i + 1], x) == if xs[i] == x then Some(i) else LastIndex(xs[..i], x)
  {
    var prefix := xs[..i + 1];
    assert prefix[|prefix| - 1] == xs[i];
    assert prefix[..|prefix| - 1] == xs[..i];
  }

  datatype Columns = Columns(start: string, end: string, prob: string)

  datatype ColumnError =
    | NoHeader           // an empty file: `fieldnames` is None and the scan raises TypeError
    | ColumnsNotFound    // ValueError("Cannot identify columns ...")

  /** The column scan of `load_videomae_scores`. */
  method DetectColumns(fieldnames: Option<seq<string>>) returns (r: Result<Columns, ColumnError>)
    ensures fieldnames.None? ==> r == Err(NoHeader)
    ensures fieldnames.Some? ==>
              var cols := fieldnames.value;
              (r.Ok? <==> LastOfRole(cols, StartColumn).Some? && LastOfRole(cols, EndColumn).Some? &&
                          LastOfRole(cols, ProbColumn).Some?) &&
              (r.Err? ==> r.error == ColumnsNotFound) &&
              (r.Ok? ==> r.value == Columns(cols[LastOfRole(cols, StartColumn).value], cols[LastOfRole(cols, EndColumn).value],
                                            cols[LastOfRole(cols, ProbColumn).value]))
  {
    if fieldnames.None? {
      return Err(NoHeader);
    }
    var cols := fieldnames.value;
    var startCol: Option<nat> := None;
    var endCol: Option<nat> := None;
    var probCol: Option<nat> := None;
    ghost var roles := Roles(cols);
    for i := 0 to |cols|
      invariant startCol == LastIndex(roles[..i], StartColumn)
      invariant endCol == LastIndex(roles[..i], EndColumn)
      invariant probCol == LastIndex(roles[..i], ProbColumn)
    {
      LastIndexStep(roles, StartColumn, i);
      LastIndexStep(roles, EndColumn, i);
      LastIndexStep(roles, ProbColumn, i);
      match ColumnRole(cols[i])
      case StartColumn => startCol := Some(i);
      case EndColumn => endCol := Some(i);
      case ProbColumn => probCol := Some(i);
      case OtherColumn =>
    }
    assert roles[..|cols|] == roles;
    if startCol.None? || endCol.None? || probCol.None? {
      return Err(ColumnsNotFound);
    }
    return Ok(Columns(cols[startCol.value], cols[endCol.value], cols[probCol.value]));
  }

  /**
   * A header name that contains "end" is never the probability column, even
   * when it also contains "score" or "prob": such a name hides the score
   * column unless another one follows it.
   */
  lemma {:induction false} EndShadowsScore(col: string)
    requires Contains(Lower(col), "end")
    ensures ColumnRole(col) != ProbColumn
  {
    ColumnRoleMeaning(col);
  }

  // ---------------------------------------------------------------------------
  // Alignment.

  /** A row of `scores.csv`: `(frame_idx, timestamp, prob_fake)`. */
  datatype FrameScore = FrameScore(frameIdx: int, timestamp: real, prob: real)

  /** A row of the clip file: `(start_time, end_time, prob_fake)`. */
  datatype Clip = Clip(start: real, end: real, prob: real)

  /** `(timestamp, frame_prob, videomae_prob)`. */
  datatype AlignedScore = AlignedScore(timestamp: real, frameProb: real, clipProb: real)

  /** A clip covers the half-open interval `[start, end)`. */
  predicate Covers(c: Clip, ts: real) {
    c.start <= ts < c.end
  }

  /** The first clip, in file order, that covers `ts`. */
  function ClipIndex(clips: seq<Clip>, ts: real): (r: Option<nat>)
    ensures r.Some? ==> r.value < |clips| && Covers(clips[r.value], ts)
    ensures r.Some? ==> forall j :: 0 <= j < r.value ==> !Covers(clips[j], ts)
    ensures r.None? <==> forall j :: 0 <= j < |clips| ==> !Covers(clips[j], ts)
  {
    if clips == [] then None
    else if Covers(clips[0], ts) then Some(0)
    else match ClipIndex(clips[1..], ts)
      case None => None
      case Some(k) => Some(k + 1)
  }

  function ClipProbs(clips: seq<Clip>): (r: seq<real>)
    ensures |r| == |clips| && forall k :: 0 <= k < |clips| ==> r[k] == clips[k].prob
  {
    seq(|clips|, k requires 0 <= k < |clips| => clips[k].prob)
  }

  /**
   * The clip-level probability a frame at `ts` is given: that of the first
   * covering clip, else the mean over all clips; with no clips at all there
   * is no such value.
   */
  function ClipProbAt(clips: seq<Clip>, ts: real): (r: Option<real>)
    ensures r.None? <==> clips == []
    ensures ClipIndex(clips, ts).Some? ==> r == Some(clips[ClipIndex(clips, ts).value].prob)
    ensures ClipIndex(clips, ts).None? && clips != [] ==> r == Some(Mean(ClipProbs(clips)))
  {
    match ClipIndex(clips, ts)
    case Some(k) => Some(clips[k].prob)
    case None => if clips == [] then None else Some(Mean(ClipProbs(clips)))
  }

  /** The inner loop of `align_scores`: the first covering clip's probability, if any. */
  method FirstCoveringClip(clips: seq<Clip>, ts: real) returns (p: Option<real>)
    ensures p.Some? <==> ClipIndex(clips, ts).Some?
    ensures p.Some? ==> p.value == clips[ClipIndex(clips, ts).value].prob
  {
    p := None;
    var j := 0;
    while j < |clips|
      invariant 0 <= j <= |clips|
      invariant forall k :: 0 <= k < j ==> !Covers(clips[k], ts)
    {
      if clips[j].start <= ts < clips[j].end {
        p := Some(clips[j].prob);
        return;
      }
      j := j + 1;
    }
  }

  datatype FuseError =
    | BadClipHeader(ce: ColumnError)
    | NoClipScores                     // every frame falls back to the mean of no clips
    | SmoothFailed(se: SmoothError)
    | NoScores                         // `np.max` of an empty list

  /** `align_scores`: one aligned triple per frame, in frame order. */
  method AlignScores(frames: seq<FrameScore>, clips: seq<Clip>) returns (r: Result<seq<AlignedScore>, FuseError>)
    ensures r.Err? <==> clips == [] && frames != []
    ensures r.Err? ==> r.error == NoClipScores
    ensures r.Ok? ==> |r.value| == |frames|
    ensures r.Ok? ==> forall i :: 0 <= i < |frames| ==>
                r.value[i] == AlignedScore(frames[i].timestamp, frames[i].prob, ClipProbAt(clips, frames[i].timestamp).value)
  {
    var aligned: seq<AlignedScore> := [];
    for i := 0 to |frames|
      invariant clips != [] || i == 0
      invariant |aligned| == i
      invariant forall k :: 0 <= k < i ==>
                  aligned[k] == AlignedScore(frames[k].timestamp, frames[k].prob, ClipProbAt(clips, frames[k].timestamp).value)
    {
      var clipProb := FirstCoveringClip(clips, frames[i].timestamp);
      if clipProb.None? {
        if clips == [] {
          return Err(NoClipScores);
        }
        clipProb := Some(Mean(ClipProbs(clips)));
      }
      aligned := aligned + [AlignedScore(frames[i].timestamp, frames[i].prob, clipProb.value)];
    }
    return Ok(aligned);
  }

  /** Every clip-level probability a frame receives lies within bounds that hold for all clips. */
  lemma {:induction false} ClipProbWithin(clips: seq<Clip>, ts: real, lo: real, hi: real)
    requires clips != []
    requires forall k :: 0 <= k < |clips| ==> lo <= clips[k].prob <= hi
    ensures lo <= ClipProbAt(clips, ts).value <= hi
  {
    if ClipIndex(clips, ts).None? {
      MeanWithin(ClipProbs(clips), lo, hi);
    }
  }

  // ---------------------------------------------------------------------------
  // Fusion and smoothing.

  /** `alpha · v + (1 − alpha) · f`: between the two inputs for a weight in [0, 1]. */
  function Blend(alpha: real, f: real, v: real): (r: real)
    ensures 0.0 <= alpha <= 1.0 && f <= v ==> f <= r <= v
    ensures 0.0 <= alpha <= 1.0 && v <= f ==> v <= r <= f
    ensures alpha == 0.0 ==> r == f
    ensures alpha == 1.0 ==> r == v
  {
    var r := alpha * v + (1.0 - alpha) * f;
    BlendBetween(alpha, f, v, r);
    r
  }

  lemma {:induction false} BlendBetween(a: real, f: real, v: real, r: real)
    requires r == a * v + (1.0 - a) * f
    ensures 0.0 <= a <= 1.0 && f <= v ==> f <= r && r <= v
    ensures 0.0 <= a <= 1.0 && v <= f ==> v <= r && r <= f
    ensures a == 0.0 ==> r == f
    ensures a == 1.0 ==> r == v
  {
    assert (1.0 - a) * f == f - a * f;
    assert a * (v - f) == a * v - a * f;
    assert (1.0 - a) * (f - v) == (f - v) - (a * f - a * v);
    if 0.0 <= a <= 1.0 {
      ScaledWithin(a, v - f);
      ScaledWithin(1.0 - a, f - v);
    }
  }

  lemma {:induction false} ScaledWithin(a: real, d: real)
    ensures 0.0 <= a <= 1.0 && d >= 0.0 ==> 0.0 <= a * d <= d
  {
    if 0.0 <= a <= 1.0 && d >= 0.0 {
      assert d - a * d == (1.0 - a) * d;
    }
  }

  /** `fuse_scores`: `(timestamp, fused_prob)` per aligned triple, in order. */
  method Fuse(aligned: seq<AlignedScore>, alpha: real) returns (fused: seq<(real, real)>)
    ensures |fused| == |aligned|
    ensures forall i :: 0 <= i < |aligned| ==>
              fused[i] == (aligned[i].timestamp, Blend(alpha, aligned[i].frameProb, aligned[i].clipProb))
  {
    fused := [];
    for i := 0 to |aligned|
      invariant |fused| == i
      invariant forall k :: 0 <= k < i ==>
                  fused[k] == (aligned[k].timestamp, Blend(alpha, aligned[k].frameProb, aligned[k].clipProb))
    {
      fused := fused + [(aligned[i].timestamp, Blend(alpha, aligned[i].frameProb, aligned[i].clipProb))];
    }
  }

  function Stamps(scores: seq<(real, real)>): (r: seq<real>)
    ensures |r| == |scores| && forall i :: 0 <= i < |scores| ==> r[i] == scores[i].0
  {
    seq(|scores|, i requires 0 <= i < |scores| => scores[i].0)
  }

  function Probs(scores: seq<(real, real)>): (r: seq<real>)
    ensures |r| == |scores| && forall i :: 0 <= i < |scores| ==> r[i] == scores[i].1
  {
    seq(|scores|, i requires 0 <= i < |scores| => scores[i].1)
  }

  /**
   * `smooth_scores(scores, window_size)` over pairs: unchanged below the
   * window; otherwise the timestamps are kept and the probabilities replaced
   * by their moving average.
   */
  function SmoothPairs(scores: seq<(real, real)>, w: int): (r: Result<seq<(real, real)>, SmoothError>)
    ensures |scores| < w ==> r == Ok(scores)
    ensures r.Err? <==> w <= 0
    ensures r.Err? ==> r == Err(Smooth(Probs(scores), w).error)
    ensures r.Ok? ==> |r.value| == |scores| && Stamps(r.value) == Stamps(scores) &&
                      Probs(r.value) == Smooth(Probs(scores), w).value
  {
    if |scores| < w then Ok(scores)
    else match Smooth(Probs(scores), w)
      case Err(e) => Err(e)
      case Ok(smoothed) => Ok(seq(|scores|, i requires 0 <= i < |scores| => (scores[i].0, smoothed[i])))
  }

  // ---------------------------------------------------------------------------
  // The whole run.

  /** `timeline_fused.json`. */
  datatype FusedTimeline = FusedTimeline(
    alphaVideo: real,
    alphaFrame: real,
    threshold: real,
    overallScore: real,
    averageScore: real,
    segments: seq<(real, real)>,
    numSegments: nat)

  /** What a run writes: the smoothed fused scores and the timeline. */
  datatype FuseOutput = FuseOutput(fused: seq<(real, real)>, timeline: FusedTimeline)

  /** The blended `(timestamp, probability)` series of the frames, before smoothing. */
  function Blended(frames: seq<FrameScore>, clips: seq<Clip>, alpha: real): (r: seq<(real, real)>)
    requires clips != []
    ensures |r| == |frames|
  {
    seq(|frames|, i requires 0 <= i < |frames| =>
      (frames[i].timestamp, Blend(alpha, frames[i].prob, ClipProbAt(clips, frames[i].timestamp).value)))
  }

  /**
   * A run's output for a given series: overall score the maximum and average
   * score the mean of the smoothed fused probabilities, segments of at least
   * one second of them at the threshold.
   */
  ghost predicate IsFusionOf(out: FuseOutput, smoothed: seq<(real, real)>, alpha: real, threshold: real)
  {
    |smoothed| > 0 && out.fused == smoothed &&
    var t := out.timeline;
    t.alphaVideo == alpha && t.alphaFrame == 1.0 - alpha && t.threshold == threshold &&
    t.overallScore == Max(Probs(smoothed)) && t.averageScore == Mean(Probs(smoothed)) &&
    t.numSegments == |t.segments| &&
    exists runs ::
      SegmentsSpec(Probs(smoothed), Stamps(smoothed), threshold, 1.0, runs) &&
      RunsWithin(runs, |smoothed|) && t.segments == TimePairs(Stamps(smoothed), runs)
  }

  /** `main` after loading: header check, align, fuse, smooth, scan, metrics. */
  method FuseRun(header: Option<seq<string>>, frames: seq<FrameScore>, clips: seq<Clip>,
                 alpha: real, threshold: real, window: int)
    returns (r: Result<FuseOutput, FuseError>)
    ensures DetectColumnsFails(header) ==> r.Err? && r.error.BadClipHeader?
    ensures !DetectColumnsFails(header) && clips == [] && frames != [] ==> r == Err(NoClipScores)
    ensures !DetectColumnsFails(header) && (clips != [] || frames == []) ==>
              var blended := if frames == [] then [] else Blended(frames, clips, alpha);
              (window <= 0 ==> r == Err(SmoothFailed(Smooth(Probs(blended), window).error))) &&
              (window > 0 && frames == [] ==> r == Err(NoScores)) &&
              (window > 0 && frames != [] ==> r.Ok? && IsFusionOf(r.value, SmoothPairs(blended, window).value, alpha, threshold))
  {
    var columns := DetectColumns(header);
    if columns.Err? {
      return Err(BadClipHeader(columns.error));
    }
    var aligned := AlignScores(frames, clips);
    if aligned.Err? {
      return Err(NoClipScores);
    }
    var fused := Fuse(aligned.value, alpha);
    ghost var blended := if frames == [] then [] else Blended(frames, clips, alpha);
    assert fused == blended;
    var smoothed := SmoothPairs(fused, window);
    if smoothed.Err? {
      return Err(SmoothFailed(smoothed.error));
    }
    var series := smoothed.value;
    var segments, runs := SegmentTimes(Probs(series), Stamps(series), threshold, 1.0);
    if |series| == 0 {
      return Err(NoScores);
    }
    var probs := Probs(series);
    var timeline := FusedTimeline(alpha, 1.0 - alpha, threshold, Max(probs), Mean(probs), segments, |segments|);
    return Ok(FuseOutput(series, timeline));
  }

  /** The header check of `load_videomae_scores` fails. */
  predicate DetectColumnsFails(header: Option<seq<string>>) {
    header.None? ||
    LastOfRole(header.value, StartColumn).None? || LastOfRole(header.value, EndColumn).None? ||
    LastOfRole(header.value, ProbColumn).None?
  }

  // ---------------------------------------------------------------------------
  // Properties of a run.

  /** Unlike the frame-scoring script, both metrics are over the smoothed series: the average never exceeds the overall score. */
  lemma {:induction false} FusedAverageAtMostOverall(out: FuseOutput, smoothed: seq<(real, real)>, alpha: real, threshold: real)
    requires IsFusionOf(out, smoothed, alpha, threshold)
    ensures out.timeline.averageScore <= out.timeline.overallScore
  {
    MeanAtMostMax(Probs(smoothed));
  }

  /**
   * With frame and clip probabilities in [0, 1] and a weight in [0, 1],
   * every fused and smoothed probability, and so both metrics, lie in [0, 1].
   */
  lemma {:induction false} FusedInUnitInterval(frames: seq<FrameScore>, clips: seq<Clip>, alpha: real, window: int)
    requires clips != [] && 0.0 <= alpha <= 1.0
    requires forall i :: 0 <= i < |frames| ==> 0.0 <= frames[i].prob <= 1.0
    requires forall k :: 0 <= k < |clips| ==> 0.0 <= clips[k].prob <= 1.0
    ensures SmoothPairs(Blended(frames, clips, alpha), window).Ok? ==>
              var s := SmoothPairs(Blended(frames, clips, alpha), window).value;
              forall i :: 0 <= i < |s| ==> 0.0 <= s[i].1 <= 1.0
  {
    var blended := Blended(frames, clips, alpha);
    forall i | 0 <= i < |blended| ensures 0.0 <= Probs(blended)[i] <= 1.0 {
      ClipProbWithin(clips, frames[i].timestamp, 0.0, 1.0);
    }
    SmoothBounded(Probs(blended), window, 1.0);
    if SmoothPairs(blended, window).Ok? {
      var s := SmoothPairs(blended, window).value;
      forall i | 0 <= i < |s| ensures 0.0 <= s[i].1 <= 1.0 {
        if |blended| >= window {
          assert s[i].1 == Probs(s)[i];
        }
      }
    }
  }

  /**
   * Alignment, fusion and smoothing keep the frame timestamps, so over
   * strictly increasing frame timestamps the segments come in order,
   * disjoint, and each spans at least one second.
   */
  lemma {:induction false} FusedSegmentsOrdered(out: FuseOutput, frames: seq<FrameScore>, clips: seq<Clip>, alpha: real,
                             threshold: real, window: int)
    requires clips != [] && window > 0
    requires forall a, b :: 0 <= a < b < |frames| ==> frames[a].timestamp < frames[b].timestamp
    requires IsFusionOf(out, SmoothPairs(Blended(frames, clips, alpha), window).value, alpha, threshold)
    ensures forall a :: 0 <= a < |out.timeline.segments| ==>
              out.timeline.segments[a].1 - out.timeline.segments[a].0 >= 1.0
    ensures forall a, b :: 0 <= a < b < |out.timeline.segments| ==>
              out.timeline.segments[a].1 < out.timeline.segments[b].0
  {
    var blended := Blended(frames, clips, alpha);
    var smoothed := SmoothPairs(blended, window).value;
    var ts := Stamps(smoothed);
    assert ts == Stamps(blended);
    assert StrictlyIncreasing(ts) by {
      forall a, b | 0 <= a < b < |ts| ensures ts[a] < ts[b] {
        assert ts[a] == blended[a].0 == frames[a].timestamp;
        assert ts[b] == blended[b].0 == frames[b].timestamp;
      }
    }
    var runs: seq<Run> :| SegmentsSpec(Probs(smoothed), ts, threshold, 1.0, runs) &&
                         RunsWithin(runs, |smoothed|) && out.timeline.segments == TimePairs(ts, runs);
    TimePairsOrdered(Probs(smoothed), ts, threshold, 1.0, runs);
  }
}
