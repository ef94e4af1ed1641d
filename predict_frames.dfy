/**
 * The frame-scoring script: it samples a video at a target rate, scores
 * every sampled frame with a DeepfakeBench detector, smooths the scores,
 * finds the suspicious segments and writes a timeline (overall score = the
 * maximum of the smoothed scores, average score = the mean of the raw ones)
 * and a SubRip subtitle file with one cue per segment.  The detector is
 * chosen either by weight file name or by model key.
 */
module PredictFrames {

  import opened Wrappers
  import opened Strings
  import opened Sampling
  import opened Smoothing
  import opened Segments
  import opened Inference
  import opened Stats
  import WeightRegistry

  // ---------------------------------------------------------------------------
  // Frame extraction.

  /** An opened (or unopenable) video: its reported frame rate and its decoded frames in order. */
  datatype Capture<F> = Capture(isOpened: bool, reportedFps: real, frames: seq<F>)

  /** What the frame generator yields: `(output_idx, timestamp, frame)`. */
  datatype Sampled<F> = Sampled(index: nat, timestamp: real, frame: F)

  datatype ExtractError =
    | OpenFailed     // RuntimeError "Failed to open video"
    | ZeroTargetFps  // ZeroDivisionError in `source_fps / target_fps`

  /** The kept frames numbered from 0 and stamped `k / fps`. */
  function Stamped<F>(kept: seq<F>, fps: real): (r: seq<Sampled<F>>)
    requires fps != 0.0
    ensures |r| == |kept|
    ensures forall k :: 0 <= k < |r| ==> r[k] == Sampled(k, Timestamp(k, fps), kept[k])
  {
    seq(|kept|, k requires 0 <= k < |kept| => Sampled(k, Timestamp(k, fps), kept[k]))
  }

  /** Everything `extract_frames` yields, or the error it raises. */
  function Extracted<F>(cap: Capture<F>, targetFps: real): (r: Result<seq<Sampled<F>>, ExtractError>)
    ensures !cap.isOpened ==> r == Err(OpenFailed)
    ensures cap.isOpened && targetFps == 0.0 ==> r == Err(ZeroTargetFps)
    ensures cap.isOpened && targetFps != 0.0 ==> r.Ok?
  {
    if !cap.isOpened then Err(OpenFailed)
    else match FrameStep(cap.reportedFps, targetFps)
      case None => Err(ZeroTargetFps)
      case Some(step) => Ok(Stamped(Subsample(cap.frames, step), targetFps))
  }

  /**
   * The k-th yielded frame is number k, stamped `k / fps`, and is decoded
   * frame `k · step`; the yielded frames are all decoded frames whose index
   * is a multiple of the step.
   */
  lemma {:induction false} ExtractedFrames<F>(cap: Capture<F>, targetFps: real, k: nat)
    requires cap.isOpened && targetFps != 0.0
    ensures |Extracted(cap, targetFps).value| == CeilDiv(|cap.frames|, FrameStep(cap.reportedFps, targetFps).value)
    ensures k < |Extracted(cap, targetFps).value| ==>
              var step := FrameStep(cap.reportedFps, targetFps).value;
              k * step < |cap.frames| &&
              Extracted(cap, targetFps).value[k] == Sampled(k, Timestamp(k, targetFps), cap.frames[k * step])
  {
    var step := FrameStep(cap.reportedFps, targetFps).value;
    if k < |Extracted(cap, targetFps).value| {
      SubsampleAt(cap.frames, step, k);
    }
  }

  /** At a positive target rate the yielded timestamps start at 0 and increase strictly. */
  lemma {:induction false} ExtractedTimestampsIncrease<F>(cap: Capture<F>, targetFps: real, a: nat, b: nat)
    requires cap.isOpened && targetFps > 0.0
    requires a < b < |Extracted(cap, targetFps).value|
    ensures 0.0 <= Extracted(cap, targetFps).value[a].timestamp < Extracted(cap, targetFps).value[b].timestamp
  {
    TimestampsIncrease(a, b, targetFps);
  }

  /** `extract_frames`: reads every decoded frame and keeps every `step`-th one. */
  method ExtractFrames<F>(cap: Capture<F>, targetFps: real) returns (r: Result<seq<Sampled<F>>, ExtractError>)
    ensures r == Extracted(cap, targetFps)
  {
    if !cap.isOpened {
      return Err(OpenFailed);
    }
    if targetFps == 0.0 {
      return Err(ZeroTargetFps);
    }
    var sourceFps := if cap.reportedFps == 0.0 then 25.0 else cap.reportedFps;
    var rounded := RoundHalfEven(sourceFps / targetFps);
    var step: nat := if rounded < 1 then 1 else rounded;
    var out := SampleFrames(cap.frames, step, targetFps);
    return Ok(out);
  }

  /** The reading loop of `extract_frames`: every `step`-th decoded frame, numbered and stamped in order. */
  method SampleFrames<F>(frames: seq<F>, step: nat, targetFps: real) returns (out: seq<Sampled<F>>)
    requires step >= 1 && targetFps != 0.0
    ensures out == Stamped(Subsample(frames, step), targetFps)
  {
    ghost var kept := Subsample(frames, step);
    out := [];
    var frameIdx := 0;
    var outputIdx := 0;
    while frameIdx < |frames|
      invariant 0 <= frameIdx <= |frames|
      invariant outputIdx == ScoredBefore(frameIdx, step) <= |kept|
      invariant out == Stamped(kept[..outputIdx], targetFps)
    {
      AdvanceKept(frames, step, frameIdx);
      if frameIdx % step == 0 {
        var timestamp := outputIdx as real / targetFps;
        StampedAppend(kept, targetFps, outputIdx);
        out := out + [Sampled(outputIdx, timestamp, frames[frameIdx])];
        outputIdx := outputIdx + 1;
      }
      frameIdx := frameIdx + 1;
    }
    ScoredBeforeIsCeilDiv(|frames|, step);
    assert kept[..outputIdx] == kept;
  }

  /** Stamping one more kept frame appends its record. */
  lemma StampedAppend<F>(kept: seq<F>, fps: real, n: nat)
    requires fps != 0.0 && n < |kept|
    ensures Stamped(kept[..n + 1], fps) == Stamped(kept[..n], fps) + [Sampled(n, Timestamp(n, fps), kept[n])]
  {
    var a, b := Stamped(kept[..n + 1], fps), Stamped(kept[..n], fps) + [Sampled(n, Timestamp(n, fps), kept[n])];
    assert |a| == |b|;
    forall k | 0 <= k < |a| ensures a[k] == b[k] {
      if k < n {
        assert kept[..n + 1][k] == kept[..n][k];
      }
    }
  }

  /** One decoded frame further: the count stays within the kept frames, and a kept frame is the next one. */
  lemma {:induction false} AdvanceKept<F>(frames: seq<F>, step: nat, i: nat)
    requires step >= 1 && i < |frames|
    ensures ScoredBefore(i + 1, step) <= |Subsample(frames, step)|
    ensures i % step == 0 ==>
              ScoredBefore(i, step) < |Subsample(frames, step)| &&
              Subsample(frames, step)[ScoredBefore(i, step)] == frames[i]
    ensures i % step == 0 ==> ScoredBefore(i + 1, step) == ScoredBefore(i, step) + 1
    ensures i % step != 0 ==> ScoredBefore(i + 1, step) == ScoredBefore(i, step)
  {
    ScoredBeforeIsCeilDiv(i, step);
    ScoredBeforeIsCeilDiv(i + 1, step);
    CeilDivMono(i + 1, |frames|, step);
    if i % step == 0 {
      CeilDivStep(i, step);
      SubsampleAt(frames, step, CeilDiv(i, step));
    }
  }

  // ---------------------------------------------------------------------------
  // Scoring, segments and the timeline.

  /** The detector's answer to each way of calling it on one frame. */
  type Answer = CallForm -> CallOutcome

  /** One row of `scores.csv`: `(frame_idx, timestamp, prob_fake)`. */
  datatype Row = Row(frameIdx: nat, timestamp: real, probFake: real)

  datatype ScriptError =
    | HistoryLengthNegative            // `deque(maxlen=int(fps * 5))` with a negative length
    | ExtractFailed(e: ExtractError)
    | InferenceFailed(ie: InferenceError)

  /** The rows for the first `count` yielded frames, or the first inference error. */
  function ScoreRows(frames: seq<Sampled<Answer>>, act: Activations, count: nat): (r: Result<seq<Row>, InferenceError>)
    requires count <= |frames|
    ensures r.Ok? ==> |r.value| == count
  {
    if count == 0 then Ok([])
    else
      match ScoreRows(frames, act, count - 1)
      case Err(e) => Err(e)
      case Ok(prev) =>
        var f := frames[count - 1];
        match ScriptProbability(f.frame, act)
        case Err(e) => Err(e)
        case Ok(p) => Ok(prev + [Row(f.index, f.timestamp, p)])
  }

  /** Row k carries frame k's number and timestamp and the detector's probability for it. */
  lemma {:induction false} ScoreRowsContents(frames: seq<Sampled<Answer>>, act: Activations, count: nat, k: nat)
    requires count <= |frames| && k < count && ScoreRows(frames, act, count).Ok?
    ensures ScriptProbability(frames[k].frame, act).Ok?
    ensures ScoreRows(frames, act, count).value[k] ==
              Row(frames[k].index, frames[k].timestamp, ScriptProbability(frames[k].frame, act).value)
  {
    if k < count - 1 {
      ScoreRowsContents(frames, act, count - 1, k);
    }
  }

  /** Once a frame fails, every longer prefix fails with the same error. */
  lemma {:induction false} ScoreRowsErrorPersists(frames: seq<Sampled<Answer>>, act: Activations, count: nat, count': nat)
    requires count <= count' <= |frames| && ScoreRows(frames, act, count).Err?
    ensures ScoreRows(frames, act, count') == ScoreRows(frames, act, count)
    decreases count' - count
  {
    if count < count' {
      ScoreRowsErrorPersists(frames, act, count, count' - 1);
    }
  }

  /** Everything written to `scores.csv`, or the exception that ends the video. */
  function ScoresData(cap: Capture<Answer>, fps: real, act: Activations): (r: Result<seq<Row>, ScriptError>)
    ensures Trunc(fps * 5.0) < 0 ==> r == Err(HistoryLengthNegative)
    ensures Trunc(fps * 5.0) >= 0 && Extracted(cap, fps).Err? ==> r == Err(ExtractFailed(Extracted(cap, fps).error))
  {
    if Trunc(fps * 5.0) < 0 then Err(HistoryLengthNegative)
    else match Extracted(cap, fps)
      case Err(e) => Err(ExtractFailed(e))
      case Ok(frames) =>
        match ScoreRows(frames, act, |frames|)
        case Err(e) => Err(InferenceFailed(e))
        case Ok(rows) => Ok(rows)
  }

  /** Row k is yielded frame k, stamped `k / fps`. */
  predicate StampedRows(rows: seq<Row>, fps: real)
    requires fps != 0.0
  {
    forall k :: 0 <= k < |rows| ==> rows[k].frameIdx == k && rows[k].timestamp == Timestamp(k, fps)
  }

  /** Every row written to `scores.csv` is numbered and stamped by its position. */
  lemma {:induction false} RowsNumberedAndStamped(cap: Capture<Answer>, fps: real, act: Activations)
    requires ScoresData(cap, fps, act).Ok?
    ensures fps != 0.0 && StampedRows(ScoresData(cap, fps, act).value, fps)
  {
    var frames := Extracted(cap, fps).value;
    var rows := ScoresData(cap, fps, act).value;
    forall k | 0 <= k < |rows| ensures rows[k].frameIdx == k && rows[k].timestamp == Timestamp(k, fps) {
      ScoreRowsContents(frames, act, |frames|, k);
    }
  }

  function Probs(rows: seq<Row>): (r: seq<real>)
    ensures |r| == |rows| && forall k :: 0 <= k < |rows| ==> r[k] == rows[k].probFake
  {
    seq(|rows|, k requires 0 <= k < |rows| => rows[k].probFake)
  }

  function Stamps(rows: seq<Row>): (r: seq<real>)
    ensures |r| == |rows| && forall k :: 0 <= k < |rows| ==> r[k] == rows[k].timestamp
  {
    seq(|rows|, k requires 0 <= k < |rows| => rows[k].timestamp)
  }

  /** `timeline.json`. */
  datatype Timeline = Timeline(
    threshold: real,
    totalFrames: nat,
    fps: real,
    overallScore: real,
    averageScore: real,
    segments: seq<(real, real)>,
    numSegments: nat)

  /** The files written for a video that produced at least one frame. */
  datatype Report = Report(timeline: Timeline, srt: string)

  /**
   * The timeline of a non-empty score list: scores smoothed with a window
   * of 5, overall score the maximum of the smoothed scores, average score
   * the mean of the raw ones, and the segments of at least one second of
   * the smoothed scores at the threshold.
   */
  ghost predicate IsTimelineOf(t: Timeline, rows: seq<Row>, fps: real, threshold: real)
    requires |rows| > 0
  {
    var smoothed := Smooth(Probs(rows), 5).value;
    t.threshold == threshold && t.totalFrames == |rows| && t.fps == fps &&
    t.overallScore == Max(smoothed) && t.averageScore == Mean(Probs(rows)) &&
    t.numSegments == |t.segments| &&
    exists runs ::
      SegmentsSpec(smoothed, Stamps(rows), threshold, 1.0, runs) && RunsWithin(runs, |rows|) &&
      t.segments == TimePairs(Stamps(rows), runs)
  }

  /**
   * `process_video` for one video: nothing is written beyond the scores
   * when no frame was processed; otherwise the timeline and the subtitle
   * file for its segments.
   */
  method ProcessVideo(cap: Capture<Answer>, fps: real, threshold: real, act: Activations)
    returns (r: Result<Option<Report>, ScriptError>)
    ensures ScoresData(cap, fps, act).Err? ==> r == Err(ScoresData(cap, fps, act).error)
    ensures ScoresData(cap, fps, act).Ok? && |ScoresData(cap, fps, act).value| == 0 ==> r == Ok(None)
    ensures ScoresData(cap, fps, act).Ok? && |ScoresData(cap, fps, act).value| > 0 ==>
              r.Ok? && r.value.Some? &&
              IsTimelineOf(r.value.value.timeline, ScoresData(cap, fps, act).value, fps, threshold) &&
              r.value.value.srt == SrtText(r.value.value.timeline.segments)
  {
    if Trunc(fps * 5.0) < 0 {
      return Err(HistoryLengthNegative);
    }
    var extracted := ExtractFrames(cap, fps);
    if extracted.Err? {
      return Err(ExtractFailed(extracted.error));
    }
    var frames := extracted.value;
    var rows: seq<Row> := [];
    for i := 0 to |frames|
      invariant ScoreRows(frames, act, i) == Ok(rows)
    {
      var prob := ScriptProbability(frames[i].frame, act);
      if prob.Err? {
        ScoreRowsErrorPersists(frames, act, i + 1, |frames|);
        return Err(InferenceFailed(prob.error));
      }
      rows := rows + [Row(frames[i].index, frames[i].timestamp, prob.value)];
    }
    if |rows| == 0 {
      return Ok(None);
    }
    var timestamps := Stamps(rows);
    var scores := Probs(rows);
    var smoothed := Smooth(scores, 5).value;
    var segments, runs := SegmentTimes(smoothed, timestamps, threshold, 1.0);
    var timeline := Timeline(threshold, |rows|, fps, Max(smoothed), Mean(scores), segments, |segments|);
    return Ok(Some(Report(timeline, SrtText(segments))));
  }

  /** At a positive rate rows stamped by position have strictly increasing, non-negative stamps. */
  lemma {:induction false} StampsIncrease(rows: seq<Row>, fps: real)
    requires fps > 0.0 && StampedRows(rows, fps)
    ensures StrictlyIncreasing(Stamps(rows))
    ensures forall k :: 0 <= k < |rows| ==> Stamps(rows)[k] >= 0.0
  {
    var ts := Stamps(rows);
    forall a, b | 0 <= a < b < |ts| ensures ts[a] < ts[b] {
      TimestampsIncrease(a, b, fps);
    }
    forall k | 0 <= k < |ts| ensures ts[k] >= 0.0 {
      TimestampsIncrease(k, k, fps);
    }
  }

  /**
   * Segments in seconds that come in time order, pairwise disjoint, none
   * starting before 0, each spanning at least one second.
   */
  ghost predicate SecondsApart(segs: seq<(real, real)>) {
    (forall a :: 0 <= a < |segs| ==> segs[a].1 - segs[a].0 >= 1.0) &&
    (forall a, b :: 0 <= a < b < |segs| ==> segs[a].1 < segs[b].0) &&
    (forall a :: 0 <= a < |segs| ==> segs[a].0 >= 0.0)
  }

  /** At a positive rate the segments of a timeline are a second long each, ordered and disjoint. */
  lemma {:induction false} TimelineSegmentsOrdered(t: Timeline, rows: seq<Row>, fps: real, threshold: real)
    requires fps > 0.0 && 0 < |rows| && StampedRows(rows, fps)
    requires IsTimelineOf(t, rows, fps, threshold)
    ensures SecondsApart(t.segments)
  {
    var smoothed := Smooth(Probs(rows), 5).value;
    var ts := Stamps(rows);
    var runs: seq<Run> :| SegmentsSpec(smoothed, ts, threshold, 1.0, runs) && RunsWithin(runs, |rows|) &&
                         t.segments == TimePairs(ts, runs);
    StampsIncrease(rows, fps);
    SegmentTimesOrdered(smoothed, ts, threshold, runs);
  }

  /** The time pairs of reported runs over increasing, non-negative stamps are seconds apart. */
  lemma {:induction false} SegmentTimesOrdered(smoothed: seq<real>, ts: seq<real>, threshold: real, runs: seq<Run>)
    requires |ts| == |smoothed| && StrictlyIncreasing(ts)
    requires forall k :: 0 <= k < |ts| ==> ts[k] >= 0.0
    requires SegmentsSpec(smoothed, ts, threshold, 1.0, runs) && RunsWithin(runs, |ts|)
    ensures SecondsApart(TimePairs(ts, runs))
  {
    TimePairsOrdered(smoothed, ts, threshold, 1.0, runs);
  }

  /** With fewer than five frames nothing is smoothed, so the average never exceeds the overall score. */
  lemma {:induction false} ShortVideoAverageAtMostOverall(t: Timeline, rows: seq<Row>, fps: real, threshold: real)
    requires 0 < |rows| < 5 && IsTimelineOf(t, rows, fps, threshold)
    ensures t.averageScore <= t.overallScore
  {
    MeanAtMostMax(Probs(rows));
  }

  /**
   * From five frames on the zero-padded smoothing damps the edges, and the
   * average raw score can exceed the overall score: for the probabilities
   * 1, 0, 0, 0, 0, 1 every smoothed value is 0.2 while the mean is 1/3.
   */
  lemma {:induction false} AverageCanExceedOverall()
    ensures var probs := [1.0, 0.0, 0.0, 0.0, 0.0, 1.0];
            Max(Smooth(probs, 5).value) < Mean(probs)
  {
    var probs := [1.0, 0.0, 0.0, 0.0, 0.0, 1.0];
    var smoothed := Smooth(probs, 5).value;
    forall i | 0 <= i < 6 ensures smoothed[i] == 0.2 {
      SixWindow(probs, i);
    }
    assert Total(probs) == 2.0 by {
      assert probs[..1][..0] == [];
      assert Total(probs[..1]) == 1.0;
      assert probs[..2][..1] == probs[..1];
      assert Total(probs[..2]) == 1.0;
      assert probs[..3][..2] == probs[..2];
      assert Total(probs[..3]) == 1.0;
      assert probs[..4][..3] == probs[..3];
      assert Total(probs[..4]) == 1.0;
      assert probs[..5][..4] == probs[..4];
      assert Total(probs[..5]) == 1.0;
      assert probs[..5] == probs[..|probs| - 1];
    }
  }

  /** Each window of five over 1, 0, 0, 0, 0, 1 covers exactly one of the two ones. */
  lemma {:induction false} SixWindow(probs: seq<real>, i: nat)
    requires probs == [1.0, 0.0, 0.0, 0.0, 0.0, 1.0] && i < 6
    ensures Smooth(probs, 5).value[i] == 0.2
  {
    var lo := WindowStart(i, 5);
    var hi := lo + 5;
    assert lo == i - 2;
    assert probs[..1][..0] == [];
    assert WindowSum(probs[..1], lo, hi) == (if lo <= 0 then 1.0 else 0.0);
    assert probs[..2][..1] == probs[..1];
    assert WindowSum(probs[..2], lo, hi) == WindowSum(probs[..1], lo, hi);
    assert probs[..3][..2] == probs[..2];
    assert WindowSum(probs[..3], lo, hi) == WindowSum(probs[..2], lo, hi);
    assert probs[..4][..3] == probs[..3];
    assert WindowSum(probs[..4], lo, hi) == WindowSum(probs[..3], lo, hi);
    assert probs[..5][..4] == probs[..4];
    assert WindowSum(probs[..5], lo, hi) == WindowSum(probs[..4], lo, hi);
    assert probs[..5] == probs[..|probs| - 1];
    assert WindowSum(probs, lo, hi) == 1.0;
  }

  // ---------------------------------------------------------------------------
  // SubRip timestamps.

  /** `int(seconds // 3600)`. */
  function SrtHours(t: real): int
  {
    (t / 3600.0).Floor
  }

  /** `int((seconds % 3600) // 60)`: Python's float `%` is never negative for a positive divisor. */
  function SrtMinutes(t: real): (m: int)
    ensures 0 <= m < 60
  {
    ((t - 3600.0 * SrtHours(t) as real) / 60.0).Floor
  }

  /** `int(seconds % 60)`. */
  function SrtSeconds(t: real): (s: int)
    ensures 0 <= s < 60
  {
    (t - 60.0 * (t / 60.0).Floor as real).Floor
  }

  /** `int((seconds - int(seconds)) * 1000)`: the fraction truncated to milliseconds. */
  function SrtMillis(t: real): (ms: int)
    ensures t >= 0.0 ==> 0 <= ms < 1000 && ms == ((t - t.Floor as real) * 1000.0).Floor
    ensures t < 0.0 ==> -1000 < ms <= 0
  {
    Trunc((t - Trunc(t) as real) * 1000.0)
  }

  /** The hour, minute and second fields recompose the whole seconds, also for a negative time. */
  lemma {:induction false} SrtFieldsRecompose(t: real)
    ensures 3600 * SrtHours(t) + 60 * SrtMinutes(t) + SrtSeconds(t) == t.Floor
    ensures t >= 0.0 ==> SrtHours(t) >= 0
  {
    var h := SrtHours(t);
    var r := t - 3600.0 * h as real;
    var m := SrtMinutes(t);
    assert 0.0 <= r < 3600.0;
    assert (t / 60.0).Floor == 60 * h + m by {
      assert t / 60.0 == (60 * h) as real + r / 60.0;
    }
  }

  /** `f"{n:0Wd}"` for any integer: a minus sign, then the magnitude zero-padded to W − 1 digits. */
  function PadInt(n: int, width: nat): (r: string)
    ensures forall i :: 0 <= i < |r| ==> IsDigit(r[i]) || r[i] == '-'
    ensures n >= 0 ==> r == PadNat(n, width)
  {
    if n < 0 then "-" + PadNat(-n, if width >= 1 then width - 1 else 0) else PadNat(n, width)
  }

  /** `to_srt_time`: "HH:MM:SS,mmm". */
  function ToSrtTime(t: real): (r: string)
    ensures '\n' !in r
  {
    var hh, mm, ss, mmm := PadInt(SrtHours(t), 2), PadInt(SrtMinutes(t), 2), PadInt(SrtSeconds(t), 2), PadInt(SrtMillis(t), 3);
    NumeralHasNoNewline(hh);
    NumeralHasNoNewline(mm);
    NumeralHasNoNewline(ss);
    NumeralHasNoNewline(mmm);
    hh + ":" + mm + ":" + ss + "," + mmm
  }

  lemma NumeralHasNoNewline(s: string)
    requires forall i :: 0 <= i < |s| ==> IsDigit(s[i]) || s[i] == '-'
    ensures '\n' !in s
  {
  }

  /**
   * Below 100 hours the stamp is exactly twelve characters "HH:MM:SS,mmm",
   * and reading its fields back gives the whole seconds and the truncated
   * milliseconds of t.
   */
  lemma {:induction false} SrtTimeReadsBack(t: real)
    requires 0.0 <= t < 360000.0
    ensures |ToSrtTime(t)| == 12
    ensures ToSrtTime(t)[2] == ':' && ToSrtTime(t)[5] == ':' && ToSrtTime(t)[8] == ','
    ensures forall i :: 0 <= i < 12 && i != 2 && i != 5 && i != 8 ==> IsDigit(ToSrtTime(t)[i])
    ensures 3600 * DigitsValue(ToSrtTime(t)[0..2]) + 60 * DigitsValue(ToSrtTime(t)[3..5]) +
            DigitsValue(ToSrtTime(t)[6..8]) == t.Floor
    ensures DigitsValue(ToSrtTime(t)[9..12]) == ((t - t.Floor as real) * 1000.0).Floor
  {
    SrtFieldsRecompose(t);
    var h, m, s, ms := SrtHours(t), SrtMinutes(t), SrtSeconds(t), SrtMillis(t);
    assert h < 100;
    var ph, pm, ps, pms := PadNat(h, 2), PadNat(m, 2), PadNat(s, 2), PadNat(ms, 3);
    PadNatExact(h, 2);
    PadNatExact(m, 2);
    PadNatExact(s, 2);
    PadNatExact(ms, 3);
    assert ToSrtTime(t) == ph + ":" + pm + ":" + ps + "," + pms;
    StampLayout(ph, pm, ps, pms);
  }

  /** Where the four digit fields and the three separators sit in "HH:MM:SS,mmm". */
  lemma StampLayout(ph: string, pm: string, ps: string, pms: string)
    requires |ph| == 2 && |pm| == 2 && |ps| == 2 && |pms| == 3
    requires forall i :: 0 <= i < 2 ==> IsDigit(ph[i]) && IsDigit(pm[i]) && IsDigit(ps[i])
    requires forall i :: 0 <= i < 3 ==> IsDigit(pms[i])
    ensures var r := ph + ":" + pm + ":" + ps + "," + pms;
            |r| == 12 && r[2] == ':' && r[5] == ':' && r[8] == ',' &&
            (forall i :: 0 <= i < 12 && i != 2 && i != 5 && i != 8 ==> IsDigit(r[i])) &&
            r[0..2] == ph && r[3..5] == pm && r[6..8] == ps && r[9..12] == pms
  {
    var r := ph + ":" + pm + ":" + ps + "," + pms;
    assert r[0..2] == ph && r[3..5] == pm && r[6..8] == ps && r[9..12] == pms;
    forall i | 0 <= i < 12 && i != 2 && i != 5 && i != 8
      ensures IsDigit(r[i])
    {
      if i < 2 { assert r[i] == ph[i]; }
      else if i < 5 { assert r[i] == pm[i - 3]; }
      else if i < 8 { assert r[i] == ps[i - 6]; }
      else { assert r[i] == pms[i - 9]; }
    }
  }

  /** A number below 10^W zero-padded to width W (1 ≤ W ≤ 3) takes exactly W characters. */
  lemma {:induction false} PadNatExact(n: nat, width: nat)
    requires 1 <= width <= 3
    requires width == 1 ==> n < 10
    requires width == 2 ==> n < 100
    requires width == 3 ==> n < 1000
    ensures |PadNat(n, width)| == width
  {
    var s := NatToString(n);
    if n >= 10 {
      assert NatToString(n / 10) == s[..|s| - 1];
      if n >= 100 {
        assert |NatToString(n / 100)| == 1;
      }
    }
  }

  // ---------------------------------------------------------------------------
  // SubRip file text.

  /** The cue line "<start> --> <end>" of a segment. */
  function CueLine(seg: (real, real)): (r: string)
    ensures '\n' !in r
  {
    var start, end := ToSrtTime(seg.0), ToSrtTime(seg.1);
    ArrowHasNoNewline();
    start + Arrow + end
  }

  const Arrow := " --> "

  lemma ArrowHasNoNewline()
    ensures '\n' !in Arrow
  {
  }

  /** What `generate_srt` writes for the segments from position k on, numbered from k + 1. */
  function SrtFrom(segments: seq<(real, real)>, k: nat): string
    decreases |segments| - k
  {
    if k >= |segments| then ""
    else NatToString(k + 1) + "\n" + CueLine(segments[k]) + "\n" + "SUSPECT\n\n" + SrtFrom(segments, k + 1)
  }

  /** The text of `segments.srt`. */
  function SrtText(segments: seq<(real, real)>): string
  {
    SrtFrom(segments, 0)
  }

  /** The lines of the subtitle file: four per segment, its number, its cue, "SUSPECT" and a blank line. */
  function SrtLinesFrom(segments: seq<(real, real)>, k: nat): (lines: seq<string>)
    ensures k <= |segments| ==> |lines| == 4 * (|segments| - k)
    ensures forall i :: 0 <= i < |lines| ==> '\n' !in lines[i]
    decreases |segments| - k
  {
    if k >= |segments| then []
    else SrtBlock(k + 1, segments[k]) + SrtLinesFrom(segments, k + 1)
  }

  /** The four lines of cue number n. */
  function SrtBlock(n: nat, seg: (real, real)): (lines: seq<string>)
    ensures |lines| == 4
    ensures '\n' !in lines[0] && '\n' !in lines[1] && '\n' !in lines[2] && '\n' !in lines[3]
  {
    var number, cue := NatToString(n), CueLine(seg);
    NumberHasNoNewline(n);
    SuspectHasNoNewline();
    var lines := [number, cue, SuspectLine, ""];
    assert lines[0] == number && lines[1] == cue && lines[2] == SuspectLine && lines[3] == "";
    lines
  }

  const SuspectLine := "SUSPECT"

  lemma SuspectHasNoNewline()
    ensures '\n' !in SuspectLine
  {
  }

  /** A cue number is digits only. */
  lemma NumberHasNoNewline(n: nat)
    ensures '\n' !in NatToString(n)
  {
    var r := NatToString(n);
    forall i | 0 <= i < |r| ensures r[i] != '\n' {
      assert IsDigit(r[i]);
    }
  }

  /** Lines 4(m − k) to 4(m − k) + 3 from position k on are the block of segment m. */
  lemma {:induction false} SrtLinesAt(segments: seq<(real, real)>, k: nat, m: nat)
    requires k <= m < |segments|
    ensures 4 * (m - k) + 4 <= |SrtLinesFrom(segments, k)|
    ensures SrtLinesFrom(segments, k)[4 * (m - k)..4 * (m - k) + 4] == SrtBlock(m + 1, segments[m])
    decreases m - k
  {
    if k < m {
      SrtLinesAt(segments, k + 1, m);
      SrtLinesShift(segments, k, 4 * (m - (k + 1)));
    } else {
      SrtLinesStep(segments, k);
      var lines := SrtLinesFrom(segments, k);
      assert lines[0..4] == SrtBlock(k + 1, segments[k]);
    }
  }

  lemma SrtLinesStep(segments: seq<(real, real)>, k: nat)
    requires k < |segments|
    ensures SrtLinesFrom(segments, k) == SrtBlock(k + 1, segments[k]) + SrtLinesFrom(segments, k + 1)
  {
  }

  /** Past the first block, the lines from k are the lines from k + 1. */
  lemma SrtLinesShift(segments: seq<(real, real)>, k: nat, i: nat)
    requires k < |segments| && i + 4 <= |SrtLinesFrom(segments, k + 1)|
    ensures i + 8 <= |SrtLinesFrom(segments, k)|
    ensures SrtLinesFrom(segments, k)[i + 4..i + 8] == SrtLinesFrom(segments, k + 1)[i..i + 4]
  {
    SrtLinesStep(segments, k);
    SliceAfterBlock(SrtBlock(k + 1, segments[k]), SrtLinesFrom(segments, k + 1), i);
  }

  /** Four lines further on, after a four-line block, the rest begins. */
  lemma SliceAfterBlock(block: seq<string>, rest: seq<string>, i: nat)
    requires |block| == 4 && i + 4 <= |rest|
    ensures (block + rest)[i + 4..i + 8] == rest[i..i + 4]
  {
  }

  /** Each line followed by a newline. */
  function Terminated(lines: seq<string>): string
  {
    if lines == [] then "" else lines[0] + "\n" + Terminated(lines[1..])
  }

  lemma {:induction false} TerminatedAppend(a: seq<string>, b: seq<string>)
    ensures Terminated(a + b) == Terminated(a) + Terminated(b)
  {
    if a == [] {
      assert a + b == b;
    } else {
      TerminatedAppend(a[1..], b);
      assert (a + b)[1..] == a[1..] + b;
    }
  }

  lemma {:induction false} TerminatedFour(a: string, b: string, c: string, d: string)
    ensures Terminated([a, b, c, d]) == a + "\n" + b + "\n" + c + "\n" + d + "\n"
  {
    assert [d][1..] == [];
    var td := d + "\n";
    assert Terminated([d]) == td;
    assert [c, d][1..] == [d];
    var tc := c + "\n" + td;
    assert Terminated([c, d]) == tc;
    assert [b, c, d][1..] == [c, d];
    var tb := b + "\n" + tc;
    assert Terminated([b, c, d]) == tb;
    assert [a, b, c, d][1..] == [b, c, d];
    assert Terminated([a, b, c, d]) == a + "\n" + tb;
  }

  /** A cue's four lines, newline-terminated, followed by further lines. */
  lemma {:induction false} TerminatedCue(number: string, cue: string, rest: seq<string>)
    ensures Terminated([number, cue, "SUSPECT", ""] + rest) ==
            number + "\n" + cue + "\n" + "SUSPECT\n\n" + Terminated(rest)
  {
    TerminatedAppend([number, cue, "SUSPECT", ""], rest);
    TerminatedFour(number, cue, "SUSPECT", "");
    assert "SUSPECT" + "\n" + "" + "\n" == "SUSPECT\n\n";
  }

  /** The file is its lines, each ended by a newline. */
  lemma {:induction false} SrtFromIsLines(segments: seq<(real, real)>, k: nat)
    ensures SrtFrom(segments, k) == Terminated(SrtLinesFrom(segments, k))
    decreases |segments| - k
  {
    if k < |segments| {
      SrtFromIsLines(segments, k + 1);
      TerminatedCue(NatToString(k + 1), CueLine(segments[k]), SrtLinesFrom(segments, k + 1));
    }
  }

  /** Splitting newline-terminated lines at '\n' gives the lines back, then the empty tail. */
  lemma {:induction false} SplitTerminated(lines: seq<string>)
    requires forall i :: 0 <= i < |lines| ==> '\n' !in lines[i]
    ensures SplitOn(Terminated(lines), '\n') == lines + [""]
  {
    if lines != [] {
      SplitTerminated(lines[1..]);
      SplitLine(lines[0], '\n', Terminated(lines[1..]));
      assert Terminated(lines) == lines[0] + ['\n'] + Terminated(lines[1..]);
      assert lines == [lines[0]] + lines[1..];
    }
  }

  /**
   * Reading `segments.srt` back line by line gives, for the k-th segment
   * (k from 1), its number, "<start> --> <end>", "SUSPECT" and a blank line,
   * in segment order.
   */
  lemma {:induction false} SrtReadsBack(segments: seq<(real, real)>, a: nat)
    ensures SplitOn(SrtText(segments), '\n') == SrtLinesFrom(segments, 0) + [""]
    ensures |SrtLinesFrom(segments, 0)| == 4 * |segments|
    ensures a < |segments| ==>
              SrtLinesFrom(segments, 0)[4 * a..4 * a + 4] ==
              [NatToString(a + 1), ToSrtTime(segments[a].0) + " --> " + ToSrtTime(segments[a].1), "SUSPECT", ""]
  {
    SrtFromIsLines(segments, 0);
    SplitTerminated(SrtLinesFrom(segments, 0));
    if a < |segments| {
      SrtLinesAt(segments, 0, a);
      assert SrtLinesFrom(segments, 0)[4 * a..4 * a + 4] == SrtBlock(a + 1, segments[a]);
    }
  }

  // ---------------------------------------------------------------------------
  // Choosing the detector and its checkpoint.

  const DfbWeightsDir := "vendors/DeepfakeBench/training/weights"

  datatype Resolution = Resolution(modelKey: string, inputSize: nat, checkpoint: string)

  datatype ResolveError =
    | UnknownWeightFilename(filename: string)
    | UnknownModelKey(key: string)
    | CheckpointNotFound(path: string)

  /** `os.path.basename`: the text after the last '/'. */
  function Basename(p: string): (r: string)
    ensures '/' !in r
    ensures EndsWith(p, r)
    ensures '/' !in p ==> r == p
    decreases |p|
  {
    if '/' !in p then p else Basename(p[IndexOfChar(p, '/') + 1..])
  }

  /** `os.path.join(DFB_WEIGHTS_DIR, name)` for a name without '/'. */
  function WeightsPath(name: string): string
  {
    DfbWeightsDir + "/" + name
  }

  /** `os.path.isabs` on POSIX paths. */
  predicate IsAbs(p: string) {
    StartsWith(p, "/")
  }

  /**
   * The model and checkpoint selection in `main`.  An argument ending in
   * ".pth" names a weight file by its base name and ignores `--ckpt`;
   * anything else is a model key compared case-insensitively with the
   * table's keys, and `--ckpt`, when not empty, overrides the default
   * checkpoint.  Either way the checkpoint must exist.
   */
  function ResolveModel(model: string, ckpt: string, fileExists: string -> bool): (r: Result<Resolution, ResolveError>)
    ensures EndsWith(model, ".pth") ==>
              (r == Err(UnknownWeightFilename(Basename(model))) <==> WeightRegistry.LookupFile(Basename(model)).None?)
    ensures EndsWith(model, ".pth") && r.Ok? ==>
              var meta := WeightRegistry.LookupFile(Basename(model)).value;
              r.value == Resolution(meta.modelKey, meta.inputSize,
                                    if IsAbs(model) then model else WeightsPath(Basename(model)))
    ensures !EndsWith(model, ".pth") ==>
              (r == Err(UnknownModelKey(Lower(model))) <==>
               WeightRegistry.FindByModelKey(WeightRegistry.Registry, Lower(model), true).None?)
    ensures r.Ok? ==> fileExists(r.value.checkpoint)
    ensures r.Err? && r.error.CheckpointNotFound? ==> !fileExists(r.error.path)
  {
    if EndsWith(model, ".pth") then
      var filename := Basename(model);
      match WeightRegistry.LookupFile(filename)
      case None => Err(UnknownWeightFilename(filename))
      case Some(meta) =>
        var checkpoint := if IsAbs(model) then model else WeightsPath(filename);
        if fileExists(checkpoint) then Ok(Resolution(meta.modelKey, meta.inputSize, checkpoint))
        else Err(CheckpointNotFound(checkpoint))
    else
      var key := Lower(model);
      match WeightRegistry.FindByModelKey(WeightRegistry.Registry, key, true)
      case None => Err(UnknownModelKey(key))
      case Some(i) =>
        var entry := WeightRegistry.Registry[i];
        var checkpoint := if ckpt != "" then ckpt else WeightsPath(entry.0);
        if fileExists(checkpoint) then Ok(Resolution(key, entry.1.inputSize, checkpoint))
        else Err(CheckpointNotFound(checkpoint))
  }

  /** A model key is unknown exactly when no entry's key matches it up to case. */
  lemma {:induction false} UnknownKeyIffNoMatch(model: string, ckpt: string, fileExists: string -> bool)
    requires !EndsWith(model, ".pth")
    ensures ResolveModel(model, ckpt, fileExists) == Err(UnknownModelKey(Lower(model))) <==>
            forall k :: 0 <= k < |WeightRegistry.Registry| ==> Lower(WeightRegistry.Registry[k].1.modelKey) != Lower(model)
  {
    var entries, key := WeightRegistry.Registry, Lower(model);
    match WeightRegistry.FindByModelKey(entries, key, true)
    case None =>
      forall k | 0 <= k < |entries| ensures Lower(entries[k].1.modelKey) != key {
        assert WeightRegistry.KeyOf(entries[k].1, true) != key;
      }
    case Some(i) =>
      assert WeightRegistry.KeyOf(entries[i].1, true) == key;
  }

  /**
   * A key matching entry k up to case selects entry k's weight file and
   * input size, whichever entry comes first: keys are distinct even after
   * lower-casing.  The key passed on is the lower-cased argument, not the
   * table's spelling.
   */
  lemma {:induction false} KeyResolvesToItsEntry(model: string, ckpt: string, fileExists: string -> bool, k: nat)
    requires !EndsWith(model, ".pth")
    requires k < |WeightRegistry.Registry| && Lower(WeightRegistry.Registry[k].1.modelKey) == Lower(model)
    ensures var path := if ckpt != "" then ckpt else WeightsPath(WeightRegistry.Registry[k].0);
            ResolveModel(model, ckpt, fileExists) ==
              if fileExists(path) then Ok(Resolution(Lower(model), WeightRegistry.Registry[k].1.inputSize, path))
              else Err(CheckpointNotFound(path))
  {
    var found := WeightRegistry.FindByModelKey(WeightRegistry.Registry, Lower(model), true);
    assert found.Some? by {
      assert WeightRegistry.KeyOf(WeightRegistry.Registry[k].1, true) == Lower(model);
    }
    WeightRegistry.LowerKeyDeterminesEntry(found.value, k);
  }

  /** With a weight file name, `--ckpt` plays no part. */
  lemma CkptIgnoredForWeightFiles(model: string, ckpt1: string, ckpt2: string, fileExists: string -> bool)
    requires EndsWith(model, ".pth")
    ensures ResolveModel(model, ckpt1, fileExists) == ResolveModel(model, ckpt2, fileExists)
  {
  }

  /** The base name of `dir/name` is `name`. */
  lemma {:induction false} BasenameOfJoin(dir: string, name: string)
    requires '/' !in name
    ensures Basename(dir + "/" + name) == name
    decreases |dir|
  {
    var p := dir + "/" + name;
    if '/' !in dir {
      assert IndexOfChar(p, '/') == |dir| by {
        IndexAfter(dir, '/', name);
      }
      assert p[|dir| + 1..] == name;
    } else {
      var i := IndexOfChar(dir, '/');
      assert '/' in p && IndexOfChar(p, '/') == i by {
        IndexOfCharPrefix(dir, '/', "/" + name);
        assert p == dir + ("/" + name);
      }
      var tail := dir[i + 1..];
      assert p[i + 1..] == tail + "/" + name;
      BasenameStep(p);
      BasenameOfJoin(tail, name);
    }
  }

  lemma BasenameStep(p: string)
    requires '/' in p
    ensures Basename(p) == Basename(p[IndexOfChar(p, '/') + 1..])
  {
  }

  /**
   * A relative weight-file path resolves exactly as its base name does:
   * the directory part is dropped and the file is looked for in the
   * weights directory.
   */
  lemma {:induction false} RelativeDirectoryIgnored(dir: string, name: string, ckpt: string, fileExists: string -> bool)
    requires '/' !in name && EndsWith(name, ".pth") && !StartsWith(dir, "/") && dir != []
    ensures ResolveModel(dir + "/" + name, ckpt, fileExists) == ResolveModel(name, ckpt, fileExists)
  {
    var p := dir + "/" + name;
    BasenameOfJoin(dir, name);
    assert EndsWith(p, ".pth") by {
      assert p[|p| - 4..] == name[|name| - 4..];
    }
    assert !IsAbs(p) by {
      assert p[..1] == dir[..1];
    }
    assert !IsAbs(name) by {
      assert name != [] && name[0] != '/';
    }
    SameFileSameResolution(p, name, ckpt, fileExists);
  }

  /** Two relative weight file paths with the same base name resolve alike. */
  lemma SameFileSameResolution(m1: string, m2: string, ckpt: string, fileExists: string -> bool)
    requires EndsWith(m1, ".pth") && EndsWith(m2, ".pth") && !IsAbs(m1) && !IsAbs(m2)
    requires Basename(m1) == Basename(m2)
    ensures ResolveModel(m1, ckpt, fileExists) == ResolveModel(m2, ckpt, fileExists)
  {
  }
}
