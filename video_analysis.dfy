/**
 * The video adapter's `analyze_video`: decoded frames are sampled at the
 * target rate, each sampled frame is scored by the network and checked for
 * being black or flat, the scores are aggregated into a verdict, smoothed,
 * and scanned for suspicious segments, each of which gets a peak frame and
 * a keyframe file name.  Progress values go to an optional callback.
 *
 * The decoder is abstracted to a `Video` value: whether it opened, the frame
 * rate and frame count it reports, and the decoded frames.  A decoded frame
 * is its gray levels together with the network's answer to each calling
 * convention.
 */
module VideoAnalysis {

  import opened Wrappers
  import opened Strings
  import opened Sampling
  import opened Smoothing
  import opened Segments
  import Quality
  import opened Inference
  import opened Stats
  import WeightRegistry

  datatype Frame = Frame(gray: seq<int>, answer: CallForm -> CallOutcome)

  datatype Video = Video(isOpened: bool, reportedFps: real, reportedFrameCount: real, frames: seq<Frame>)

  datatype ScoreEntry = ScoreEntry(frame: nat, timestamp: real, probability: real, isAnomalous: bool)

  datatype SegmentRecord = SegmentRecord(
    start: real, end: real, duration: real,
    peakScore: real, peakTime: real, keyframeIdx: nat, keyframePath: string)

  datatype Analysis = Analysis(
    model: string, modelName: string,
    overallScore: real, averageScore: real, threshold: real,
    totalFrames: nat, fps: real,
    segments: seq<SegmentRecord>, frameScores: seq<ScoreEntry>,
    verdict: string, confidence: real)

  /** `{"success": True, …}` or `{"success": False, "error": "No frames processed"}`. */
  datatype Outcome = Success(analysis: Analysis) | NoFramesProcessed

  /** The exceptions `analyze_video` lets escape. */
  datatype AnalysisError =
    | OpenFailed               // RuntimeError: the capture did not open
    | ZeroFps                  // ZeroDivisionError in `source_fps / fps`
    | ProgressDivisionByZero   // ZeroDivisionError in `frame_idx / total_frames`
    | InferenceFailed(e: InferenceError)

  // ---------------------------------------------------------------------------
  // The detector table of the adapter.

  /** `AVAILABLE_MODELS`: key and display name, in declaration order. */
  const AvailableModels: seq<(string, string)> := [
    ("xception", "Xception"), ("meso4", "MesoNet-4"), ("f3net", "F3Net"),
    ("efficientnetb4", "EfficientNet-B4"), ("capsule_net", "Capsule Net"),
    ("recce", "RECCE"), ("spsl", "SPSL"), ("ucf", "UCF"),
    ("multi_attention", "CNN-AUG"), ("core", "CORE"), ("srm", "SRM"),
    ("meso4Inception", "MesoNet-4 Inception")
  ]

  /** `AVAILABLE_MODELS.get(key, {}).get("name", key)`. */
  function ModelName(key: string): (r: string)
    ensures (exists i :: 0 <= i < |AvailableModels| && AvailableModels[i].0 == key) ==>
              exists i :: 0 <= i < |AvailableModels| && AvailableModels[i] == (key, r)
    ensures (forall i :: 0 <= i < |AvailableModels| ==> AvailableModels[i].0 != key) ==> r == key
  {
    NameIn(AvailableModels, key)
  }

  function NameIn(table: seq<(string, string)>, key: string): (r: string)
    ensures (exists i :: 0 <= i < |table| && table[i].0 == key) ==>
              exists i :: 0 <= i < |table| && table[i] == (key, r)
    ensures (forall i :: 0 <= i < |table| ==> table[i].0 != key) ==> r == key
  {
    if table == [] then key
    else if table[0].0 == key then table[0].1
    else NameIn(table[1..], key)
  }

  /** Where each detector of the adapter's table sits among the twelve expected ones. */
  const ExpectedIndex: seq<nat> := [0, 1, 3, 4, 5, 7, 8, 9, 10, 11, 6, 2]

  /**
   * The adapter's table lists the twelve detectors the weight table is
   * expected to hold, so the exact-key lookup finds weights for each.
   */
  lemma {:induction false} AvailableModelsHaveWeights()
    ensures |AvailableModels| == |WeightRegistry.ExpectedKeys|
    ensures forall i :: 0 <= i < |AvailableModels| ==> AvailableModels[i].0 in WeightRegistry.ExpectedKeys
    ensures forall i :: 0 <= i < |AvailableModels| ==>
              WeightRegistry.FindByModelKey(WeightRegistry.Registry, AvailableModels[i].0, false).Some?
  {
    WeightRegistry.ExpectedKeysPresent();
    AvailableKeysExpected();
    forall i | 0 <= i < |AvailableModels|
      ensures AvailableModels[i].0 in WeightRegistry.ExpectedKeys
      ensures WeightRegistry.FindByModelKey(WeightRegistry.Registry, AvailableModels[i].0, false).Some?
    {
      var e := ExpectedIndex[i];
      assert AvailableModels[i].0 == WeightRegistry.ExpectedKeys[e];
    }
  }

  /** The adapter's keys, entry by entry, are the expected keys in the order `ExpectedIndex` gives. */
  lemma AvailableKeysExpected()
    ensures |AvailableModels| == |ExpectedIndex| == |WeightRegistry.ExpectedKeys|
    ensures forall i :: 0 <= i < |AvailableModels| ==>
              ExpectedIndex[i] < |WeightRegistry.ExpectedKeys| &&
              AvailableModels[i].0 == WeightRegistry.ExpectedKeys[ExpectedIndex[i]]
  {
  }

  /**
   * "ffd" has weights in the registry but no entry in the adapter's table,
   * so its display name falls back to the bare key.
   */
  lemma {:induction false} FfdHasNoDisplayName()
    ensures WeightRegistry.Registry[9].1.modelKey == "ffd"
    ensures ModelName("ffd") == "ffd"
  {
    forall i | 0 <= i < |AvailableModels| ensures AvailableModels[i].0 != "ffd" {
      assert AvailableModels[i].0[0] != 'f' || |AvailableModels[i].0| != 3;
    }
  }

  datatype LoadError = UnknownModelKey | WeightsNotFound(path: string)

  const WeightsDir: string := "models/vendors/DeepfakeBench/training/weights"

  /**
   * `_load_model` up to building the network: the first registry entry whose
   * model_key equals the key exactly gives the weight file and input size;
   * `fileExists` stands for the file-system probe.
   */
  function LoadModel(key: string, fileExists: string -> bool): (r: Result<(string, nat), LoadError>)
    ensures r == Err(UnknownModelKey) <==> WeightRegistry.FindByModelKey(WeightRegistry.Registry, key, false).None?
    ensures r.Ok? ==>
              exists k :: 0 <= k < |WeightRegistry.Registry| &&
                WeightRegistry.Registry[k].1.modelKey == key &&
                r.value == (WeightsDir + "/" + WeightRegistry.Registry[k].0, WeightRegistry.Registry[k].1.inputSize) &&
                fileExists(r.value.0)
  {
    match WeightRegistry.FindByModelKey(WeightRegistry.Registry, key, false)
    case None => Err(UnknownModelKey)
    case Some(k) =>
      var path := WeightsDir + "/" + WeightRegistry.Registry[k].0;
      if fileExists(path) then Ok((path, WeightRegistry.Registry[k].1.inputSize)) else Err(WeightsNotFound(path))
  }

  // ---------------------------------------------------------------------------
  // Specification of the sampling loop.

  /**
   * Scoring the first `count` sampled frames (`Subsample(frames, step)`, so
   * sampled frame k is decoded frame `k · step`): frame k is stamped `k / fps`
   * and carries the network's probability and the black-or-flat flag; the
   * first failing network call ends the scan.
   */
  function ScanFrames(sampled: seq<Frame>, fps: real, act: Activations, count: nat)
    : (r: Result<seq<ScoreEntry>, InferenceError>)
    requires fps != 0.0 && count <= |sampled|
    ensures r.Ok? ==> |r.value| == count
  {
    if count == 0 then Ok([])
    else
      match ScanFrames(sampled, fps, act, count - 1)
      case Err(e) => Err(e)
      case Ok(prev) =>
        var k := count - 1;
        match AdapterProbability(sampled[k].answer, act, k + 1)
        case Err(e) => Err(e)
        case Ok(p) => Ok(prev + [ScoreEntry(k, Timestamp(k, fps), p, Quality.IsBlackOrLowContrast(sampled[k].gray))])
  }

  /**
   * The k-th score entry is frame k, stamped `k / fps`, with the probability
   * the network gives the k-th sampled frame and that frame's flag: the flag
   * never alters the probability.
   */
  lemma {:induction false} ScanContents(sampled: seq<Frame>, fps: real, act: Activations, count: nat, k: nat)
    requires fps != 0.0 && count <= |sampled|
    requires ScanFrames(sampled, fps, act, count).Ok? && k < count
    ensures var e := ScanFrames(sampled, fps, act, count).value[k];
      e.frame == k && e.timestamp == Timestamp(k, fps) &&
      AdapterProbability(sampled[k].answer, act, k + 1) == Ok(e.probability) &&
      e.isAnomalous == Quality.IsBlackOrLowContrast(sampled[k].gray)
  {
    if k < count - 1 {
      ScanContents(sampled, fps, act, count - 1, k);
    }
  }

  /** Once the scan has failed, scanning further frames reports the same exception. */
  lemma {:induction false} ScanErrorPersists(sampled: seq<Frame>, fps: real, act: Activations, count: nat, count': nat)
    requires fps != 0.0 && count <= count' <= |sampled|
    requires ScanFrames(sampled, fps, act, count).Err?
    ensures ScanFrames(sampled, fps, act, count') == ScanFrames(sampled, fps, act, count)
    decreases count' - count
  {
    if count < count' {
      ScanErrorPersists(sampled, fps, act, count, count' - 1);
    }
  }

  /** The scan succeeds iff the network answers every sampled frame. */
  lemma {:induction false} ScanSucceeds(sampled: seq<Frame>, fps: real, act: Activations, count: nat)
    requires fps != 0.0 && count <= |sampled|
    ensures ScanFrames(sampled, fps, act, count).Ok? <==>
              forall k :: 0 <= k < count ==> AdapterProbability(sampled[k].answer, act, k + 1).Ok?
  {
    SucceededScanAnswered(sampled, fps, act, count);
    AnsweredScanSucceeds(sampled, fps, act, count);
  }

  lemma {:induction false} SucceededScanAnswered(sampled: seq<Frame>, fps: real, act: Activations, count: nat)
    requires fps != 0.0 && count <= |sampled|
    ensures ScanFrames(sampled, fps, act, count).Ok? ==>
              forall k :: 0 <= k < count ==> AdapterProbability(sampled[k].answer, act, k + 1).Ok?
  {
    if ScanFrames(sampled, fps, act, count).Ok? {
      forall k | 0 <= k < count
        ensures AdapterProbability(sampled[k].answer, act, k + 1).Ok?
      {
        ScannedAnswered(sampled, fps, act, k, count);
      }
    }
  }

  lemma ScannedAnswered(sampled: seq<Frame>, fps: real, act: Activations, k: nat, count: nat)
    requires fps != 0.0 && k < count <= |sampled|
    requires ScanFrames(sampled, fps, act, count).Ok?
    ensures AdapterProbability(sampled[k].answer, act, k + 1).Ok?
  {
    ScanPrefixOk(sampled, fps, act, k + 1, count);
    ScanOkLast(sampled, fps, act, k + 1);
  }

  /** A scan that succeeds succeeded on every shorter prefix too. */
  lemma ScanPrefixOk(sampled: seq<Frame>, fps: real, act: Activations, j: nat, count: nat)
    requires fps != 0.0 && j <= count <= |sampled|
    requires ScanFrames(sampled, fps, act, count).Ok?
    ensures ScanFrames(sampled, fps, act, j).Ok?
  {
    if ScanFrames(sampled, fps, act, j).Err? {
      ScanErrorPersists(sampled, fps, act, j, count);
    }
  }

  lemma ScanOkLast(sampled: seq<Frame>, fps: real, act: Activations, count: nat)
    requires fps != 0.0 && 0 < count <= |sampled|
    requires ScanFrames(sampled, fps, act, count).Ok?
    ensures AdapterProbability(sampled[count - 1].answer, act, count).Ok?
  {
  }

  /** A scan of `count` frames succeeds exactly when the scan of one frame fewer does and the last frame is answered. */
  lemma ScanOkStep(sampled: seq<Frame>, fps: real, act: Activations, count: nat)
    requires fps != 0.0 && 0 < count <= |sampled|
    ensures ScanFrames(sampled, fps, act, count).Ok? <==>
              ScanFrames(sampled, fps, act, count - 1).Ok? && AdapterProbability(sampled[count - 1].answer, act, count).Ok?
  {
  }

  lemma {:induction false} AnsweredScanSucceeds(sampled: seq<Frame>, fps: real, act: Activations, count: nat)
    requires fps != 0.0 && count <= |sampled|
    ensures (forall k :: 0 <= k < count ==> AdapterProbability(sampled[k].answer, act, k + 1).Ok?) ==>
              ScanFrames(sampled, fps, act, count).Ok?
  {
    if count > 0 {
      AnsweredScanSucceeds(sampled, fps, act, count - 1);
      ScanOkStep(sampled, fps, act, count);
    }
  }

  // ---------------------------------------------------------------------------
  // Progress reports during sampling.

  /** The callback fires after the c-th scored frame (counting from 1) when c < 30 or c is a multiple of 3. */
  predicate Reports(c: nat) {
    c < 30 || c % 3 == 0
  }

  /** The decoded-frame indices at which the callback fires while the first `count` frames are scored. */
  function ReportedFrames(step: nat, count: nat): (r: seq<nat>)
    ensures |r| <= count
    ensures count < 30 ==> |r| == count
  {
    if count == 0 then []
    else ReportedFrames(step, count - 1) + (if Reports(count) then [(count - 1) * step] else [])
  }

  /** `30 + int((frame_idx / total_frames) * 50)`. */
  function ProgressValue(frameIdx: nat, total: int): int
    requires total != 0
  {
    30 + Trunc(frameIdx as real / total as real * 50.0)
  }

  function ProgressValues(fis: seq<nat>, total: int): (r: seq<int>)
    requires total != 0
    ensures |r| == |fis|
    ensures forall j :: 0 <= j < |fis| ==> r[j] == ProgressValue(fis[j], total)
  {
    if fis == [] then [] else ProgressValues(fis[..|fis| - 1], total) + [ProgressValue(fis[|fis| - 1], total)]
  }

  /** The progress reported while scoring a frame below the reported frame count lies in [30, 80). */
  lemma {:induction false} ProgressValueBounds(frameIdx: nat, total: int)
    requires frameIdx < total
    ensures 30 <= ProgressValue(frameIdx, total) < 80
  {
    var x := frameIdx as real / total as real;
    assert x * total as real == frameIdx as real;
    assert 0.0 <= x < 1.0;
  }

  lemma {:induction false} ProgressValueMono(a: nat, b: nat, total: int)
    requires a <= b && total > 0
    ensures ProgressValue(a, total) <= ProgressValue(b, total)
  {
    var t := total as real;
    assert a as real / t <= b as real / t by {
      assert (b as real - a as real) / t >= 0.0;
    }
  }

  /** The reported frames are increasing and all lie among the first `count` sampled frames. */
  lemma {:induction false} ReportedFramesIncrease(step: nat, count: nat)
    requires step >= 1
    ensures forall j :: 0 <= j < |ReportedFrames(step, count)| ==> ReportedFrames(step, count)[j] <= (count - 1) * step
    ensures forall i, j :: 0 <= i < j < |ReportedFrames(step, count)| ==> ReportedFrames(step, count)[i] < ReportedFrames(step, count)[j]
  {
    if count > 0 {
      ReportedFramesIncrease(step, count - 1);
      if count > 1 {
        assert (count - 2) * step < (count - 1) * step;
      }
    }
  }

  /**
   * While the decoded frames stay below the reported frame count, the
   * progress values never decrease and stay within [30, 80).
   */
  lemma {:induction false} ProgressWithinAnalysisBand(step: nat, count: nat, total: int)
    requires step >= 1 && total > 0 && (count - 1) * step < total
    ensures var p := ProgressValues(ReportedFrames(step, count), total);
      (forall j :: 0 <= j < |p| ==> 30 <= p[j] < 80) &&
      (forall i, j :: 0 <= i <= j < |p| ==> p[i] <= p[j])
  {
    var fis := ReportedFrames(step, count);
    ReportedFramesIncrease(step, count);
    var p := ProgressValues(fis, total);
    forall j | 0 <= j < |p| ensures 30 <= p[j] < 80 {
      ProgressValueBounds(fis[j], total);
    }
    forall i, j | 0 <= i <= j < |p| ensures p[i] <= p[j] {
      ProgressValueMono(fis[i], fis[j], total);
    }
  }

  datatype Scan = Scan(scores: seq<ScoreEntry>, progress: seq<int>)

  /**
   * The sampling loop as a whole.  The first sampled frame is scored before
   * the first report, so a failing network call there wins over a frame
   * count of zero; with a callback and a frame count of zero the first
   * report divides by zero; otherwise the first failing call is raised.
   */
  function SampleAndScore(frames: seq<Frame>, step: nat, fps: real, total: int, callback: bool, act: Activations)
    : (r: Result<Scan, AnalysisError>)
    requires step >= 1 && fps != 0.0
    ensures r.Ok? ==> |r.value.scores| == CeilDiv(|frames|, step)
  {
    var sampled := Subsample(frames, step);
    var n := |sampled|;
    if n > 0 && ScanFrames(sampled, fps, act, 1).Err? then
      Err(InferenceFailed(ScanFrames(sampled, fps, act, 1).error))
    else if callback && total == 0 && n > 0 then Err(ProgressDivisionByZero)
    else
      match ScanFrames(sampled, fps, act, n)
      case Err(e) => Err(InferenceFailed(e))
      case Ok(scores) =>
        Ok(Scan(scores, ProgressSoFar(step, n, total, callback)))
  }

  /**
   * How many of the first `n` sampled frames the network answers before its
   * first failure: a scan of that many succeeds and one frame more fails.
   */
  function Answered(sampled: seq<Frame>, fps: real, act: Activations, n: nat): (c: nat)
    requires fps != 0.0 && n <= |sampled|
    ensures c <= n && ScanFrames(sampled, fps, act, c).Ok?
    ensures c < n ==> ScanFrames(sampled, fps, act, c + 1).Err?
  {
    if n == 0 then 0
    else if ScanFrames(sampled, fps, act, n).Ok? then n
    else Answered(sampled, fps, act, n - 1)
  }

  /** A successful prefix followed by a failing frame (or the end) is the answered count. */
  lemma {:induction false} AnsweredIs(sampled: seq<Frame>, fps: real, act: Activations, c: nat, n: nat)
    requires fps != 0.0 && c <= n <= |sampled|
    requires ScanFrames(sampled, fps, act, c).Ok?
    requires c < n ==> ScanFrames(sampled, fps, act, c + 1).Err?
    ensures Answered(sampled, fps, act, n) == c
    decreases n
  {
    if c < n {
      ScanErrorPersists(sampled, fps, act, c + 1, n);
      AnsweredIs(sampled, fps, act, c, n - 1);
    }
  }

  /**
   * The progress values handed to the callback by the time the sampling loop
   * ends, whether it completes or raises: the reports due for the frames the
   * network answered, and none when the first report divides by zero.
   */
  function ProgressReported(frames: seq<Frame>, step: nat, fps: real, total: int, callback: bool, act: Activations)
    : seq<int>
    requires step >= 1 && fps != 0.0
  {
    var sampled := Subsample(frames, step);
    if callback && total == 0 then []
    else ProgressSoFar(step, Answered(sampled, fps, act, |sampled|), total, callback)
  }

  // ---------------------------------------------------------------------------
  // Aggregation.

  function Probabilities(scores: seq<ScoreEntry>): (r: seq<real>)
    ensures |r| == |scores|
    ensures forall i :: 0 <= i < |r| ==> r[i] == scores[i].probability
  {
    seq(|scores|, i requires 0 <= i < |scores| => scores[i].probability)
  }

  function Timestamps(scores: seq<ScoreEntry>): (r: seq<real>)
    ensures |r| == |scores|
    ensures forall i :: 0 <= i < |r| ==> r[i] == scores[i].timestamp
  {
    seq(|scores|, i requires 0 <= i < |scores| => scores[i].timestamp)
  }

  /** The probabilities of the frames not flagged as black or flat, in order. */
  function ValidProbabilities(scores: seq<ScoreEntry>): (r: seq<real>)
    ensures |r| <= |scores|
    ensures |r| == 0 <==> forall i :: 0 <= i < |scores| ==> scores[i].isAnomalous
    ensures forall j :: 0 <= j < |r| ==>
              exists i :: 0 <= i < |scores| && !scores[i].isAnomalous && scores[i].probability == r[j]
  {
    if scores == [] then []
    else
      var rest := ValidProbabilities(scores[..|scores| - 1]);
      var last := scores[|scores| - 1];
      if last.isAnomalous then rest else rest + [last.probability]
  }

  /** `overall_score`: the mean over the valid frames, or over all frames when every frame is flagged. */
  function OverallScore(scores: seq<ScoreEntry>): real
    requires |scores| > 0
  {
    var valid := ValidProbabilities(scores);
    if |valid| > 0 then Mean(valid) else Mean(Probabilities(scores))
  }

  /** `"FAKE" if overall_score >= threshold else "REAL"`. */
  function Verdict(overall: real, threshold: real): (r: string)
    ensures r == "FAKE" <==> overall >= threshold
    ensures r == "REAL" <==> overall < threshold
  {
    if overall >= threshold then "FAKE" else "REAL"
  }

  /** If every probability lies in `[lo, hi]`, so does the overall score. */
  lemma {:induction false} OverallScoreWithin(scores: seq<ScoreEntry>, lo: real, hi: real)
    requires |scores| > 0
    requires forall i :: 0 <= i < |scores| ==> lo <= scores[i].probability <= hi
    ensures lo <= OverallScore(scores) <= hi
  {
    var valid := ValidProbabilities(scores);
    if |valid| > 0 {
      forall j | 0 <= j < |valid| ensures lo <= valid[j] <= hi {
        var i :| 0 <= i < |scores| && !scores[i].isAnomalous && scores[i].probability == valid[j];
      }
      MeanWithin(valid, lo, hi);
    } else {
      MeanWithin(Probabilities(scores), lo, hi);
    }
  }

  /** Agreement on flags and on the probabilities of unflagged frames. */
  predicate AgreeOnValid(s1: seq<ScoreEntry>, s2: seq<ScoreEntry>) {
    |s1| == |s2| &&
    forall i :: 0 <= i < |s1| ==>
      s1[i].isAnomalous == s2[i].isAnomalous &&
      (!s1[i].isAnomalous ==> s1[i].probability == s2[i].probability)
  }

  lemma {:induction false} ValidProbabilitiesAgree(s1: seq<ScoreEntry>, s2: seq<ScoreEntry>)
    requires AgreeOnValid(s1, s2)
    ensures ValidProbabilities(s1) == ValidProbabilities(s2)
  {
    if s1 != [] {
      assert AgreeOnValid(s1[..|s1| - 1], s2[..|s2| - 1]);
      ValidProbabilitiesAgree(s1[..|s1| - 1], s2[..|s2| - 1]);
    }
  }

  /**
   * The flag never changes a probability but excludes it: as long as one frame
   * is unflagged, what the flagged frames scored does not affect the overall score.
   */
  lemma {:induction false} FlaggedFramesExcluded(s1: seq<ScoreEntry>, s2: seq<ScoreEntry>, i: nat)
    requires AgreeOnValid(s1, s2)
    requires i < |s1| && !s1[i].isAnomalous
    ensures OverallScore(s1) == OverallScore(s2)
  {
    ValidProbabilitiesAgree(s1, s2);
  }

  // ---------------------------------------------------------------------------
  // Segment records.

  /** `keyframes/segment_{k}_keyframe.jpg`. */
  function KeyframePath(k: nat): string {
    "keyframes/segment_" + NatToString(k) + "_keyframe.jpg"
  }

  /** Different segments never share a keyframe file. */
  lemma {:induction false} KeyframePathsDistinct(a: nat, b: nat)
    requires a != b
    ensures KeyframePath(a) != KeyframePath(b)
  {
    var pa, pb := KeyframePath(a), KeyframePath(b);
    assert pa[18..|pa| - 13] == NatToString(a);
    assert pb[18..|pb| - 13] == NatToString(b);
    NatToStringRoundTrip(a);
    NatToStringRoundTrip(b);
  }

  /**
   * One segment dictionary: its bounds in seconds, the first frame of the run
   * with the highest raw probability as peak, the smoothed score there, and
   * the keyframe name for the k-th segment.
   */
  function SegmentRecordOf(scores: seq<ScoreEntry>, smoothed: seq<real>, run: Run, k: nat): (r: SegmentRecord)
    requires run.start <= run.end < |scores| == |smoothed|
    ensures run.start <= r.keyframeIdx <= run.end
    ensures r.start == scores[run.start].timestamp && r.end == scores[run.end].timestamp
    ensures r.duration == r.end - r.start
    ensures r.peakScore == smoothed[r.keyframeIdx] && r.peakTime == scores[r.keyframeIdx].timestamp
    ensures forall j :: run.start <= j <= run.end ==> scores[j].probability <= scores[r.keyframeIdx].probability
    ensures forall j :: run.start <= j < r.keyframeIdx ==> scores[j].probability < scores[r.keyframeIdx].probability
    ensures r.keyframePath == KeyframePath(k)
  {
    var probs := Probabilities(scores)[run.start..run.end + 1];
    var peak := run.start + FirstArgMax(probs);
    assert forall j :: run.start <= j <= run.end ==> probs[j - run.start] == scores[j].probability;
    var startTs, endTs := scores[run.start].timestamp, scores[run.end].timestamp;
    SegmentRecord(startTs, endTs, endTs - startTs, smoothed[peak], scores[peak].timestamp, peak, KeyframePath(k))
  }

  /** The segments in order; the k-th (from 1) is named after k. */
  function SegmentRecords(scores: seq<ScoreEntry>, smoothed: seq<real>, runs: seq<Run>): (r: seq<SegmentRecord>)
    requires |scores| == |smoothed| && RunsWithin(runs, |scores|)
    ensures |r| == |runs|
    ensures forall a :: 0 <= a < |runs| ==> r[a] == SegmentRecordOf(scores, smoothed, runs[a], a + 1)
  {
    seq(|runs|, a requires 0 <= a < |runs| => SegmentRecordOf(scores, smoothed, runs[a], a + 1))
  }

  // ---------------------------------------------------------------------------
  // The analysis.

  /** The smoothed series: a window of 5, or the raw scores when fewer than 5 frames were scored. */
  function Smoothed5(probs: seq<real>): (r: seq<real>)
    ensures |r| == |probs|
    ensures |probs| < 5 ==> r == probs
  {
    Smooth(probs, 5).value
  }

  /**
   * The sampling loop of `analyze_video`: walks the decoded frames, scores
   * every `step`-th one and reports progress, stopping at the first exception.
   * `reported` is the progress handed to the callback on the way, which on
   * success is the progress of the scan.
   */
  method ScanVideo(frames: seq<Frame>, step: nat, fps: real, total: int, callback: bool, act: Activations)
    returns (r: Result<Scan, AnalysisError>, reported: seq<int>)
    requires step >= 1 && fps != 0.0
    ensures r == SampleAndScore(frames, step, fps, total, callback, act)
    ensures reported == ProgressReported(frames, step, fps, total, callback, act)
    ensures r.Ok? ==> reported == r.value.progress
  {
    var scores: seq<ScoreEntry> := [];
    var progress: seq<int> := [];
    var frameIdx := 0;
    var outputIdx := 0;
    while frameIdx < |frames|
      invariant 0 <= frameIdx <= |frames|
      invariant Scanning(frames, step, fps, total, callback, act, frameIdx, outputIdx, scores, progress)
    {
      var stop;
      stop, outputIdx, scores, progress :=
        ScanStep(frames, step, fps, total, callback, act, frameIdx, outputIdx, scores, progress);
      if stop.Some? {
        return Err(stop.value), progress;
      }
      frameIdx := frameIdx + 1;
    }
    CompletedPath(frames, step, fps, total, callback, act, outputIdx, scores, progress);
    r, reported := Ok(Scan(scores, progress)), progress;
  }

  /**
   * What the sampling loop knows after `frameIdx` decoded frames: `count`
   * of them were scored, the scores are those of the first `count` sampled
   * frames, and the progress values are the ones reported so far.
   */
  predicate Scanning(frames: seq<Frame>, step: nat, fps: real, total: int, callback: bool, act: Activations,
                     frameIdx: nat, count: nat, scores: seq<ScoreEntry>, progress: seq<int>)
    requires step >= 1 && fps != 0.0
  {
    count == ScoredBefore(frameIdx, step) <= |Subsample(frames, step)| &&
    ScanFrames(Subsample(frames, step), fps, act, count) == Ok(scores) &&
    (count > 0 ==> ScanFrames(Subsample(frames, step), fps, act, 1).Ok?) &&
    (callback && total == 0 ==> count == 0) &&
    progress == ProgressSoFar(step, count, total, callback)
  }

  /**
   * One pass of the sampling loop over decoded frame `frameIdx`: a frame on
   * the step is scored and may report progress; an exception stops the scan
   * with the outcome of the whole call.
   */
  method ScanStep(frames: seq<Frame>, step: nat, fps: real, total: int, callback: bool, act: Activations,
                  frameIdx: nat, count: nat, scores: seq<ScoreEntry>, progress: seq<int>)
    returns (stop: Option<AnalysisError>, count': nat, scores': seq<ScoreEntry>, progress': seq<int>)
    requires step >= 1 && fps != 0.0 && frameIdx < |frames|
    requires Scanning(frames, step, fps, total, callback, act, frameIdx, count, scores, progress)
    ensures stop.Some? ==> SampleAndScore(frames, step, fps, total, callback, act) == Err(stop.value) &&
                           progress' == ProgressReported(frames, step, fps, total, callback, act)
    ensures stop.None? ==> Scanning(frames, step, fps, total, callback, act, frameIdx + 1, count', scores', progress')
  {
    AdvanceFrame(frames, step, frameIdx);
    if frameIdx % step == 0 {
      stop, count', scores', progress' := ScoreFrame(frames, step, fps, total, callback, act, frameIdx, count, scores, progress);
    } else {
      stop, count', scores', progress' := None, count, scores, progress;
    }
  }

  /** The pass over a decoded frame on the step: it is the next sampled frame, and gets scored. */
  method ScoreFrame(frames: seq<Frame>, step: nat, fps: real, total: int, callback: bool, act: Activations,
                    frameIdx: nat, count: nat, scores: seq<ScoreEntry>, progress: seq<int>)
    returns (stop: Option<AnalysisError>, count': nat, scores': seq<ScoreEntry>, progress': seq<int>)
    requires step >= 1 && fps != 0.0 && frameIdx < |frames| && frameIdx % step == 0
    requires Scanning(frames, step, fps, total, callback, act, frameIdx, count, scores, progress)
    requires count < |Subsample(frames, step)| && Subsample(frames, step)[count] == frames[frameIdx]
    requires ScoredBefore(frameIdx + 1, step) == count + 1
    ensures stop.Some? ==> SampleAndScore(frames, step, fps, total, callback, act) == Err(stop.value) &&
                           progress' == ProgressReported(frames, step, fps, total, callback, act)
    ensures stop.None? ==> Scanning(frames, step, fps, total, callback, act, frameIdx + 1, count', scores', progress')
  {
    var prob := AdapterProbability(frames[frameIdx].answer, act, count + 1);
    if prob.Err? {
      StopAtFailure(frames, step, fps, total, callback, act, count);
      return Some(InferenceFailed(prob.error)), count, scores, progress;
    }
    stop, count', scores', progress' := RecordScore(frames, step, fps, total, callback, act, frameIdx, count, scores, progress);
  }

  /** A frame the network answered: its entry is appended, and the progress reported when it is due. */
  method RecordScore(frames: seq<Frame>, step: nat, fps: real, total: int, callback: bool, act: Activations,
                     frameIdx: nat, count: nat, scores: seq<ScoreEntry>, progress: seq<int>)
    returns (stop: Option<AnalysisError>, count': nat, scores': seq<ScoreEntry>, progress': seq<int>)
    requires step >= 1 && fps != 0.0 && frameIdx < |frames| && frameIdx % step == 0
    requires Scanning(frames, step, fps, total, callback, act, frameIdx, count, scores, progress)
    requires count < |Subsample(frames, step)| && Subsample(frames, step)[count] == frames[frameIdx]
    requires ScoredBefore(frameIdx + 1, step) == count + 1
    requires AdapterProbability(frames[frameIdx].answer, act, count + 1).Ok?
    ensures stop.Some? ==> SampleAndScore(frames, step, fps, total, callback, act) == Err(stop.value) &&
                           progress' == ProgressReported(frames, step, fps, total, callback, act)
    ensures stop.None? ==> Scanning(frames, step, fps, total, callback, act, frameIdx + 1, count', scores', progress')
  {
    var timestamp := Timestamp(count, fps);
    var isAnomalous := Quality.IsBlackOrLowContrast(frames[frameIdx].gray);
    var prob := AdapterProbability(frames[frameIdx].answer, act, count + 1);
    ScanExtends(Subsample(frames, step), fps, act, count, scores);
    scores' := scores + [ScoreEntry(count, timestamp, prob.value, isAnomalous)];
    count' := count + 1;
    stop, progress' := None, progress;
    if callback && Reports(count') {
      if total == 0 {
        DivisionByZeroPath(frames, step, fps, total, callback, act);
        return Some(ProgressDivisionByZero), count', scores', progress;
      }
      progress' := progress + [ProgressValue(frameIdx, total)];
    }
    ScoredNext(frames, step, fps, total, callback, act, frameIdx, count, scores', progress, progress');
  }

  /** The scan state after a scored frame: one more entry, and the report of that frame when one is due. */
  lemma ScoredNext(frames: seq<Frame>, step: nat, fps: real, total: int, callback: bool, act: Activations,
                   frameIdx: nat, count: nat, scores': seq<ScoreEntry>, progress: seq<int>, progress': seq<int>)
    requires step >= 1 && fps != 0.0 && frameIdx % step == 0
    requires ScoredBefore(frameIdx, step) == count && ScoredBefore(frameIdx + 1, step) == count + 1
    requires count < |Subsample(frames, step)| && progress == ProgressSoFar(step, count, total, callback)
    requires ScanFrames(Subsample(frames, step), fps, act, count + 1) == Ok(scores')
    requires !(callback && total == 0)
    requires progress' ==
               progress + (if callback && total != 0 && Reports(count + 1) then [ProgressValue(frameIdx, total)] else [])
    ensures Scanning(frames, step, fps, total, callback, act, frameIdx + 1, count + 1, scores', progress')
  {
    ProgressStep(step, count + 1, total, callback, frameIdx);
    ScanPrefixOk(Subsample(frames, step), fps, act, 1, count + 1);
  }

  /** The progress values handed to the callback once `count` frames are scored. */
  function ProgressSoFar(step: nat, count: nat, total: int, callback: bool): seq<int> {
    if callback && total != 0 then ProgressValues(ReportedFrames(step, count), total) else []
  }

  /** One decoded frame further: the count stays within the sampled frames, and a scored frame is the next one kept. */
  lemma {:induction false} AdvanceFrame(frames: seq<Frame>, step: nat, i: nat)
    requires step >= 1 && i < |frames|
    ensures ScoredBefore(i + 1, step) <= |Subsample(frames, step)|
    ensures i % step == 0 ==>
              ScoredBefore(i, step) < |Subsample(frames, step)| &&
              Subsample(frames, step)[ScoredBefore(i, step)] == frames[i]
  {
    ScoredBeforeIsCeilDiv(i, step);
    ScoredBeforeIsCeilDiv(i + 1, step);
    CeilDivMono(i + 1, |frames|, step);
    if i % step == 0 {
      CeilDivStep(i, step);
      SubsampleAt(frames, step, CeilDiv(i, step));
    }
  }

  /** Scoring sampled frame `count` (from 1) adds its report, if it is due, to the progress so far. */
  lemma {:induction false} ProgressStep(step: nat, count: nat, total: int, callback: bool, frameIdx: nat)
    requires step >= 1 && count >= 1 && frameIdx % step == 0 && ScoredBefore(frameIdx, step) == count - 1
    ensures ProgressSoFar(step, count, total, callback) ==
              ProgressSoFar(step, count - 1, total, callback) +
              (if callback && total != 0 && Reports(count) then [ProgressValue(frameIdx, total)] else [])
  {
    if callback && total != 0 && Reports(count) {
      var fis := ReportedFrames(step, count - 1);
      assert (count - 1) * step == frameIdx by {
        ScoredBeforeIsCeilDiv(frameIdx, step);
        CeilDivStep(frameIdx, step);
      }
      assert (fis + [frameIdx])[..|fis|] == fis;
    }
  }

  /** Scoring the next sampled frame extends a successful scan by its entry. */
  lemma ScanExtends(sampled: seq<Frame>, fps: real, act: Activations, k: nat, prev: seq<ScoreEntry>)
    requires fps != 0.0 && k < |sampled|
    requires ScanFrames(sampled, fps, act, k) == Ok(prev)
    requires AdapterProbability(sampled[k].answer, act, k + 1).Ok?
    ensures ScanFrames(sampled, fps, act, k + 1) ==
              Ok(prev + [ScoreEntry(k, Timestamp(k, fps), AdapterProbability(sampled[k].answer, act, k + 1).value,
                                    Quality.IsBlackOrLowContrast(sampled[k].gray))])
  {}

  /** The first report with a reported frame count of 0 divides by zero once a frame is scored. */
  lemma DivisionByZeroPath(frames: seq<Frame>, step: nat, fps: real, total: int, callback: bool, act: Activations)
    requires step >= 1 && fps != 0.0 && callback && total == 0
    requires 0 < |Subsample(frames, step)| && ScanFrames(Subsample(frames, step), fps, act, 1).Ok?
    ensures SampleAndScore(frames, step, fps, total, callback, act) == Err(ProgressDivisionByZero)
    ensures ProgressReported(frames, step, fps, total, callback, act) == []
  {}

  /** A loop that scores every sampled frame returns those scores and the progress reported on the way. */
  lemma {:induction false} CompletedPath(frames: seq<Frame>, step: nat, fps: real, total: int, callback: bool, act: Activations,
                      count: nat, scores: seq<ScoreEntry>, progress: seq<int>)
    requires step >= 1 && fps != 0.0
    requires Scanning(frames, step, fps, total, callback, act, |frames|, count, scores, progress)
    ensures SampleAndScore(frames, step, fps, total, callback, act) == Ok(Scan(scores, progress))
    ensures ProgressReported(frames, step, fps, total, callback, act) == progress
  {
    ScoredBeforeIsCeilDiv(|frames|, step);
    AnsweredIs(Subsample(frames, step), fps, act, count, count);
  }

  /** A failing network call on sampled frame k is what the sampling loop raises. */
  lemma {:induction false} StopAtFailure(frames: seq<Frame>, step: nat, fps: real, total: int, callback: bool, act: Activations, k: nat)
    requires step >= 1 && fps != 0.0 && k < |Subsample(frames, step)|
    requires ScanFrames(Subsample(frames, step), fps, act, k).Ok?
    requires k > 0 ==> ScanFrames(Subsample(frames, step), fps, act, 1).Ok?
    requires callback && total == 0 ==> k == 0
    requires AdapterProbability(Subsample(frames, step)[k].answer, act, k + 1).Err?
    ensures SampleAndScore(frames, step, fps, total, callback, act) ==
              Err(InferenceFailed(AdapterProbability(Subsample(frames, step)[k].answer, act, k + 1).error))
    ensures ProgressReported(frames, step, fps, total, callback, act) == ProgressSoFar(step, k, total, callback)
  {
    var sampled := Subsample(frames, step);
    var e := AdapterProbability(sampled[k].answer, act, k + 1).error;
    ScanFailsAt(sampled, fps, act, k);
    AnsweredIs(sampled, fps, act, k, |sampled|);
    ScanErrorPersists(sampled, fps, act, k + 1, |sampled|);
    assert ScanFrames(sampled, fps, act, |sampled|) == Err(e);
    assert k == 0 ==> ScanFrames(sampled, fps, act, 1) == Err(e);
  }

  /** The scan fails with the network's error on the first frame it cannot score. */
  lemma ScanFailsAt(sampled: seq<Frame>, fps: real, act: Activations, k: nat)
    requires fps != 0.0 && k < |sampled|
    requires ScanFrames(sampled, fps, act, k).Ok?
    requires AdapterProbability(sampled[k].answer, act, k + 1).Err?
    ensures ScanFrames(sampled, fps, act, k + 1) == Err(AdapterProbability(sampled[k].answer, act, k + 1).error)
  {
  }

  /** What `analyze_video` returns for a non-empty score list. */
  ghost predicate IsAnalysisOf(a: Analysis, scores: seq<ScoreEntry>, modelKey: string, fps: real, threshold: real)
    requires |scores| > 0
  {
    var smoothed := Smoothed5(Probabilities(scores));
    var overall := OverallScore(scores);
    a.model == modelKey &&
    a.modelName == ModelName(modelKey) &&
    a.overallScore == overall &&
    a.averageScore == overall &&
    a.confidence == overall &&
    a.verdict == Verdict(overall, threshold) &&
    a.threshold == threshold &&
    a.fps == fps &&
    a.totalFrames == |scores| &&
    a.frameScores == scores &&
    exists runs :: SegmentsSpec(smoothed, Timestamps(scores), threshold, 1.0, runs) &&
      RunsWithin(runs, |scores|) &&
      a.segments == SegmentRecords(scores, smoothed, runs)
  }

  /** Aggregation, smoothing, the segment scan and the keyframe names, after sampling. */
  method Summarise(scores: seq<ScoreEntry>, modelKey: string, fps: real, threshold: real) returns (a: Analysis)
    requires |scores| > 0
    ensures IsAnalysisOf(a, scores, modelKey, fps, threshold)
  {
    var overall := OverallScore(scores);
    var smoothed := Smoothed5(Probabilities(scores));
    var timestamps := Timestamps(scores);
    var runs := FindRuns(smoothed, timestamps, threshold, 1.0);
    assert RunsWithin(runs, |scores|) by {
      forall i | 0 <= i < |runs| ensures runs[i].start <= runs[i].end < |scores| {
        assert Reported(smoothed, timestamps, threshold, 1.0, runs[i]);
      }
    }
    var segments := SegmentRecords(scores, smoothed, runs);
    a := Analysis(
      modelKey, ModelName(modelKey), overall, overall, threshold, |scores|, fps,
      segments, scores, Verdict(overall, threshold), overall);
  }

  /**
   * `analyze_video`.  The result is the exception raised, if any; otherwise
   * "no frames processed" or the analysis of the scores the sampling loop
   * produced.  `progress` lists the values handed to the callback, also when
   * an exception ends the call.
   */
  method AnalyzeVideo(video: Video, modelKey: string, fps: real, threshold: real, callback: bool, act: Activations)
    returns (r: Result<Outcome, AnalysisError>, progress: seq<int>)
    ensures !video.isOpened ==> r == Err(OpenFailed) && progress == []
    ensures video.isOpened && fps == 0.0 ==> r == Err(ZeroFps) && progress == []
    ensures video.isOpened && fps != 0.0 ==>
      var step := FrameStep(video.reportedFps, fps).value;
      var scan := SampleAndScore(video.frames, step, fps, Trunc(video.reportedFrameCount), callback, act);
      (scan.Err? ==>
        r == Err(scan.error) &&
        progress == ProgressReported(video.frames, step, fps, Trunc(video.reportedFrameCount), callback, act)) &&
      (scan.Ok? && scan.value.scores == [] ==>
        r == Ok(NoFramesProcessed) && progress == scan.value.progress + (if callback then [80] else [])) &&
      (scan.Ok? && scan.value.scores != [] ==>
        progress == scan.value.progress + (if callback then [80, 85, 90] else []) &&
        r.Ok? && r.value.Success? &&
        IsAnalysisOf(r.value.analysis, scan.value.scores, modelKey, fps, threshold))
  {
    progress := [];
    if !video.isOpened {
      return Err(OpenFailed), progress;
    }
    if fps == 0.0 {
      return Err(ZeroFps), progress;
    }
    var step := FrameStep(video.reportedFps, fps).value;
    var scan, reported := ScanVideo(video.frames, step, fps, Trunc(video.reportedFrameCount), callback, act);
    if scan.Err? {
      return Err(scan.error), reported;
    }
    r, progress := Report(scan.value, modelKey, fps, threshold, callback);
  }

  /** What `analyze_video` does with a completed scan: no scores is a failure record, else the summary. */
  method Report(scan: Scan, modelKey: string, fps: real, threshold: real, callback: bool)
    returns (r: Result<Outcome, AnalysisError>, progress: seq<int>)
    ensures scan.scores == [] ==>
              r == Ok(NoFramesProcessed) && progress == scan.progress + (if callback then [80] else [])
    ensures scan.scores != [] ==>
              progress == scan.progress + (if callback then [80, 85, 90] else []) &&
              r.Ok? && r.value.Success? && IsAnalysisOf(r.value.analysis, scan.scores, modelKey, fps, threshold)
  {
    progress := scan.progress;
    if callback {
      progress := progress + [80];
    }
    if scan.scores == [] {
      return Ok(NoFramesProcessed), progress;
    }
    var analysis := Summarise(scan.scores, modelKey, fps, threshold);
    if callback {
      progress := progress + [85, 90];
    }
    r := Ok(Success(analysis));
  }
}
