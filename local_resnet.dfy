/**
 * The local ResNet50 adapter: per-image and per-video aggregation of the
 * network's two-class softmax, and the unified response it formats.  The
 * network is a parameter: an image becomes its (fake, authentic) softmax
 * pair, a video the pair of every decoded frame.  numpy's mean of an empty
 * list is NaN, and every comparison with NaN is false; `Float` keeps that.
 */
module LocalResNet {

  import opened Wrappers
  import opened Strings
  import opened Stats
  import Sampling

  /** A Python float that may be NaN. */
  datatype Float = Finite(value: real) | NaN

  /** `x > c`, false for NaN. */
  predicate Greater(x: Float, c: real) {
    x.Finite? && x.value > c
  }

  /** `x < c`, false for NaN. */
  predicate Less(x: Float, c: real) {
    x.Finite? && x.value < c
  }

  /** `np.mean`, NaN for an empty list. */
  function NpMean(xs: seq<real>): (m: Float)
    ensures m.NaN? <==> xs == []
    ensures m.Finite? ==> m.value == Total(xs) / |xs| as real
  {
    if xs == [] then NaN else Finite(Mean(xs))
  }

  /** Below this confidence a verdict is reported as uncertain. */
  const LowConfidence: real := 0.6

  /** Above this probability a reason is given for the verdict. */
  const StrongProbability: real := 0.7

  function MediaType(mime: string): (t: string)
    ensures t == "video" <==> StartsWith(mime, "video/")
    ensures t == "image" <==> !StartsWith(mime, "video/")
  {
    if StartsWith(mime, "video/") then "video" else "image"
  }

  /** What `_detect_image` / `_detect_video` hand to the formatter. */
  datatype Detection = Detection(
    fakeProbability: Float,
    authenticProbability: Float,
    prediction: int,
    confidence: Float,
    frames: Option<(nat, int)>)   // frames_analyzed, total_frames (videos only)

  /** A frame or image is predicted fake (1) iff its fake probability exceeds 0.5. */
  function Predicted(fake: real): (p: int)
    ensures p == 1 <==> fake > 0.5
    ensures p == 0 <==> fake <= 0.5
  {
    if fake > 0.5 then 1 else 0
  }

  function Larger(a: real, b: real): (m: real)
    ensures m >= a && m >= b && (m == a || m == b)
  {
    if a >= b then a else b
  }

  /** `_detect_image` on the softmax pair (fake, authentic). */
  function DetectImage(fake: real, authentic: real): (d: Detection)
    ensures d.fakeProbability == Finite(fake) && d.authenticProbability == Finite(authentic)
    ensures d.prediction == 1 <==> fake > 0.5
    ensures d.confidence.Finite? && d.confidence.value == Larger(fake, authentic)
    ensures d.frames.None?
  {
    Detection(Finite(fake), Finite(authentic), Predicted(fake), Finite(Larger(fake, authentic)), None)
  }

  /** `max(1, frame_count // 5)`; `//` floors, as Dafny's `/` does for a positive divisor. */
  function SampleInterval(frameCount: int): (k: nat)
    ensures k >= 1
    ensures frameCount >= 10 ==> k == frameCount / 5 && k * 5 <= frameCount < k * 5 + 5
    ensures frameCount < 10 ==> k == 1
  {
    if frameCount / 5 > 1 then frameCount / 5 else 1
  }

  /** The decoded frames whose index is a multiple of the interval, in order. */
  function SampledOutputs(outputs: seq<(real, real)>, interval: nat): (s: seq<(real, real)>)
    requires interval >= 1
    ensures |s| == Sampling.ScoredBefore(|outputs|, interval)
    ensures forall k :: 0 <= k < |s| ==> s[k] in outputs
    decreases |outputs|
  {
    if outputs == [] then []
    else
      var n := |outputs| - 1;
      SampledOutputs(outputs[..n], interval) + (if n % interval == 0 then [outputs[n]] else [])
  }

  /** A video of n decoded frames has ⌈n / interval⌉ of them scored. */
  lemma {:induction false} SampledCount(outputs: seq<(real, real)>, interval: nat)
    requires interval >= 1
    ensures |SampledOutputs(outputs, interval)| == Sampling.CeilDiv(|outputs|, interval)
  {
    Sampling.ScoredBeforeIsCeilDiv(|outputs|, interval);
  }

  /** The per-frame 0/1 predictions. */
  function Predictions(s: seq<(real, real)>): (p: seq<int>)
    ensures |p| == |s| && forall i :: 0 <= i < |s| ==> p[i] == Predicted(s[i].0)
  {
    if s == [] then [] else Predictions(s[..|s| - 1]) + [Predicted(s[|s| - 1].0)]
  }

  /** The per-frame confidences. */
  function Confidences(s: seq<(real, real)>): (c: seq<real>)
    ensures |c| == |s| && forall i :: 0 <= i < |s| ==> c[i] == Larger(s[i].0, s[i].1)
  {
    if s == [] then [] else Confidences(s[..|s| - 1]) + [Larger(s[|s| - 1].0, s[|s| - 1].1)]
  }

  /** `[p for p in preds]` as floats. */
  function AsReals(preds: seq<int>): (r: seq<real>)
    ensures |r| == |preds|
  {
    if preds == [] then [] else AsReals(preds[..|preds| - 1]) + [preds[|preds| - 1] as real]
  }

  /** `[1 - p for p in preds]`. */
  function Flipped(preds: seq<int>): (r: seq<real>)
    ensures |r| == |preds|
  {
    if preds == [] then [] else Flipped(preds[..|preds| - 1]) + [1.0 - preds[|preds| - 1] as real]
  }

  /** How many predictions equal `v`. */
  function CountOf(preds: seq<int>, v: int): (n: nat)
    ensures n <= |preds|
  {
    if preds == [] then 0 else CountOf(preds[..|preds| - 1], v) + (if preds[|preds| - 1] == v then 1 else 0)
  }

  /** `_detect_video`'s aggregation over the sampled frames. */
  function VideoDetection(outputs: seq<(real, real)>, frameCount: int): (d: Detection)
    ensures d.frames == Some((|SampledOutputs(outputs, SampleInterval(frameCount))|, frameCount))
    ensures d.prediction == 1 <==> Greater(d.fakeProbability, 0.5)
  {
    var s := SampledOutputs(outputs, SampleInterval(frameCount));
    var preds := Predictions(s);
    var fake := NpMean(Flipped(preds));
    Detection(fake, NpMean(AsReals(preds)), if Greater(fake, 0.5) then 1 else 0,
              NpMean(Confidences(s)), Some((|s|, frameCount)))
  }

  /** `_detect_video`: read frames until the decoder stops, scoring every `interval`-th one. */
  method DetectVideo(outputs: seq<(real, real)>, frameCount: int) returns (d: Detection)
    ensures d == VideoDetection(outputs, frameCount)
  {
    var interval := SampleInterval(frameCount);
    var predictions: seq<int> := [];
    var confidences: seq<real> := [];
    ghost var sampled: seq<(real, real)> := [];
    var frameIdx := 0;
    while frameIdx < |outputs|
      invariant frameIdx <= |outputs|
      invariant sampled == SampledOutputs(outputs[..frameIdx], interval)
      invariant predictions == Predictions(sampled) && confidences == Confidences(sampled)
    {
      SampledStep(outputs, frameIdx, interval);
      if frameIdx % interval == 0 {
        var (fake, authentic) := outputs[frameIdx];
        AggregatesStep(sampled, outputs[frameIdx]);
        predictions := predictions + [Predicted(fake)];
        confidences := confidences + [Larger(fake, authentic)];
        sampled := sampled + [outputs[frameIdx]];
      }
      frameIdx := frameIdx + 1;
    }
    assert outputs[..frameIdx] == outputs;
    var avgFake := NpMean(Flipped(predictions));
    var avgAuthentic := NpMean(AsReals(predictions));
    var overall := if Greater(avgFake, 0.5) then 1 else 0;
    d := Detection(avgFake, avgAuthentic, overall, NpMean(confidences), Some((|predictions|, frameCount)));
  }

  lemma {:induction false} SampledStep(outputs: seq<(real, real)>, i: nat, interval: nat)
    requires interval >= 1 && i < |outputs|
    ensures SampledOutputs(outputs[..i + 1], interval) ==
            SampledOutputs(outputs[..i], interval) + (if i % interval == 0 then [outputs[i]] else [])
  {
    assert outputs[..i + 1][..i] == outputs[..i];
  }

  lemma {:induction false} AggregatesStep(sampled: seq<(real, real)>, x: (real, real))
    ensures Predictions(sampled + [x]) == Predictions(sampled) + [Predicted(x.0)]
    ensures Confidences(sampled + [x]) == Confidences(sampled) + [Larger(x.0, x.1)]
  {
    assert (sampled + [x])[..|sampled|] == sampled;
  }

  /** The sums behind the two video probabilities count the predictions of each kind. */
  lemma {:induction false} PredictionSums(preds: seq<int>)
    requires forall i :: 0 <= i < |preds| ==> preds[i] == 0 || preds[i] == 1
    ensures Total(Flipped(preds)) == CountOf(preds, 0) as real
    ensures Total(AsReals(preds)) == CountOf(preds, 1) as real
    ensures CountOf(preds, 0) + CountOf(preds, 1) == |preds|
  {
    if preds != [] {
      var front := preds[..|preds| - 1];
      assert forall i :: 0 <= i < |front| ==> front[i] == preds[i];
      PredictionSums(front);
      assert Flipped(preds)[..|preds| - 1] == Flipped(front);
      assert AsReals(preds)[..|preds| - 1] == AsReals(front);
    }
  }

  /**
   * The video "fake_probability" is the fraction of sampled frames predicted
   * authentic and "authentic_probability" the fraction predicted fake; the
   * two add up to 1, and the video is called fake iff most frames were
   * predicted authentic.
   */
  lemma {:induction false} VideoProbabilitiesInverted(outputs: seq<(real, real)>, frameCount: int)
    requires SampledOutputs(outputs, SampleInterval(frameCount)) != []
    ensures var s := SampledOutputs(outputs, SampleInterval(frameCount));
            var n := |s| as real;
            var d := VideoDetection(outputs, frameCount);
            d.fakeProbability == Finite(CountOf(Predictions(s), 0) as real / n) &&
            d.authenticProbability == Finite(CountOf(Predictions(s), 1) as real / n) &&
            d.fakeProbability.value + d.authenticProbability.value == 1.0 &&
            (d.prediction == 1 <==> CountOf(Predictions(s), 0) as real > 0.5 * n)
  {
    var s := SampledOutputs(outputs, SampleInterval(frameCount));
    MeansOfPredictions(Predictions(s));
  }

  /** Over non-empty 0/1 predictions the two means are the fractions of 0s and of 1s. */
  lemma {:induction false} MeansOfPredictions(preds: seq<int>)
    requires preds != [] && forall i :: 0 <= i < |preds| ==> preds[i] == 0 || preds[i] == 1
    ensures var n := |preds| as real;
            NpMean(Flipped(preds)) == Finite(CountOf(preds, 0) as real / n) &&
            NpMean(AsReals(preds)) == Finite(CountOf(preds, 1) as real / n) &&
            NpMean(Flipped(preds)).value + NpMean(AsReals(preds)).value == 1.0 &&
            (NpMean(Flipped(preds)).value > 0.5 <==> CountOf(preds, 0) as real > 0.5 * n)
  {
    PredictionSums(preds);
    var n := |preds| as real;
    var zeros, ones := CountOf(preds, 0) as real, CountOf(preds, 1) as real;
    assert NpMean(Flipped(preds)) == Finite(zeros / n);
    assert NpMean(AsReals(preds)) == Finite(ones / n);
    ShareOfWhole(zeros, ones, n);
  }

  lemma {:induction false} ShareOfWhole(zeros: real, ones: real, n: real)
    requires n > 0.0 && zeros + ones == n
    ensures zeros / n + ones / n == 1.0
    ensures zeros / n > 0.5 <==> zeros > 0.5 * n
  {
    assert zeros / n + ones / n == (zeros + ones) / n;
    FractionOf(zeros / n, zeros, n);
  }

  lemma FractionOf(x: real, part: real, n: real)
    requires n > 0.0 && x * n == part
    ensures x == part / n
    ensures x > 0.5 <==> part > 0.5 * n
  {
  }

  /** The unified response's vendor block. */
  datatype VendorRaw = VendorRaw(
    modelType: string,
    fakeProbability: Float,
    authenticProbability: Float,
    prediction: int,
    confidence: Float,
    device: string,
    frames: Option<(nat, int)>)

  /** The unified response; `reasons` is absent when there is none. */
  datatype Response = Response(
    requestId: string,
    mediaType: string,
    status: string,
    score: Float,
    scoreScale: string,
    models: seq<string>,
    vendorRaw: VendorRaw,
    reasons: Option<seq<string>>)

  /** Whether a response holds only finite numbers, as strict JSON requires. */
  predicate JsonCompliant(r: Response) {
    r.score.Finite? && r.vendorRaw.fakeProbability.Finite? &&
    r.vendorRaw.authenticProbability.Finite? && r.vendorRaw.confidence.Finite?
  }

  /** UNCERTAIN below 0.6 confidence, else FAKE for prediction 1, else AUTHENTIC. */
  function Status(d: Detection): (s: string)
    ensures s == "UNCERTAIN" <==> Less(d.confidence, LowConfidence)
    ensures s == "FAKE" <==> !Less(d.confidence, LowConfidence) && d.prediction == 1
    ensures s == "AUTHENTIC" <==> !Less(d.confidence, LowConfidence) && d.prediction != 1
  {
    if Less(d.confidence, LowConfidence) then "UNCERTAIN"
    else if d.prediction == 1 then "FAKE"
    else "AUTHENTIC"
  }

  const LowConfidenceReason := "Low confidence in prediction"
  const ManipulationReason := "High probability of manipulation detected"
  const AuthenticReason := "High probability of authentic content"

  /** The low-confidence reason first when it applies, then at most one of the two probability reasons. */
  function Reasons(d: Detection): (r: seq<string>)
    ensures |r| <= 2
    ensures LowConfidenceReason in r <==> Less(d.confidence, LowConfidence)
    ensures Less(d.confidence, LowConfidence) ==> r[0] == LowConfidenceReason
    ensures ManipulationReason in r <==> Greater(d.fakeProbability, StrongProbability)
    ensures AuthenticReason in r <==> !Greater(d.fakeProbability, StrongProbability) &&
                                      Greater(d.authenticProbability, StrongProbability)
  {
    (if Less(d.confidence, LowConfidence) then [LowConfidenceReason] else []) +
    (if Greater(d.fakeProbability, StrongProbability) then [ManipulationReason]
     else if Greater(d.authenticProbability, StrongProbability) then [AuthenticReason]
     else [])
  }

  /** Python's `str()` of an int. */
  function IntText(n: int): string {
    if n < 0 then "-" + NatToString(-n) else NatToString(n)
  }

  /**
   * `_format_response`; `hashValue` is Python's per-process `hash(filename)`
   * and `device` the torch device's name.
   */
  function FormatResponse(d: Detection, mediaType: string, filename: string, hashValue: int, device: string): (r: Response)
    ensures r.requestId == "local_" + filename + "_" + IntText(hashValue)
    ensures r.mediaType == mediaType && r.status == Status(d)
    ensures r.score == d.fakeProbability && r.scoreScale == "0-1" && r.models == ["ResNet50"]
    ensures r.vendorRaw.fakeProbability == d.fakeProbability && r.vendorRaw.authenticProbability == d.authenticProbability
    ensures r.vendorRaw.prediction == d.prediction && r.vendorRaw.confidence == d.confidence
    ensures r.vendorRaw.frames.Some? <==> mediaType == "video" && d.frames.Some?
    ensures r.vendorRaw.frames.Some? ==> r.vendorRaw.frames == d.frames
    ensures r.reasons.Some? <==> Reasons(d) != []
    ensures r.reasons.Some? ==> r.reasons.value == Reasons(d)
  {
    var raw := VendorRaw("ResNet50", d.fakeProbability, d.authenticProbability, d.prediction, d.confidence, device,
                         if mediaType == "video" && d.frames.Some? then d.frames else None);
    var reasons := Reasons(d);
    Response("local_" + filename + "_" + IntText(hashValue), mediaType, Status(d), d.fakeProbability, "0-1",
             ["ResNet50"], raw, if reasons != [] then Some(reasons) else None)
  }

  /**
   * `detect`: the MIME type picks the path; a failure to decode the image
   * or the video (the message) propagates unchanged.
   */
  method Detect(mime: string, filename: string, image: Result<(real, real), string>,
                video: Result<(seq<(real, real)>, int), string>, hashValue: int, device: string)
    returns (r: Result<Response, string>)
    ensures MediaType(mime) == "image" ==>
              match image
              case Err(e) => r == Err(e)
              case Ok(p) => r == Ok(FormatResponse(DetectImage(p.0, p.1), "image", filename, hashValue, device))
    ensures MediaType(mime) == "video" ==>
              match video
              case Err(e) => r == Err(e)
              case Ok(v) => r == Ok(FormatResponse(VideoDetection(v.0, v.1), "video", filename, hashValue, device))
  {
    var mediaType := MediaType(mime);
    var d: Detection;
    if mediaType == "image" {
      if image.Err? {
        return Err(image.error);
      }
      d := DetectImage(image.value.0, image.value.1);
    } else {
      if video.Err? {
        return Err(video.error);
      }
      d := DetectVideo(video.value.0, video.value.1);
    }
    return Ok(FormatResponse(d, mediaType, filename, hashValue, device));
  }

  /**
   * A video in which no frame was decoded has NaN probabilities and
   * confidence; every comparison fails, so it is reported AUTHENTIC with no
   * reasons.
   */
  lemma UnreadableVideoReportedAuthentic(frameCount: int, filename: string, hashValue: int, device: string)
    ensures var r := FormatResponse(VideoDetection([], frameCount), "video", filename, hashValue, device);
            r.status == "AUTHENTIC" && r.reasons.None? && r.score.NaN? && r.vendorRaw.frames == Some((0, frameCount))
  {
  }

  /**
   * For a softmax pair (non-negative, summing to 1) the image confidence is
   * at least 0.5, so an image is UNCERTAIN exactly when neither class
   * reaches 0.6; its score lies in [0, 1].
   */
  lemma ImageStatusFromSoftmax(fake: real, authentic: real)
    requires 0.0 <= fake && 0.0 <= authentic && fake + authentic == 1.0
    ensures DetectImage(fake, authentic).confidence.value >= 0.5
    ensures Status(DetectImage(fake, authentic)) == "UNCERTAIN" <==> fake < LowConfidence && authentic < LowConfidence
    ensures Status(DetectImage(fake, authentic)) == "FAKE" <==> fake >= LowConfidence
    ensures Status(DetectImage(fake, authentic)) == "AUTHENTIC" <==> authentic >= LowConfidence
  {
  }
}
