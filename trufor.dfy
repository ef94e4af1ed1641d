/**
 * The TruFor adapter's exact parts: fitting an image into the 512×512
 * network input (resize, then pad on both sides), cutting the padding back
 * off a 512×512 map, the verdict derived from the integrity score, and the
 * noiseprint normalisation.  The network, the pooling head and the
 * interpolations are parameters.
 */
module TruFor {

  import opened Wrappers
  import opened Strings
  import Sampling
  import Stats

  /** The side of the square network input. */
  const Side: nat := 512

  /** Padding on the four sides of the resized image. */
  datatype Padding = Padding(left: nat, right: nat, top: nat, bottom: nat)

  /**
   * The resized width and height: both scaled by 512 / max(W0, H0) and
   * rounded half to even; the longer side becomes exactly 512.
   */
  function ResizedSize(w0: nat, h0: nat): (r: (nat, nat))
    requires w0 > 0 || h0 > 0
    ensures r.0 <= Side && r.1 <= Side
    ensures w0 >= h0 ==> r.0 == Side
    ensures h0 >= w0 ==> r.1 == Side
  {
    var longest := if w0 >= h0 then w0 else h0;
    ScaledSide(w0, longest);
    ScaledSide(h0, longest);
    (Sampling.RoundHalfEven(w0 as real * (Side as real / longest as real)) as nat,
     Sampling.RoundHalfEven(h0 as real * (Side as real / longest as real)) as nat)
  }

  /** A side no longer than the longest one scales to a whole number of pixels in [0, 512]. */
  lemma {:induction false} ScaledSide(side: nat, longest: nat)
    requires 0 < longest && side <= longest
    ensures var x := side as real * (Side as real / longest as real);
            0.0 <= x <= Side as real &&
            0 <= Sampling.RoundHalfEven(x) <= Side &&
            (side == longest ==> Sampling.RoundHalfEven(x) == Side)
  {
    var x := side as real * (Side as real / longest as real);
    assert x == (side as real / longest as real) * Side as real;
    assert side as real / longest as real <= 1.0;
    if side == longest {
      assert x == Side as real;
      Sampling.RoundHalfEvenUnique(x, Side);
    }
  }

  /** `_preprocess_image`'s padding: the slack split in two, the odd pixel going right (bottom). */
  function Pad(w1: nat, h1: nat): (p: Padding)
    requires w1 <= Side && h1 <= Side
    ensures p.left + w1 + p.right == Side && p.top + h1 + p.bottom == Side
    ensures p.right - p.left == 0 || p.right - p.left == 1
    ensures p.bottom - p.top == 0 || p.bottom - p.top == 1
  {
    var padW, padH := Side - w1, Side - h1;
    Padding(padW / 2, padW - padW / 2, padH / 2, padH - padH / 2)
  }

  /** A square map of the network's side. */
  predicate IsSquareMap(m: seq<seq<real>>) {
    |m| == Side && forall i :: 0 <= i < |m| ==> |m[i]| == Side
  }

  /** `_restore_to_orig`'s crop: rows [top, 512 − bottom) and columns [left, 512 − right). */
  function Crop(m: seq<seq<real>>, p: Padding): (r: seq<seq<real>>)
    requires IsSquareMap(m)
    requires p.left + p.right <= Side && p.top + p.bottom <= Side
    ensures |r| == Side - p.top - p.bottom
    ensures forall i :: 0 <= i < |r| ==> |r[i]| == Side - p.left - p.right
    ensures forall i, j :: 0 <= i < |r| && 0 <= j < |r[i]| ==> r[i][j] == m[p.top + i][p.left + j]
  {
    var rows := m[p.top..Side - p.bottom];
    seq(|rows|, i requires 0 <= i < |rows| => rows[i][p.left..Side - p.right])
  }

  /** Cropping the padding off a processed map gives back exactly the resized image's H1 × W1 shape. */
  lemma CropRestoresResizedShape(m: seq<seq<real>>, w1: nat, h1: nat)
    requires IsSquareMap(m) && w1 <= Side && h1 <= Side
    ensures |Crop(m, Pad(w1, h1))| == h1
    ensures forall i :: 0 <= i < h1 ==> |Crop(m, Pad(w1, h1))[i]| == w1
  {
  }

  /** The success record of `detect`, without the maps. */
  datatype Verdict = Verdict(
    isFake: bool,
    decision: string,
    confidence: real,
    score: real,
    integrity: real,
    fakeProb: real,
    detectionScore: real)

  /** The verdict derived from the integrity score; the real arithmetic is exact. */
  function VerdictOf(integrity: real): (v: Verdict)
    ensures v.isFake <==> integrity < 0.5
    ensures v.decision == (if v.isFake then "fake" else "real")
    ensures v.fakeProb == 1.0 - integrity
    ensures v.score == integrity && v.integrity == integrity && v.detectionScore == integrity
    ensures v.confidence == 2.0 * (if integrity >= 0.5 then integrity - 0.5 else 0.5 - integrity)
  {
    var isFake := integrity < 0.5;
    var fakeProb := 1.0 - integrity;
    var distance := if integrity - 0.5 >= 0.0 then integrity - 0.5 else -(integrity - 0.5);
    Verdict(isFake, if isFake then "fake" else "real", distance * 2.0, 1.0 - fakeProb, integrity, fakeProb, integrity)
  }

  /** For an integrity in [0, 1] the confidence and the fake probability stay in [0, 1]. */
  lemma VerdictInUnitInterval(integrity: real)
    requires 0.0 <= integrity <= 1.0
    ensures 0.0 <= VerdictOf(integrity).confidence <= 1.0
    ensures 0.0 <= VerdictOf(integrity).fakeProb <= 1.0
    ensures VerdictOf(integrity).confidence == 0.0 <==> integrity == 0.5
  {
  }

  function Clip(x: real, lo: real, hi: real): (r: real)
    requires lo <= hi
    ensures lo <= r <= hi
    ensures lo <= x <= hi ==> r == x
    ensures x < lo ==> r == lo
    ensures x > hi ==> r == hi
  {
    if x < lo then lo else if x > hi then hi else x
  }

  /**
   * The noiseprint display value of one sample: divided by three standard
   * deviations (plus 1e-8), clipped to [−1, 1], then mapped onto [0, 1].
   */
  function NoiseDisplay(v: real, std: real): (r: real)
    requires std >= 0.0
    ensures 0.0 <= r <= 1.0
    ensures r == (Clip(v / (3.0 * (std + 1.0 / 100000000.0)), -1.0, 1.0) + 1.0) * 0.5
  {
    (Clip(v / (3.0 * (std + 1.0 / 100000000.0)), -1.0, 1.0) + 1.0) * 0.5
  }

  /** The display keeps the order of the samples. */
  lemma {:induction false} NoiseDisplayMonotone(u: real, v: real, std: real)
    requires std >= 0.0 && u <= v
    ensures NoiseDisplay(u, std) <= NoiseDisplay(v, std)
  {
    var d := 3.0 * (std + 1.0 / 100000000.0);
    Stats.DivideMonotone(u, v, d);
  }

  /** What `detect` returns: the error record or the verdict with the original size (H0, W0). */
  datatype Outcome =
    | Failure(message: string, model: string)
    | Success(model: string, filename: string, verdict: Verdict, imageSize: (nat, nat), hasNoiseprint: bool)

  /** The network's part of a run that got as far as a score. */
  datatype Inference = Inference(w0: nat, h0: nat, integrity: real, hasNoiseprint: bool)

  /**
   * `detect`: anything but an image is refused without running the model;
   * any exception on the way (the message) becomes an error record.
   */
  function Detect(mime: string, filename: string, run: Result<Inference, string>): (r: Outcome)
    ensures !StartsWith(mime, "image/") ==> r == Failure("TruFor currently only supports image files", "TruFor")
    ensures StartsWith(mime, "image/") && run.Err? ==> r == Failure("Detection failed: " + run.error, "TruFor")
    ensures StartsWith(mime, "image/") && run.Ok? ==>
              r.Success? && r.verdict == VerdictOf(run.value.integrity) &&
              r.imageSize == (run.value.h0, run.value.w0) && r.model == "TruFor" && r.filename == filename
    ensures r.Failure? ==> r.model == "TruFor"
  {
    if !StartsWith(mime, "image/") then Failure("TruFor currently only supports image files", "TruFor")
    else match run
      case Err(e) => Failure("Detection failed: " + e, "TruFor")
      case Ok(inf) => Success("TruFor", filename, VerdictOf(inf.integrity), (inf.h0, inf.w0), inf.hasNoiseprint)
  }
}
