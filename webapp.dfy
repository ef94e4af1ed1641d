/**
 * The browser client's logic: the five-tier decision shown for a TruFor
 * result, the config lookup for other models' statuses, the client-side
 * upload check, the blue-to-red colormap, and the two canvas painters that
 * fill an RGBA pixel buffer (four entries per pixel, row-major).  The DOM,
 * the canvas calls and the console logging are not part of the model.
 */
module WebApp {

  import opened Wrappers
  import Api
  import Sampling
  import Stats
  import RealityDefender

  /** JavaScript's `Math.round`: the nearest integer, halves rounded up. */
  function JsRound(x: real): (r: int)
    ensures r as real - 0.5 <= x < r as real + 0.5
  {
    (x + 0.5).Floor
  }

  // ----- Decisions -----------------------------------------------------------

  /** The five keys of the decision configuration. */
  datatype Decision = Authentic | LikelyAuthentic | Inconclusive | LikelyForged | Forged

  /** The configuration key of a decision. */
  function Key(d: Decision): (k: string)
    ensures k in {"AUTHENTIC", "LIKELY_AUTHENTIC", "INCONCLUSIVE", "LIKELY_FORGED", "FORGED"}
  {
    match d
    case Authentic => "AUTHENTIC"
    case LikelyAuthentic => "LIKELY_AUTHENTIC"
    case Inconclusive => "INCONCLUSIVE"
    case LikelyForged => "LIKELY_FORGED"
    case Forged => "FORGED"
  }

  /** From most forged (0) to most authentic (4). */
  function Rank(d: Decision): nat {
    match d
    case Forged => 0
    case LikelyForged => 1
    case Inconclusive => 2
    case LikelyAuthentic => 3
    case Authentic => 4
  }

  /**
   * The tiers on the rounded percentages: integrity `ip`, evidence
   * reliability `rp`; the first matching tier wins, INCONCLUSIVE is the default.
   */
  function Tier(ip: int, rp: int): (d: Decision)
    ensures d == Authentic <==> ip >= 70 && rp >= 40
    ensures d == LikelyAuthentic <==> 55 <= ip < 70
    ensures d == LikelyForged <==> 30 <= ip < 45 && rp >= 40
    ensures d == Forged <==> ip < 30 && rp >= 50
    ensures d == Inconclusive <==>
              45 <= ip < 55 || (ip >= 70 && rp < 40) || (30 <= ip < 45 && rp < 40) || (ip < 30 && rp < 50)
  {
    if ip >= 70 && rp >= 40 then Authentic
    else if ip >= 55 && ip < 70 then LikelyAuthentic
    else if ip >= 45 && ip < 55 then Inconclusive
    else if ip >= 30 && ip < 45 && rp >= 40 then LikelyForged
    else if ip < 30 && rp >= 50 then Forged
    else Inconclusive
  }

  /** `determineDecision`: the tiers applied to the two scores rounded to whole percentages. */
  function DetermineDecision(integrity: real, reliability: real): (d: Decision)
    ensures d == Tier(JsRound(integrity * 100.0), JsRound(reliability * 100.0))
    ensures d == Authentic ==> integrity >= 0.695 && reliability >= 0.395
    ensures integrity < 0.295 && reliability >= 0.495 ==> d == Forged
  {
    Tier(JsRound(integrity * 100.0), JsRound(reliability * 100.0))
  }

  /** With reliability of at least 50 %, more integrity never gives a more forged decision. */
  lemma TierMonotoneWhenReliable(ip1: int, ip2: int, rp: int)
    requires rp >= 50 && ip1 <= ip2
    ensures Rank(Tier(ip1, rp)) <= Rank(Tier(ip2, rp))
  {
  }

  /**
   * Below 40 % reliability the scale is not monotone: 69 % integrity is
   * LIKELY_AUTHENTIC but 70 % falls back to INCONCLUSIVE.
   */
  lemma UnreliableHighIntegrityInconclusive(rp: int)
    requires rp < 40
    ensures Tier(69, rp) == LikelyAuthentic
    ensures Tier(70, rp) == Inconclusive
    ensures forall ip :: ip >= 70 ==> Tier(ip, rp) == Inconclusive
  {
  }

  /** The config used for a legacy status: its own if it is a key, else INCONCLUSIVE's. */
  function LegacyDecision(status: string): (d: Decision)
    ensures Key(d) == status || (d == Inconclusive && status !in {"AUTHENTIC", "LIKELY_AUTHENTIC", "LIKELY_FORGED", "FORGED"})
  {
    if status == "AUTHENTIC" then Authentic
    else if status == "LIKELY_AUTHENTIC" then LikelyAuthentic
    else if status == "LIKELY_FORGED" then LikelyForged
    else if status == "FORGED" then Forged
    else Inconclusive
  }

  /** Looking a decision's own key up gives the decision back. */
  lemma {:induction false} LegacyKeyRoundTrip(d: Decision)
    ensures LegacyDecision(Key(d)) == d
  {
    match d
    case Authentic =>
    case LikelyAuthentic =>
      assert Key(d) != "AUTHENTIC";
    case Inconclusive =>
      assert Key(d) != "AUTHENTIC" && Key(d) != "LIKELY_AUTHENTIC";
    case LikelyForged =>
      assert Key(d) != "AUTHENTIC" && Key(d) != "LIKELY_AUTHENTIC";
    case Forged =>
      assert Key(d) != "AUTHENTIC" && Key(d) != "LIKELY_AUTHENTIC" && Key(d) != "LIKELY_FORGED";
  }

  /**
   * The Reality Defender statuses are not configuration keys apart from
   * AUTHENTIC: a FAKE verdict is displayed with the INCONCLUSIVE config.
   */
  lemma {:induction false} VendorFakeShownInconclusive(verdict: string)
    requires RealityDefender.StatusOf(verdict) == "FAKE"
    ensures LegacyDecision(RealityDefender.StatusOf(verdict)) == Inconclusive
  {
    assert "FAKE" != "AUTHENTIC" && "FAKE" != "FORGED";
  }

  // ----- Upload check ----------------------------------------------------------

  /** The four accepted types. */
  predicate Allowed(fileType: string) {
    fileType in {"image/jpeg", "image/png", "video/mp4", "video/quicktime"}
  }

  /** `validateFile`: None when accepted, else the message shown. */
  function ValidateFile(fileType: string, size: nat): (r: Option<string>)
    ensures r.None? <==> Allowed(fileType) &&
                         size <= (if fileType == "video/mp4" || fileType == "video/quicktime" then 50 * 1024 * 1024 else 10 * 1024 * 1024)
    ensures !Allowed(fileType) ==> r == Some("Unsupported file type. Please upload JPG, PNG, MP4 or MOV files.")
  {
    if !Allowed(fileType) then Some("Unsupported file type. Please upload JPG, PNG, MP4 or MOV files.")
    else
      var isVideo := |fileType| >= 6 && fileType[..6] == "video/";
      VideoPrefix(fileType);
      var maxSize := if isVideo then 50 * 1024 * 1024 else 10 * 1024 * 1024;
      if size > maxSize then
        Some("File too large. Maximum size: " + (if isVideo then "50" else "10") + "MB.")
      else None
  }

  /** Among the accepted types, the "video/" prefix singles out the two video types. */
  lemma {:induction false} VideoPrefix(fileType: string)
    requires Allowed(fileType)
    ensures (|fileType| >= 6 && fileType[..6] == "video/") <==> fileType == "video/mp4" || fileType == "video/quicktime"
  {
    if fileType == "image/jpeg" {
      assert fileType[0] == 'i';
    } else if fileType == "image/png" {
      assert fileType[0] == 'i';
    } else if fileType == "video/mp4" {
      assert fileType[..6] == "video/";
    } else {
      assert fileType[..6] == "video/";
    }
  }

  /** The client accepts exactly the uploads the server's validation accepts. */
  lemma ClientAgreesWithServer(fileType: string, size: nat)
    ensures ValidateFile(fileType, size).None? <==> Api.Validate(Some(fileType), size).None?
  {
  }

  // ----- Colormap --------------------------------------------------------------

  function Clamp01(v: real): (r: real)
    ensures 0.0 <= r <= 1.0
    ensures 0.0 <= v <= 1.0 ==> r == v
    ensures v < 0.0 ==> r == 0.0
    ensures v > 1.0 ==> r == 1.0
  {
    if v < 0.0 then 0.0 else if v > 1.0 then 1.0 else v
  }

  datatype Rgb = Rgb(r: real, g: real, b: real)

  predicate UnitChannels(c: Rgb) {
    0.0 <= c.r <= 1.0 && 0.0 <= c.g <= 1.0 && 0.0 <= c.b <= 1.0
  }

  /**
   * `smoothColormap`: blue → cyan → green → yellow → red over the clamped
   * value; every colour has a full channel, so none is black.
   */
  function SmoothColormap(value: real): (c: Rgb)
    ensures UnitChannels(c)
    ensures c.r == 1.0 || c.g == 1.0 || c.b == 1.0
    ensures value <= 0.0 ==> c == Rgb(0.0, 0.0, 1.0)
    ensures value >= 1.0 ==> c == Rgb(1.0, 0.0, 0.0)
  {
    var v := Clamp01(value);
    if v < 0.25 then Rgb(0.0, v * 4.0, 1.0)
    else if v < 0.5 then Rgb(0.0, 1.0, 1.0 - (v - 0.25) * 4.0)
    else if v < 0.75 then Rgb((v - 0.5) * 4.0, 1.0, 0.0)
    else Rgb(1.0, 1.0 - (v - 0.75) * 4.0, 0.0)
  }

  /** The red channel never decreases and the blue channel never increases along the map. */
  lemma ColormapMonotone(u: real, v: real)
    requires u <= v
    ensures SmoothColormap(u).r <= SmoothColormap(v).r
    ensures SmoothColormap(u).b >= SmoothColormap(v).b
  {
  }

  // ----- Canvas painters -------------------------------------------------------

  /** `Math.floor((x / extent) * n)`: the data cell a canvas coordinate falls in. */
  function DataIndex(x: nat, extent: nat, n: nat): (i: nat)
    requires x < extent
    ensures n > 0 ==> i < n
  {
    IndexBelow(x, extent, n);
    x * n / extent
  }

  lemma {:induction false} IndexBelow(x: nat, extent: nat, n: nat)
    requires x < extent
    ensures n > 0 ==> x * n / extent < n
  {
    if n > 0 {
      Sampling.MulMono(x + 1, extent, n);
      assert (x + 1) * n == x * n + n;
      Sampling.DivBelow(x * n, extent, n);
    }
  }

  /** Which map is painted. */
  datatype MapKind = Forgery | Confidence | Noiseprint | OtherKind

  function Level(v: real): (c: int)
    requires 0.0 <= v <= 1.0
    ensures 0 <= c <= 255
    ensures v == 1.0 ==> c == 255
  {
    JsRound(255.0 * v)
  }

  /**
   * The RGBA written for a sample inside the data: the colormap for the
   * forgery map, a contrast-stretched grey for confidence ([0.3, 0.9] onto
   * [0, 1]), a plain grey for the noiseprint; another kind writes nothing
   * and the buffer keeps its zeros.
   */
  function Shade(kind: MapKind, value: real): (px: seq<int>)
    ensures |px| == 4
    ensures forall c :: 0 <= c < 4 ==> 0 <= px[c] <= 255
    ensures kind != OtherKind ==> px[3] == 255
    ensures kind == OtherKind ==> px == [0, 0, 0, 0]
  {
    match kind
    case Forgery =>
      var c := SmoothColormap(Clamp01(value));
      [Level(c.r), Level(c.g), Level(c.b), 255]
    case Confidence =>
      var i := Level(Clamp01((Clamp01(value) - 0.3) / 0.6));
      [i, i, i, 255]
    case Noiseprint =>
      var i := Level(Clamp01(value));
      [i, i, i, 255]
    case OtherKind => [0, 0, 0, 0]
  }

  /** The forgery map never paints a black pixel: some channel is at 255. */
  lemma ForgeryNeverBlack(value: real)
    ensures Shade(Forgery, value)[0] == 255 || Shade(Forgery, value)[1] == 255 || Shade(Forgery, value)[2] == 255
  {
  }

  /** True when the data cell under canvas pixel (x, y) exists (rows may differ in length). */
  predicate InData(data: seq<seq<real>>, width: nat, height: nat, x: nat, y: nat)
    requires |data| > 0 && x < width && y < height
  {
    var dy := DataIndex(y, height, |data|);
    DataIndex(x, width, |data[0]|) < |data[dy]|
  }

  function Cell(data: seq<seq<real>>, width: nat, height: nat, x: nat, y: nat): real
    requires |data| > 0 && x < width && y < height && InData(data, width, height, x, y)
  {
    data[DataIndex(y, height, |data|)][DataIndex(x, width, |data[0]|)]
  }

  /** The RGBA `drawHeatmap` paints at (x, y); outside the data it is opaque black. */
  function HeatmapPixel(data: seq<seq<real>>, kind: MapKind, width: nat, height: nat, x: nat, y: nat): (px: seq<int>)
    requires |data| > 0 && x < width && y < height
    ensures |px| == 4
  {
    if InData(data, width, height, x, y) then Shade(kind, Cell(data, width, height, x, y))
    else [0, 0, 0, 255]
  }

  /** Buffer entry k: channel k % 4 of pixel k / 4, at column (k / 4) % width and row (k / 4) / width. */
  function HeatmapEntry(data: seq<seq<real>>, kind: MapKind, width: nat, height: nat, k: nat): int
    requires |data| > 0 && k < 4 * width * height
  {
    PixelInCanvas(k / 4, width, height);
    HeatmapPixel(data, kind, width, height, (k / 4) % width, (k / 4) / width)[k % 4]
  }

  lemma {:induction false} PixelInCanvas(p: nat, width: nat, height: nat)
    requires p < width * height
    ensures width > 0 && p % width < width && p / width < height
  {
    if p / width >= height {
      Sampling.MulMono(height, p / width, width);
    }
  }

  /** The offset (y·width + x)·4 of pixel (x, y) leaves room for its four entries in the buffer. */
  lemma {:induction false} OffsetInRange(x: nat, y: nat, width: nat, height: nat)
    requires x < width && y < height
    ensures (y * width + x) * 4 + 3 < 4 * width * height
  {
    Sampling.MulMono(y + 1, height, width);
  }

  /** Distinct pixels have offsets at least four apart, so their entries never overlap. */
  lemma {:induction false} OffsetsDistinct(x1: nat, y1: nat, x2: nat, y2: nat, width: nat)
    requires x1 < width && x2 < width && (x1, y1) != (x2, y2)
    ensures y1 * width + x1 != y2 * width + x2
  {
    if y1 * width + x1 == y2 * width + x2 {
      Sampling.DivModUnique(y1 * width + x1, width, y1, x1);
      Sampling.DivModUnique(y2 * width + x2, width, y2, x2);
    }
  }

  /** Entry (y·width + x)·4 + c of the buffer is channel c of pixel (x, y). */
  lemma {:induction false} OffsetDecodes(x: nat, y: nat, width: nat, c: nat)
    requires x < width && c < 4
    ensures ((y * width + x) * 4 + c) / 4 == y * width + x
    ensures ((y * width + x) * 4 + c) % 4 == c
    ensures (y * width + x) % width == x && (y * width + x) / width == y
  {
    Sampling.DivModUnique((y * width + x) * 4 + c, 4, y * width + x, c);
    Sampling.DivModUnique(y * width + x, width, y, x);
  }

  /**
   * One step of `drawHeatmap`: the four entries of pixel (x, y), at offset
   * (y·width + x)·4, painted from the data cell under it; an unknown kind
   * inside the data leaves them as they are.
   */
  method PaintPixel(pixels: array<int>, data: seq<seq<real>>, kind: MapKind, width: nat, height: nat, x: nat, y: nat, offset: nat)
    requires |data| > 0 && x < width && y < height && pixels.Length == 4 * width * height
    requires offset == (y * width + x) * 4
    requires forall k :: offset <= k < offset + 4 && k < pixels.Length ==> pixels[k] == 0
    modifies pixels
    ensures forall k :: offset <= k < offset + 4 ==>
              k < pixels.Length && pixels[k] == HeatmapEntry(data, kind, width, height, k)
    ensures forall k :: 0 <= k < pixels.Length && !(offset <= k < offset + 4) ==> pixels[k] == old(pixels[k])
  {
    PixelWritten(data, kind, width, height, x, y, offset);
    var dataX := DataIndex(x, width, |data[0]|);
    var dataY := DataIndex(y, height, |data|);
    if dataY < |data| && dataX < |data[dataY]| {
      if kind != OtherKind {
        WriteRgba(pixels, offset, Shade(kind, data[dataY][dataX]));
      }
    } else {
      WriteRgba(pixels, offset, [0, 0, 0, 255]);
    }
  }

  /** The four entries from `offset` on set to `rgba`, and nothing else touched. */
  method WriteRgba(pixels: array<int>, offset: nat, rgba: seq<int>)
    requires |rgba| == 4 && offset + 4 <= pixels.Length
    modifies pixels
    ensures forall k :: offset <= k < offset + 4 ==> pixels[k] == rgba[k - offset]
    ensures forall k :: 0 <= k < pixels.Length && !(offset <= k < offset + 4) ==> pixels[k] == old(pixels[k])
  {
    pixels[offset] := rgba[0];
    pixels[offset + 1] := rgba[1];
    pixels[offset + 2] := rgba[2];
    pixels[offset + 3] := rgba[3];
  }

  /**
   * `drawHeatmap`: every pixel of a fresh width × height buffer painted
   * row by row from the data cell under it.  Without any data row the size
   * log reads `data[0].length` of undefined and the call throws a TypeError
   * before anything is drawn: `None`.
   */
  method DrawHeatmap(data: seq<seq<real>>, kind: MapKind, width: nat, height: nat) returns (r: Option<array<int>>)
    ensures r.None? <==> |data| == 0
    ensures r.Some? ==> fresh(r.value) && r.value.Length == 4 * width * height
    ensures r.Some? ==> forall k :: 0 <= k < r.value.Length ==> r.value[k] == HeatmapEntry(data, kind, width, height, k)
  {
    if |data| == 0 {
      return None;
    }
    var pixels := new int[4 * width * height](_ => 0);
    var y := 0;
    var rowStart := 0;
    while y < height
      invariant y <= height && rowStart == y * width && 4 * rowStart <= pixels.Length
      invariant forall k :: 0 <= k < 4 * rowStart ==> pixels[k] == HeatmapEntry(data, kind, width, height, k)
      invariant forall k :: 4 * rowStart <= k < pixels.Length ==> pixels[k] == 0
    {
      RowEnd(y, width, height);
      PaintRow(pixels, data, kind, width, height, y);
      y := y + 1;
      rowStart := rowStart + width;
    }
    assert 4 * rowStart == pixels.Length;
    r := Some(pixels);
  }

  /** The inner loop of `drawHeatmap`: row y painted left to right after the rows above it. */
  method PaintRow(pixels: array<int>, data: seq<seq<real>>, kind: MapKind, width: nat, height: nat, y: nat)
    requires |data| > 0 && y < height && pixels.Length == 4 * width * height
    requires 4 * ((y + 1) * width) <= pixels.Length && y * width + width == (y + 1) * width
    requires forall k :: 0 <= k < 4 * (y * width) ==> pixels[k] == HeatmapEntry(data, kind, width, height, k)
    requires forall k :: 4 * (y * width) <= k < pixels.Length ==> pixels[k] == 0
    modifies pixels
    ensures forall k :: 0 <= k < 4 * ((y + 1) * width) ==> pixels[k] == HeatmapEntry(data, kind, width, height, k)
    ensures forall k :: 4 * ((y + 1) * width) <= k < pixels.Length ==> pixels[k] == 0
  {
    var x := 0;
    var done := y * width;
    while x < width
      invariant x <= width && done == y * width + x && 4 * done <= pixels.Length
      invariant forall k :: 0 <= k < 4 * done ==> pixels[k] == HeatmapEntry(data, kind, width, height, k)
      invariant forall k :: 4 * done <= k < pixels.Length ==> pixels[k] == 0
    {
      PaintPixel(pixels, data, kind, width, height, x, y, 4 * done);
      x := x + 1;
      done := done + 1;
    }
  }

  /** The pixels before row y + 1 number (y + 1)·width, at most all of them. */
  lemma {:induction false} RowEnd(y: nat, width: nat, height: nat)
    requires y < height
    ensures y * width + width == (y + 1) * width && 4 * ((y + 1) * width) <= 4 * width * height
  {
    Sampling.MulMono(y + 1, height, width);
  }

  /** The four entries from offset (y·width + x)·4 on are the channels of pixel (x, y). */
  lemma {:induction false} PixelWritten(data: seq<seq<real>>, kind: MapKind, width: nat, height: nat, x: nat, y: nat, offset: nat)
    requires |data| > 0 && x < width && y < height && offset == (y * width + x) * 4
    ensures offset + 3 < 4 * width * height
    ensures forall k :: offset <= k < offset + 4 ==>
              HeatmapEntry(data, kind, width, height, k) == HeatmapPixel(data, kind, width, height, x, y)[k - offset]
  {
    OffsetInRange(x, y, width, height);
    forall k | offset <= k < offset + 4
      ensures HeatmapEntry(data, kind, width, height, k) == HeatmapPixel(data, kind, width, height, x, y)[k - offset]
    {
      OffsetDecodes(x, y, width, k - offset);
    }
  }

  /** Every pixel of the three painted maps is opaque. */
  lemma HeatmapOpaque(data: seq<seq<real>>, kind: MapKind, width: nat, height: nat, x: nat, y: nat)
    requires |data| > 0 && x < width && y < height && kind != OtherKind
    ensures HeatmapPixel(data, kind, width, height, x, y)[3] == 255
  {
  }

  /** For rectangular data no canvas pixel falls outside it. */
  lemma RectangularAlwaysInData(data: seq<seq<real>>, width: nat, height: nat, x: nat, y: nat)
    requires |data| > 0 && |data[0]| > 0 && forall i :: 0 <= i < |data| ==> |data[i]| == |data[0]|
    requires x < width && y < height
    ensures InData(data, width, height, x, y)
  {
  }

  // ----- Prediction overlay ----------------------------------------------------

  /** `data.flat()`. */
  function Flat(data: seq<seq<real>>): seq<real>
  {
    if data == [] then [] else Flat(data[..|data| - 1]) + data[|data| - 1]
  }

  /** Every sample of the data is in its flattening. */
  lemma {:induction false} InFlat(data: seq<seq<real>>, i: nat, j: nat)
    requires i < |data| && j < |data[i]|
    ensures data[i][j] in Flat(data)
  {
    if i < |data| - 1 {
      InFlat(data[..|data| - 1], i, j);
    }
  }

  /**
   * The smallest and the largest sample.  With no samples no pixel is
   * inside the data and the bounds are never read; they are then 0.
   */
  function Bounds(data: seq<seq<real>>): (b: (real, real))
    ensures b.0 <= b.1
    ensures forall i, j :: 0 <= i < |data| && 0 <= j < |data[i]| ==> b.0 <= data[i][j] <= b.1
  {
    var flat := Flat(data);
    AllWithinBounds(data);
    if |flat| > 0 then WithinBounds(flat, flat[0]); (Stats.Min(flat), Stats.Max(flat)) else (0.0, 0.0)
  }

  lemma {:induction false} AllWithinBounds(data: seq<seq<real>>)
    ensures forall i: nat, j: nat :: i < |data| && j < |data[i]| ==>
              data[i][j] in Flat(data) && Stats.Min(Flat(data)) <= data[i][j] <= Stats.Max(Flat(data))
  {
    forall i: nat, j: nat | i < |data| && j < |data[i]| {
      SampleWithinBounds(data, i, j);
    }
  }

  lemma {:induction false} SampleWithinBounds(data: seq<seq<real>>, i: nat, j: nat)
    requires i < |data| && j < |data[i]|
    ensures data[i][j] in Flat(data) && Stats.Min(Flat(data)) <= data[i][j] <= Stats.Max(Flat(data))
  {
    InFlat(data, i, j);
    WithinBounds(Flat(data), data[i][j]);
  }

  lemma {:induction false} WithinBounds(xs: seq<real>, v: real)
    requires v in xs
    ensures |xs| > 0 && Stats.Min(xs) <= v <= Stats.Max(xs)
  {
    var i :| 0 <= i < |xs| && xs[i] == v;
  }

  /** The min-max normalisation, 0 when all samples are equal. */
  function Normalised(v: real, lo: real, hi: real): real {
    if hi - lo > 0.0 then (v - lo) / (hi - lo) else 0.0
  }

  lemma {:induction false} NormalisedInUnit(v: real, lo: real, hi: real)
    requires lo <= v <= hi
    ensures 0.0 <= Normalised(v, lo, hi) <= 1.0
  {
    if hi - lo > 0.0 {
      Stats.DivideMonotone(0.0, v - lo, hi - lo);
      Stats.DivideMonotone(v - lo, hi - lo, hi - lo);
    }
  }

  /** Red whose alpha grows from 0 to 128 as the normalised value goes from 0.5 to 1; nothing at or below 0.5. */
  function OverlayColour(n: real): (px: seq<int>)
    ensures |px| == 4
    ensures n <= 0.5 ==> px == [0, 0, 0, 0]
    ensures 0.5 < n <= 1.0 ==> px[0] == 255 && px[1] == 0 && px[2] == 0 && 0 <= px[3] <= 128
  {
    if n > 0.5 then [255, 0, 0, JsRound((n - 0.5) * 2.0 * 128.0)] else [0, 0, 0, 0]
  }

  /**
   * The RGBA `drawPredictionOverlay` leaves at (x, y) for the bounds lo and
   * hi: translucent red when the cell's normalised value exceeds 0.5,
   * untouched (transparent) otherwise.
   */
  function OverlayPixel(data: seq<seq<real>>, lo: real, hi: real, width: nat, height: nat, x: nat, y: nat): (px: seq<int>)
    requires |data| > 0 && x < width && y < height
    ensures |px| == 4
  {
    if InData(data, width, height, x, y) then OverlayColour(Normalised(Cell(data, width, height, x, y), lo, hi))
    else [0, 0, 0, 0]
  }

  /** Buffer entry k of the overlay, normalised by the data's own bounds. */
  function OverlayEntry(data: seq<seq<real>>, width: nat, height: nat, k: nat): int
    requires |data| > 0 && k < 4 * width * height
  {
    EntryWith(data, Bounds(data).0, Bounds(data).1, width, height, k)
  }

  function EntryWith(data: seq<seq<real>>, lo: real, hi: real, width: nat, height: nat, k: nat): int
    requires |data| > 0 && k < 4 * width * height
  {
    PixelInCanvas(k / 4, width, height);
    OverlayPixel(data, lo, hi, width, height, (k / 4) % width, (k / 4) / width)[k % 4]
  }

  /** A painted overlay pixel is red with an alpha of at most 128. */
  lemma {:induction false} OverlayAlphaBounded(data: seq<seq<real>>, width: nat, height: nat, x: nat, y: nat)
    requires |data| > 0 && x < width && y < height
    ensures var px := OverlayPixel(data, Bounds(data).0, Bounds(data).1, width, height, x, y);
            px == [0, 0, 0, 0] || (px[0] == 255 && px[1] == 0 && px[2] == 0 && 0 <= px[3] <= 128)
  {
    if InData(data, width, height, x, y) {
      NormalisedInUnit(Cell(data, width, height, x, y), Bounds(data).0, Bounds(data).1);
    }
  }

  /** When every sample is equal nothing is drawn. */
  lemma ConstantDataNoOverlay(data: seq<seq<real>>, width: nat, height: nat, x: nat, y: nat)
    requires |data| > 0 && x < width && y < height
    requires Bounds(data).0 == Bounds(data).1
    ensures OverlayPixel(data, Bounds(data).0, Bounds(data).1, width, height, x, y) == [0, 0, 0, 0]
  {
  }

  /**
   * One step of `drawPredictionOverlay`: pixel (x, y), whose entries start
   * at i, painted when its cell normalises above 0.5 against the bounds.
   */
  method OverlayStep(pixels: array<int>, data: seq<seq<real>>, width: nat, height: nat, i: nat, x: nat, y: nat,
                     minVal: real, maxVal: real)
    requires |data| > 0 && x < width && y < height && i + 4 <= pixels.Length
    requires pixels[i] == 0 && pixels[i + 1] == 0 && pixels[i + 2] == 0 && pixels[i + 3] == 0
    modifies pixels
    ensures var px := OverlayPixel(data, minVal, maxVal, width, height, x, y);
            pixels[i] == px[0] && pixels[i + 1] == px[1] && pixels[i + 2] == px[2] && pixels[i + 3] == px[3]
    ensures forall k :: 0 <= k < pixels.Length && !(i <= k < i + 4) ==> pixels[k] == old(pixels[k])
  {
    var dataX := DataIndex(x, width, |data[0]|);
    var dataY := DataIndex(y, height, |data|);
    var range := maxVal - minVal;
    if dataY < |data| && dataX < |data[dataY]| {
      var value := data[dataY][dataX];
      var normalizedValue := if range > 0.0 then (value - minVal) / range else 0.0;
      if normalizedValue > 0.5 {
        var intensity := (normalizedValue - 0.5) * 2.0;
        pixels[i] := 255;
        pixels[i + 1] := 0;
        pixels[i + 2] := 0;
        pixels[i + 3] := JsRound(intensity * 128.0);
      }
    }
  }

  /** An entry i that starts a pixel starts a whole one: pixel i / 4 exists and its four entries fit. */
  lemma {:induction false} NextPixel(i: nat, width: nat, height: nat)
    requires i < 4 * width * height && i % 4 == 0
    ensures i / 4 < width * height && i + 4 <= 4 * width * height
  {
    Sampling.DivModUnique(i, 4, i / 4, 0);
    assert 4 * width * height == 4 * (width * height);
  }

  /** The four entries from i on, for i a multiple of 4, are the channels of pixel i / 4. */
  lemma {:induction false} EntriesOfPixel(data: seq<seq<real>>, lo: real, hi: real, width: nat, height: nat, i: nat, x: nat, y: nat)
    requires |data| > 0 && i + 4 <= 4 * width * height && i % 4 == 0
    requires x == (i / 4) % width && y == (i / 4) / width && x < width && y < height
    ensures forall k :: i <= k < i + 4 ==>
              EntryWith(data, lo, hi, width, height, k) == OverlayPixel(data, lo, hi, width, height, x, y)[k - i]
  {
    forall k | i <= k < i + 4
      ensures k / 4 == i / 4 && k % 4 == k - i
    {
      Sampling.DivModUnique(k, 4, i / 4, k - i);
    }
  }

  /** The loop body of `drawPredictionOverlay`: entry i decoded into pixel (x, y) and that pixel painted. */
  method OverlayAt(pixels: array<int>, data: seq<seq<real>>, width: nat, height: nat, i: nat, minVal: real, maxVal: real)
    requires |data| > 0 && pixels.Length == 4 * width * height && i < pixels.Length && i % 4 == 0
    requires forall k :: 0 <= k < i ==> pixels[k] == EntryWith(data, minVal, maxVal, width, height, k)
    requires forall k :: i <= k < pixels.Length ==> pixels[k] == 0
    modifies pixels
    ensures i + 4 <= pixels.Length
    ensures forall k :: 0 <= k < i + 4 ==> pixels[k] == EntryWith(data, minVal, maxVal, width, height, k)
    ensures forall k :: i + 4 <= k < pixels.Length ==> pixels[k] == 0
  {
    var pixelIndex := i / 4;
    NextPixel(i, width, height);
    PixelInCanvas(pixelIndex, width, height);
    var x := pixelIndex % width;
    var y := pixelIndex / width;
    EntriesOfPixel(data, minVal, maxVal, width, height, i, x, y);
    OverlayStep(pixels, data, width, height, i, x, y, minVal, maxVal);
  }

  /** `Math.min(...data.flat())` and `Math.max(...)`, read only when some sample exists. */
  method DataBounds(data: seq<seq<real>>) returns (minVal: real, maxVal: real)
    ensures (minVal, maxVal) == Bounds(data)
  {
    var flat := Flat(data);
    minVal, maxVal := 0.0, 0.0;
    if |flat| > 0 {
      minVal, maxVal := Stats.Min(flat), Stats.Max(flat);
    }
  }

  /**
   * `drawPredictionOverlay`: a walk over the buffer four entries at a time,
   * painting only the pixels whose cell normalises above 0.5.  Without any
   * data row the first pixel reads `data[0].length` of undefined and throws
   * a TypeError (`None`); a buffer without pixels is never walked, so that
   * read does not happen.
   */
  method DrawPredictionOverlay(data: seq<seq<real>>, width: nat, height: nat) returns (r: Option<array<int>>)
    ensures r.None? <==> |data| == 0 && width * height > 0
    ensures r.Some? ==> fresh(r.value) && r.value.Length == 4 * width * height
    ensures r.Some? && |data| > 0 ==>
              forall k :: 0 <= k < r.value.Length ==> r.value[k] == OverlayEntry(data, width, height, k)
  {
    if |data| == 0 {
      if width * height > 0 {
        return None;
      }
      var empty := new int[4 * width * height];
      return Some(empty);
    }
    var pixels := new int[4 * width * height](_ => 0);
    var minVal, maxVal := DataBounds(data);
    var i := 0;
    while i < pixels.Length
      invariant i <= pixels.Length && i % 4 == 0
      invariant forall k :: 0 <= k < i ==> pixels[k] == EntryWith(data, minVal, maxVal, width, height, k)
      invariant forall k :: i <= k < pixels.Length ==> pixels[k] == 0
    {
      OverlayAt(pixels, data, width, height, i, minVal, maxVal);
      i := i + 4;
    }
    r := Some(pixels);
  }
}
