/**
 * The `/detect` endpoint: the upload's MIME type and size are validated,
 * the adapter is called, and its failures are mapped to HTTP statuses.
 * The adapter is a parameter that either returns a result, times out or
 * raises an exception with a message.
 */
module Api {

  import opened Wrappers
  import opened Strings
  import opened Decorators
  import LocalResNet

  type Byte = bv8

  const MiB: nat := 1024 * 1024
  const MaxImageSize: nat := 10 * MiB
  const MaxVideoSize: nat := 50 * MiB

  predicate ImageType(mime: string) {
    mime == "image/jpeg" || mime == "image/png"
  }

  predicate VideoType(mime: string) {
    mime == "video/mp4" || mime == "video/quicktime"
  }

  /** What the adapter call ends in. */
  datatype AdapterOutcome<R> = Returned(result: R) | TimedOut | Raised(message: string)

  /** Python's `str()` of the content type, which may be missing. */
  function MimeText(mime: Option<string>): string {
    if mime.None? then "None" else mime.value
  }

  /** The size limit for an accepted MIME type. */
  function SizeLimit(mime: string): (limit: nat)
    ensures VideoType(mime) ==> limit == 50 * 1024 * 1024
    ensures !VideoType(mime) ==> limit == 10 * 1024 * 1024
  {
    if VideoType(mime) then MaxVideoSize else MaxImageSize
  }

  /**
   * The validation of `detect_deepfake`: the type first, then the size; the
   * detail texts are the endpoint's.
   */
  function Validate(mime: Option<string>, size: nat): (r: Option<HttpError>)
    ensures r.None? <==> mime.Some? && (ImageType(mime.value) || VideoType(mime.value)) && size <= SizeLimit(mime.value)
    ensures mime.None? || !(ImageType(mime.value) || VideoType(mime.value)) ==>
              r == Some(HttpError(400, "Unsupported file type: " + MimeText(mime) + ". Allowed: JPEG, PNG, MP4, MOV"))
    ensures r.Some? ==> r.value.status == 400
  {
    if mime.None? || !(ImageType(mime.value) || VideoType(mime.value)) then
      Some(HttpError(400, "Unsupported file type: " + MimeText(mime) + ". Allowed: JPEG, PNG, MP4, MOV"))
    else if size > SizeLimit(mime.value) then
      Some(HttpError(400, "File too large. Maximum size: " + NatToString(SizeLimit(mime.value) / MiB) + "MB"))
    else None
  }

  /** The size message names 50 MB for videos and 10 MB for images. */
  lemma {:induction false} SizeMessages(mime: string, size: nat)
    requires ImageType(mime) || VideoType(mime)
    requires size > SizeLimit(mime)
    ensures VideoType(mime) ==> Validate(Some(mime), size) == Some(HttpError(400, "File too large. Maximum size: 50MB"))
    ensures ImageType(mime) ==> Validate(Some(mime), size) == Some(HttpError(400, "File too large. Maximum size: 10MB"))
  {
    if VideoType(mime) {
      assert SizeLimit(mime) / MiB == 50;
      assert NatToString(50) == NatToString(5) + [DigitChar(0)];
      assert NatToString(50) == "50";
      assert "File too large. Maximum size: " + "50" + "MB" == "File too large. Maximum size: 50MB";
    } else {
      assert SizeLimit(mime) / MiB == 10;
      assert NatToString(10) == NatToString(1) + [DigitChar(0)];
      assert NatToString(10) == "10";
      assert "File too large. Maximum size: " + "10" + "MB" == "File too large. Maximum size: 10MB";
    }
  }

  /** An adapter failure as the endpoint reports it. */
  function FailureStatus(message: string): (e: HttpError)
    ensures e.status == 503 <==> Contains(Lower(message), "reality defender")
    ensures e.status == 500 <==> !Contains(Lower(message), "reality defender")
  {
    if Find(Lower(message), "reality defender").Some? then HttpError(503, "Detection service temporarily unavailable")
    else HttpError(500, "Detection failed - please try again")
  }

  /**
   * `detect_deepfake`: a rejected upload never reaches the adapter; a
   * returned result is passed on unchanged when `JSONResponse` can render
   * it, and `compliant` says when it can.  The encoder refuses NaN with a
   * ValueError ("Out of range float values are not JSON compliant"), which
   * does not mention the vendor and so becomes the generic 500.  A timeout
   * is 504; any other failure 503 or 500 by its message.
   */
  function Detect<R>(mime: Option<string>, content: seq<Byte>, adapter: (seq<Byte>, string) -> AdapterOutcome<R>,
                     compliant: R -> bool): (r: Result<R, HttpError>)
    ensures Validate(mime, |content|).Some? ==> r == Err(Validate(mime, |content|).value)
    ensures Validate(mime, |content|).None? ==>
              match adapter(content, mime.value)
              case Returned(result) =>
                (compliant(result) ==> r == Ok(result)) &&
                (!compliant(result) ==> r == Err(HttpError(500, "Detection failed - please try again")))
              case TimedOut => r == Err(HttpError(504, "Detection timeout - file may be too complex"))
              case Raised(message) => r == Err(FailureStatus(message))
  {
    match Validate(mime, |content|)
    case Some(e) => Err(e)
    case None =>
      match adapter(content, mime.value)
      case Returned(result) =>
        if compliant(result) then Ok(result) else Err(HttpError(500, "Detection failed - please try again"))
      case TimedOut => Err(HttpError(504, "Detection timeout - file may be too complex"))
      case Raised(message) => Err(FailureStatus(message))
  }

  /**
   * An accepted MP4 upload in which the ResNet adapter decodes no frame
   * yields a NaN score, so the endpoint answers 500 instead of the AUTHENTIC
   * verdict the adapter formed.
   */
  lemma UnreadableVideoIs500(content: seq<Byte>, frameCount: int, filename: string, hashValue: int, device: string)
    requires |content| <= MaxVideoSize
    ensures var response := LocalResNet.FormatResponse(LocalResNet.VideoDetection([], frameCount), "video", filename, hashValue, device);
            Detect(Some("video/mp4"), content, (_, _) => Returned(response), LocalResNet.JsonCompliant) ==
              Err(HttpError(500, "Detection failed - please try again"))
  {
    LocalResNet.UnreadableVideoReportedAuthentic(frameCount, filename, hashValue, device);
  }

  /** Whatever the adapter would do, an unsupported type or an oversized file gets the same 400. */
  lemma RejectionIgnoresAdapter<R>(mime: Option<string>, content: seq<Byte>,
                                   a: (seq<Byte>, string) -> AdapterOutcome<R>, b: (seq<Byte>, string) -> AdapterOutcome<R>,
                                   compliant: R -> bool)
    requires Validate(mime, |content|).Some?
    ensures Detect(mime, content, a, compliant) == Detect(mime, content, b, compliant)
    ensures Detect(mime, content, a, compliant).Err? && Detect(mime, content, a, compliant).error.status == 400
  {
  }

  /** An unsupported type is refused whatever the size, before the size is looked at. */
  lemma TypeCheckedFirst(mime: Option<string>, small: nat, large: nat)
    requires mime.None? || !(ImageType(mime.value) || VideoType(mime.value))
    ensures Validate(mime, small) == Validate(mime, large)
  {
  }

  /** An accepted type is refused exactly when its size exceeds the limit; the limit itself is accepted. */
  lemma SizeBoundary(mime: string)
    requires ImageType(mime) || VideoType(mime)
    ensures Validate(Some(mime), SizeLimit(mime)).None?
    ensures Validate(Some(mime), SizeLimit(mime) + 1).Some?
  {
  }
}
