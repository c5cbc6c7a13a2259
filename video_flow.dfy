/** The video upload handler as a state machine: where a request stops, what it writes
    back, and which effects it has on the way, as functions of the request and of the
    answers its collaborators give. The handler runs in three phases, and so does this
    description: the checks before anything is touched, the staging of the upload on
    local disk, and its publication. */
module VideoFlow {
  import opened Wrappers
  import opened Records
  import opened Base64Url
  import opened ContentType
  import opened UploadVideo
  import opened VideoMetadata
  import opened Handlers

  /** How the ffmpeg fast-start run went; a failed run may have left its output file. */
  datatype Ffmpeg = Remuxed | FfmpegFailed(leftOutput: bool)

  /** A video upload request and everything the handler's collaborators answer for it. */
  datatype VideoRequest = VideoRequest(
    videoId: Option<Uuid>,                     // `uuid.Parse` of the path value
    auth: Auth,                                // bearer token, then JWT validation
    fetch: Fetch,                              // `GetVideo`
    bodySize: nat,                             // bytes in the request body
    part: Option<string>,                      // Content-Type of the "video" part, if any
    mediaType: Option<string>,                 // `mime.ParseMediaType` of that header
    tempPath: Option<string>,                  // `os.CreateTemp`
    copied: bool,                              // `io.Copy` into the temp file
    ffmpeg: Ffmpeg,                            // the fast-start remux
    reopened: bool,                            // `os.Open` of its output
    probe: Probe,                              // ffprobe on that output
    random: seq<byte>,                         // what `rand.Read` fills the key with
    putOk: bool,                               // `PutObject`
    updated: bool,                             // `UpdateVideo`
    presign: Presigner)                        // `PresignGetObject`

  /** Where the handler stops: one value per early return, the two panics that
      net/http recovers from, and success. */
  datatype VideoStop =
    | InvalidId | NoToken | BadToken | NotOwner | NoFormFile | UnparseableMediaType
    | NotMp4 | NoSubtype | TempFailed | CopyFailed | FastStartFailed | OpenFailed
    | ProbePanicked | PutFailed | UpdateFailed | SignFailed | Uploaded

  /** The stops that are runtime panics rather than responses. */
  predicate Panics(s: VideoStop) {
    s == NoSubtype || s == ProbePanicked
  }

  /** The status code each non-panic stop answers with. */
  function Status(s: VideoStop): int
    requires !Panics(s)
  {
    match s
    case InvalidId => 400 case NoToken => 401 case BadToken => 401 case NotOwner => 401
    case NoFormFile => 400 case UnparseableMediaType => 500 case NotMp4 => 400
    case TempFailed => 500 case CopyFailed => 500 case FastStartFailed => 500
    case OpenFailed => 500 case PutFailed => 500 case UpdateFailed => 500
    case SignFailed => 500 case Uploaded => 200
  }

  /** The Content-Type header of the part, once the handler has one. */
  function Header(r: VideoRequest): string {
    if r.part.Some? then r.part.value else ""
  }

  /** The extension cut from the header, once the handler has one. */
  function Ext(r: VideoRequest): string {
    var e := Extension(Header(r));
    if e.Some? then e.value else ""
  }

  /** The staged temp file, once created. */
  function TempPath(r: VideoRequest): string {
    if r.tempPath.Some? then r.tempPath.value else ""
  }

  /** The fast-start output of the staged file. */
  function ProcessedPath(r: VideoRequest): string {
    FastStartOutputPath(TempPath(r))
  }

  /** The aspect label the key is namespaced by; the probe's error is ignored, leaving
      the empty label. */
  function Aspect(r: VideoRequest): string {
    match GetVideoAspectRatio(r.probe)
    case Ok(a) => a
    case Err(a) => a
    case Panic => ""
  }

  /** The object key the video is published under. */
  function Key(r: VideoRequest): string {
    ObjectKey(Aspect(r), r.random, Ext(r))
  }

  /** The video as the handler saves it: the fetched video with the stored reference. */
  function StoredVideo(r: VideoRequest, bucket: BucketName): Video {
    r.fetch.video.(videoUrl := Some(StoredReference(bucket, Key(r))))
  }

  /** Whether the handler gets past the authentication steps. */
  predicate Authenticated(r: VideoRequest) {
    r.videoId.Some? && r.auth.User?
  }

  /** Whether the handler gets the form part open, and so defers closing it. */
  predicate FormOpened(r: VideoRequest) {
    Authenticated(r) && r.fetch.video.userId == r.auth.id
    && r.bodySize <= UploadLimit && r.part.Some?
  }

  /** Where the checks before any effect stop the request, in the handler's order;
      `None` when the request passes them all. */
  function Admission(r: VideoRequest): Option<VideoStop> {
    if r.videoId.None? then Some(InvalidId)
    else if r.auth.MissingToken? then Some(NoToken)
    else if r.auth.InvalidToken? then Some(BadToken)
    else if r.fetch.video.userId != r.auth.id then Some(NotOwner)
    else if r.bodySize > UploadLimit || r.part.None? then Some(NoFormFile)
    else if r.mediaType.None? then Some(UnparseableMediaType)
    else if r.mediaType.value != AllowedMediaType then Some(NotMp4)
    else if Extension(r.part.value).None? then Some(NoSubtype)
    else None
  }

  /** Where staging the upload on disk stops it; `None` when the processed file is open. */
  function Staging(r: VideoRequest): Option<VideoStop> {
    if r.tempPath.None? then Some(TempFailed)
    else if !r.copied then Some(CopyFailed)
    else if r.ffmpeg.FfmpegFailed? then Some(FastStartFailed)
    else if !r.reopened then Some(OpenFailed)
    else None
  }

  /** The bucket and key that signing the stored video presigns: `dbVideoToSignedVideo`
      splits the stored reference on every comma and takes pieces 0 and 1. The stored
      reference always holds a comma, right after the bucket name. */
  function SignedObject(r: VideoRequest, bucket: BucketName): (string, string) {
    var decoded := DecodeReferenceAsWritten(StoredReference(bucket, Key(r)));
    if decoded.Some? then decoded.value else (bucket, Key(r))
  }

  /** The one-hour presigned URL of the object signing names, if presigning succeeds. */
  function PresignedUrl(r: VideoRequest, bucket: BucketName): Option<string> {
    var (b, k) := SignedObject(r, bucket);
    r.presign(b, k, PresignExpirySeconds)
  }

  /** The video the handler answers with on success: the stored video with the
      presigned URL. */
  function SignedVideo(r: VideoRequest, bucket: BucketName): Video {
    StoredVideo(r, bucket).(videoUrl := PresignedUrl(r, bucket))
  }

  /** Where publishing the processed file ends. */
  function Publication(r: VideoRequest, bucket: BucketName): VideoStop {
    if GetVideoAspectRatio(r.probe).Panic? then ProbePanicked
    else if !r.putOk then PutFailed
    else if !r.updated then UpdateFailed
    else if PresignedUrl(r, bucket).None? then SignFailed
    else Uploaded
  }

  /** Where the handler stops for this request, given the bucket it publishes to. */
  function StopOf(r: VideoRequest, bucket: BucketName): VideoStop {
    if Admission(r).Some? then Admission(r).value
    else if Staging(r).Some? then Staging(r).value
    else Publication(r, bucket)
  }

  /** The 500 a failed lookup writes, which does not end the request. */
  function FetchReplies(r: VideoRequest): seq<Reply> {
    if Authenticated(r) && r.fetch.failed then [Error(500)] else []
  }

  /** What the checks write back. */
  function AdmissionReplies(r: VideoRequest): seq<Reply> {
    FetchReplies(r) +
    match Admission(r)
    case None => []
    case Some(s) => if Panics(s) then [] else [Error(Status(s))]
  }

  /** What publishing writes back: the signed video on success. */
  function PublicationReplies(r: VideoRequest, bucket: BucketName): seq<Reply> {
    match Publication(r, bucket)
    case ProbePanicked => []
    case Uploaded => [Json(200, SignedVideo(r, bucket))]
    case _ => [Error(500)]
  }

  /** Everything the handler writes back. */
  function Replies(r: VideoRequest, bucket: BucketName): seq<Reply> {
    AdmissionReplies(r) +
    if Admission(r).Some? then []
    else if Staging(r).Some? then [Error(500)]
    else PublicationReplies(r, bucket)
  }

  /** The files staging creates: the temp file, and the fast-start output when ffmpeg
      wrote one. */
  function StagingEvents(r: VideoRequest): seq<Event> {
    if r.tempPath.None? then [] else
      var processed := r.copied && (r.ffmpeg.Remuxed? || r.ffmpeg.leftOutput);
      [Created(TempPath(r))] + (if processed then [Created(ProcessedPath(r))] else [])
  }

  /** What publishing changes: the object, then the record. */
  function PublicationEvents(r: VideoRequest, bucket: BucketName): seq<Event> {
    if GetVideoAspectRatio(r.probe).Panic? || !r.putOk then [] else
      var published := Published(bucket, Key(r), AllowedMediaType);
      [published] + (if r.updated then [Updated(StoredVideo(r, bucket))] else [])
  }

  /** The effects of the handler's body, before its deferred calls run. */
  function BodyEvents(r: VideoRequest, bucket: BucketName): seq<Event> {
    if Admission(r).Some? then []
    else StagingEvents(r) + if Staging(r).Some? then [] else PublicationEvents(r, bucket)
  }

  /** The cleanup staging defers: removing and closing each file it opens. */
  function StagingDeferrals(r: VideoRequest): seq<Deferred> {
    (if r.tempPath.Some? then [Remove(TempPath(r)), Close(TempPath(r))] else []) +
    (if Staging(r).None? then [Remove(ProcessedPath(r)), Close(ProcessedPath(r))] else [])
  }

  /** The calls the handler has deferred by the time it stops, in the order it deferred
      them. */
  function Deferrals(r: VideoRequest): seq<Deferred> {
    (if FormOpened(r) then [Close(FormPart)] else []) +
    (if Admission(r).None? then StagingDeferrals(r) else [])
  }

  /** Every effect of the request, deferred calls last and in reverse order. */
  function Trace(r: VideoRequest, bucket: BucketName): seq<Event> {
    BodyEvents(r, bucket) + Unwound(Deferrals(r))
  }
}
