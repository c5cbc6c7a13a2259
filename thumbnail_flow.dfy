/** The thumbnail upload handler as a state machine: where a request stops, what it
    writes back, and which effects it has, as functions of the request, of the answers
    its collaborators give, and of the server's assets root and port. Its checks come in
    a different order from the video handler's: the media type is checked before the
    record is fetched. */
module ThumbnailFlow {
  import opened Wrappers
  import opened Records
  import opened ContentType
  import opened UploadThumbnail
  import opened Handlers

  /** A thumbnail upload request and everything the handler's collaborators answer. */
  datatype ThumbnailRequest = ThumbnailRequest(
    videoId: Option<Uuid>,                     // `uuid.Parse` of the path value
    auth: Auth,                                // bearer token, then JWT validation
    part: Option<string>,                      // Content-Type of the "thumbnail" part, if any
    mediaType: Option<string>,                 // `mime.ParseMediaType` of that header
    fetch: Fetch,                              // `GetVideo`
    created: bool,                             // `os.Create` of the thumbnail file
    copied: bool,                              // `io.Copy` into it
    updated: bool)                             // `UpdateVideo`

  /** Where the handler stops: one value per early return, the panic on a header
      without `/`, and success. */
  datatype ThumbnailStop =
    | InvalidId | NoToken | BadToken | NoFormFile | UnparseableMediaType | NotImage
    | NoSubtype | NotOwner | CreateFailed | CopyFailed | UpdateFailed | Uploaded

  /** The status code each stop other than the panic answers with. */
  function Status(s: ThumbnailStop): int
    requires s != NoSubtype
  {
    match s
    case InvalidId => 400 case NoToken => 401 case BadToken => 401 case NoFormFile => 400
    case UnparseableMediaType => 500 case NotImage => 400 case NotOwner => 401
    case CreateFailed => 500 case CopyFailed => 500 case UpdateFailed => 500
    case Uploaded => 200
  }

  /** Whether the handler gets past the authentication steps. */
  predicate Authenticated(r: ThumbnailRequest) {
    r.videoId.Some? && r.auth.User?
  }

  /** Whether the handler gets the form part open, and so defers closing it. */
  predicate FormOpened(r: ThumbnailRequest) {
    Authenticated(r) && r.part.Some?
  }

  /** Whether the media type passed and the extension was cut, so that the record is
      fetched. */
  predicate Fetched(r: ThumbnailRequest) {
    FormOpened(r) && r.mediaType.Some? && AllowedMediaType(r.mediaType.value)
    && Extension(r.part.value).Some?
  }

  /** Where the checks before any effect stop the request, in the handler's order;
      `None` when the request passes them all. */
  function Admission(r: ThumbnailRequest): Option<ThumbnailStop> {
    if r.videoId.None? then Some(InvalidId)
    else if r.auth.MissingToken? then Some(NoToken)
    else if r.auth.InvalidToken? then Some(BadToken)
    else if r.part.None? then Some(NoFormFile)
    else if r.mediaType.None? then Some(UnparseableMediaType)
    else if !AllowedMediaType(r.mediaType.value) then Some(NotImage)
    else if Extension(r.part.value).None? then Some(NoSubtype)
    else if r.fetch.video.userId != r.auth.id then Some(NotOwner)
    else None
  }

  /** Where saving the thumbnail ends. */
  function Saving(r: ThumbnailRequest): ThumbnailStop {
    if !r.created then CreateFailed
    else if !r.copied then CopyFailed
    else if !r.updated then UpdateFailed
    else Uploaded
  }

  /** Where the handler stops for this request. */
  function StopOf(r: ThumbnailRequest): ThumbnailStop {
    if Admission(r).Some? then Admission(r).value else Saving(r)
  }

  /** The extension cut from the header, once the handler has one. */
  function Ext(r: ThumbnailRequest): string {
    var e := if r.part.Some? then Extension(r.part.value) else None;
    if e.Some? then e.value else ""
  }

  /** Where the thumbnail is written: `<videoID>.<ext>` under the assets root. */
  function ThumbnailPath(r: ThumbnailRequest, assetsRoot: string): string {
    var id := if r.videoId.Some? then r.videoId.value else NilUuid;
    JoinPath(assetsRoot, ThumbnailName(id, Ext(r)))
  }

  /** The video as the handler saves it: the fetched video with the thumbnail's URL. */
  function SavedVideo(r: ThumbnailRequest, assetsRoot: string, port: string): Video {
    r.fetch.video.(thumbnailUrl := Some(ThumbnailUrl(port, ThumbnailPath(r, assetsRoot))))
  }

  /** The 500 a failed lookup writes, which does not end the request. */
  function FetchReplies(r: ThumbnailRequest): seq<Reply> {
    if Fetched(r) && r.fetch.failed then [Error(500)] else []
  }

  /** What the checks write back. */
  function AdmissionReplies(r: ThumbnailRequest): seq<Reply> {
    FetchReplies(r) +
    match Admission(r)
    case None => []
    case Some(s) => if s == NoSubtype then [] else [Error(Status(s))]
  }

  /** What saving writes back: the saved video on success. */
  function SavingReplies(r: ThumbnailRequest, assetsRoot: string, port: string): seq<Reply> {
    if Saving(r) == Uploaded then [Json(200, SavedVideo(r, assetsRoot, port))]
    else [Error(Status(Saving(r)))]
  }

  /** Everything the handler writes back. */
  function Replies(r: ThumbnailRequest, assetsRoot: string, port: string): seq<Reply> {
    AdmissionReplies(r) + if Admission(r).Some? then [] else SavingReplies(r, assetsRoot, port)
  }

  /** The effects of the handler's body: the thumbnail file, then the record. */
  function BodyEvents(r: ThumbnailRequest, assetsRoot: string, port: string): seq<Event> {
    if Admission(r).Some? || !r.created then []
    else
      var saved := if r.copied && r.updated then [Updated(SavedVideo(r, assetsRoot, port))] else [];
      [Created(ThumbnailPath(r, assetsRoot))] + saved
  }

  /** The calls the handler has deferred by the time it stops: closing the part, then
      closing the thumbnail file. */
  function Deferrals(r: ThumbnailRequest, assetsRoot: string): seq<Deferred> {
    (if FormOpened(r) then [Close(FormPart)] else []) +
    (if Admission(r).None? && r.created then [Close(ThumbnailPath(r, assetsRoot))] else [])
  }

  /** Every effect of the request, deferred calls last and in reverse order. */
  function Trace(r: ThumbnailRequest, assetsRoot: string, port: string): seq<Event> {
    BodyEvents(r, assetsRoot, port) + Unwound(Deferrals(r, assetsRoot))
  }
}
