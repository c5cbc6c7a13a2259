/** The server configuration the two upload handlers are methods of, with the parts of
    the world they change: local disk, the record store and the blob store. */
module Api {
  import opened Wrappers
  import opened Records
  import opened Base64Url
  import opened ContentType
  import opened UploadVideo
  import opened VideoMetadata
  import opened Handlers
  import UploadThumbnail
  import opened VideoFlow
  import ThumbnailFlow
  import opened VideoFlowFacts

  /** `rand.Read` filling the key buffer in place with the bytes the source gives. */
  method ReadRandom(buf: array<byte>, source: seq<byte>)
    requires |source| == buf.Length
    modifies buf
    ensures buf[..] == source
  {
    for i := 0 to buf.Length
      invariant buf[..i] == source[..i]
    {
      buf[i] := source[i];
    }
  }

  class ApiConfig {
    const s3Bucket: BucketName
    const port: string
    const assetsRoot: string

    /** Files on local disk. */
    var disk: set<string>
    /** The record store's videos, by id. */
    var records: map<Uuid, Video>
    /** The blob store's objects, by bucket and key, with their content types. */
    var objects: map<(string, string), string>

    /** The world as this configuration sees it. */
    function Current(): World
      reads this
    {
      World(disk, records, objects)
    }

    constructor (s3Bucket: BucketName, port: string, assetsRoot: string, w: World)
      ensures this.s3Bucket == s3Bucket && this.port == port && this.assetsRoot == assetsRoot
      ensures Current() == w
    {
      this.s3Bucket, this.port, this.assetsRoot := s3Bucket, port, assetsRoot;
      disk, records, objects := w.disk, w.records, w.objects;
    }

    /** `os.Create` / `os.CreateTemp`, and ffmpeg writing its output: the file is on disk. */
    method CreateFile(path: string)
      modifies this
      ensures Current() == Step(old(Current()), Created(path))
    {
      disk := disk + {path};
    }

    /** `os.Remove`: the file is gone from disk. */
    method RemoveFile(path: string)
      modifies this
      ensures Current() == Step(old(Current()), Removed(path))
    {
      disk := disk - {path};
    }

    /** `PutObject`: the object is stored under its bucket and key. */
    method PutObject(bucket: string, key: string, contentType: string)
      modifies this
      ensures Current() == Step(old(Current()), Published(bucket, key, contentType))
    {
      objects := objects[(bucket, key) := contentType];
    }

    /** `UpdateVideo`: the record is replaced. */
    method UpdateVideo(video: Video)
      modifies this
      ensures Current() == Step(old(Current()), Updated(video))
    {
      records := records[video.id := video];
    }

    /** Runs the deferred calls as a Go function returns: last deferred, first run. */
    method RunDeferred(defers: seq<Deferred>)
      modifies this
      ensures Current() == After(old(Current()), Unwound(defers))
    {
      var i := |defers|;
      while i > 0
        invariant 0 <= i <= |defers|
        invariant Current() == After(old(Current()), Unwound(defers[i..]))
      {
        i := i - 1;
        match defers[i] {
          case Close(_) =>
          case Remove(p) => RemoveFile(p);
        }
        assert defers[i..][1..] == defers[i + 1..];
        AfterSnoc(old(Current()), Unwound(defers[i + 1..]), Effect(defers[i]));
      }
      assert defers[0..] == defers;
    }

    /** `processVideoForFastStart`: runs ffmpeg from the staged file to its `.processing`
        path; gives that path on success, and the empty path with an error on failure. */
    method ProcessVideoForFastStart(filePath: string, ffmpeg: Ffmpeg)
      returns (outputFilePath: string, failed: bool)
      modifies this
      ensures failed == ffmpeg.FfmpegFailed?
      ensures outputFilePath == if failed then "" else FastStartOutputPath(filePath)
      ensures Current() ==
        if ffmpeg.Remuxed? || ffmpeg.leftOutput
        then Step(old(Current()), Created(FastStartOutputPath(filePath)))
        else old(Current())
    {
      outputFilePath := FastStartOutputPath(filePath);
      if ffmpeg.Remuxed? || ffmpeg.leftOutput {
        CreateFile(outputFilePath);
      }
      failed := ffmpeg.FfmpegFailed?;
      if failed {
        outputFilePath := "";
      }
    }

    /** `handlerUploadVideo`: the checks, the staging on disk and the publication, each
        in the source's order with its early returns, then the deferred calls, which run
        whether the handler returns or panics. */
    method HandlerUploadVideo(r: VideoRequest) returns (replies: seq<Reply>, aborted: bool)
      requires |r.random| == KeyBytes
      modifies this
      ensures replies == Replies(r, s3Bucket)
      ensures aborted == Panics(StopOf(r, s3Bucket))
      ensures Current() == After(old(Current()), VideoFlow.Trace(r, s3Bucket))
    {
      ghost var w0 := Current();
      var deferred, stop, mediaType, videoExtension;
      replies, deferred, stop, mediaType, videoExtension := CheckVideoUpload(r);
      aborted := stop.Some? && Panics(stop.value);
      var later: seq<Reply> := [];
      var laterDeferred: seq<Deferred> := [];
      if stop.Some? {
        assert StopOf(r, s3Bucket) == stop.value;
        assert BodyEvents(r, s3Bucket) == [];
      } else {
        var staged;
        later, laterDeferred, staged := StageVideoUpload(r);
        if staged.Some? {
          assert StopOf(r, s3Bucket) == staged.value;
          assert BodyEvents(r, s3Bucket) == StagingEvents(r) + [];
        } else {
          later, aborted := PublishVideo(r, mediaType, videoExtension);
          assert StopOf(r, s3Bucket) == Publication(r, s3Bucket);
          AfterConcat(w0, StagingEvents(r), PublicationEvents(r, s3Bucket));
        }
      }
      assert Current() == After(w0, BodyEvents(r, s3Bucket));
      replies, deferred := replies + later, deferred + laterDeferred;
      RunDeferred(deferred);
      AfterConcat(w0, BodyEvents(r, s3Bucket), Unwound(deferred));
    }

    /** The staging steps: the temp file, the copy into it, the fast-start run and the
        opening of its output, with the removals and closes each step defers. */
    method StageVideoUpload(r: VideoRequest)
      returns (replies: seq<Reply>, defers: seq<Deferred>, stop: Option<VideoStop>)
      modifies this
      ensures stop == Staging(r)
      ensures replies == if stop.Some? then [Error(500)] else []
      ensures defers == StagingDeferrals(r)
      ensures Current() == After(old(Current()), StagingEvents(r))
    {
      replies, defers := [], [];
      if r.tempPath.None? {
        replies, stop := [Error(500)], Some(TempFailed);
        return;
      }
      var tempFile := r.tempPath.value;
      CreateFile(tempFile);
      AfterSnoc(old(Current()), [], Created(tempFile));
      defers := defers + [Remove(tempFile), Close(tempFile)];
      if !r.copied {
        replies, stop := [Error(500)], Some(CopyFailed);
        return;
      }
      ghost var w1 := Current();
      var processedFilePath, failed := ProcessVideoForFastStart(tempFile, r.ffmpeg);
      AfterSnoc(old(Current()), [Created(tempFile)], Created(FastStartOutputPath(tempFile)));
      if failed {
        replies, stop := [Error(500)], Some(FastStartFailed);
        return;
      }
      if !r.reopened {
        replies, stop := [Error(500)], Some(OpenFailed);
        return;
      }
      defers := defers + [Remove(processedFilePath), Close(processedFilePath)];
      stop := None;
    }

    /** The publication steps: the aspect label, the random key, the upload, the record
        update and the signing of the reply. */
    method PublishVideo(r: VideoRequest, mediaType: string, videoExtension: string)
      returns (replies: seq<Reply>, aborted: bool)
      requires |r.random| == KeyBytes
      requires mediaType == AllowedMediaType && videoExtension == Ext(r)
      modifies this
      ensures replies == PublicationReplies(r, s3Bucket)
      ensures aborted == Panics(Publication(r, s3Bucket))
      ensures Current() == After(old(Current()), PublicationEvents(r, s3Bucket))
    {
      replies, aborted := [], false;
      var aspectRatio: string;
      match GetVideoAspectRatio(r.probe) {
        case Panic =>
          aborted := true;
          return;
        case Ok(a) =>
          aspectRatio := a;
        case Err(a) =>
          aspectRatio := a;
      }
      var key := new byte[KeyBytes];
      ReadRandom(key, r.random);
      var s3VideoName := Encode(key[..]);
      var s3Key := aspectRatio + "/" + s3VideoName + "." + videoExtension;
      assert s3Key == Key(r);
      if !r.putOk {
        replies := [Error(500)];
        return;
      }
      PutObject(s3Bucket, s3Key, mediaType);
      AfterSnoc(old(Current()), [], Published(s3Bucket, s3Key, mediaType));
      var video := r.fetch.video.(videoUrl := Some(StoredReference(s3Bucket, s3Key)));
      assert video == StoredVideo(r, s3Bucket);
      if !r.updated {
        replies := [Error(500)];
        return;
      }
      UpdateVideo(video);
      AfterSnoc(old(Current()), [Published(s3Bucket, s3Key, mediaType)], Updated(video));
      assert PublicationEvents(r, s3Bucket) == [Published(s3Bucket, s3Key, mediaType), Updated(video)];
      replies := SignedReply(r, s3Bucket, video);
    }

    /** `handlerUploadThumbnail`: the checks, then the thumbnail file under the assets
        root and the record update, each in the source's order with its early returns,
        then the deferred closes. */
    method HandlerUploadThumbnail(r: ThumbnailFlow.ThumbnailRequest)
      returns (replies: seq<Reply>, aborted: bool)
      modifies this
      ensures replies == ThumbnailFlow.Replies(r, assetsRoot, port)
      ensures aborted == (ThumbnailFlow.StopOf(r) == ThumbnailFlow.NoSubtype)
      ensures Current() == After(old(Current()), ThumbnailFlow.Trace(r, assetsRoot, port))
    {
      ghost var w0 := Current();
      var deferred, stop, fileExtension;
      replies, deferred, stop, fileExtension := CheckThumbnailUpload(r);
      aborted := stop == Some(ThumbnailFlow.NoSubtype);
      if stop.None? {
        var later, laterDeferred := SaveThumbnail(r, fileExtension);
        replies, deferred := replies + later, deferred + laterDeferred;
      } else {
        assert ThumbnailFlow.BodyEvents(r, assetsRoot, port) == [];
        assert ThumbnailFlow.Deferrals(r, assetsRoot) == deferred + [];
      }
      RunDeferred(deferred);
      AfterConcat(w0, ThumbnailFlow.BodyEvents(r, assetsRoot, port), Unwound(deferred));
    }

    /** The saving steps: the placeholder URL, the thumbnail file, the copy into it, the
        final URL and the record update, with the close the file's creation defers. */
    method SaveThumbnail(r: ThumbnailFlow.ThumbnailRequest, fileExtension: string)
      returns (replies: seq<Reply>, defers: seq<Deferred>)
      requires ThumbnailFlow.Admission(r).None? && fileExtension == ThumbnailFlow.Ext(r)
      modifies this
      ensures replies == ThumbnailFlow.SavingReplies(r, assetsRoot, port)
      ensures defers == if r.created then [Close(ThumbnailFlow.ThumbnailPath(r, assetsRoot))] else []
      ensures Current() == After(old(Current()), ThumbnailFlow.BodyEvents(r, assetsRoot, port))
    {
      replies, defers := [], [];
      var videoId := r.videoId.value;
      var video := r.fetch.video;
      var url := UploadThumbnail.PlaceholderUrl(port, videoId);
      video := video.(thumbnailUrl := Some(url));
      var thumbnailName := UploadThumbnail.ThumbnailName(videoId, fileExtension);
      var thumbnailPath := UploadThumbnail.JoinPath(assetsRoot, thumbnailName);
      assert thumbnailPath == ThumbnailFlow.ThumbnailPath(r, assetsRoot);
      if !r.created {
        replies := [Error(500)];
        return;
      }
      CreateFile(thumbnailPath);
      AfterOne(old(Current()), Created(thumbnailPath));
      defers := [Close(thumbnailPath)];
      if !r.copied {
        replies := [Error(500)];
        return;
      }
      var thumbnailUrl := UploadThumbnail.ThumbnailUrl(port, thumbnailPath);
      video := video.(thumbnailUrl := Some(thumbnailUrl));
      assert video == ThumbnailFlow.SavedVideo(r, assetsRoot, port);
      if !r.updated {
        replies := [Error(500)];
        return;
      }
      UpdateVideo(video);
      AfterSnoc(old(Current()), [Created(thumbnailPath)], Updated(video));
      replies := [Json(200, video)];
    }
  }

  /** The checks before the handler touches anything, from parsing the id to cutting the
      extension: what they write back, the close deferred once the form part is open,
      where they stop, and the media type and extension they leave the later steps. */
  method CheckVideoUpload(r: VideoRequest)
    returns (replies: seq<Reply>, defers: seq<Deferred>, stop: Option<VideoStop>,
             mediaType: string, videoExtension: string)
    ensures stop == Admission(r)
    ensures replies == AdmissionReplies(r)
    ensures defers == if FormOpened(r) then [Close(FormPart)] else []
    ensures stop.None? ==> mediaType == AllowedMediaType && videoExtension == Ext(r)
  {
    replies, defers := [], [];
    mediaType, videoExtension := "", "";
    if r.videoId.None? {
      replies, stop := [Error(400)], Some(InvalidId);
      return;
    }
    if r.auth.MissingToken? {
      replies, stop := [Error(401)], Some(NoToken);
      return;
    }
    if r.auth.InvalidToken? {
      replies, stop := [Error(401)], Some(BadToken);
      return;
    }
    var userId := r.auth.id;
    var video := r.fetch.video;
    if r.fetch.failed {
      replies := replies + [Error(500)];
    }
    if video.userId != userId {
      replies, stop := replies + [Error(401)], Some(NotOwner);
      return;
    }
    if r.bodySize > UploadLimit || r.part.None? {
      replies, stop := replies + [Error(400)], Some(NoFormFile);
      return;
    }
    defers := defers + [Close(FormPart)];
    var contentType := r.part.value;
    if r.mediaType.None? {
      replies, stop := replies + [Error(500)], Some(UnparseableMediaType);
      return;
    }
    mediaType := r.mediaType.value;
    if mediaType != AllowedMediaType {
      replies, stop := replies + [Error(400)], Some(NotMp4);
      return;
    }
    var ext := Extension(contentType);
    if ext.None? {
      stop := Some(NoSubtype);
      return;
    }
    videoExtension := ext.value;
    stop := None;
  }

  /** The checks of the thumbnail handler, from parsing the id to the owner check: what
      they write back, the close deferred once the form part is open, where they stop,
      and the extension they leave the later steps. */
  method CheckThumbnailUpload(r: ThumbnailFlow.ThumbnailRequest)
    returns (replies: seq<Reply>, defers: seq<Deferred>,
             stop: Option<ThumbnailFlow.ThumbnailStop>, fileExtension: string)
    ensures stop == ThumbnailFlow.Admission(r)
    ensures replies == ThumbnailFlow.AdmissionReplies(r)
    ensures defers == if ThumbnailFlow.FormOpened(r) then [Close(FormPart)] else []
    ensures stop.None? ==> r.videoId.Some? && fileExtension == ThumbnailFlow.Ext(r)
  {
    replies, defers, fileExtension := [], [], "";
    if r.videoId.None? {
      replies, stop := [Error(400)], Some(ThumbnailFlow.InvalidId);
      return;
    }
    if r.auth.MissingToken? {
      replies, stop := [Error(401)], Some(ThumbnailFlow.NoToken);
      return;
    }
    if r.auth.InvalidToken? {
      replies, stop := [Error(401)], Some(ThumbnailFlow.BadToken);
      return;
    }
    var userId := r.auth.id;
    if r.part.None? {
      replies, stop := [Error(400)], Some(ThumbnailFlow.NoFormFile);
      return;
    }
    defers := defers + [Close(FormPart)];
    var contentType := r.part.value;
    if r.mediaType.None? {
      replies, stop := [Error(500)], Some(ThumbnailFlow.UnparseableMediaType);
      return;
    }
    var mediatype := r.mediaType.value;
    if mediatype != "image/jpeg" && mediatype != "image/png" {
      replies, stop := [Error(400)], Some(ThumbnailFlow.NotImage);
      return;
    }
    var ext := Extension(contentType);
    if ext.None? {
      stop := Some(ThumbnailFlow.NoSubtype);
      return;
    }
    fileExtension := ext.value;
    var video := r.fetch.video;
    if r.fetch.failed {
      replies := replies + [Error(500)];
    }
    if video.userId != userId {
      replies, stop := replies + [Error(401)], Some(ThumbnailFlow.NotOwner);
      return;
    }
    stop := None;
  }

  /** Signing the saved video for the response, `dbVideoToSignedVideo`, and the reply it
      leads to. */
  method SignedReply(r: VideoRequest, bucket: BucketName, video: Video) returns (replies: seq<Reply>)
    requires video == StoredVideo(r, bucket)
    ensures replies == if PresignedUrl(r, bucket).None? then [Error(500)]
      else [Json(200, SignedVideo(r, bucket))]
  {
    var signed := DbVideoToSignedVideo(video, r.presign);
    SigningStoredVideo(r, bucket);
    if signed.Err? {
      replies := [Error(500)];
    } else {
      replies := [Json(200, signed.value)];
    }
  }
}
