/** What the video upload handler guarantees, stated over its state machine: which
    requests it turns away before touching anything, what it always cleans up and what
    it leaves behind, what it changes in the stores, and what it writes back. */
module VideoFlowFacts {
  import opened Wrappers
  import opened Records
  import opened Text
  import opened Base64Url
  import opened UploadVideo
  import opened VideoMetadata
  import opened Handlers
  import opened VideoFlow

  /** A request the checks turn away has no effect at all: at most the form part is
      closed. */
  lemma RejectedTouchesNothing(r: VideoRequest, b: BucketName, w: World)
    requires Admission(r).Some?
    ensures Trace(r, b) == if FormOpened(r) then [Closed(FormPart)] else []
    ensures After(w, Trace(r, b)) == w
  {
    RejectedShape(r, b);
    UnwoundOne(Close(FormPart));
    AfterOne(w, Closed(FormPart));
  }

  /** The body of a turned-away request does nothing, and only the form part's close is
      deferred. */
  lemma RejectedShape(r: VideoRequest, b: BucketName)
    requires Admission(r).Some?
    ensures BodyEvents(r, b) == []
    ensures Deferrals(r) == if FormOpened(r) then [Close(FormPart)] else []
  {
    assert Deferrals(r) == (if FormOpened(r) then [Close(FormPart)] else []) + [];
  }

  /** A media type other than exactly `video/mp4` ends with 400 before a temp file
      exists. */
  lemma NotMp4Rejected(r: VideoRequest, b: BucketName)
    requires FormOpened(r) && r.mediaType.Some? && r.mediaType.value != AllowedMediaType
    ensures StopOf(r, b) == NotMp4
    ensures Replies(r, b) == FetchReplies(r) + [Error(400)]
    ensures Trace(r, b) == [Closed(FormPart)]
  {
    RejectedTouchesNothing(r, b, World({}, map[], map[]));
  }

  /** A Content-Type header the media-type parser refuses ends with 500, not 400, before
      a temp file exists. */
  lemma UnparseableRejected(r: VideoRequest, b: BucketName)
    requires FormOpened(r) && r.mediaType.None?
    ensures StopOf(r, b) == UnparseableMediaType
    ensures Replies(r, b) == FetchReplies(r) + [Error(500)]
    ensures Trace(r, b) == [Closed(FormPart)]
  {
    RejectedTouchesNothing(r, b, World({}, map[], map[]));
  }

  /** A user who does not own the video gets 401, and nothing changes: the record is
      never updated. */
  lemma OwnerMismatchRejected(r: VideoRequest, b: BucketName, w: World)
    requires Authenticated(r) && r.fetch.video.userId != r.auth.id
    ensures StopOf(r, b) == NotOwner
    ensures Replies(r, b) == FetchReplies(r) + [Error(401)]
    ensures After(w, Trace(r, b)) == w
  {
    RejectedTouchesNothing(r, b, w);
  }

  /** A body over the 1 GiB cap leaves no form file to read: 400, and nothing changes. */
  lemma OversizedBodyRejected(r: VideoRequest, b: BucketName, w: World)
    requires Authenticated(r) && r.fetch.video.userId == r.auth.id
    requires r.bodySize > UploadLimit
    ensures StopOf(r, b) == NoFormFile
    ensures Replies(r, b) == FetchReplies(r) + [Error(400)]
    ensures After(w, Trace(r, b)) == w
  {
    RejectedTouchesNothing(r, b, w);
  }

  /** A failed lookup writes a 500 and the handler carries on as if it had succeeded with
      the video it got back: it stops at the same place with the same effects, and
      writes the same replies after the 500. */
  lemma FetchErrorDoesNotStop(r: VideoRequest, b: BucketName)
    requires Authenticated(r) && r.fetch.failed
    ensures StopOf(r, b) == StopOf(Succeeded(r), b)
    ensures Trace(r, b) == Trace(Succeeded(r), b)
    ensures Replies(r, b) == [Error(500)] + Replies(Succeeded(r), b)
  {
    SameChecks(r);
    SamePublication(r, b);
    FetchErrorReplies(r, b);
    assert StagingEvents(r) == StagingEvents(Succeeded(r));
    assert StagingDeferrals(r) == StagingDeferrals(Succeeded(r));
  }

  /** The replies part of `FetchErrorDoesNotStop`. */
  lemma FetchErrorReplies(r: VideoRequest, b: BucketName)
    requires Authenticated(r) && r.fetch.failed
    ensures Replies(r, b) == [Error(500)] + Replies(Succeeded(r), b)
  {
    SameChecks(r);
    SamePublication(r, b);
    assert AdmissionReplies(r) == [Error(500)] + AdmissionReplies(Succeeded(r));
  }

  /** The request with the lookup reporting success. */
  function Succeeded(r: VideoRequest): VideoRequest {
    r.(fetch := r.fetch.(failed := false))
  }

  /** The lookup's error flag plays no part in the checks or in staging. */
  lemma SameChecks(r: VideoRequest)
    ensures Admission(r) == Admission(Succeeded(r)) && Staging(r) == Staging(Succeeded(r))
    ensures FormOpened(r) == FormOpened(Succeeded(r))
  {
  }

  /** The lookup's error flag plays no part in publishing. */
  lemma SamePublication(r: VideoRequest, b: BucketName)
    ensures var ok := Succeeded(r);
      Publication(r, b) == Publication(ok, b) && PublicationReplies(r, b) == PublicationReplies(ok, b)
      && PublicationEvents(r, b) == PublicationEvents(ok, b)
  {
    assert Key(r) == Key(Succeeded(r)) && StoredVideo(r, b) == StoredVideo(Succeeded(r), b);
  }

  /** A probe that fails to run or to parse is ignored: the handler publishes under the
      empty aspect label. */
  lemma ProbeErrorIgnored(r: VideoRequest, b: BucketName)
    requires GetVideoAspectRatio(r.probe).Err?
    ensures Publication(r, b) != ProbePanicked
    ensures Key(r) == ObjectKey("", r.random, Ext(r))
  {
  }

  /** Once the temp file is created, it is removed on every later exit. */
  lemma TempFileRemoved(r: VideoRequest, b: BucketName, w: World)
    requires Admission(r).None? && r.tempPath.Some?
    ensures TempPath(r) !in After(w, Trace(r, b)).disk
  {
    AfterConcat(w, BodyEvents(r, b), Unwound(Deferrals(r)));
    assert Deferrals(r)[1] == Remove(TempPath(r));
    RemovedWhenDeferred(After(w, BodyEvents(r, b)), Deferrals(r), TempPath(r));
  }

  /** Once the fast-start output is open, it is removed on every later exit. */
  lemma ProcessedFileRemoved(r: VideoRequest, b: BucketName, w: World)
    requires Admission(r).None? && Staging(r).None?
    ensures ProcessedPath(r) !in After(w, Trace(r, b)).disk
  {
    AfterConcat(w, BodyEvents(r, b), Unwound(Deferrals(r)));
    assert Deferrals(r)[3] == Remove(ProcessedPath(r));
    RemovedWhenDeferred(After(w, BodyEvents(r, b)), Deferrals(r), ProcessedPath(r));
  }

  /** The fast-start output is left on disk when ffmpeg fails after writing it, or when
      reopening it fails: its removal is deferred only once it is open. */
  lemma ProcessedFileLeft(r: VideoRequest, b: BucketName, w: World)
    requires Admission(r).None? && r.tempPath.Some? && r.copied
    requires Staging(r) == Some(OpenFailed) || (r.ffmpeg.FfmpegFailed? && r.ffmpeg.leftOutput)
    ensures ProcessedPath(r) in After(w, Trace(r, b)).disk
  {
    var t, p := TempPath(r), ProcessedPath(r);
    FastStartOutputPathFresh(t, t);
    var body := BodyEvents(r, b);
    assert body == [Created(t)] + [Created(p)];
    AfterSnoc(w, [Created(t)], Created(p));
    AfterConcat(w, body, Unwound(Deferrals(r)));
    assert Deferrals(r) == [Close(FormPart), Remove(t), Close(t)];
    KeptUnlessDeferred(After(w, body), Deferrals(r), p);
  }

  /** The record is updated only right after the object was published under the key
      the record then refers to. */
  lemma UpdateFollowsPublish(r: VideoRequest, b: BucketName)
    ensures forall i :: 0 <= i < |Trace(r, b)| && Trace(r, b)[i].Updated? ==>
      0 < i && Trace(r, b)[i - 1] == Published(b, Key(r), AllowedMediaType)
      && Trace(r, b)[i] == Updated(StoredVideo(r, b))
  {
    var body, t := BodyEvents(r, b), Trace(r, b);
    UnwoundOnlyClosesAndRemoves(Deferrals(r));
    forall i | 0 <= i < |t| && t[i].Updated?
      ensures 0 < i && t[i - 1] == Published(b, Key(r), AllowedMediaType)
      ensures t[i] == Updated(StoredVideo(r, b))
    {
      if i >= |body| {
        DeferredTail(r, b, i);
        assert false;
      }
      if Admission(r).None? && Staging(r).None? && r.putOk && r.updated
        && !GetVideoAspectRatio(r.probe).Panic? {
        assert body == [Created(TempPath(r)), Created(ProcessedPath(r)),
          Published(b, Key(r), AllowedMediaType), Updated(StoredVideo(r, b))];
      }
    }
  }

  /** Past the body's effects, the trace holds only what the deferred calls do. */
  lemma DeferredTail(r: VideoRequest, b: BucketName, i: nat)
    requires |BodyEvents(r, b)| <= i < |Trace(r, b)|
    ensures Trace(r, b)[i].Closed? || Trace(r, b)[i].Removed?
  {
    var u := Unwound(Deferrals(r));
    UnwoundOnlyClosesAndRemoves(Deferrals(r));
    assert Trace(r, b)[i] == u[i - |BodyEvents(r, b)|];
    assert u[i - |BodyEvents(r, b)|] in u;
  }

  /** What a request does to the stores, by where it stops: the object is published on
      the paths past `PutObject`, and the record points at it on the paths past
      `UpdateVideo`; every other request leaves both stores as they were. */
  lemma StoreEffects(r: VideoRequest, b: BucketName, w: World)
    ensures var s, w' := StopOf(r, b), After(w, Trace(r, b));
      w'.objects == (if s in {UpdateFailed, SignFailed, Uploaded}
                     then w.objects[(b, Key(r)) := AllowedMediaType] else w.objects)
      && w'.records == (if s in {SignFailed, Uploaded}
                        then w.records[r.fetch.video.id := StoredVideo(r, b)] else w.records)
  {
    var body := BodyEvents(r, b);
    AfterConcat(w, body, Unwound(Deferrals(r)));
    UnwoundKeepsStores(After(w, body), Deferrals(r));
    BodyStoreEffects(r, b, w);
  }

  /** What the handler's body changes in the stores, by where it stops. */
  lemma BodyStoreEffects(r: VideoRequest, b: BucketName, w: World)
    ensures var s, w' := StopOf(r, b), After(w, BodyEvents(r, b));
      w'.objects == (if s in {UpdateFailed, SignFailed, Uploaded}
                     then w.objects[(b, Key(r)) := AllowedMediaType] else w.objects)
      && w'.records == (if s in {SignFailed, Uploaded}
                        then w.records[r.fetch.video.id := StoredVideo(r, b)] else w.records)
  {
    var staged := StagingEvents(r);
    StagingKeepsStores(r, w);
    if Admission(r).None? {
      if Staging(r).Some? {
        assert BodyEvents(r, b) == staged + [];
      } else {
        AfterConcat(w, staged, PublicationEvents(r, b));
        PublicationStoreEffects(r, b, After(w, staged));
      }
    }
  }

  /** Staging only creates files. */
  lemma StagingKeepsStores(r: VideoRequest, w: World)
    ensures After(w, StagingEvents(r)).records == w.records
    ensures After(w, StagingEvents(r)).objects == w.objects
  {
    StoresUntouched(w, StagingEvents(r));
  }

  /** What publishing changes in the stores, by where it ends. */
  lemma PublicationStoreEffects(r: VideoRequest, b: BucketName, w: World)
    ensures var s, w' := Publication(r, b), After(w, PublicationEvents(r, b));
      w'.objects == (if s in {UpdateFailed, SignFailed, Uploaded}
                     then w.objects[(b, Key(r)) := AllowedMediaType] else w.objects)
      && w'.records == (if s in {SignFailed, Uploaded}
                        then w.records[r.fetch.video.id := StoredVideo(r, b)] else w.records)
  {
    if !GetVideoAspectRatio(r.probe).Panic? && r.putOk {
      var pub := Published(b, Key(r), AllowedMediaType);
      AfterSnoc(w, [], pub);
      if r.updated {
        AfterSnoc(w, [pub], Updated(StoredVideo(r, b)));
      }
    }
  }

  /** A successful upload answers with the stored video carrying the one-hour presigned
      URL of the object signing names (`SignedObjectOfKey` says which). */
  lemma UploadedOutcome(r: VideoRequest, b: BucketName)
    requires StopOf(r, b) == Uploaded
    ensures PresignedUrl(r, b).Some?
    ensures SignedVideo(r, b) == r.fetch.video.(videoUrl := PresignedUrl(r, b))
    ensures Replies(r, b) == FetchReplies(r) + [Json(200, SignedVideo(r, b))]
  {
    assert Replies(r, b) == AdmissionReplies(r) + PublicationReplies(r, b);
    assert AdmissionReplies(r) == FetchReplies(r) + [];
  }

  /** Signing names the bucket and the published key cut at its first comma. The aspect
      label and the random name hold no comma, so that is the published object exactly
      when the extension, cut from the raw Content-Type header, holds none: a header
      with a comma in its parameters gets a URL for an object that was never
      published. */
  lemma SignedObjectOfKey(r: VideoRequest, b: BucketName)
    requires |r.random| == KeyBytes
    ensures SignedObject(r, b) == (b, Cut(Key(r), ',').0)
    ensures SignedObject(r, b) == (b, Key(r)) <==> ',' !in Ext(r)
  {
    AspectHasNoComma(r);
    StoredKeySigning(b, Aspect(r), r.random, Ext(r));
  }

  /** The aspect label never holds a comma. */
  lemma AspectHasNoComma(r: VideoRequest)
    ensures ',' !in Aspect(r)
  {
    assert ',' !in "landscape" && ',' !in "portrait" && ',' !in "other";
  }

  /** Decoding, as written, the reference stored for a key built from a comma-free
      aspect. */
  lemma StoredKeySigning(b: BucketName, aspect: string, random: seq<byte>, ext: string)
    requires |random| == KeyBytes && ',' !in aspect
    ensures var key := ObjectKey(aspect, random, ext);
      DecodeReferenceAsWritten(StoredReference(b, key)) == Some((b, Cut(key, ',').0))
      && (Cut(key, ',').0 == key <==> ',' !in ext)
  {
    AsWrittenDecodesCutKey(b, ObjectKey(aspect, random, ext));
    ObjectKeyComma(aspect, random, ext);
  }

  /** The reference the handler stores decodes, as written, to the object signing
      names, so signing the stored video fails exactly when presigning that object
      fails, and never panics. */
  lemma SigningStoredVideo(r: VideoRequest, b: BucketName)
    ensures DecodeReferenceAsWritten(StoredVideo(r, b).videoUrl.value) == Some(SignedObject(r, b))
    ensures DbVideoToSignedVideo(StoredVideo(r, b), r.presign) ==
      if PresignedUrl(r, b).None? then Err(StoredVideo(r, b)) else Ok(SignedVideo(r, b))
  {
    AsWrittenDecodesCutKey(b, Key(r));
    SignedVideoPresignsStoredObject(StoredVideo(r, b), b, Key(r), r.presign);
  }

  /** With the intended decoding, signing the stored video presigns the published
      bucket and key themselves, whatever the extension holds. */
  lemma IntendedSigningOfStoredVideo(r: VideoRequest, b: BucketName)
    ensures DbVideoToSignedVideoIntended(StoredVideo(r, b), r.presign) ==
      match r.presign(b, Key(r), PresignExpirySeconds)
      case None => Err(StoredVideo(r, b))
      case Some(url) => Ok(StoredVideo(r, b).(videoUrl := Some(url)))
  {
    IntendedSigningPresignsStoredObject(StoredVideo(r, b), b, Key(r), r.presign);
  }

  /** Unless the handler panics, it answers exactly once after the lookup's 500, with the
      status of where it stopped, and with JSON only on success. */
  lemma OneFinalReply(r: VideoRequest, b: BucketName)
    ensures var s, n := StopOf(r, b), |FetchReplies(r)|;
      Replies(r, b)[..n] == FetchReplies(r)
      && (Panics(s) ==> |Replies(r, b)| == n)
      && (!Panics(s) ==> |Replies(r, b)| == n + 1 && Replies(r, b)[n].code == Status(s)
                         && (Replies(r, b)[n].Json? <==> s == Uploaded))
  {
    if Admission(r).Some? {
      assert Replies(r, b) == AdmissionReplies(r) + [];
    } else {
      assert AdmissionReplies(r) == FetchReplies(r) + [];
      if Staging(r).None? {
        assert Replies(r, b) == FetchReplies(r) + PublicationReplies(r, b);
      }
    }
  }
}
