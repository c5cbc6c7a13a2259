/** What the thumbnail upload handler guarantees, stated over its state machine: which
    requests it turns away before touching anything, in what order it checks, what it
    leaves on disk, what it changes in the record store, and what it writes back. */
module ThumbnailFlowFacts {
  import opened Wrappers
  import opened Records
  import opened ContentType
  import opened UploadThumbnail
  import opened Handlers
  import opened ThumbnailFlow

  /** A request the checks turn away has no effect at all: at most the form part is
      closed. */
  lemma RejectedTouchesNothing(r: ThumbnailRequest, root: string, port: string, w: World)
    requires Admission(r).Some?
    ensures Trace(r, root, port) == if FormOpened(r) then [Closed(FormPart)] else []
    ensures After(w, Trace(r, root, port)) == w
  {
    assert Deferrals(r, root) == (if FormOpened(r) then [Close(FormPart)] else []) + [];
    UnwoundOne(Close(FormPart));
    AfterOne(w, Closed(FormPart));
  }

  /** Only `image/jpeg` and `image/png` are accepted: any other media type ends with 400,
      before the record is even looked up. */
  lemma NotImageRejected(r: ThumbnailRequest, root: string, port: string)
    requires FormOpened(r) && r.mediaType.Some? && !AllowedMediaType(r.mediaType.value)
    ensures StopOf(r) == NotImage
    ensures Replies(r, root, port) == [Error(400)]
    ensures Trace(r, root, port) == [Closed(FormPart)]
  {
    RejectedTouchesNothing(r, root, port, World({}, map[], map[]));
  }

  /** A Content-Type header the media-type parser refuses ends with 500. */
  lemma UnparseableRejected(r: ThumbnailRequest, root: string, port: string)
    requires FormOpened(r) && r.mediaType.None?
    ensures StopOf(r) == UnparseableMediaType
    ensures Replies(r, root, port) == [Error(500)]
    ensures Trace(r, root, port) == [Closed(FormPart)]
  {
    RejectedTouchesNothing(r, root, port, World({}, map[], map[]));
  }

  /** The media type is checked before ownership, the other way round from the video
      handler: a user who does not own the video but sends a wrong media type gets 400,
      not 401. */
  lemma MediaCheckedBeforeOwner(r: ThumbnailRequest, root: string, port: string)
    requires FormOpened(r) && r.mediaType.Some? && !AllowedMediaType(r.mediaType.value)
    requires r.fetch.video.userId != r.auth.id
    ensures StopOf(r) == NotImage && Replies(r, root, port) == [Error(400)]
  {
    NotImageRejected(r, root, port);
  }

  /** A user who does not own the video gets 401, and nothing changes: the record is
      never updated. */
  lemma OwnerMismatchRejected(r: ThumbnailRequest, root: string, port: string, w: World)
    requires Fetched(r) && r.fetch.video.userId != r.auth.id
    ensures StopOf(r) == NotOwner
    ensures Replies(r, root, port) == FetchReplies(r) + [Error(401)]
    ensures After(w, Trace(r, root, port)) == w
  {
    RejectedTouchesNothing(r, root, port, w);
  }

  /** A failed lookup writes a 500 and the handler carries on as if it had succeeded with
      the video it got back. */
  lemma FetchErrorDoesNotStop(r: ThumbnailRequest, root: string, port: string)
    requires Fetched(r) && r.fetch.failed
    ensures var ok := r.(fetch := r.fetch.(failed := false));
      StopOf(r) == StopOf(ok) && Trace(r, root, port) == Trace(ok, root, port)
      && Replies(r, root, port) == [Error(500)] + Replies(ok, root, port)
  {
    var ok := r.(fetch := r.fetch.(failed := false));
    assert Admission(r) == Admission(ok) && SavedVideo(r, root, port) == SavedVideo(ok, root, port);
    assert AdmissionReplies(r) == [Error(500)] + AdmissionReplies(ok);
  }

  /** Once created, the thumbnail file stays on disk, even when the copy into it or the
      record update fails: nothing ever removes it. */
  lemma ThumbnailKept(r: ThumbnailRequest, root: string, port: string, w: World)
    requires Admission(r).None? && r.created
    ensures ThumbnailPath(r, root) in After(w, Trace(r, root, port)).disk
  {
    var body, p := BodyEvents(r, root, port), ThumbnailPath(r, root);
    assert body[0] == Created(p);
    var ds := Deferrals(r, root);
    assert ds == [Close(FormPart), Close(p)];
    LeftOnDisk(w, body, p, 0);
    AfterConcat(w, body, Unwound(ds));
    KeptUnlessDeferred(After(w, body), ds, p);
  }

  /** The record is updated only after the thumbnail file was created and filled, and
      only with the video pointing at that file. */
  lemma UpdateFollowsCopy(r: ThumbnailRequest, root: string, port: string)
    ensures forall i :: 0 <= i < |Trace(r, root, port)| && Trace(r, root, port)[i].Updated? ==>
      r.created && r.copied && i == 1
      && Trace(r, root, port)[0] == Created(ThumbnailPath(r, root))
      && Trace(r, root, port)[1] == Updated(SavedVideo(r, root, port))
  {
    var body, t := BodyEvents(r, root, port), Trace(r, root, port);
    forall i | 0 <= i < |t| && t[i].Updated?
      ensures r.created && r.copied && i == 1
      ensures t[0] == Created(ThumbnailPath(r, root)) && t[1] == Updated(SavedVideo(r, root, port))
    {
      if i >= |body| {
        DeferredTail(r, root, port, i);
        assert false;
      }
    }
  }

  /** Past the body's effects, the trace holds only what the deferred calls do. */
  lemma DeferredTail(r: ThumbnailRequest, root: string, port: string, i: nat)
    requires |BodyEvents(r, root, port)| <= i < |Trace(r, root, port)|
    ensures Trace(r, root, port)[i].Closed? || Trace(r, root, port)[i].Removed?
  {
    var u := Unwound(Deferrals(r, root));
    UnwoundOnlyClosesAndRemoves(Deferrals(r, root));
    assert Trace(r, root, port)[i] == u[i - |BodyEvents(r, root, port)|];
    assert u[i - |BodyEvents(r, root, port)|] in u;
  }

  /** The handler never touches the blob store, and changes the record store only on
      success, by saving the video with its thumbnail's URL. */
  lemma StoreEffects(r: ThumbnailRequest, root: string, port: string, w: World)
    ensures var w' := After(w, Trace(r, root, port));
      w'.objects == w.objects
      && w'.records == (if StopOf(r) == Uploaded
                        then w.records[r.fetch.video.id := SavedVideo(r, root, port)] else w.records)
  {
    var body := BodyEvents(r, root, port);
    AfterConcat(w, body, Unwound(Deferrals(r, root)));
    UnwoundKeepsStores(After(w, body), Deferrals(r, root));
    BodyStoreEffects(r, root, port, w);
  }

  /** What the handler's body changes in the stores. */
  lemma BodyStoreEffects(r: ThumbnailRequest, root: string, port: string, w: World)
    ensures var w' := After(w, BodyEvents(r, root, port));
      w'.objects == w.objects
      && w'.records == (if StopOf(r) == Uploaded
                        then w.records[r.fetch.video.id := SavedVideo(r, root, port)] else w.records)
  {
    if Admission(r).None? && r.created {
      var c := Created(ThumbnailPath(r, root));
      AfterOne(w, c);
      if r.copied && r.updated {
        AfterSnoc(w, [c], Updated(SavedVideo(r, root, port)));
      } else {
        assert BodyEvents(r, root, port) == [c];
      }
    }
  }

  /** A successful upload answers with the saved video, whose URL replaces the
      placeholder and reads back to the thumbnail's path under the assets root,
      `<videoID>.<ext>`. */
  lemma UploadedOutcome(r: ThumbnailRequest, root: string, port: string)
    requires StopOf(r) == Uploaded
    ensures Replies(r, root, port) == FetchReplies(r) + [Json(200, SavedVideo(r, root, port))]
    ensures var url := SavedVideo(r, root, port).thumbnailUrl;
      url.Some? && UrlPath(port, url.value) == Some(ThumbnailPath(r, root))
    ensures ThumbnailPath(r, root) ==
      JoinPath(root, r.videoId.value.text + "." + Extension(r.part.value).value)
  {
    UrlPathRoundTrip(port, ThumbnailPath(r, root));
  }

  /** Unless the handler panics, it answers exactly once after the lookup's 500, with the
      status of where it stopped, and with JSON only on success. */
  lemma OneFinalReply(r: ThumbnailRequest, root: string, port: string)
    ensures var s, n := StopOf(r), |FetchReplies(r)|;
      Replies(r, root, port)[..n] == FetchReplies(r)
      && (s == NoSubtype ==> |Replies(r, root, port)| == n)
      && (s != NoSubtype ==> |Replies(r, root, port)| == n + 1
                             && Replies(r, root, port)[n].code == Status(s)
                             && (Replies(r, root, port)[n].Json? <==> s == Uploaded))
  {
  }
}
