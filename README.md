# Tubely upload handlers in Dafny

This project models the core of Tubely's server. Tubely is a small video-hosting back end, written in Go, that keeps video records in a database and stores files on local disk and in Amazon S3. The core has three parts:

- **The video upload handler** (`handlerUploadVideo`):
  - It checks the video id, the bearer token, ownership, the 1 GiB body cap and the form part. It accepts only the media type `video/mp4`.
  - It stages the upload in a temp file and runs ffmpeg's fast-start remux on it. It probes the remuxed file's aspect ratio.
  - It publishes the file to S3 under `<aspect>/<base64url(32 random bytes)>.<ext>`.
  - It stores `<bucket>,<key>` in the record, and answers with the record carrying a presigned URL that is valid for one hour.
- **The thumbnail upload handler** (`handlerUploadThumbnail`): it checks the id, the token and the form part, and accepts only `image/jpeg` or `image/png`. It checks ownership, writes `<videoID>.<ext>` under the assets root, and saves `http://localhost:<port>/<path>` as the thumbnail URL.
- **The metadata helpers**: `getVideoAspectRatio`, which classifies a stream as `landscape`, `portrait` or `other` using Go's truncating integer division, and `dbVideoToSignedVideo`, which turns the stored reference back into a presigned URL.

Layout:

- `text.dfy`: Go's `strings.Split`, `Join` and `Cut`.
- `base64url.dfy`: unpadded URL-safe base64, as in section 5 of RFC 4648, with its decoder.
- `records.dfy`: the video record.
- `content_type.dfy`: the extension cut from a Content-Type header.
- `upload_video.dfy` and `upload_thumbnail.dfy`: the pure key, path and URL builders.
- `video_metadata.dfy`: the classifier, the reference decoding and the signing.
- `handlers.dfy`: the world both handlers change, and Go's `defer` semantics.
- `video_flow.dfy` and `thumbnail_flow.dfy`: each handler as a state machine. They give where a request stops, what it writes back, and the trace of its effects: the body's effects, then the deferred calls in reverse order.
- `api.dfy`: the class `ApiConfig`, whose fields are the disk, the record store and the blob store. Its handler methods follow the Go code step by step, and each is proved to answer and change the world exactly as its state machine says. That includes signing the reply through `dbVideoToSignedVideo` as written.
- `video_flow_facts.dfy` and `thumbnail_flow_facts.dfy`: what the handlers guarantee, stated over those state machines.

Collaborators the model cannot see are inputs of a request value: `uuid.Parse`, JWT validation, `GetVideo`, `mime.ParseMediaType`, file creation and copying, ffmpeg, ffprobe, `rand.Read`, `PutObject`, `UpdateVideo` and `PresignGetObject`. Go panics are modelled as explicit outcomes. Deferred calls still run on a panic, and net/http recovers from it without writing a response.

Where the code and the documented behaviour differ, the model follows the code:

- The thumbnail handler's 10 MiB is only `ParseMultipartForm`'s in-memory threshold, not a cap on the upload, so the model puts no limit on a thumbnail's size.
- The file extension is element 1 of the raw header split on `/`: the text between the first and the second `/`, media-type parameters included. It is not the subtype of the parsed media type.
- `dbVideoToSignedVideo` splits the stored reference on every comma and presigns piece 1. The upload handler's model signs its reply that way, so for a key that holds a comma it presigns the key cut at that comma (see Findings). The decoding that cuts at the first comma only is a separate member, `VideoMetadata.DbVideoToSignedVideoIntended`, with its own lemmas.

## Model

| member | source | states |
|---|---|---|
| Text.Split | handler_upload_video.go:83 | `strings.Split` always gives at least one piece, and no piece contains the separator |
| Text.JoinSplit | handler_upload_video.go:83 | joining the pieces of a split with the separator gives back the string |
| Text.SplitJoin | video_metadata.go:60 | splitting a join of separator-free pieces gives back the pieces |
| Text.SplitSecondIsCut | handler_upload_thumbnail.go:61 | when the separator occurs there are at least two pieces, and piece 1 is the text between the first and the second separator |
| Text.Cut | video_metadata.go:60-61 | cutting finds a separator exactly when one occurs; then the string is head + separator + tail, with no separator in the head |
| Base64Url.EncodeShape | handler_upload_video.go:133 | the unpadded encoding of n bytes has 4(n/3) characters plus 0, 2 or 3 more, all from the URL-safe alphabet |
| Base64Url.DecodeEncode | handler_upload_video.go:133 | every encoding is decodable and decodes back to the bytes |
| Base64Url.EncodeInjective | handler_upload_video.go:133 | distinct byte strings have distinct encodings |
| ContentType.Extension | handler_upload_video.go:83 | the extension is missing (Go's index panics) exactly when the header has no `/`; when present it holds no `/` |
| ContentType.ExtensionBetweenSlashes | handler_upload_thumbnail.go:61 | the extension is the text between the first and the second `/` of the raw header |
| ContentType.ExtensionOfBareType | handler_upload_video.go:83 | for `type/subtype` the extension is the subtype |
| ContentType.ExtensionKeepsParameters | handler_upload_video.go:73-83 | parameters after the subtype stay in the extension, because it is cut from the raw header |
| UploadVideo.StoredReference | handler_upload_video.go:149 | the stored reference is the bucket, a comma at position \|bucket\|, then the key |
| UploadVideo.RandomNameShape | handler_upload_video.go:131-133 | 32 random bytes give a 43-character name of URL-safe digits, with no `/`, `,` or `.` |
| UploadVideo.ObjectKeyParts | handler_upload_video.go:131-134 | the key is the aspect, `/`, 43 characters that decode to the random bytes, `.`, and the extension, each at a fixed offset |
| UploadVideo.ObjectKeyNamespace | handler_upload_video.go:134 | splitting the key on `/` gives the aspect label and then the file name, when neither the aspect nor the extension holds `/` |
| UploadVideo.ObjectKeyInjective | handler_upload_video.go:131-134 | keys built from different random bytes differ, for any aspect and extension |
| UploadVideo.ObjectKeyComma | handler_upload_video.go:134 | a key holds a comma exactly when its aspect or its extension does |
| UploadVideo.FastStartOutputPathFresh | handler_upload_video.go:178 | the fast-start output path never equals its input, and distinct inputs get distinct outputs |
| VideoMetadata.Quot | video_metadata.go:41-45 | Go's integer division: the remainder `a − q·d` lies in `[0, d)` for a non-negative dividend and in `(−d, 0]` for a negative one |
| VideoMetadata.QuotIsTruncation | video_metadata.go:41-45 | Go's quotient of `−a` is minus that of `a`, and for a non-negative dividend it is Dafny's quotient |
| VideoMetadata.QuotUnique | video_metadata.go:41-45 | any quotient whose remainder has the dividend's sign and is smaller than the divisor is Go's quotient |
| VideoMetadata.Classify | video_metadata.go:40-49 | the label is one of landscape, portrait or other |
| VideoMetadata.GetVideoAspectRatio | video_metadata.go:13-50 | it errors, with an empty label, exactly when ffprobe fails or its output does not parse. It panics exactly when there is no first stream or it lacks a numeric width or height. Otherwise it gives `Classify` of the first stream's width and height |
| VideoMetadata.FirstStreamOnly | video_metadata.go:36-37 | only the first stream decides the label |
| VideoMetadata.LandscapeBands | video_metadata.go:40-44 | for non-negative sizes, landscape holds iff the width exceeds the height and both lie in the same band `[16q,16q+16)` × `[9q,9q+9)` (both directions) |
| VideoMetadata.PortraitBands | video_metadata.go:45-47 | for a non-landscape size, portrait holds iff the sizes lie in the same band `[9q,9q+9)` × `[16q,16q+16)` (both directions) |
| VideoMetadata.LandscapeIsNearSixteenNine | video_metadata.go:40-44 | a landscape size has 9w − 16h in [−128, 135]: the test approximates 16:9 |
| VideoMetadata.PortraitIsNearNineSixteen | video_metadata.go:45-47 | a portrait size has 16w − 9h in [−135, 128]: the test approximates 9:16 |
| VideoMetadata.ExactRatios | video_metadata.go:40-47 | every exact 16:9 size (k > 0) is landscape, and every exact 9:16 size is portrait |
| VideoMetadata.TinySizes | video_metadata.go:40-47 | sizes under 9 pixels a side are landscape when wider, and portrait otherwise, including 0×0 |
| VideoMetadata.ClassifyExamples | video_metadata.go:40-49 | 1920×1080 and 1280×720 are landscape, 1080×1920 is portrait, 1000×1000 is other, 0×0 is portrait |
| VideoMetadata.TruncatingDivision | video_metadata.go:41 | Go's −1/16 is 0 where floor division gives −1 |
| VideoMetadata.DecodeReferenceAsWritten | video_metadata.go:60-61 | as written: no result (Go's `parts[1]` panics) exactly when the reference has no comma; otherwise two comma-free pieces |
| VideoMetadata.DecodeReference | video_metadata.go:60-61 | the corrected decoding: no result exactly when there is no comma; otherwise a comma-free bucket and a key such that the stored reference of the two is the input |
| VideoMetadata.ReferenceRoundTrip | handler_upload_video.go:149 | the corrected decoding inverts the stored reference for every key and every comma-free bucket |
| VideoMetadata.AsWrittenRoundTrip | video_metadata.go:60-61 | the decoding as written inverts the stored reference only when the key has no comma either |
| VideoMetadata.AsWrittenCutsKey | video_metadata.go:60-61 | as written, a key that holds a comma comes back cut short at it |
| VideoMetadata.DecodingsAgree | video_metadata.go:60-61 | on references with exactly one comma the two decodings agree |
| VideoMetadata.AsWrittenDecodesCutKey | video_metadata.go:60-61 | as written, a stored reference decodes to its bucket and its key cut at the key's first comma, which is the whole key exactly when the key has no comma |
| VideoMetadata.DbVideoToSignedVideo | video_metadata.go:52-70 | a video without a URL comes back unchanged. A URL without a comma panics. Otherwise it presigns pieces 0 and 1 of the reference split on every comma, for 3600 s: it fails, with the unchanged video, exactly when that presigning fails, and on success only the video URL changes, to the presigned URL |
| VideoMetadata.SignedVideoPresignsStoredObject | video_metadata.go:60-69 | signing a stored reference presigns its bucket and its key cut at the first comma, for 3600 s. It fails exactly when that presigning fails and never panics. The cut key is the key itself exactly when the key has no comma |
| VideoMetadata.DbVideoToSignedVideoIntended | video_metadata.go:52-70 | the corrected signing, which cuts the reference at its first comma only, keeps the outcomes: no URL gives the video unchanged, no comma panics, failure carries the unchanged video, success changes only the URL |
| VideoMetadata.IntendedSigningPresignsStoredObject | video_metadata.go:60-69 | the corrected signing of a stored reference presigns exactly the stored bucket and key, whatever the key holds |
| UploadThumbnail.ThumbnailName | handler_upload_thumbnail.go:86 | the name is one character (the `.`) longer than the id and the extension together; its parts read back by `ThumbnailNameInjective` |
| UploadThumbnail.JoinPath | handler_upload_thumbnail.go:87 | the path is as long as the name under an empty root, and otherwise one character (the `/`) longer than the root and the name together |
| UploadThumbnail.JoinPathInjective | handler_upload_thumbnail.go:87 | under one root, distinct names give distinct paths |
| UploadThumbnail.PlaceholderUrl | handler_upload_thumbnail.go:77 | the placeholder is as long as the prefix, the port, the 16 characters of `/api/thumbnails/` and the id together |
| UploadThumbnail.PlaceholderUrlInjective | handler_upload_thumbnail.go:77 | for one port, distinct ids give distinct placeholder URLs |
| UploadThumbnail.ThumbnailUrl | handler_upload_thumbnail.go:100 | the saved URL is as long as the prefix, the port, the `/` and the path together; `UrlPathRoundTrip` reads the path back |
| UploadThumbnail.UrlPath | handler_upload_thumbnail.go:100 | a path read out of a URL rebuilds that URL |
| UploadThumbnail.UrlPathRoundTrip | handler_upload_thumbnail.go:100 | the saved thumbnail URL reads back to the thumbnail's path |
| UploadThumbnail.ThumbnailNameInjective | handler_upload_thumbnail.go:86 | for ids of equal printed length, equal thumbnail names mean the same id and extension |
| Handlers.RemovedWhenDeferred | handler_upload_video.go:95 | a file whose `os.Remove` was deferred is gone once the deferred calls run, whatever they do around it |
| Handlers.KeptUnlessDeferred | handler_upload_video.go:109-115 | a file on disk whose removal was never deferred is still there after the deferred calls |
| Handlers.UnwoundOnlyClosesAndRemoves | handler_upload_video.go:95-96 | deferred calls only close and remove: one effect each, never a creation, publication or update |
| Handlers.UnwoundKeepsStores | handler_upload_video.go:95-96 | deferred calls leave the record and blob stores unchanged |
| Api.ReadRandom | handler_upload_video.go:131-132 | the key buffer holds exactly the random bytes |
| Api.ApiConfig.CreateFile | handler_upload_video.go:90 | creating a file adds its path to the disk and changes nothing else |
| Api.ApiConfig.RemoveFile | handler_upload_video.go:95 | removing a file takes its path off the disk and changes nothing else |
| Api.ApiConfig.PutObject | handler_upload_video.go:136-141 | publishing stores the content type under the bucket and key, and changes nothing else |
| Api.ApiConfig.UpdateVideo | handler_upload_video.go:152 | updating replaces the record under the video's id, and changes nothing else |
| Api.ApiConfig.RunDeferred | handler_upload_video.go:69 | running the deferred calls changes the world as their effects, last deferred first |
| Api.ApiConfig.ProcessVideoForFastStart | handler_upload_video.go:172-188 | it fails exactly when ffmpeg fails. On success it gives `<path>.processing`, on failure the empty path. The output file exists afterwards exactly when ffmpeg wrote it |
| Api.CheckVideoUpload | handler_upload_video.go:24-83 | the checks stop where the `VideoFlow.Admission` phase does. They write its replies, including the lookup's non-final 500, and defer closing the form part once it is open. On success they leave `video/mp4` and the extension |
| Api.ApiConfig.StageVideoUpload | handler_upload_video.go:90-115 | staging stops where `VideoFlow.Staging` says, with one 500 on failure. It defers the removals and closes in the source's order, and its effect on the world is the staging trace |
| Api.ApiConfig.PublishVideo | handler_upload_video.go:117-164 | publication answers, panics and changes the stores exactly as `VideoFlow.Publication`, whose signing presigns the object that the as-written decoding of the stored reference names |
| Api.SignedReply | handler_upload_video.go:158-164 | signing the stored video as written answers 500 exactly when presigning the decoded bucket and key fails, and otherwise 200 with the video carrying that presigned URL |
| Api.ApiConfig.HandlerUploadVideo | handler_upload_video.go:22-170 | the handler's replies, its panic and its new world (after the deferred calls) are those of `VideoFlow` (`Replies`, `StopOf`, `Trace`) for every request, signing included as written |
| Api.CheckThumbnailUpload | handler_upload_thumbnail.go:17-72 | the checks stop where the `ThumbnailFlow.Admission` phase does and write its replies. They defer the form part's close once it is open, and leave the extension |
| Api.ApiConfig.SaveThumbnail | handler_upload_thumbnail.go:74-112 | saving answers as `ThumbnailFlow.Saving` and defers closing the file once it exists. Its effect is the body trace: the file, then the record update |
| Api.ApiConfig.HandlerUploadThumbnail | handler_upload_thumbnail.go:16-113 | the handler's replies, its panic and its new world are those of `ThumbnailFlow` (`Replies`, `StopOf`, `Trace`) for every request |
| VideoFlowFacts.RejectedTouchesNothing | handler_upload_video.go:29-82 | a request the checks turn away has no effect on the world: at most the form part is closed |
| VideoFlowFacts.NotMp4Rejected | handler_upload_video.go:79-82 | any media type other than `video/mp4` answers 400 after the lookup's replies, and only closes the form part |
| VideoFlowFacts.UnparseableRejected | handler_upload_video.go:74-78 | an unparseable Content-Type answers 500, and only closes the form part |
| VideoFlowFacts.OwnerMismatchRejected | handler_upload_video.go:54-57 | a non-owner gets 401 and nothing changes |
| VideoFlowFacts.OversizedBodyRejected | handler_upload_video.go:24-68 | a body over 1 GiB gets 400 and nothing changes |
| VideoFlowFacts.FetchErrorDoesNotStop | handler_upload_video.go:50-53 | a failed lookup adds a 500 and the handler carries on: same stop, same effects, same later replies as when the lookup succeeds |
| VideoFlowFacts.ProbeErrorIgnored | handler_upload_video.go:117 | a probe error is ignored: no panic, and the key uses the empty aspect label |
| VideoFlowFacts.TempFileRemoved | handler_upload_video.go:90-96 | once the temp file exists, it is gone after every exit |
| VideoFlowFacts.ProcessedFileRemoved | handler_upload_video.go:109-115 | once the processed file is open, it is gone after every exit |
| VideoFlowFacts.ProcessedFileLeft | handler_upload_video.go:103-113 | the fast-start output stays on disk when ffmpeg fails after writing it or reopening it fails, since its removal is deferred only after opening |
| VideoFlowFacts.UpdateFollowsPublish | handler_upload_video.go:136-152 | every record update in the trace comes right after publishing the key it refers to, and stores that key |
| VideoFlowFacts.StoreEffects | handler_upload_video.go:136-156 | by stop: the object is stored iff the request got past `PutObject`, the record points at it iff past `UpdateVideo`, and otherwise both stores are unchanged |
| VideoFlowFacts.UploadedOutcome | handler_upload_video.go:158-164 | success means presigning succeeded, and answers 200 with the fetched video carrying the presigned URL of the object signing names |
| VideoFlowFacts.SigningStoredVideo | handler_upload_video.go:149-161 | the stored reference decodes, as written, to the object signing names; signing the stored video fails exactly when presigning it fails, and never panics |
| VideoFlowFacts.SignedObjectOfKey | handler_upload_video.go:134-161 | signing names the bucket and the published key cut at its first comma; that is the published object exactly when the extension has no comma (both directions) |
| VideoFlowFacts.StoredKeySigning | handler_upload_video.go:134-149 | for a comma-free aspect, the stored reference decodes, as written, to the key cut at its first comma, which is the whole key exactly when the extension has no comma |
| VideoFlowFacts.IntendedSigningOfStoredVideo | handler_upload_video.go:149-161 | with the corrected decoding, signing the stored video presigns the published bucket and key themselves, whatever the extension |
| VideoFlowFacts.OneFinalReply | handler_upload_video.go:22-170 | unless the handler panics it writes exactly one reply after the lookup's 500, with the status of its stop; JSON iff success |
| ThumbnailFlowFacts.RejectedTouchesNothing | handler_upload_thumbnail.go:17-72 | a request the checks turn away changes nothing: at most the form part is closed |
| ThumbnailFlowFacts.NotImageRejected | handler_upload_thumbnail.go:57-60 | a media type other than jpeg or png answers 400 and only closes the form part |
| ThumbnailFlowFacts.UnparseableRejected | handler_upload_thumbnail.go:52-56 | an unparseable Content-Type answers 500 and only closes the form part |
| ThumbnailFlowFacts.MediaCheckedBeforeOwner | handler_upload_thumbnail.go:57-72 | a wrong media type gets 400 even from a non-owner: the media type is checked first |
| ThumbnailFlowFacts.OwnerMismatchRejected | handler_upload_thumbnail.go:65-72 | a non-owner gets 401 and nothing changes |
| ThumbnailFlowFacts.FetchErrorDoesNotStop | handler_upload_thumbnail.go:65-68 | a failed lookup adds a 500 and the handler carries on exactly as on success |
| ThumbnailFlowFacts.ThumbnailKept | handler_upload_thumbnail.go:88-106 | once created, the thumbnail file stays on disk even when the copy or the update fails |
| ThumbnailFlowFacts.UpdateFollowsCopy | handler_upload_thumbnail.go:88-103 | the record is updated only as the second effect, right after the file's creation, with the URL of that file |
| ThumbnailFlowFacts.StoreEffects | handler_upload_thumbnail.go:100-107 | the blob store is never touched; the record is replaced iff the upload succeeds |
| ThumbnailFlowFacts.UploadedOutcome | handler_upload_thumbnail.go:77-112 | success answers 200 with the saved video, whose URL reads back to `<root>/<videoID>.<ext>`; the placeholder URL is overwritten |
| ThumbnailFlowFacts.OneFinalReply | handler_upload_thumbnail.go:16-113 | unless the handler panics it writes exactly one reply after the lookup's 500, with the status of its stop; JSON iff success |

## Left out

- HTTP plumbing is not modelled: the response writer, the JSON encoding of replies, error messages, and the `fmt.Println` log lines. A reply is its status code plus, for 200, the video.
- JWT validation, UUID parsing, `mime.ParseMediaType`, JSON decoding of ffprobe's output, and the conversion of its float fields to `int` are left out. Their outcomes are inputs of the request, and in particular the parsed media type is independent of the header. So the panic on a header without `/` is modelled even though the real parser would refuse that header first.
- ffmpeg, ffprobe, `os.CreateTemp`, `io.Copy`, `os.Open`, the S3 client, `PresignGetObject` and the record store are inputs of the request. File contents are not modelled: the disk is a set of paths, and the blob store maps a bucket and key to a content type.
- `crypto/rand.Read` is an input: the 32 bytes it fills. Its error, which the source ignores, is not modelled.
- `http.MaxBytesReader` is modelled only through its effect: a body over the 1 GiB cap makes the form file unreadable.
- The errors of deferred `Close` and `Remove` calls, which the source ignores, are not modelled. A deferred close is visible only in the modelled trace.
- `filepath.Join` is modelled for names without `/`. Its cleaning of `.`, `..` and doubled separators in the assets root is not modelled.
- `generatePresignedURL`'s construction of the URL is not modelled: a presigner is a function from bucket, key and lifetime to an optional URL.
- Concurrency between requests is not modelled: each handler runs alone against the world.
- Each handler is written as phase methods, such as `CheckVideoUpload`, `StageVideoUpload` and `PublishVideo`. Each has the same steps in the same order as the Go function, so the handler's proof stays small.
- Api.ApiConfig.HandlerUploadVideo: it requires that the random source supplies exactly 32 bytes, as `rand.Read` does for the 32-byte buffer.
- Bucket names are a type without commas, following S3's bucket naming rules. A configured bucket with a comma would mis-sign even with the corrected decoding.

## Findings

| source | as written | input that shows it | evidently intended | confidence | as-written member | corrected member |
|---|---|---|---|---|---|---|
| video_metadata.go:60-61 (with handler_upload_video.go:83,149) | the stored `<bucket>,<key>` is split on every comma and piece 1 is used as the key | the Content-Type `video/mp4; codecs="avc1.42E01E, mp4a.40.2"` (an RFC 6381 codecs parameter) parses as `video/mp4`, and its extension holds a comma. The whole key is published and stored, but only the key up to that comma is presigned, which is not the published object | cut at the first comma only, since bucket names have no comma, so the whole key is presigned | not executed | VideoFlowFacts.SignedObjectOfKey | VideoFlowFacts.IntendedSigningOfStoredVideo |
