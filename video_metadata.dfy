/** Reading a processed video's geometry into an aspect label, and turning a stored
    `<bucket>,<key>` reference back into a time-limited signed URL. */
module VideoMetadata {
  import opened Wrappers
  import opened Text
  import opened Records
  import opened UploadVideo

  /** Go's integer division for a positive divisor: it truncates toward zero, where
      Dafny's `/` rounds down. */
  function Quot(a: int, d: int): (q: int)
    requires d > 0
    ensures a >= 0 ==> 0 <= a - q * d < d
    ensures a < 0 ==> -d < a - q * d <= 0
  {
    if a >= 0 then a / d else -((-a) / d)
  }

  /** The three labels the classifier returns. */
  const Labels: set<string> := {"landscape", "portrait", "other"}

  /** The classification of a width and height: landscape when wider than high and the
      sixteenths of the width equal the ninths of the height, else portrait when the
      ninths of the width equal the sixteenths of the height, else other. */
  function Classify(width: int, height: int): (aspect: string)
    ensures aspect in Labels
  {
    if width > height && Quot(width, 16) == Quot(height, 9) then "landscape"
    else if Quot(width, 9) == Quot(height, 16) then "portrait"
    else "other"
  }

  /** One entry of ffprobe's `streams` array: `width` and `height` as numbers, or `None`
      where the field is missing or not a number. */
  datatype Stream = Stream(width: Option<int>, height: Option<int>)

  /** What running ffprobe on the file gives: the run failed, its output was not JSON of
      the expected shape, or the decoded `streams` list. */
  datatype Probe = RunFailed | Unparseable | Probed(streams: seq<Stream>)

  /** `getVideoAspectRatio` after ffprobe has run: an error (with an empty label) when
      the probe failed, a panic when there is no first stream or it lacks a number for
      its width or height, and otherwise the classification of the first stream. */
  function GetVideoAspectRatio(probe: Probe): (r: GoResult<string>)
    ensures r.Err? <==> probe.RunFailed? || probe.Unparseable?
    ensures r.Err? ==> r.value == ""
    ensures r.Panic? <==> (probe.Probed? &&
      (|probe.streams| == 0 || probe.streams[0].width.None? || probe.streams[0].height.None?))
    ensures r.Ok? ==> r.value in Labels
    ensures r.Ok? ==>
      r.value == Classify(probe.streams[0].width.value, probe.streams[0].height.value)
  {
    match probe
    case RunFailed => Err("")
    case Unparseable => Err("")
    case Probed(streams) =>
      if |streams| == 0 || streams[0].width.None? || streams[0].height.None? then Panic
      else Ok(Classify(streams[0].width.value, streams[0].height.value))
  }

  /** Only the first stream counts: probes that agree on it agree on the label. */
  lemma FirstStreamOnly(s: seq<Stream>, t: seq<Stream>)
    requires |s| > 0 && |t| > 0 && s[0] == t[0]
    ensures GetVideoAspectRatio(Probed(s)) == GetVideoAspectRatio(Probed(t))
  {
  }

  /** For non-negative sizes the landscape test is: wider than high, and the width and
      height fall in the same band `[16q, 16q+16)` and `[9q, 9q+9)`. */
  lemma LandscapeBands(width: nat, height: nat)
    ensures Classify(width, height) == "landscape" <==>
      width > height && exists q: nat :: 16 * q <= width < 16 * q + 16 && 9 * q <= height < 9 * q + 9
  {
    if width > height && width / 16 == height / 9 {
      var q := width / 16;
      assert 16 * q <= width < 16 * q + 16 && 9 * q <= height < 9 * q + 9;
    }
    if exists q: nat :: 16 * q <= width < 16 * q + 16 && 9 * q <= height < 9 * q + 9 {
      var q: nat :| 16 * q <= width < 16 * q + 16 && 9 * q <= height < 9 * q + 9;
      DivBand(width, 16, q);
      DivBand(height, 9, q);
    }
  }

  /** For non-negative sizes that are not landscape, the portrait test is: the width and
      height fall in the same band `[9q, 9q+9)` and `[16q, 16q+16)`. */
  lemma PortraitBands(width: nat, height: nat)
    requires Classify(width, height) != "landscape"
    ensures Classify(width, height) == "portrait" <==>
      exists q: nat :: 9 * q <= width < 9 * q + 9 && 16 * q <= height < 16 * q + 16
  {
    if width / 9 == height / 16 {
      var q := width / 9;
      assert 9 * q <= width < 9 * q + 9 && 16 * q <= height < 16 * q + 16;
    }
    if exists q: nat :: 9 * q <= width < 9 * q + 9 && 16 * q <= height < 16 * q + 16 {
      var q: nat :| 9 * q <= width < 9 * q + 9 && 16 * q <= height < 16 * q + 16;
      DivBand(width, 9, q);
      DivBand(height, 16, q);
    }
  }

  /** A number in the band `[d q, d q + d)` has quotient `q`. */
  lemma DivBand(a: nat, d: nat, q: nat)
    requires d == 9 || d == 16
    requires d * q <= a < d * q + d
    ensures a / d == q
  {
    if d == 9 {
      assert 9 * q <= a < 9 * q + 9;
    } else {
      assert 16 * q <= a < 16 * q + 16;
    }
  }

  /** A landscape size is within a small error of 16:9: `9 w - 16 h` lies in
      `[-128, 135]`. The floor-division test is an approximate ratio test. */
  lemma LandscapeIsNearSixteenNine(width: nat, height: nat)
    requires Classify(width, height) == "landscape"
    ensures -128 <= 9 * width - 16 * height <= 135
  {
    LandscapeBands(width, height);
    var q: nat :| 16 * q <= width < 16 * q + 16 && 9 * q <= height < 9 * q + 9;
  }

  /** A non-landscape portrait size is within a small error of 9:16: `16 w - 9 h` lies in
      `[-135, 128]`. */
  lemma PortraitIsNearNineSixteen(width: nat, height: nat)
    requires Classify(width, height) == "portrait"
    ensures -135 <= 16 * width - 9 * height <= 128
  {
    PortraitBands(width, height);
    var q: nat :| 9 * q <= width < 9 * q + 9 && 16 * q <= height < 16 * q + 16;
  }

  /** Every exact 16:9 size is landscape, and every exact 9:16 size is portrait. */
  lemma ExactRatios(k: nat)
    ensures k > 0 ==> Classify(16 * k, 9 * k) == "landscape"
    ensures Classify(9 * k, 16 * k) == "portrait"
  {
    DivBand(16 * k, 16, k);
    DivBand(9 * k, 9, k);
  }

  /** Sizes under nine pixels a side are never "other": both quotients are zero, so they
      are landscape when wider than high and portrait otherwise, down to `(0, 0)`. */
  lemma TinySizes(width: nat, height: nat)
    requires width < 9 && height < 9
    ensures Classify(width, height) == (if width > height then "landscape" else "portrait")
  {
  }

  /** The classifier on common sizes. */
  lemma ClassifyExamples()
    ensures Classify(1920, 1080) == "landscape"
    ensures Classify(1280, 720) == "landscape"
    ensures Classify(1080, 1920) == "portrait"
    ensures Classify(1000, 1000) == "other"
    ensures Classify(0, 0) == "portrait"
  {
  }

  /** Go truncates where Dafny floors: for a negative width the two differ. */
  lemma TruncatingDivision()
    ensures Quot(-1, 16) == 0 && -1 / 16 == -1
  {
  }

  /** Truncating division is odd in its dividend, and agrees with Dafny's division on
      non-negative dividends: the quotient of `-a` is minus the quotient of `a`. */
  lemma QuotIsTruncation(a: int, d: int)
    requires d > 0
    ensures Quot(-a, d) == -Quot(a, d)
    ensures a >= 0 ==> Quot(a, d) == a / d
  {
    if a < 0 {
      assert Quot(a, d) == -((-a) / d);
    } else if a > 0 {
      assert Quot(-a, d) == -(a / d);
    }
  }

  /** Go's truncating quotient is the only one whose remainder takes the dividend's
      sign and is smaller than the divisor. */
  lemma QuotUnique(a: int, d: int, q: int)
    requires d > 0
    requires a >= 0 ==> 0 <= a - q * d < d
    requires a < 0 ==> -d < a - q * d <= 0
    ensures q == Quot(a, d)
  {
    var k := q - Quot(a, d);
    assert k * d == (a - Quot(a, d) * d) - (a - q * d);
    NonzeroMultiple(k, d);
  }

  /** A non-zero multiple of `d` is at least `d` away from zero. */
  lemma NonzeroMultiple(k: int, d: int)
    requires d > 0
    ensures k >= 1 ==> k * d >= d
    ensures k <= -1 ==> k * d <= -d
  {
    if k >= 1 {
      assert k * d == (k - 1) * d + d;
    } else if k <= -1 {
      assert k * d == (k + 1) * d - d;
    }
  }

  /** The presigned URL's lifetime, `time.Hour`, in seconds. */
  const PresignExpirySeconds: nat := 3600

  /** The reference decoding as the source writes it: split on every `,` and take
      pieces 0 and 1; `None` where Go's index 1 would be out of range and panic. */
  function DecodeReferenceAsWritten(reference: string): (r: Option<(string, string)>)
    ensures r.None? <==> ',' !in reference
    ensures r.Some? ==> ',' !in r.value.0 && ',' !in r.value.1
  {
    var parts := Split(reference, ',');
    if |parts| < 2 then
      assert ',' !in reference by {
        if ',' in reference { SplitSecondIsCut(reference, ','); }
      }
      None
    else
      assert ',' in reference by {
        if ',' !in reference { SplitNoSeparator(reference, ','); }
      }
      Some((parts[0], parts[1]))
  }

  /** The reference decoding the handler evidently intends: the bucket is the text before
      the first `,` and the key is all the text after it. */
  function DecodeReference(reference: string): (r: Option<(string, string)>)
    ensures r.None? <==> ',' !in reference
    ensures r.Some? ==> ',' !in r.value.0 && reference == StoredReference(r.value.0, r.value.1)
  {
    var (bucket, key, found) := Cut(reference, ',');
    if found then Some((bucket, key)) else None
  }

  /** The intended decoding inverts the stored reference for every key, since a bucket
      name never holds a comma. */
  lemma ReferenceRoundTrip(bucket: string, key: string)
    requires ',' !in bucket
    ensures DecodeReference(StoredReference(bucket, key)) == Some((bucket, key))
  {
    CutAround(bucket, ',', key);
  }

  /** As written, decoding inverts the stored reference only when the key has no comma
      either. */
  lemma AsWrittenRoundTrip(bucket: string, key: string)
    requires ',' !in bucket && ',' !in key
    ensures DecodeReferenceAsWritten(StoredReference(bucket, key)) == Some((bucket, key))
  {
    SplitAround(bucket, ',', key);
    SplitNoSeparator(key, ',');
  }

  /** As written, a key that holds a comma comes back cut short at it: only the text up
      to the key's first comma is signed. */
  lemma AsWrittenCutsKey(bucket: string, keyHead: string, keyTail: string)
    requires ',' !in bucket && ',' !in keyHead
    ensures var key := keyHead + "," + keyTail;
      DecodeReferenceAsWritten(StoredReference(bucket, key)) == Some((bucket, keyHead))
      && keyHead != key
  {
    var key := keyHead + "," + keyTail;
    assert StoredReference(bucket, key) == bucket + [','] + (keyHead + [','] + keyTail);
    SplitAround(bucket, ',', keyHead + [','] + keyTail);
    SplitAround(keyHead, ',', keyTail);
    assert |keyHead| < |key|;
  }

  /** On references with one comma the two decodings agree. */
  lemma DecodingsAgree(bucket: string, key: string)
    requires ',' !in bucket && ',' !in key
    ensures DecodeReferenceAsWritten(StoredReference(bucket, key)) == DecodeReference(StoredReference(bucket, key))
  {
    AsWrittenRoundTrip(bucket, key);
    ReferenceRoundTrip(bucket, key);
  }

  /** As written, a stored reference decodes to its bucket and to its key cut at the
      key's first comma: the key whole when it has no comma, shorter when it has one. */
  lemma AsWrittenDecodesCutKey(bucket: string, key: string)
    requires ',' !in bucket
    ensures DecodeReferenceAsWritten(StoredReference(bucket, key)) == Some((bucket, Cut(key, ',').0))
    ensures Cut(key, ',').0 == key <==> ',' !in key
  {
    SplitAround(bucket, ',', key);
    SplitFirstIsCut(key, ',');
    if ',' in key {
      assert |Cut(key, ',').0| < |key|;
    }
  }

  /** A presigner: `PresignGetObject` for a bucket, a key and a lifetime in seconds,
      giving the signed URL or `None` on failure. */
  type Presigner = (string, string, nat) -> Option<string>

  /** `dbVideoToSignedVideo` as written: a video without a reference comes back
      unchanged; a reference without a comma panics at `parts[1]`; otherwise pieces 0
      and 1 of the reference split on every comma are presigned for an hour, and the
      video comes back with the signed URL, or unchanged with an error when presigning
      fails. */
  function DbVideoToSignedVideo(video: Video, presign: Presigner): (r: GoResult<Video>)
    ensures video.videoUrl.None? ==> r == Ok(video)
    ensures r.Panic? <==> video.videoUrl.Some? && ',' !in video.videoUrl.value
    ensures r.Err? ==> r.value == video
    ensures r.Ok? ==> r.value.(videoUrl := video.videoUrl) == video
    ensures video.videoUrl.Some? && ',' in video.videoUrl.value ==>
      var (bucket, key) := DecodeReferenceAsWritten(video.videoUrl.value).value;
      (r.Err? <==> presign(bucket, key, PresignExpirySeconds).None?)
      && (r.Ok? ==> r.value.videoUrl == presign(bucket, key, PresignExpirySeconds))
  {
    if video.videoUrl.None? then Ok(video)
    else match DecodeReferenceAsWritten(video.videoUrl.value)
      case None => Panic
      case Some((bucket, key)) =>
        match presign(bucket, key, PresignExpirySeconds)
        case None => Err(video)
        case Some(url) => Ok(video.(videoUrl := Some(url)))
  }

  /** Signing a video whose reference the upload handler stored presigns its bucket and
      its key cut at the key's first comma, for one hour: the published key itself
      exactly when that key has no comma. */
  lemma SignedVideoPresignsStoredObject(video: Video, bucket: string, key: string, presign: Presigner)
    requires ',' !in bucket
    requires video.videoUrl == Some(StoredReference(bucket, key))
    ensures DbVideoToSignedVideo(video, presign) ==
      match presign(bucket, Cut(key, ',').0, PresignExpirySeconds)
      case None => Err(video)
      case Some(url) => Ok(video.(videoUrl := Some(url)))
    ensures Cut(key, ',').0 == key <==> ',' !in key
  {
    AsWrittenDecodesCutKey(bucket, key);
  }

  /** `dbVideoToSignedVideo` as evidently intended: the key is all the text after the
      reference's first comma. */
  function DbVideoToSignedVideoIntended(video: Video, presign: Presigner): (r: GoResult<Video>)
    ensures video.videoUrl.None? ==> r == Ok(video)
    ensures r.Panic? <==> video.videoUrl.Some? && ',' !in video.videoUrl.value
    ensures r.Err? ==> r.value == video
    ensures r.Ok? ==> r.value.(videoUrl := video.videoUrl) == video
  {
    if video.videoUrl.None? then Ok(video)
    else match DecodeReference(video.videoUrl.value)
      case None => Panic
      case Some((bucket, key)) =>
        match presign(bucket, key, PresignExpirySeconds)
        case None => Err(video)
        case Some(url) => Ok(video.(videoUrl := Some(url)))
  }

  /** With the intended decoding, signing a video whose reference the upload handler
      stored presigns exactly the published bucket and key, whatever the key holds. */
  lemma IntendedSigningPresignsStoredObject(video: Video, bucket: string, key: string, presign: Presigner)
    requires ',' !in bucket
    requires video.videoUrl == Some(StoredReference(bucket, key))
    ensures DbVideoToSignedVideoIntended(video, presign) ==
      match presign(bucket, key, PresignExpirySeconds)
      case None => Err(video)
      case Some(url) => Ok(video.(videoUrl := Some(url)))
  {
    ReferenceRoundTrip(bucket, key);
  }
}
