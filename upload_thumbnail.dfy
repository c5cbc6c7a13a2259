/** The pure pieces of the thumbnail upload handler: its allow-list and the file name,
    path and URLs it builds. */
module UploadThumbnail {
  import opened Wrappers
  import opened Records

  /** The media types the handler accepts. */
  predicate AllowedMediaType(mediaType: string) {
    mediaType == "image/jpeg" || mediaType == "image/png"
  }

  /** The scheme and host every thumbnail URL starts with. */
  const UrlPrefix: string := "http://localhost:"

  /** The file name: `<videoID>.<ext>`. */
  function ThumbnailName(videoId: Uuid, ext: string): (name: string)
    ensures |name| == |videoId.text| + 1 + |ext|
  {
    videoId.text + "." + ext
  }

  /** `filepath.Join(root, name)` for a name without `/`: the name under the root, or the
      name alone when the root is empty. */
  function JoinPath(root: string, name: string): (path: string)
    ensures |path| == if root == "" then |name| else |root| + 1 + |name|
  {
    if root == "" then name else root + "/" + name
  }

  /** The URL first put in the record, `http://localhost:<port>/api/thumbnails/<videoID>`;
      the handler overwrites it before saving. */
  function PlaceholderUrl(port: string, videoId: Uuid): (url: string)
    ensures |url| == |UrlPrefix| + |port| + 16 + |videoId.text|
  {
    UrlPrefix + port + "/api/thumbnails/" + videoId.text
  }

  /** The URL saved in the record: `http://localhost:<port>/<path>`. */
  function ThumbnailUrl(port: string, path: string): (url: string)
    ensures |url| == |UrlPrefix| + |port| + 1 + |path|
  {
    UrlPrefix + port + "/" + path
  }

  /** The path a thumbnail URL serves, for a known port: the text after the prefix and
      the `/`; `None` for a URL of another shape. */
  function UrlPath(port: string, url: string): (path: Option<string>)
    ensures path.Some? ==> ThumbnailUrl(port, path.value) == url
  {
    var head := UrlPrefix + port + "/";
    if |head| <= |url| && url[..|head|] == head then
      assert url == url[..|head|] + url[|head|..];
      Some(url[|head|..])
    else None
  }

  /** Reading the path back out of a thumbnail URL gives the path. */
  lemma UrlPathRoundTrip(port: string, path: string)
    ensures UrlPath(port, ThumbnailUrl(port, path)) == Some(path)
  {
    var head := UrlPrefix + port + "/";
    assert ThumbnailUrl(port, path) == head + path;
    assert (head + path)[..|head|] == head && (head + path)[|head|..] == path;
  }

  /** Names of videos whose ids print to the same length (every canonical UUID prints as
      36 characters) are equal only for the same id and extension, so one video's
      thumbnail never lands on another's file. */
  lemma ThumbnailNameInjective(a: Uuid, b: Uuid, extA: string, extB: string)
    requires |a.text| == |b.text|
    requires ThumbnailName(a, extA) == ThumbnailName(b, extB)
    ensures a == b && extA == extB
  {
    var n := |a.text|;
    assert a.text == ThumbnailName(a, extA)[..n];
    assert b.text == ThumbnailName(b, extB)[..n];
    assert extA == ThumbnailName(a, extA)[n + 1..];
    assert extB == ThumbnailName(b, extB)[n + 1..];
  }

  /** Under one root, distinct names give distinct paths. */
  lemma JoinPathInjective(root: string, a: string, b: string)
    requires JoinPath(root, a) == JoinPath(root, b)
    ensures a == b
  {
    if root != "" {
      assert a == JoinPath(root, a)[|root| + 1..];
    }
  }

  /** For one port, the placeholder URL names the video: distinct ids give distinct
      placeholders. */
  lemma PlaceholderUrlInjective(port: string, a: Uuid, b: Uuid)
    requires PlaceholderUrl(port, a) == PlaceholderUrl(port, b)
    ensures a == b
  {
    var n := |UrlPrefix + port + "/api/thumbnails/"|;
    assert a.text == PlaceholderUrl(port, a)[n..];
  }
}
