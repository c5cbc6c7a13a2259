/** The pure pieces of the video upload handler: its constants, the object key it
    publishes under, the reference it stores, and the fast-start output path. */
module UploadVideo {
  import opened Text
  import opened Base64Url

  /** The request-body cap, 1 << 30 bytes (1 GiB). */
  const UploadLimit: nat := 0x4000_0000

  /** The one media type the handler accepts. */
  const AllowedMediaType: string := "video/mp4"

  /** The number of random bytes in an object key. */
  const KeyBytes: nat := 32

  /** A bucket name. S3's naming rules allow only lowercase letters, digits, dots and
      hyphens, so a bucket name never holds a comma. */
  type BucketName = s: string | ',' !in s

  /** The object key: `<aspect>/<base64url(random)>.<ext>`. */
  function ObjectKey(aspect: string, random: seq<byte>, ext: string): string {
    aspect + "/" + Encode(random) + "." + ext
  }

  /** The reference stored in the record: `<bucket>,<key>`. It always holds a comma,
      right after the bucket. */
  function StoredReference(bucket: string, key: string): (reference: string)
    ensures |reference| == |bucket| + 1 + |key| && reference[|bucket|] == ','
    ensures reference[..|bucket|] == bucket && reference[|bucket| + 1..] == key
  {
    bucket + "," + key
  }

  /** Where ffmpeg writes the fast-start copy: the input path with `.processing` added. */
  function FastStartOutputPath(path: string): string {
    path + ".processing"
  }

  /** The random part of a key is 43 URL-safe characters, none of them `/`, `,` or `.`. */
  lemma RandomNameShape(random: seq<byte>)
    requires |random| == KeyBytes
    ensures |Encode(random)| == 43
    ensures forall i :: 0 <= i < 43 ==> IsDigit(Encode(random)[i])
    ensures '/' !in Encode(random) && ',' !in Encode(random) && '.' !in Encode(random)
  {
    EncodeShape(random);
  }

  /** The key is made of its three parts so that each can be read back: the first path
      segment is the aspect, then 43 characters that decode to the random bytes, a `.`,
      and the extension. */
  lemma ObjectKeyParts(aspect: string, random: seq<byte>, ext: string)
    requires |random| == KeyBytes
    ensures var key := ObjectKey(aspect, random, ext);
      var n := |aspect|;
      && |key| == n + 45 + |ext|
      && key[..n] == aspect && key[n] == '/'
      && Decodable(key[n + 1..n + 44]) && Decode(key[n + 1..n + 44]) == random
      && key[n + 44] == '.' && key[n + 45..] == ext
  {
    RandomNameShape(random);
    DecodeEncode(random);
    KeyLayout(aspect, Encode(random), ext);
  }

  /** Where the parts of `<aspect>/<name>.<ext>` sit. */
  lemma KeyLayout(aspect: string, name: string, ext: string)
    ensures var key := aspect + "/" + name + "." + ext;
      var n, m := |aspect|, |name|;
      && |key| == n + m + 2 + |ext|
      && key[..n] == aspect && key[n] == '/' && key[n + 1..n + 1 + m] == name
      && key[n + 1 + m] == '.' && key[n + m + 2..] == ext
  {
    var key := aspect + "/" + name + "." + ext;
    assert key == aspect + ("/" + name + "." + ext);
    assert key[|aspect| + 1..] == name + "." + ext;
  }

  /** The aspect is a namespace: splitting a key on `/` gives the aspect, then the file
      name, whenever neither the aspect nor the extension holds a `/`. */
  lemma ObjectKeyNamespace(aspect: string, random: seq<byte>, ext: string)
    requires |random| == KeyBytes && '/' !in aspect && '/' !in ext
    ensures Split(ObjectKey(aspect, random, ext), '/') == [aspect, Encode(random) + "." + ext]
  {
    RandomNameShape(random);
    KeySplit(aspect, Encode(random), ext);
  }

  /** Splitting `<aspect>/<name>.<ext>` on `/` when none of the three parts holds one. */
  lemma KeySplit(aspect: string, name: string, ext: string)
    requires '/' !in aspect && '/' !in name && '/' !in ext
    ensures Split(aspect + "/" + name + "." + ext, '/') == [aspect, name + "." + ext]
  {
    var file := name + "." + ext;
    assert aspect + "/" + name + "." + ext == aspect + ['/'] + file;
    SplitAround(aspect, '/', file);
    SplitNoSeparator(file, '/');
  }

  /** Keys for different random bytes differ, whatever the aspect and extension: a key is
      as collision-resistant as its 256 random bits. */
  lemma ObjectKeyInjective(aspect: string, a: seq<byte>, b: seq<byte>, ext: string)
    requires |a| == KeyBytes && |b| == KeyBytes
    requires ObjectKey(aspect, a, ext) == ObjectKey(aspect, b, ext)
    ensures a == b
  {
    ObjectKeyParts(aspect, a, ext);
    ObjectKeyParts(aspect, b, ext);
  }

  /** A key holds a `,` exactly when its aspect or its extension does. */
  lemma ObjectKeyComma(aspect: string, random: seq<byte>, ext: string)
    requires |random| == KeyBytes
    ensures ',' in ObjectKey(aspect, random, ext) <==> ',' in aspect || ',' in ext
  {
    RandomNameShape(random);
    var key := ObjectKey(aspect, random, ext);
    assert key == aspect + ['/'] + Encode(random) + ['.'] + ext;
    if ',' in key {
      var i :| 0 <= i < |key| && key[i] == ',';
      if i < |aspect| {
        assert aspect[i] == ',';
      } else if |aspect| + 45 <= i {
        assert ext[i - |aspect| - 45] == ',';
      }
    }
    if ',' in aspect {
      var i :| 0 <= i < |aspect| && aspect[i] == ',';
      assert key[i] == ',';
    }
    if ',' in ext {
      var i :| 0 <= i < |ext| && ext[i] == ',';
      assert key[|aspect| + 45 + i] == ',';
    }
  }

  /** The fast-start path never coincides with its input, and distinct inputs get
      distinct outputs, so ffmpeg never overwrites the staged file or another upload's
      output. */
  lemma FastStartOutputPathFresh(p: string, q: string)
    ensures FastStartOutputPath(p) != p
    ensures FastStartOutputPath(p) == FastStartOutputPath(q) ==> p == q
  {
    if FastStartOutputPath(p) == FastStartOutputPath(q) {
      assert |p| == |q|;
      assert p == FastStartOutputPath(p)[..|p|];
      assert q == FastStartOutputPath(q)[..|q|];
    }
  }
}
