/** How both upload handlers derive a file extension from the Content-Type header of the
    uploaded form part: `strings.Split(contentType, "/")[1]`, on the raw header text. */
module ContentType {
  import opened Wrappers
  import opened Text

  /** Element 1 of the header split on `/`; `None` where Go's index would be out of range
      and panic (a header with no `/`). */
  function Extension(contentType: string): (ext: Option<string>)
    ensures ext.None? <==> '/' !in contentType
    ensures ext.Some? ==> '/' !in ext.value
  {
    var parts := Split(contentType, '/');
    if |parts| < 2 then
      assert '/' !in contentType by {
        if '/' in contentType { SplitSecondIsCut(contentType, '/'); }
      }
      None
    else
      assert '/' in contentType by {
        if '/' !in contentType { SplitNoSeparator(contentType, '/'); }
      }
      Some(parts[1])
  }

  /** The extension is the text between the first and the second `/` of the header. */
  lemma ExtensionBetweenSlashes(contentType: string)
    requires '/' in contentType
    ensures Extension(contentType) == Some(Cut(Cut(contentType, '/').1, '/').0)
  {
    SplitSecondIsCut(contentType, '/');
  }

  /** For a bare `type/subtype` header the extension is the subtype. */
  lemma ExtensionOfBareType(mediaType: string, subtype: string)
    requires '/' !in mediaType && '/' !in subtype
    ensures Extension(mediaType + "/" + subtype) == Some(subtype)
  {
    SplitAround(mediaType, '/', subtype);
    SplitNoSeparator(subtype, '/');
  }

  /** Media-type parameters after the subtype (`; codecs=...`) stay in the extension:
      it is cut from the raw header, not from the parsed media type. */
  lemma ExtensionKeepsParameters(mediaType: string, subtype: string, params: string)
    requires '/' !in mediaType && '/' !in subtype && '/' !in params
    ensures Extension(mediaType + "/" + subtype + params) == Some(subtype + params)
  {
    assert mediaType + "/" + subtype + params == mediaType + "/" + (subtype + params);
    ExtensionOfBareType(mediaType, subtype + params);
  }
}
