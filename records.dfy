/** The record-store types the upload handlers read and write. The store itself is a
    collaborator: only the fields the handlers touch are modelled. */
module Records {
  import opened Wrappers

  /** A UUID, as its canonical text (what `%v` prints). */
  datatype Uuid = Uuid(text: string)

  /** Go's zero UUID, the owner of the zero `Video`. */
  const NilUuid: Uuid := Uuid("00000000-0000-0000-0000-000000000000")

  /** A video record: its id, its owner and its two optional references. */
  datatype Video = Video(id: Uuid, userId: Uuid, thumbnailUrl: Option<string>, videoUrl: Option<string>)

  /** Go's zero `Video`, which the store hands back alongside a lookup error. */
  const ZeroVideo: Video := Video(NilUuid, NilUuid, None, None)
}
