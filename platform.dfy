/**
 * The browser values the page works with: user-selected files, raw bytes,
 * and the file download that `saveAs` triggers.
 */
module Platform {

  newtype byte = x: int | 0 <= x < 256

  type Bytes = seq<byte>

  /**
   * A file chosen in the file picker: its display name and an opaque handle
   * on the blob behind it.  The bytes are only read when a merge asks for
   * them, and that read can fail.
   */
  datatype File = File(name: string, blob: nat)

  /** One delivery of a generated file to the user's device. */
  datatype Download = Download(bytes: Bytes, fileName: string)
}
