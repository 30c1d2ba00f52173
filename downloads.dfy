/**
 * The file name and MIME type under which a download is stored (utils/Downloads.kt). Its
 * `ensureExt` and `extFromMime` are those of FileMeta, so they are used from there; the
 * MediaStore and DownloadManager steps themselves are I/O.
 */
module Downloads {
  import opened Wrappers
  import opened Text
  import FileMeta

  /** The name and type a download is stored under. */
  datatype Target = Target(fileName: string, mimeType: string)

  /**
   * `mimeFromName`: the table's type for the lowercase text after the last '.' (looked up
   * even when that text is empty), else "application/octet-stream".
   */
  function MimeFromName(name: string, table: FileMeta.MimeTypeMap): (r: string)
    ensures table.mimeOfExtension(FileMeta.LowerSuffix(name)).None? ==> r == FileMeta.OctetStream
    ensures table.mimeOfExtension(FileMeta.LowerSuffix(name)).Some? ==>
      r == table.mimeOfExtension(FileMeta.LowerSuffix(name)).value
  {
    table.mimeOfExtension(FileMeta.LowerSuffix(name)).GetOr(FileMeta.OctetStream)
  }

  /** A name without '.' is typed by whatever the table holds for the empty extension. */
  lemma NoDotTypedByEmpty(name: string, table: FileMeta.MimeTypeMap)
    requires '.' !in name
    ensures MimeFromName(name, table) == table.mimeOfExtension("").GetOr(FileMeta.OctetStream)
  {
  }

  /**
   * `saveBytesToDownloads`: the type is the given one or "application/octet-stream", and the
   * name gets that type's extension unless it has a '.'.
   */
  function SaveBytesTarget(fileNameRaw: string, mimeTypeRaw: Option<string>, table: FileMeta.MimeTypeMap): (r: Target)
    ensures r.mimeType == mimeTypeRaw.GetOr(FileMeta.OctetStream)
    ensures r.fileName == FileMeta.EnsureExt(fileNameRaw, Some(r.mimeType), table)
    ensures StartsWith(r.fileName, fileNameRaw)
    ensures '.' in fileNameRaw ==> r.fileName == fileNameRaw
  {
    var mime := mimeTypeRaw.GetOr(FileMeta.OctetStream);
    Target(FileMeta.EnsureExt(fileNameRaw, Some(mime), table), mime)
  }

  /**
   * `enqueueDownloadOriginal`: the type is the given one, else the one guessed from the
   * raw name; the name gets that type's extension unless it has a '.'.
   */
  function EnqueueTarget(fileNameRaw: string, mimeTypeRaw: Option<string>, table: FileMeta.MimeTypeMap): (r: Target)
    ensures mimeTypeRaw.Some? ==> r.mimeType == mimeTypeRaw.value
    ensures mimeTypeRaw.None? ==> r.mimeType == MimeFromName(fileNameRaw, table)
    ensures r.fileName == FileMeta.EnsureExt(fileNameRaw, Some(r.mimeType), table)
    ensures StartsWith(r.fileName, fileNameRaw)
  {
    var mime := if mimeTypeRaw.Some? then mimeTypeRaw.value else MimeFromName(fileNameRaw, table);
    Target(FileMeta.EnsureExt(fileNameRaw, Some(mime), table), mime)
  }

  /** Both targets are stable: storing a stored name again under its type keeps that name. */
  lemma TargetsStable(fileNameRaw: string, mimeTypeRaw: Option<string>, table: FileMeta.MimeTypeMap)
    ensures var t := SaveBytesTarget(fileNameRaw, mimeTypeRaw, table);
      SaveBytesTarget(t.fileName, Some(t.mimeType), table) == t
    ensures var t := EnqueueTarget(fileNameRaw, mimeTypeRaw, table);
      EnqueueTarget(t.fileName, Some(t.mimeType), table) == t
  {
    var m1 := mimeTypeRaw.GetOr(FileMeta.OctetStream);
    FileMeta.EnsureExtIdempotent(fileNameRaw, Some(m1), table);
    var m2 := if mimeTypeRaw.Some? then mimeTypeRaw.value else MimeFromName(fileNameRaw, table);
    FileMeta.EnsureExtIdempotent(fileNameRaw, Some(m2), table);
  }

  /** With a type given, both entry points store the file under the same name and type. */
  lemma GivenTypeAgrees(fileNameRaw: string, mime: string, table: FileMeta.MimeTypeMap)
    ensures SaveBytesTarget(fileNameRaw, Some(mime), table) == EnqueueTarget(fileNameRaw, Some(mime), table)
  {
  }
}
