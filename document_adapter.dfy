/**
 * The document list card (adapters/DocumentAdapter.kt). The adapter reads a record's fields
 * by name through reflection, asking for a fixed set of names, so a record is modelled by
 * what reflection finds under each of those names: a String, or nothing when the field is
 * not declared or has another type; and the Long under "createdAt", if any. DateUtils is not
 * part of this model: the card carries the raw creation time its date line is formatted from.
 */
module DocumentAdapter {
  import opened Wrappers
  import opened Text
  import Models
  import FileMeta
  import Downloads

  const UnknownName := "Unknown"
  const NoValue := "-"
  const DefaultPdfBase := "dokumen"
  const PdfSuffix := ".pdf"

  /** The String fields the adapter asks reflection for, by their names in the record. */
  datatype FieldName =
    | Nama | UniqueCode | NoTelepon
    | StoragePath | FilePath | Path | Storage
    | OriginalName | FileName | Extension | Ext | MimeType

  /** The String fields reflection finds among those names, and the Long field "createdAt". */
  datatype Record = Record(strings: map<FieldName, string>, createdAt: Option<int>)

  /** The fields the adapter tries, in order, for the file's storage path. */
  const StoragePathFields: seq<FieldName> := [StoragePath, FilePath, Path, Storage]

  /** An optional button of the card: absent from the layout, hidden, or shown with its action. */
  datatype Button<A> = Missing | Gone | Visible(action: A)

  /** What the download button does: `OriginalDownloader.download`. */
  datatype DownloadAction = DownloadAction(storagePath: string, fileName: string, mimeType: string)

  /** What the print button does: `PdfExporter.exportToPdf`. */
  datatype PrintAction = PrintAction(storagePath: string, outputPdfName: string)

  /** One bound card. */
  datatype Card = Card(name: string, code: string, phone: string, createdAt: int, deleteVisible: bool,
                       downloadButton: Button<DownloadAction>, printButton: Button<PrintAction>)

  /** `getString(field)`: the field's text when it is a non-blank String. */
  function GetString(doc: Record, field: FieldName): (r: Option<string>)
    ensures r.Some? <==> field in doc.strings && !IsBlank(doc.strings[field])
    ensures r.Some? ==> r.value == doc.strings[field]
  {
    if field in doc.strings && !IsBlank(doc.strings[field]) then Some(doc.strings[field]) else None
  }

  /** `getLong("createdAt", alt)`: the field's value when it is a Long, else alt. */
  function GetCreatedAt(doc: Record, alt: int): (r: int)
    ensures doc.createdAt.Some? ==> r == doc.createdAt.value
    ensures doc.createdAt.None? ==> r == alt
  {
    if doc.createdAt.Some? then doc.createdAt.value else alt
  }

  /** The position of the first field with non-blank text, or -1. */
  function FirstNonBlankIndex(doc: Record, fields: seq<FieldName>): (k: int)
    ensures -1 <= k < |fields|
    ensures k >= 0 ==> GetString(doc, fields[k]).Some?
    ensures forall j :: 0 <= j < |fields| && (k == -1 || j < k) ==> GetString(doc, fields[j]).None?
  {
    if fields == [] then -1
    else if GetString(doc, fields[0]).Some? then 0
    else
      var k := FirstNonBlankIndex(doc, fields[1..]);
      if k == -1 then -1 else k + 1
  }

  /** A chain `getString(a) ?: getString(b) ?: ...`: the first field with non-blank text. */
  function FirstNonBlank(doc: Record, fields: seq<FieldName>): (r: Option<string>)
    ensures r.None? <==> forall i :: 0 <= i < |fields| ==> GetString(doc, fields[i]).None?
    ensures r.Some? ==>
      exists i :: 0 <= i < |fields| && GetString(doc, fields[i]) == r &&
        forall j :: 0 <= j < i ==> GetString(doc, fields[j]).None?
  {
    var k := FirstNonBlankIndex(doc, fields);
    if k == -1 then None else GetString(doc, fields[k])
  }

  /** The first text line: the name, or "Unknown". */
  function Name(doc: Record): (r: string)
    ensures GetString(doc, Nama).Some? ==> r == doc.strings[Nama]
    ensures GetString(doc, Nama).None? ==> r == UnknownName
    ensures !IsBlank(r)
  {
    assert UnknownName[0] == 'U';
    GetString(doc, Nama).GetOr(UnknownName)
  }

  /** The code line: the unique code, or "-". */
  function Code(doc: Record): (r: string)
    ensures GetString(doc, UniqueCode).Some? ==> r == doc.strings[UniqueCode]
    ensures GetString(doc, UniqueCode).None? ==> r == NoValue
    ensures !IsBlank(r)
  {
    assert NoValue[0] == '-';
    GetString(doc, UniqueCode).GetOr(NoValue)
  }

  /** The phone line: the phone number, or "-". */
  function Phone(doc: Record): (r: string)
    ensures GetString(doc, NoTelepon).Some? ==> r == doc.strings[NoTelepon]
    ensures GetString(doc, NoTelepon).None? ==> r == NoValue
    ensures !IsBlank(r)
  {
    assert NoValue[0] == '-';
    GetString(doc, NoTelepon).GetOr(NoValue)
  }

  /** The storage path: the first non-blank of storagePath, filePath, path and storage. */
  function StoragePathOf(doc: Record): Option<string>
  {
    FirstNonBlank(doc, StoragePathFields)
  }

  /** The name the file was uploaded under: originalName, else fileName, else the code. */
  function OriginalNameOf(doc: Record): (r: Option<string>)
    ensures r.Some? && !IsBlank(r.value)
    ensures GetString(doc, OriginalName).Some? ==> r == GetString(doc, OriginalName)
    ensures GetString(doc, OriginalName).None? && GetString(doc, FileName).Some? ==> r == GetString(doc, FileName)
    ensures GetString(doc, OriginalName).None? && GetString(doc, FileName).None? ==> r == Some(Code(doc))
  {
    var code := Code(doc);
    if GetString(doc, OriginalName).Some? then GetString(doc, OriginalName)
    else if GetString(doc, FileName).Some? then GetString(doc, FileName)
    else if !IsBlank(code) then Some(code)
    else None
  }

  /** The extension field: extension, else ext. */
  function ExtensionOf(doc: Record): Option<string>
  {
    if GetString(doc, Extension).Some? then GetString(doc, Extension) else GetString(doc, Ext)
  }

  /** The download name: ".ext" is added only for a non-blank ext and a name without '.'. */
  function DownloadFileName(originalName: string, ext: Option<string>): (r: string)
    ensures StartsWith(r, originalName)
    ensures r == originalName <==> IsNullOrBlank(ext) || '.' in originalName
    ensures r != originalName ==> r == originalName + "." + ext.value && '.' in r
  {
    if !IsNullOrBlank(ext) && '.' !in originalName then
      var r := originalName + "." + ext.value;
      assert r[|originalName|] == '.';
      r
    else originalName
  }

  /** `endsWith(suffix, ignoreCase = true)`. */
  predicate EndsWithIgnoreCase(s: string, suffix: string)
  {
    |suffix| <= |s| && EqualsIgnoreCase(s[|s| - |suffix|..], suffix)
  }

  /** The base of the PDF name: the code, else the original name without its extension, else "dokumen". */
  function PdfBase(code: string, originalName: Option<string>): (r: string)
    ensures !IsBlank(code) ==> r == code
    ensures IsBlank(code) && !IsNullOrBlank(originalName) ==> r == SubstringBeforeLast(originalName.value, '.')
    ensures IsBlank(code) && IsNullOrBlank(originalName) ==> r == DefaultPdfBase
  {
    if !IsBlank(code) then code
    else if !IsNullOrBlank(originalName) then SubstringBeforeLast(originalName.value, '.')
    else DefaultPdfBase
  }

  /** The PDF name: the base when it already ends in ".pdf" in any case, else the base with ".pdf". */
  function PdfName(base: string): (r: string)
    ensures EndsWithIgnoreCase(r, PdfSuffix)
    ensures StartsWith(r, base)
    ensures EndsWithIgnoreCase(base, PdfSuffix) ==> r == base
    ensures !EndsWithIgnoreCase(base, PdfSuffix) ==> r == base + PdfSuffix
  {
    if EndsWithIgnoreCase(base, PdfSuffix) then base
    else
      var r := base + PdfSuffix;
      assert r[|r| - |PdfSuffix|..] == PdfSuffix;
      LowerNoUpper(PdfSuffix);
      r
  }

  /** Naming a PDF twice gives the same name. */
  lemma PdfNameIdempotent(base: string)
    ensures PdfName(PdfName(base)) == PdfName(base)
  {
  }

  /** The download button of a card whose layout has one. */
  function DownloadButton(doc: Record, table: FileMeta.MimeTypeMap): Button<DownloadAction>
  {
    var path := StoragePathOf(doc);
    var original := OriginalNameOf(doc);
    if !IsNullOrBlank(path) && !IsNullOrBlank(original) then
      var fileName := DownloadFileName(original.value, ExtensionOf(doc));
      var mime := GetString(doc, MimeType);
      Visible(DownloadAction(path.value, fileName,
                             if mime.Some? then mime.value else Downloads.MimeFromName(fileName, table)))
    else Gone
  }

  /** The print button of a card whose layout has one. */
  function PrintButton(doc: Record): Button<PrintAction>
  {
    var path := StoragePathOf(doc);
    if !IsNullOrBlank(path) then
      Visible(PrintAction(path.value, PdfName(PdfBase(Code(doc), OriginalNameOf(doc)))))
    else Gone
  }

  /** `onBindViewHolder`: the card for one record. */
  function CardOf(doc: Record, canDelete: bool, hasDownload: bool, hasPrint: bool,
                  table: FileMeta.MimeTypeMap): (c: Card)
    ensures c.name == Name(doc) && c.code == Code(doc) && c.phone == Phone(doc)
    ensures c.createdAt == GetCreatedAt(doc, 0)
    ensures c.deleteVisible == canDelete
    ensures !hasDownload <==> c.downloadButton.Missing?
    ensures !hasPrint <==> c.printButton.Missing?
  {
    Card(Name(doc), Code(doc), Phone(doc), GetCreatedAt(doc, 0), canDelete,
         if hasDownload then DownloadButton(doc, table) else Missing,
         if hasPrint then PrintButton(doc) else Missing)
  }

  /**
   * Both file buttons follow the storage path alone: since the code is never blank neither
   * is the original name, so the download button shows exactly when the print button does.
   * The download keeps the original name, with ".ext" only when there is a non-blank ext
   * and the name has no '.'; its type is the mimeType field or the one guessed from that
   * name.
   */
  lemma DownloadButtonShape(doc: Record, table: FileMeta.MimeTypeMap)
    ensures DownloadButton(doc, table).Visible? <==> StoragePathOf(doc).Some?
    ensures DownloadButton(doc, table).Visible? ==>
      var a := DownloadButton(doc, table).action;
      a.storagePath == StoragePathOf(doc).value &&
      a.fileName == DownloadFileName(OriginalNameOf(doc).value, ExtensionOf(doc)) &&
      (GetString(doc, MimeType).Some? ==> a.mimeType == GetString(doc, MimeType).value) &&
      (GetString(doc, MimeType).None? ==> a.mimeType == Downloads.MimeFromName(a.fileName, table))
  {
    var path := StoragePathOf(doc);
    if path.Some? {
      var i :| 0 <= i < |StoragePathFields| && GetString(doc, StoragePathFields[i]) == path &&
        forall j :: 0 <= j < i ==> GetString(doc, StoragePathFields[j]).None?;
    }
  }

  /**
   * The print button shows exactly when there is a storage path, and the PDF is always
   * named after the code (the other bases are never reached), with ".pdf" once.
   */
  lemma PrintButtonShape(doc: Record)
    ensures PrintButton(doc).Visible? <==> StoragePathOf(doc).Some?
    ensures PrintButton(doc).Visible? ==>
      PrintButton(doc).action == PrintAction(StoragePathOf(doc).value, PdfName(Code(doc)))
  {
    var path := StoragePathOf(doc);
    if path.Some? {
      var i :| 0 <= i < |StoragePathFields| && GetString(doc, StoragePathFields[i]) == path &&
        forall j :: 0 <= j < i ==> GetString(doc, StoragePathFields[j]).None?;
    }
  }

  /**
   * What reflection finds in a Models record among the names the adapter asks for: all four
   * records declare nama, uniqueCode and noTelepon as Strings and createdAt as a Long, and
   * none declares a file field.
   */
  function Reflect(d: Models.Document): Record
  {
    Record(map[Nama := d.nama, UniqueCode := d.uniqueCode, NoTelepon := d.noTelepon], Some(d.createdAt))
  }

  /**
   * None of the four records declares a storage path field, so their cards never show the
   * download or the print button; they show the record's name, code and creation time.
   */
  lemma RecordCardsHaveNoFileButtons(d: Models.Document, canDelete: bool, hasDownload: bool, hasPrint: bool,
                                     table: FileMeta.MimeTypeMap)
    ensures var c := CardOf(Reflect(d), canDelete, hasDownload, hasPrint, table);
      !c.downloadButton.Visible? && !c.printButton.Visible? && c.createdAt == d.createdAt &&
      (!IsBlank(d.nama) ==> c.name == d.nama) && (!IsBlank(d.uniqueCode) ==> c.code == d.uniqueCode)
  {
    assert forall i :: 0 <= i < |StoragePathFields| ==> StoragePathFields[i] !in Reflect(d).strings;
  }

  /** The list adapter: the records it shows and whether deleting is offered. */
  class Adapter {
    var documents: seq<Record>
    var canDelete: bool

    constructor(documents: seq<Record>, canDelete: bool)
      ensures this.documents == documents && this.canDelete == canDelete
    {
      this.documents := documents;
      this.canDelete := canDelete;
    }

    /** `getItemCount()`. */
    function ItemCount(): nat
      reads this`documents
    {
      |documents|
    }

    /** `updateDocuments`: the list is replaced; the delete setting stays. */
    method UpdateDocuments(newDocuments: seq<Record>)
      modifies this`documents
      ensures documents == newDocuments && ItemCount() == |newDocuments|
    {
      documents := newDocuments;
    }

    /** `setCanDelete`: every card bound from now on shows the delete button iff allowed. */
    method SetCanDelete(allowed: bool)
      modifies this`canDelete
      ensures canDelete == allowed
      ensures forall p, hd, hp, t :: 0 <= p < |documents| ==>
        CardOf(documents[p], canDelete, hd, hp, t).deleteVisible == allowed
    {
      canDelete := allowed;
    }

    /** `getDocument(position)`. */
    method GetDocument(position: nat) returns (d: Record)
      requires position < |documents|
      ensures d == documents[position]
    {
      d := documents[position];
    }

    /** `onBindViewHolder(holder, position)`: the card of the record at that position. */
    method OnBindViewHolder(position: nat, hasDownload: bool, hasPrint: bool, table: FileMeta.MimeTypeMap)
      returns (c: Card)
      requires position < |documents|
      ensures c == CardOf(documents[position], canDelete, hasDownload, hasPrint, table)
      ensures c.deleteVisible == canDelete
    {
      c := CardOf(documents[position], canDelete, hasDownload, hasPrint, table);
    }
  }
}
