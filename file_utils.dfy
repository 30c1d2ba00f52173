/** `FileUtils.guessExtension` (repositories/FileUtils.kt): a file extension from a MIME type or a name. */
module FileUtils {
  import opened Wrappers
  import opened Text

  /** The MIME types guessExtension knows, lowercased, with their extensions. */
  function KnownMimeExtension(mimeLower: string): Option<string>
  {
    if mimeLower == "application/pdf" then Some("pdf")
    else if mimeLower == "image/jpeg" then Some("jpg")
    else if mimeLower == "image/jpg" then Some("jpg")
    else if mimeLower == "image/png" then Some("png")
    else if mimeLower == "image/heic" then Some("heic")
    else if mimeLower == "application/msword" then Some("doc")
    else if mimeLower == "application/vnd.openxmlformats-officedocument.wordprocessingml.document" then Some("docx")
    else if mimeLower == "application/vnd.ms-excel" then Some("xls")
    else if mimeLower == "application/vnd.openxmlformats-officedocument.spreadsheetml.sheet" then Some("xlsx")
    else None
  }

  /** The MIME type's extension when the (lowercased) type is one of the known ones. */
  function MimeExtension(mime: Option<string>): Option<string>
  {
    if mime.None? then None else KnownMimeExtension(Lower(mime.value))
  }

  /** `guessExtension(mime, fileName)`: the MIME type decides, then the name, then "bin". */
  function GuessExtension(mime: Option<string>, fileName: Option<string>): (r: string)
    ensures r != []
    ensures MimeExtension(mime).Some? ==> r == MimeExtension(mime).value
    ensures MimeExtension(mime).None? && fileName.None? ==> r == "bin"
    ensures MimeExtension(mime).None? && fileName.Some? ==>
      r == (var e := ExtensionAfterLastDot(Lower(fileName.value)); if e.Some? then e.value else "bin")
  {
    var m := MimeExtension(mime);
    if m.Some? then
      KnownExtensionsNonEmpty(Lower(mime.value));
      m.value
    else if fileName.None? then "bin"
    else
      var e := ExtensionAfterLastDot(Lower(fileName.value));
      if e.Some? then e.value else "bin"
  }

  lemma KnownExtensionsNonEmpty(m: string)
    ensures KnownMimeExtension(m).Some? ==> KnownMimeExtension(m).value != []
  {
  }

  /** A known MIME type decides the extension whatever the file name. */
  lemma MimeDecides(mime: Option<string>, name1: Option<string>, name2: Option<string>)
    requires MimeExtension(mime).Some?
    ensures GuessExtension(mime, name1) == GuessExtension(mime, name2)
  {
  }

  /** image/jpeg and image/jpg, in any case, both give "jpg". */
  lemma JpegAliases(mime: string, fileName: Option<string>)
    requires Lower(mime) == "image/jpeg" || Lower(mime) == "image/jpg"
    ensures GuessExtension(Some(mime), fileName) == "jpg"
  {
  }

  /** A known type is recognised in any letter case. */
  lemma MimeIgnoresCase(mime: string, fileName: Option<string>)
    ensures GuessExtension(Some(Lower(mime)), fileName) == GuessExtension(Some(mime), fileName)
  {
    LowerIdempotent(mime);
  }

  /** A leading-dot name such as ".env" yields the text after the dot, lowercased. */
  lemma LeadingDotName(e: string)
    requires e != [] && '.' !in e
    ensures GuessExtension(None, Some("." + e)) == Lower(e)
  {
    LowerConcat(".", e);
    var l := Lower("." + e);
    var le := Lower(e);
    assert l == "." + le;
    LastIndexOfNone(l, '.');
    var r := LastIndexOf(l, '.');
    assert l[0] == '.';
    assert r == 0;
    assert l[1..] == le;
  }

  /** Without a usable MIME type, a name lacking a dot or ending in one gives "bin". */
  lemma NoExtensionIsBin(mime: Option<string>, name: string)
    requires MimeExtension(mime).None?
    requires '.' !in name || name[|name| - 1] == '.'
    ensures GuessExtension(mime, Some(name)) == "bin"
  {
    var l := Lower(name);
    if '.' in l {
      var k :| 0 <= k < |l| && l[k] == '.';
      assert name[k] == '.';
    }
    assert |l| > 0 ==> (l[|l| - 1] == '.' <==> name[|name| - 1] == '.');
  }
}
