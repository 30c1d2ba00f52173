/**
 * The display name and MIME type of a picked file (utils/FileMeta.kt). Android's
 * `MimeTypeMap` is a platform table the model does not know, so it is a parameter: one
 * lookup from a lowercase extension to a MIME type, one from a MIME type to an extension.
 */
module FileMeta {
  import opened Wrappers
  import opened Text

  const OctetStream := "application/octet-stream"
  const DefaultName := "file"

  datatype MimeTypeMap = MimeTypeMap(mimeOfExtension: string -> Option<string>,
                                     extensionOfMime: string -> Option<string>)

  /** `Meta(displayName, mimeType)`. */
  datatype Meta = Meta(displayName: string, mimeType: string)

  /** `extFromMime`: a null or blank type has no extension; any other is looked up. */
  function ExtFromMime(mime: Option<string>, table: MimeTypeMap): (r: Option<string>)
    ensures IsNullOrBlank(mime) ==> r.None?
    ensures r.Some? ==> r == table.extensionOfMime(mime.value)
  {
    if IsNullOrBlank(mime) then None else table.extensionOfMime(mime.value)
  }

  /**
   * `ensureExt(name, mime)`: a name with a '.' is kept; otherwise the type's extension, when
   * there is one, is added after a '.'.
   */
  function EnsureExt(name: string, mime: Option<string>, table: MimeTypeMap): (r: string)
    ensures StartsWith(r, name)
    ensures '.' in name ==> r == name
    ensures '.' !in name && ExtFromMime(mime, table).None? ==> r == name
    ensures '.' !in name && ExtFromMime(mime, table).Some? ==>
      r == name + "." + ExtFromMime(mime, table).value && '.' in r
  {
    if '.' in name then name
    else
      var ext := ExtFromMime(mime, table);
      if ext.None? then name
      else
        var r := name + "." + ext.value;
        assert r[|name|] == '.';
        r
  }

  /** Adding the extension twice adds it once. */
  lemma EnsureExtIdempotent(name: string, mime: Option<string>, table: MimeTypeMap)
    ensures EnsureExt(EnsureExt(name, mime, table), mime, table) == EnsureExt(name, mime, table)
  {
  }

  /** Once a name has an extension no MIME type changes it. */
  lemma EnsureExtKeepsExtension(name: string, mime1: Option<string>, mime2: Option<string>, table: MimeTypeMap)
    requires '.' in EnsureExt(name, mime1, table)
    ensures EnsureExt(EnsureExt(name, mime1, table), mime2, table) == EnsureExt(name, mime1, table)
  {
  }

  /** A blank type never extends a name, whatever the table says. */
  lemma BlankMimeAddsNothing(name: string, mime: Option<string>, table: MimeTypeMap)
    requires IsNullOrBlank(mime)
    ensures EnsureExt(name, mime, table) == name
  {
  }

  /** The lowercase text after the last '.', or "" when there is none. */
  function LowerSuffix(name: string): (r: string)
    ensures '.' !in name ==> r == ""
    ensures '.' !in r
  {
    var s := SubstringAfterLast(name, '.', "");
    LowerKeepsDot(s);
    Lower(s)
  }

  /** Lowercasing neither adds nor removes a '.'. */
  lemma LowerKeepsDot(s: string)
    ensures '.' in Lower(s) <==> '.' in s
  {
    if '.' in s {
      var i :| 0 <= i < |s| && s[i] == '.';
      assert Lower(s)[i] == '.';
    }
    if '.' in Lower(s) {
      var i :| 0 <= i < |Lower(s)| && Lower(s)[i] == '.';
      assert s[i] == '.';
    }
  }

  /** `guessMimeFromName`: no guess for a blank suffix, otherwise the table's answer for it. */
  function GuessMimeFromName(name: string, table: MimeTypeMap): (r: Option<string>)
    ensures IsBlank(LowerSuffix(name)) ==> r.None?
    ensures !IsBlank(LowerSuffix(name)) ==> r == table.mimeOfExtension(LowerSuffix(name))
  {
    var ext := LowerSuffix(name);
    if IsBlank(ext) then None else table.mimeOfExtension(ext)
  }

  /** A blank suffix is never looked up: any two tables give the same (absent) guess. */
  lemma BlankSuffixNoLookup(name: string, t1: MimeTypeMap, t2: MimeTypeMap)
    requires IsBlank(LowerSuffix(name))
    ensures GuessMimeFromName(name, t1) == GuessMimeFromName(name, t2) == None
  {
  }

  /** A name without a '.' has no suffix, so nothing is guessed from it. */
  lemma NoDotNoGuess(name: string, table: MimeTypeMap)
    requires '.' !in name
    ensures GuessMimeFromName(name, table).None?
  {
  }

  /** The guess depends on the suffix only up to case. */
  lemma GuessIgnoresCase(a: string, b: string, table: MimeTypeMap)
    requires Lower(SubstringAfterLast(a, '.', "")) == Lower(SubstringAfterLast(b, '.', ""))
    ensures GuessMimeFromName(a, table) == GuessMimeFromName(b, table)
  {
  }

  /**
   * The type `fromUri` settles on before the last fallback: the resolver's when not blank,
   * else a non-blank guess from the display name (or, without one, the uri text), else the
   * resolver's answer as it was.
   */
  function ResolvedMime(resolverType: Option<string>, displayName: Option<string>, uriText: string,
                        table: MimeTypeMap): (r: Option<string>)
    ensures !IsNullOrBlank(resolverType) ==> r == resolverType
    ensures IsNullOrBlank(resolverType) && !IsNullOrBlank(GuessMimeFromName(displayName.GetOr(uriText), table)) ==>
      r == GuessMimeFromName(displayName.GetOr(uriText), table)
    ensures IsNullOrBlank(resolverType) && IsNullOrBlank(GuessMimeFromName(displayName.GetOr(uriText), table)) ==>
      r == resolverType
  {
    if IsNullOrBlank(resolverType) then
      var guess := GuessMimeFromName(displayName.GetOr(uriText), table);
      if !IsNullOrBlank(guess) then guess else resolverType
    else resolverType
  }

  /**
   * The name `fromUri` settles on before adding an extension: the display name when not
   * blank, else what follows the last '/' of the uri's last path segment, else "file".
   */
  function ResolvedName(displayName: Option<string>, lastPathSegment: Option<string>): (r: string)
    ensures !IsNullOrBlank(displayName) ==> r == displayName.value
    ensures IsNullOrBlank(displayName) && lastPathSegment.None? ==> r == DefaultName
    ensures IsNullOrBlank(displayName) && lastPathSegment.Some? ==>
      '/' !in r && EndsWith(lastPathSegment.value, r)
  {
    if !IsNullOrBlank(displayName) then displayName.value
    else if lastPathSegment.None? then DefaultName
    else AfterLastSlash(lastPathSegment.value)
  }

  /** `substringAfterLast('/')`: the whole text when it has no '/'. */
  function AfterLastSlash(s: string): (r: string)
    ensures '/' !in r && EndsWith(s, r)
  {
    var r := SubstringAfterLast(s, '/', s);
    if '/' in s then
      var k :| 0 <= k < |s| && s[k] == '/' && r == s[k + 1..];
      assert s[|s| - |r|..] == r;
      r
    else r
  }

  /**
   * `fromUri`: the resolver's type and the queried display name (None when the query fails),
   * with the fallbacks above; the name gets the type's extension and the type defaults to
   * "application/octet-stream".
   */
  function FromUri(resolverType: Option<string>, displayName: Option<string>, uriText: string,
                   lastPathSegment: Option<string>, table: MimeTypeMap): (r: Meta)
    ensures StartsWith(r.displayName, ResolvedName(displayName, lastPathSegment))
    ensures ResolvedMime(resolverType, displayName, uriText, table).None? ==> r.mimeType == OctetStream
    ensures ResolvedMime(resolverType, displayName, uriText, table).Some? ==>
      Some(r.mimeType) == ResolvedMime(resolverType, displayName, uriText, table)
    ensures !IsNullOrBlank(resolverType) ==> r.mimeType == resolverType.value
  {
    var mime := ResolvedMime(resolverType, displayName, uriText, table);
    var name := ResolvedName(displayName, lastPathSegment);
    Meta(EnsureExt(name, mime, table), mime.GetOr(OctetStream))
  }

  /**
   * When a type was found, the returned name already carries whatever extension that type
   * gives, so passing it through ensureExt again changes nothing.
   */
  lemma FromUriNameStable(resolverType: Option<string>, displayName: Option<string>, uriText: string,
                          lastPathSegment: Option<string>, table: MimeTypeMap)
    requires ResolvedMime(resolverType, displayName, uriText, table).Some?
    ensures var m := FromUri(resolverType, displayName, uriText, lastPathSegment, table);
      EnsureExt(m.displayName, Some(m.mimeType), table) == m.displayName
  {
    EnsureExtIdempotent(ResolvedName(displayName, lastPathSegment),
                        ResolvedMime(resolverType, displayName, uriText, table), table);
  }

  /** A display name that already has a '.' is returned exactly. */
  lemma DottedDisplayNameKept(resolverType: Option<string>, name: string, uriText: string,
                              lastPathSegment: Option<string>, table: MimeTypeMap)
    requires '.' in name
    ensures FromUri(resolverType, Some(name), uriText, lastPathSegment, table).displayName == name
  {
    assert !IsBlank(name) by {
      var i :| 0 <= i < |name| && name[i] == '.';
      assert !IsWhitespace(name[i]);
    }
  }
}
