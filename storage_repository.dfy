/**
 * Storage path and name rules of `StorageRepository` (repositories/StorageRepository.kt).
 * URIs are abstracted to their last path segment; the clock reading for file i is `now(i)`,
 * and `put(path)` is the outcome of uploading to that path (its download URL, or the error).
 */
module StorageRepository {
  import opened Wrappers
  import opened Text
  import opened Models

  /** An upload source, seen only through its last path segment. */
  datatype Uri = Uri(lastPathSegment: Option<string>)

  /** `destDirFor`: "documents/<TYPE>" for the four document types, else "documents/OTHERS". */
  function DestDirFor(documentType: string): (r: string)
    ensures KindOfType(documentType).Some? ==> r == "documents/" + documentType
    ensures KindOfType(documentType).None? ==> r == "documents/OTHERS"
  {
    if documentType == DocTypePembelianRumah then "documents/" + DocTypePembelianRumah
    else if documentType == DocTypeRenovasiRumah then "documents/" + DocTypeRenovasiRumah
    else if documentType == DocTypePemasanganAc then "documents/" + DocTypePemasanganAc
    else if documentType == DocTypePemasanganCctv then "documents/" + DocTypePemasanganCctv
    else "documents/OTHERS"
  }

  /** The storage directory lies under the documents root. */
  lemma DestDirUnderDocuments(documentType: string)
    ensures StartsWith(DestDirFor(documentType), StorageDocuments + "/")
  {
    var r := DestDirFor(documentType);
    assert "documents/" == StorageDocuments + "/";
    if KindOfType(documentType).Some? {
      assert r == "documents/" + documentType;
    } else {
      assert r == "documents/" + "OTHERS";
    }
  }

  /** The characters `sanitize` keeps: [A-Za-z0-9._-]. */
  predicate IsStorageChar(c: char)
  {
    IsAsciiLetter(c) || IsDigit(c) || c == '.' || c == '_' || c == '-'
  }

  /** `sanitize`: every other character becomes '_'. */
  function Sanitize(name: string): (r: string)
    ensures |r| == |name|
    ensures forall i :: 0 <= i < |name| ==> r[i] == (if IsStorageChar(name[i]) then name[i] else '_')
    ensures forall i :: 0 <= i < |r| ==> IsStorageChar(r[i])
  {
    MapNot(name, IsStorageChar, '_')
  }

  /** Sanitizing twice is sanitizing once, and clean names are left alone. */
  lemma SanitizeIdempotent(name: string)
    ensures Sanitize(Sanitize(name)) == Sanitize(name)
    ensures (forall i :: 0 <= i < |name| ==> IsStorageChar(name[i])) ==> Sanitize(name) == name
  {
  }

  /** `guessExtFromUri`: the lowercased segment's text after its last '.', else "bin". */
  function GuessExtFromUri(uri: Uri): (r: string)
    ensures r != [] && '.' !in r
    ensures uri.lastPathSegment.None? ==> r == "bin"
    ensures uri.lastPathSegment.Some? && ExtensionAfterLastDot(Lower(uri.lastPathSegment.value)).Some? ==>
      r == ExtensionAfterLastDot(Lower(uri.lastPathSegment.value)).value
  {
    if uri.lastPathSegment.None? then "bin"
    else
      var e := ExtensionAfterLastDot(Lower(uri.lastPathSegment.value));
      if e.Some? then e.value else "bin"
  }

  /** A segment without a dot, or ending in one, gives "bin". */
  lemma NoDotGivesBin(seg: string)
    requires '.' !in seg || seg[|seg| - 1] == '.'
    ensures GuessExtFromUri(Uri(Some(seg))) == "bin"
  {
    var l := Lower(seg);
    if '.' in l {
      var k :| 0 <= k < |l| && l[k] == '.';
      assert seg[k] == '.';
    }
    assert |l| > 0 ==> (l[|l| - 1] == '.' <==> seg[|seg| - 1] == '.');
  }

  // ---------------------------------------------------------------------------
  // The upload loop shared by uploadMultipleFiles and uploadFiles
  // ---------------------------------------------------------------------------

  /** The paths of files 0..n-1. */
  function PathsOf(n: nat, pathOf: nat -> string): (r: seq<string>)
    ensures |r| == n
    ensures forall i :: 0 <= i < n ==> r[i] == pathOf(i)
  {
    seq(n, i requires 0 <= i < n => pathOf(i))
  }

  /**
   * The uploads a loop performs over `paths` when `put` decides each one: it stops after the
   * first failure. `puts` are the paths tried; on success the URLs are returned in path order.
   */
  predicate UploadOutcome(paths: seq<string>, put: string -> Result<string>, r: Result<seq<string>>,
                          puts: seq<string>)
  {
    && |puts| <= |paths| && puts == paths[..|puts|]
    && (forall j :: 0 <= j < |puts| - 1 ==> put(puts[j]).Success?)
    && (r.Success? ==>
          && puts == paths
          && (forall j :: 0 <= j < |paths| ==> put(paths[j]).Success?)
          && |r.value| == |paths|
          && (forall j :: 0 <= j < |paths| ==> r.value[j] == put(paths[j]).value))
    && (r.Failure? ==>
          puts != [] && put(puts[|puts| - 1]) == Failure(r.message))
  }

  /** A failure is reported exactly when some upload fails, and it is the first one. */
  lemma UploadOutcomeFailure(paths: seq<string>, put: string -> Result<string>, r: Result<seq<string>>,
                             puts: seq<string>)
    requires UploadOutcome(paths, put, r, puts)
    ensures r.Failure? <==> exists j :: 0 <= j < |paths| && put(paths[j]).Failure?
    ensures r.Failure? ==>
      put(paths[|puts| - 1]).Failure? && forall j :: 0 <= j < |puts| - 1 ==> put(paths[j]).Success?
  {
    if r.Failure? {
      assert put(paths[|puts| - 1]).Failure?;
    }
  }

  /** The progress reports (uploaded, total) after each of the first n uploads. */
  function ProgressReports(n: nat, total: nat): (r: seq<(nat, nat)>)
    ensures |r| == n
    ensures forall k :: 0 <= k < n ==> r[k] == (k + 1, total)
  {
    seq(n, k requires 0 <= k < n => (k + 1, total))
  }

  /**
   * The `forEachIndexed` loop: file i goes to `pathOf(i)`; its URL is appended and the count of
   * uploaded files reported; an upload error ends the loop (the source's exception).
   */
  method PutEach(n: nat, pathOf: nat -> string, put: string -> Result<string>)
    returns (r: Result<seq<string>>, puts: seq<string>, progress: seq<(nat, nat)>)
    ensures UploadOutcome(PathsOf(n, pathOf), put, r, puts)
    ensures progress == ProgressReports(if r.Success? then n else |puts| - 1, n)
  {
    ghost var paths := PathsOf(n, pathOf);
    var total := n;
    var urls: seq<string> := [];
    puts := [];
    progress := [];
    var uploaded := 0;
    var index := 0;
    while index < n
      invariant 0 <= index <= n && uploaded == index
      invariant puts == paths[..index] && |urls| == index
      invariant forall j :: 0 <= j < index ==> put(paths[j]).Success? && urls[j] == put(paths[j]).value
      invariant progress == ProgressReports(uploaded, total)
    {
      var path := pathOf(index);
      assert paths[..index + 1] == paths[..index] + [path];
      puts := puts + [path];
      var outcome := put(path);
      if outcome.Failure? {
        r := Failure(outcome.message);
        return;
      }
      urls := urls + [outcome.value];
      uploaded := uploaded + 1;
      progress := progress + [(uploaded, total)];
      index := index + 1;
    }
    assert paths[..index] == paths;
    r := Success(urls);
  }

  /** Progress counts strictly increase and end at the total when every upload succeeds. */
  lemma ProgressIncreases(n: nat, total: nat)
    ensures forall k :: 0 <= k < n - 1 ==> ProgressReports(n, total)[k].0 < ProgressReports(n, total)[k + 1].0
    ensures n > 0 ==> ProgressReports(n, total)[n - 1].0 == n
  {
  }

  // ---------------------------------------------------------------------------
  // uploadMultipleFiles
  // ---------------------------------------------------------------------------

  /** The base name of file i: its given name, or "file_<i+1>", sanitized. */
  function MultiBase(fileNames: seq<string>, i: nat): string
  {
    Sanitize(if i < |fileNames| then fileNames[i] else "file_" + NatToString(i + 1))
  }

  /** The storage path of file i: "<dir>/<base>_<now>.<ext>". */
  function MultiPath(dir: string, uri: Uri, fileNames: seq<string>, now: nat -> int, i: nat): string
  {
    dir + "/" + (MultiBase(fileNames, i) + "_" + IntToString(now(i)) + "." + GuessExtFromUri(uri))
  }

  /** `uploadMultipleFiles`: file i to "<dir>/<base>_<now>.<ext>", stopping at the first failure. */
  method UploadMultipleFiles(uris: seq<Uri>, documentType: string, fileNames: seq<string>,
                             now: nat -> int, put: string -> Result<string>)
    returns (r: Result<seq<string>>, puts: seq<string>)
    ensures UploadOutcome(PathsOf(|uris|, (i: nat) => if i < |uris| then MultiPath(DestDirFor(documentType), uris[i], fileNames, now, i) else ""),
                          put, r, puts)
  {
    var dir := DestDirFor(documentType);
    var pathOf := (i: nat) => if i < |uris| then MultiPath(dir, uris[i], fileNames, now, i) else "";
    var progress;
    r, puts, progress := PutEach(|uris|, pathOf, put);
  }

  // ---------------------------------------------------------------------------
  // uploadFiles
  // ---------------------------------------------------------------------------

  /** The storage path of file i: "<destDir>/<sanitize(prefix)>_<now>_<i+1>.<ext>". */
  function PrefixedPath(destDir: string, uri: Uri, prefix: string, now: nat -> int, i: nat): string
  {
    destDir + "/" + (Sanitize(prefix) + "_" + IntToString(now(i)) + "_" + NatToString(i + 1) + "." + GuessExtFromUri(uri))
  }

  /**
   * `uploadFiles`: nothing for no input; otherwise each file in order, reporting progress
   * (1..n, total) after each upload.
   */
  method UploadFiles(uris: seq<Uri>, destDir: string, filenamePrefix: string, now: nat -> int,
                     put: string -> Result<string>)
    returns (r: Result<seq<string>>, puts: seq<string>, progress: seq<(nat, nat)>)
    ensures uris == [] ==> r == Success([]) && puts == [] && progress == []
    ensures UploadOutcome(PathsOf(|uris|, (i: nat) => if i < |uris| then PrefixedPath(destDir, uris[i], filenamePrefix, now, i) else ""),
                          put, r, puts)
    ensures progress == ProgressReports(if r.Success? then |uris| else |puts| - 1, |uris|)
  {
    if |uris| == 0 {
      r, puts, progress := Success([]), [], [];
      return;
    }
    var pathOf := (i: nat) => if i < |uris| then PrefixedPath(destDir, uris[i], filenamePrefix, now, i) else "";
    r, puts, progress := PutEach(|uris|, pathOf, put);
  }
}
