/**
 * Saving and exporting a document's attachments (utils/AttachmentExporter.kt). Network,
 * MediaStore and rendering are left abstract: the model computes which files are written,
 * under which names and MIME types, and how the web renderer is driven.
 */
module AttachmentExporter {
  import opened Wrappers
  import opened Text
  import Lists

  /** One attachment: its download URL and optional display name. */
  datatype Attachment = Attachment(url: string, name: Option<string>)

  const OctetStream := "application/octet-stream"
  const Application := "application/"
  const PdfMime := "application/pdf"

  // ---------------------------------------------------------------------------
  // index2
  // ---------------------------------------------------------------------------

  /** `String.format("%02d", n)` for a non-negative n. */
  function Index2(n: nat): string
  {
    PadStart(NatToString(n), 2, '0')
  }

  /** The label is the decimal form of n. */
  lemma Index2Value(n: nat)
    ensures AllDigits(Index2(n)) && DigitsValue(Index2(n)) == n
  {
    PaddedNumberValue(n, 2);
  }

  /** Below 100 the label is two characters long. */
  lemma Index2Length(n: nat)
    requires n <= 99
    ensures |Index2(n)| == 2
  {
    NatToStringLength(n);
    SmallDigitCount(n);
  }

  lemma SmallDigitCount(n: nat)
    ensures n <= 99 ==> DigitCount(n) <= 2
  {
    if 10 <= n <= 99 {
      assert DigitCount(n) == 1 + DigitCount(n / 10);
    }
  }

  /** Different numbers get different two-digit labels. */
  lemma Index2Injective(a: nat, b: nat)
    requires Index2(a) == Index2(b)
    ensures a == b
  {
    Index2Value(a);
    Index2Value(b);
  }

  // ---------------------------------------------------------------------------
  // guessExt, guessMimeFromExt, isImageExt
  // ---------------------------------------------------------------------------

  /** The text after the last '.', when that dot is neither the first nor the last character. */
  function InnerExtension(n: string): (r: Option<string>)
    ensures r.Some? ==> r.value != [] && '.' !in r.value && EndsWith(n, "." + r.value) && |r.value| + 1 < |n|
    ensures r.None? <==> !(1 <= LastIndexOf(n, '.') < |n| - 1)
  {
    var ix := LastIndexOf(n, '.');
    if 1 <= ix < |n| - 1 then
      DotFreeTail(n, ix);
      Some(n[ix + 1..])
    else None
  }

  lemma DotFreeTail(n: string, ix: int)
    requires 0 <= ix < |n| && n[ix] == '.'
    requires forall i :: ix < i < |n| ==> n[i] != '.'
    ensures '.' !in n[ix + 1..] && n[ix..] == "." + n[ix + 1..]
  {
    var t := n[ix + 1..];
    forall j | 0 <= j < |t| ensures t[j] != '.' {
      assert t[j] == n[ix + 1 + j];
    }
    assert "."[0] == '.' && |"."| == 1;
    assert n[ix..] == [n[ix]] + t;
  }

  /**
   * `guessExt`: the name's extension, else the extension of the URL without its query string,
   * else "bin".
   */
  function GuessExt(att: Attachment): (r: string)
    ensures r != [] && '.' !in r
  {
    if att.name.Some? && InnerExtension(att.name.value).Some? then InnerExtension(att.name.value).value
    else
      var e := InnerExtension(SubstringBefore(att.url, '?', att.url));
      if e.Some? then e.value else "bin"
  }

  /** The name's extension wins; the URL (without its query) is consulted only when the name has none. */
  lemma GuessExtSources(att: Attachment)
    ensures att.name.Some? && InnerExtension(att.name.value).Some? ==>
      GuessExt(att) == InnerExtension(att.name.value).value
    ensures (att.name.None? || InnerExtension(att.name.value).None?) ==>
      var e := InnerExtension(SubstringBefore(att.url, '?', att.url));
      GuessExt(att) == if e.Some? then e.value else "bin"
  {
  }

  /** The extensions `guessMimeFromExt` knows. */
  const MimeExtensions: seq<string> :=
    ["pdf", "jpg", "jpeg", "png", "webp", "gif", "bmp", "heic", "txt", "doc", "docx",
     "xls", "xlsx", "ppt", "pptx"]

  const ImageExtensions: seq<string> := ["jpg", "jpeg", "png", "webp", "gif", "bmp", "heic", "tif", "tiff"]

  /** The MIME type of a lowercase extension. */
  function MimeOfLower(e: string): string
  {
    if e == "pdf" then PdfMime
    else if e == "jpg" || e == "jpeg" then "image/jpeg"
    else if e == "png" then "image/png"
    else if e == "webp" then "image/webp"
    else if e == "gif" then "image/gif"
    else if e == "bmp" then "image/bmp"
    else if e == "heic" then "image/heic"
    else if e == "txt" then "text/plain"
    else if e == "doc" then Application + "msword"
    else if e == "docx" then Application + "vnd.openxmlformats-officedocument.wordprocessingml.document"
    else if e == "xls" then Application + "vnd.ms-excel"
    else if e == "xlsx" then Application + "vnd.openxmlformats-officedocument.spreadsheetml.sheet"
    else if e == "ppt" then Application + "vnd.ms-powerpoint"
    else if e == "pptx" then Application + "vnd.openxmlformats-officedocument.presentationml.presentation"
    else OctetStream
  }

  /** Exactly the unknown extensions get the generic type; only image extensions get an image type. */
  lemma MimeOfLowerFacts(e: string)
    ensures MimeOfLower(e) == OctetStream <==> e !in MimeExtensions
    ensures MimeOfLower(e) != [] && (MimeOfLower(e)[0] == 'i' ==> e in ImageExtensions)
  {
    UnknownMime(e);
    KnownMime(e);
    ImageMimeFirst(e);
  }

  lemma UnknownMime(e: string)
    ensures e !in MimeExtensions ==> MimeOfLower(e) == OctetStream
  {
  }

  lemma KnownMime(e: string)
    ensures e in MimeExtensions ==> MimeOfLower(e) != OctetStream
  {
    if e == "xls" {
      assert MimeOfLower(e)[12] != OctetStream[12];
    }
  }

  lemma ImageMimeFirst(e: string)
    ensures MimeOfLower(e) != [] && (MimeOfLower(e)[0] == 'i' ==> e in ImageExtensions)
  {
  }

  /** `guessMimeFromExt`: the MIME type of the lowercased extension. */
  function GuessMimeFromExt(ext: string): string
  {
    MimeOfLower(Lower(ext))
  }

  predicate IsImageExt(ext: string)
  {
    Lower(ext) in ImageExtensions
  }

  /** The lookup ignores case, and unknown extensions get the generic binary type. */
  lemma GuessMimeIgnoresCase(ext: string)
    ensures GuessMimeFromExt(Lower(ext)) == GuessMimeFromExt(ext)
    ensures GuessMimeFromExt(ext) == OctetStream <==> Lower(ext) !in MimeExtensions
  {
    LowerIdempotent(ext);
    MimeOfLowerFacts(Lower(ext));
  }

  /** Every extension given an image MIME type is an image extension. */
  lemma ImageMimeIsImageExt(ext: string)
    requires StartsWith(GuessMimeFromExt(ext), "image/")
    ensures IsImageExt(ext)
  {
    MimeOfLowerFacts(Lower(ext));
    assert GuessMimeFromExt(ext)[0] == "image/"[0];
  }

  /** tif and tiff (in any case) count as images but get the generic binary type. */
  lemma TiffIsUntypedImage(ext: string)
    requires Lower(ext) == "tif" || Lower(ext) == "tiff"
    ensures IsImageExt(ext) && GuessMimeFromExt(ext) == OctetStream
  {
    UnknownMime(Lower(ext));
  }

  // ---------------------------------------------------------------------------
  // downloadOriginals
  // ---------------------------------------------------------------------------

  /** `"${baseName}-${index2(idx + 1)}.$ext"`. */
  function OutputName(baseName: string, idx: nat, ext: string): string
  {
    baseName + "-" + Index2(idx + 1) + "." + ext
  }

  /** One file written to Downloads: its display name, MIME type and the URL copied into it. */
  datatype FileWrite = FileWrite(displayName: string, mime: string, sourceUrl: string)

  /** The file downloadOriginals writes for attachment idx. */
  function OriginalWrite(baseName: string, idx: nat, att: Attachment): FileWrite
  {
    var ext := GuessExt(att);
    FileWrite(OutputName(baseName, idx, ext), GuessMimeFromExt(ext), att.url)
  }

  function DownloadPlan(baseName: string, attachments: seq<Attachment>): (r: seq<FileWrite>)
    ensures |r| == |attachments|
    ensures forall i :: 0 <= i < |attachments| ==> r[i] == OriginalWrite(baseName, i, attachments[i])
  {
    seq(|attachments|, i requires 0 <= i < |attachments| => OriginalWrite(baseName, i, attachments[i]))
  }

  /** What an HTTP GET of a URL comes to: a response code, or an exception before any response. */
  datatype Fetch = Responded(code: int) | Unreachable(message: string)

  /**
   * The outcomes of the I/O an export performs: whether MediaStore refuses (answers null to)
   * the insert of a display name, and what fetching each URL comes to.
   */
  datatype Io = Io(refused: string -> bool, fetch: string -> Fetch)

  /** `httpStream` returns the body only for a status in 200..299. */
  predicate HttpOk(f: Fetch)
  {
    f.Responded? && 200 <= f.code <= 299
  }

  /** The exception `httpStream(url)` throws, if any. */
  function FetchError(url: string, f: Fetch): (r: Option<string>)
    ensures r.None? <==> HttpOk(f)
    ensures f.Responded? && r.Some? ==> StartsWith(r.value, "HTTP ")
  {
    match f
    case Responded(code) =>
      if 200 <= code <= 299 then None else Some("HTTP " + IntToString(code) + " pada " + url)
    case Unreachable(message) => Some(message)
  }

  /** The exception `openDownloadOutput(displayName, …)` throws when MediaStore refuses the insert. */
  function OpenError(displayName: string, io: Io): (r: Option<string>)
    ensures r.None? <==> !io.refused(displayName)
  {
    if io.refused(displayName) then Some("Gagal membuat file " + displayName) else None
  }

  /** The exception downloading attachment idx throws: the output is opened first, then the URL fetched. */
  function DownloadFailure(baseName: string, idx: nat, att: Attachment, io: Io): Option<string>
  {
    var name := OutputName(baseName, idx, GuessExt(att));
    if io.refused(name) then OpenError(name, io) else FetchError(att.url, io.fetch(att.url))
  }

  /**
   * A download succeeds exactly when its output is created and its fetch answers 2xx; a
   * refused output is reported before the URL is fetched.
   */
  lemma DownloadFailureCases(baseName: string, idx: nat, att: Attachment, io: Io)
    ensures DownloadFailure(baseName, idx, att, io).None? <==>
      !io.refused(OriginalWrite(baseName, idx, att).displayName) && HttpOk(io.fetch(att.url))
    ensures io.refused(OriginalWrite(baseName, idx, att).displayName) ==>
      DownloadFailure(baseName, idx, att, io) == Some("Gagal membuat file " + OriginalWrite(baseName, idx, att).displayName)
  {
  }

  /** The first n attachments download without throwing. */
  predicate DownloadsPass(baseName: string, attachments: seq<Attachment>, io: Io, n: nat)
    requires n <= |attachments|
  {
    forall j :: 0 <= j < n ==> DownloadFailure(baseName, j, attachments[j], io).None?
  }

  lemma DownloadsPassSnoc(baseName: string, attachments: seq<Attachment>, io: Io, n: nat)
    requires n < |attachments| && DownloadsPass(baseName, attachments, io, n)
    requires DownloadFailure(baseName, n, attachments[n], io).None?
    ensures DownloadsPass(baseName, attachments, io, n + 1)
  {
  }

  lemma DownloadsFailAt(baseName: string, attachments: seq<Attachment>, io: Io, n: nat)
    requires n < |attachments| && DownloadFailure(baseName, n, attachments[n], io).Some?
    ensures !DownloadsPass(baseName, attachments, io, |attachments|)
  {
  }

  /**
   * `downloadOriginals`: one file per attachment, in list order, until the first attachment
   * whose output cannot be created or whose fetch fails; that exception ends the loop and is
   * returned as `error`.
   */
  method DownloadOriginals(baseName: string, attachments: seq<Attachment>, io: Io)
    returns (writes: seq<FileWrite>, error: Option<string>)
    ensures |writes| <= |attachments| && writes == DownloadPlan(baseName, attachments)[..|writes|]
    ensures DownloadsPass(baseName, attachments, io, |writes|)
    ensures error.None? <==> |writes| == |attachments|
    ensures error.Some? ==> error == DownloadFailure(baseName, |writes|, attachments[|writes|], io)
    ensures error.None? <==> DownloadsPass(baseName, attachments, io, |attachments|)
  {
    writes, error := [], None;
    var idx := 0;
    while idx < |attachments|
      invariant 0 <= idx <= |attachments|
      invariant writes == DownloadPlan(baseName, attachments)[..idx]
      invariant DownloadsPass(baseName, attachments, io, idx)
    {
      var att := attachments[idx];
      var ext := GuessExt(att);
      var fileName := baseName + "-" + Index2(idx + 1) + "." + ext;
      assert fileName == OutputName(baseName, idx, ext);
      if io.refused(fileName) {
        error := Some("Gagal membuat file " + fileName);
        DownloadsFailAt(baseName, attachments, io, idx);
        return;
      }
      var response := io.fetch(att.url);
      if !(response.Responded? && 200 <= response.code <= 299) {
        error := if response.Responded? then Some("HTTP " + IntToString(response.code) + " pada " + att.url)
                 else Some(response.message);
        DownloadsFailAt(baseName, attachments, io, idx);
        return;
      }
      DownloadsPassSnoc(baseName, attachments, io, idx);
      PlanStep(baseName, attachments, idx);
      writes := writes + [FileWrite(fileName, GuessMimeFromExt(ext), att.url)];
      idx := idx + 1;
    }
    assert DownloadPlan(baseName, attachments)[..idx] == DownloadPlan(baseName, attachments);
  }

  lemma PlanStep(baseName: string, attachments: seq<Attachment>, idx: nat)
    requires idx < |attachments|
    ensures DownloadPlan(baseName, attachments)[..idx + 1]
         == DownloadPlan(baseName, attachments)[..idx] + [OriginalWrite(baseName, idx, attachments[idx])]
  {
    Lists.TakeSnoc(DownloadPlan(baseName, attachments), idx);
  }

  lemma MiddleSlice<T>(a: seq<T>, b: seq<T>, c: seq<T>)
    ensures (a + b + c)[|a|..|a| + |b|] == b
  {
    assert a + b + c == a + (b + c);
  }

  /** The two-digit label sits right after "<base>-". */
  lemma OutputNameLabel(baseName: string, idx: nat, ext: string)
    requires idx + 1 <= 99
    ensures var n := OutputName(baseName, idx, ext);
      |n| >= |baseName| + 3 && n[|baseName| + 1..|baseName| + 3] == Index2(idx + 1)
  {
    Index2Length(idx + 1);
    var pre := baseName + "-";
    var suf := "." + ext;
    assert OutputName(baseName, idx, ext) == pre + Index2(idx + 1) + suf;
    MiddleSlice(pre, Index2(idx + 1), suf);
  }

  /** The two-digit label of a name spells its position plus one. */
  lemma OutputNameLabelValue(baseName: string, idx: nat, ext: string)
    requires idx + 1 <= 99
    ensures var n := OutputName(baseName, idx, ext);
      |n| >= |baseName| + 3 && DigitsValue(n[|baseName| + 1..|baseName| + 3]) == idx + 1
  {
    OutputNameLabel(baseName, idx, ext);
    Index2Value(idx + 1);
  }

  /** Different positions below 99 give different output names, whatever the extensions. */
  lemma OutputNamesDistinct(baseName: string, i: nat, j: nat, ei: string, ej: string)
    requires i != j && i < 99 && j < 99
    ensures OutputName(baseName, i, ei) != OutputName(baseName, j, ej)
  {
    OutputNameLabelValue(baseName, i, ei);
    OutputNameLabelValue(baseName, j, ej);
  }

  /** With at most 99 attachments every written file gets its own name. */
  lemma DownloadNamesDistinct(baseName: string, attachments: seq<Attachment>, i: nat, j: nat)
    requires i < j < |attachments| <= 99
    ensures DownloadPlan(baseName, attachments)[i].displayName != DownloadPlan(baseName, attachments)[j].displayName
  {
    var p := DownloadPlan(baseName, attachments);
    assert p[i] == OriginalWrite(baseName, i, attachments[i]);
    assert p[j] == OriginalWrite(baseName, j, attachments[j]);
    OutputNamesDistinct(baseName, i, j, GuessExt(attachments[i]), GuessExt(attachments[j]));
  }

  // ---------------------------------------------------------------------------
  // exportAsPdf
  // ---------------------------------------------------------------------------

  /** The extensions the web renderer loads directly; any other goes through the document viewer. */
  const WebDirectExtensions: seq<string> := ["html", "htm", "txt", "md", "csv", "json", "xml"]

  const ViewerPrefix := "https://drive.google.com/viewerng/viewer?embedded=1&url="

  /** What exportAsPdf does with one attachment. */
  datatype ExportAction =
    | CopyPdf(target: string, url: string)
    | ImageToPdf(target: string, url: string)
    | WebToPdf(target: string, loadUrl: string)
  {
    function Target(): string
    {
      match this
      case CopyPdf(t, _) => t
      case ImageToPdf(t, _) => t
      case WebToPdf(t, _) => t
    }
  }

  /** `"${baseName}-${index2(idx + 1)}.pdf"`. */
  function PdfName(baseName: string, idx: nat): string
  {
    baseName + "-" + Index2(idx + 1) + ".pdf"
  }

  /** The URL the web renderer loads; `encode` is URL encoding. */
  function WebLoadUrl(originalUrl: string, extLower: string, encode: string -> string): (r: string)
    ensures extLower in WebDirectExtensions ==> r == originalUrl
    ensures extLower !in WebDirectExtensions ==> StartsWith(r, ViewerPrefix)
  {
    if extLower in WebDirectExtensions then originalUrl else ViewerPrefix + encode(originalUrl)
  }

  /**
   * The export of attachment idx: a PDF is copied, an image is rendered when it decodes
   * (`decodes(url)`; otherwise the attachment is skipped), anything else goes to the web renderer.
   */
  function ExportStep(baseName: string, idx: nat, att: Attachment, decodes: string -> bool,
                      encode: string -> string): Option<ExportAction>
  {
    var targetName := PdfName(baseName, idx);
    var ext := Lower(GuessExt(att));
    if ext == "pdf" then Some(CopyPdf(targetName, att.url))
    else if IsImageExt(ext) then
      if decodes(att.url) then Some(ImageToPdf(targetName, att.url)) else None
    else Some(WebToPdf(targetName, WebLoadUrl(att.url, ext, encode)))
  }

  /** The produced values of f over the first n elements, in order. */
  function Collect<T, U>(f: (nat, T) -> Option<U>, xs: seq<T>, n: nat): (r: seq<U>)
    requires n <= |xs|
    ensures |r| <= n
  {
    if n == 0 then []
    else
      Collect(f, xs, n - 1) + Produced(f(n - 1, xs[n - 1]))
  }

  /** The value an option holds, as a sequence of zero or one elements. */
  function Produced<U>(o: Option<U>): (r: seq<U>)
    ensures |r| <= 1
  {
    if o.Some? then [o.value] else []
  }

  lemma {:induction false} CollectAll<T, U>(f: (nat, T) -> Option<U>, xs: seq<T>, n: nat, p: U -> bool)
    requires n <= |xs|
    requires forall i :: 0 <= i < n ==> f(i, xs[i]).Some? ==> p(f(i, xs[i]).value)
    ensures forall u :: u in Collect(f, xs, n) ==> p(u)
  {
    if n > 0 {
      CollectAll(f, xs, n - 1, p);
    }
  }

  lemma {:induction false} CollectTotal<T, U>(f: (nat, T) -> Option<U>, xs: seq<T>, n: nat)
    requires n <= |xs|
    requires forall i :: 0 <= i < n ==> f(i, xs[i]).Some?
    ensures |Collect(f, xs, n)| == n
  {
    if n > 0 {
      CollectTotal(f, xs, n - 1);
    }
  }

  /** The actions for the first n attachments, in order. */
  function ExportPlan(baseName: string, attachments: seq<Attachment>, n: nat, decodes: string -> bool,
                      encode: string -> string): (r: seq<ExportAction>)
    requires n <= |attachments|
  {
    Collect((i: nat, att: Attachment) => ExportStep(baseName, i, att, decodes, encode), attachments, n)
  }

  /**
   * The exception exporting attachment idx throws, if any: a PDF's output is opened before its
   * fetch, an image is fetched first (one that does not decode is skipped, so it opens nothing),
   * and the web renderer only opens the output.
   */
  function ExportFailure(baseName: string, idx: nat, att: Attachment, decodes: string -> bool, io: Io): Option<string>
  {
    var target := PdfName(baseName, idx);
    var ext := Lower(GuessExt(att));
    if ext == "pdf" then
      if io.refused(target) then OpenError(target, io) else FetchError(att.url, io.fetch(att.url))
    else if IsImageExt(ext) then
      if !HttpOk(io.fetch(att.url)) then FetchError(att.url, io.fetch(att.url))
      else if decodes(att.url) then OpenError(target, io)
      else None
    else OpenError(target, io)
  }

  /**
   * An export throws only on refused output or a failed fetch; one that goes through fetched
   * whatever it fetches, and opened its output unless the attachment was skipped.
   */
  lemma ExportFailureCases(baseName: string, idx: nat, att: Attachment, decodes: string -> bool, io: Io)
    ensures !io.refused(PdfName(baseName, idx)) && HttpOk(io.fetch(att.url)) ==>
      ExportFailure(baseName, idx, att, decodes, io).None?
    ensures ExportFailure(baseName, idx, att, decodes, io).None? && !Skipped(att, decodes) ==>
      !io.refused(PdfName(baseName, idx))
    ensures (ExportFailure(baseName, idx, att, decodes, io).None? &&
             (Lower(GuessExt(att)) == "pdf" || IsImageExt(Lower(GuessExt(att))))) ==> HttpOk(io.fetch(att.url))
  {
  }

  /** An attachment exportAsPdf skips: an image whose bytes do not decode. */
  predicate Skipped(att: Attachment, decodes: string -> bool)
  {
    Lower(GuessExt(att)) != "pdf" && IsImageExt(Lower(GuessExt(att))) && !decodes(att.url)
  }

  /**
   * `exportAsPdf`: every attachment in order, each to "<base>-NN.pdf", until the first one
   * whose export throws; the actions of the attachments before it are kept and the exception
   * is returned as `error`. `stopped` is the position the loop stopped at: the count of
   * attachments that exported, and the one that threw when there is an error.
   */
  method ExportAsPdf(baseName: string, attachments: seq<Attachment>, decodes: string -> bool,
                     encode: string -> string, io: Io)
    returns (actions: seq<ExportAction>, error: Option<string>, ghost stopped: nat)
    ensures stopped <= |attachments| && ExportsPass(baseName, attachments, decodes, io, stopped)
    ensures actions == ExportPlan(baseName, attachments, stopped, decodes, encode)
    ensures error.None? <==> stopped == |attachments|
    ensures error.Some? ==> error == ExportFailure(baseName, stopped, attachments[stopped], decodes, io)
    ensures error.None? <==> ExportsPass(baseName, attachments, decodes, io, |attachments|)
  {
    actions, error := [], None;
    var idx := 0;
    while idx < |attachments|
      invariant 0 <= idx <= |attachments|
      invariant actions == ExportPlan(baseName, attachments, idx, decodes, encode)
      invariant ExportsPass(baseName, attachments, decodes, io, idx) && error.None?
    {
      var produced;
      produced, error := ExportOne(baseName, idx, attachments[idx], decodes, encode, io);
      if error.Some? {
        ExportsFailAt(baseName, attachments, decodes, io, idx);
        stopped := idx;
        return;
      }
      ExportsPassSnoc(baseName, attachments, decodes, io, idx);
      ExportPlanSnoc(baseName, attachments, idx, decodes, encode);
      actions := actions + produced;
      idx := idx + 1;
    }
    stopped := idx;
  }

  /** The first n attachments export without throwing. */
  predicate ExportsPass(baseName: string, attachments: seq<Attachment>, decodes: string -> bool, io: Io, n: nat)
    requires n <= |attachments|
  {
    forall j :: 0 <= j < n ==> ExportFailure(baseName, j, attachments[j], decodes, io).None?
  }

  lemma ExportsPassSnoc(baseName: string, attachments: seq<Attachment>, decodes: string -> bool, io: Io, n: nat)
    requires n < |attachments| && ExportsPass(baseName, attachments, decodes, io, n)
    requires ExportFailure(baseName, n, attachments[n], decodes, io).None?
    ensures ExportsPass(baseName, attachments, decodes, io, n + 1)
  {
  }

  /** Once one attachment throws, the whole list does not export. */
  lemma ExportsFailAt(baseName: string, attachments: seq<Attachment>, decodes: string -> bool, io: Io, n: nat)
    requires n < |attachments| && ExportFailure(baseName, n, attachments[n], decodes, io).Some?
    ensures !ExportsPass(baseName, attachments, decodes, io, |attachments|)
  {
  }

  /**
   * The body of `exportAsPdf`'s loop: what attachment idx adds to the downloads, or the
   * exception that ends the loop; nothing is added when it throws.
   */
  method ExportOne(baseName: string, idx: nat, att: Attachment, decodes: string -> bool,
                   encode: string -> string, io: Io) returns (produced: seq<ExportAction>, error: Option<string>)
    ensures error == ExportFailure(baseName, idx, att, decodes, io)
    ensures error.None? ==> produced == Produced(ExportStep(baseName, idx, att, decodes, encode))
    ensures error.Some? ==> produced == []
  {
    var targetName := baseName + "-" + Index2(idx + 1) + ".pdf";
    var ext := Lower(GuessExt(att));
    StepOf(baseName, idx, att, decodes, encode, targetName, ext);
    produced, error := [], None;
    if ext == "pdf" {
      error := OpenError(targetName, io);
      if error.None? {
        error := FetchError(att.url, io.fetch(att.url));
        if error.None? {
          produced := [CopyPdf(targetName, att.url)];
        }
      }
    } else if IsImageExt(ext) {
      error := FetchError(att.url, io.fetch(att.url));
      if error.None? && decodes(att.url) {
        error := OpenError(targetName, io);
        if error.None? {
          produced := [ImageToPdf(targetName, att.url)];
        }
      }
    } else {
      error := OpenError(targetName, io);
      if error.None? {
        produced := [WebToPdf(targetName, WebLoadUrl(att.url, ext, encode))];
      }
    }
  }

  /** An output name starts with "<base>-" and ends with ".<ext>". */
  lemma OutputNameShape(baseName: string, idx: nat, ext: string)
    ensures StartsWith(OutputName(baseName, idx, ext), baseName + "-")
    ensures EndsWith(OutputName(baseName, idx, ext), "." + ext)
  {
    var n := OutputName(baseName, idx, ext);
    var pre := baseName + "-";
    var suf := "." + ext;
    assert n == pre + (Index2(idx + 1) + suf);
    assert n == (pre + Index2(idx + 1)) + suf;
  }

  /** The action writes a PDF named after the base. */
  predicate PdfTarget(baseName: string, a: ExportAction)
  {
    StartsWith(a.Target(), baseName + "-") && EndsWith(a.Target(), ".pdf")
  }

  lemma ExportPlanSnoc(baseName: string, attachments: seq<Attachment>, idx: nat, decodes: string -> bool,
                       encode: string -> string)
    requires idx < |attachments|
    ensures ExportPlan(baseName, attachments, idx + 1, decodes, encode)
      == ExportPlan(baseName, attachments, idx, decodes, encode)
         + Produced(ExportStep(baseName, idx, attachments[idx], decodes, encode))
  {
  }

  /** The action of one attachment, from its target name and lowercased extension. */
  lemma StepOf(baseName: string, idx: nat, att: Attachment, decodes: string -> bool, encode: string -> string,
               targetName: string, ext: string)
    requires targetName == PdfName(baseName, idx) && ext == Lower(GuessExt(att))
    ensures ext == "pdf" ==> ExportStep(baseName, idx, att, decodes, encode) == Some(CopyPdf(targetName, att.url))
    ensures ext != "pdf" && IsImageExt(ext) && decodes(att.url) ==>
      ExportStep(baseName, idx, att, decodes, encode) == Some(ImageToPdf(targetName, att.url))
    ensures ext != "pdf" && IsImageExt(ext) && !decodes(att.url) ==>
      ExportStep(baseName, idx, att, decodes, encode) == None
    ensures ext != "pdf" && !IsImageExt(ext) ==>
      ExportStep(baseName, idx, att, decodes, encode) == Some(WebToPdf(targetName, WebLoadUrl(att.url, ext, encode)))
  {
  }

  /** Every exported file is a PDF named after the base; only images that fail to decode are skipped. */
  lemma ExportPlanShape(baseName: string, attachments: seq<Attachment>, decodes: string -> bool,
                        encode: string -> string)
    ensures forall a :: a in ExportPlan(baseName, attachments, |attachments|, decodes, encode) ==> PdfTarget(baseName, a)
    ensures (forall i :: 0 <= i < |attachments| ==> !Skipped(attachments[i], decodes)) ==>
      |ExportPlan(baseName, attachments, |attachments|, decodes, encode)| == |attachments|
  {
    var f := (i: nat, att: Attachment) => ExportStep(baseName, i, att, decodes, encode);
    forall i | 0 <= i < |attachments|
      ensures f(i, attachments[i]).Some? ==> PdfTarget(baseName, f(i, attachments[i]).value)
      ensures !Skipped(attachments[i], decodes) ==> f(i, attachments[i]).Some?
    {
      StepPdfTarget(baseName, i, attachments[i], decodes, encode);
    }
    CollectAll(f, attachments, |attachments|, (a: ExportAction) => PdfTarget(baseName, a));
    if forall i :: 0 <= i < |attachments| ==> !Skipped(attachments[i], decodes) {
      CollectTotal(f, attachments, |attachments|);
    }
  }

  lemma StepPdfTarget(baseName: string, idx: nat, att: Attachment, decodes: string -> bool,
                      encode: string -> string)
    ensures var step := ExportStep(baseName, idx, att, decodes, encode);
      (step.Some? ==> PdfTarget(baseName, step.value)) &&
      (step.None? <==> Skipped(att, decodes))
  {
    PdfOutputName(baseName, idx);
  }

  lemma PdfOutputName(baseName: string, idx: nat)
    ensures StartsWith(PdfName(baseName, idx), baseName + "-")
    ensures EndsWith(PdfName(baseName, idx), ".pdf")
  {
    var n := PdfName(baseName, idx);
    var pre := baseName + "-";
    assert n == pre + (Index2(idx + 1) + ".pdf");
    assert n == (pre + Index2(idx + 1)) + ".pdf";
  }

  // ---------------------------------------------------------------------------
  // renderUrlToPdf page slicing
  // ---------------------------------------------------------------------------

  /** Kotlin's `Int` division, which truncates toward zero. */
  function TruncDiv(a: int, b: int): int
    requires b != 0
  {
    if (a >= 0) == (b > 0) then (if a >= 0 then a / b else (-a) / (-b))
    else -((if a >= 0 then a else -a) / (if b > 0 then b else -b))
  }

  /** `((contentHeightPx + pageHeightPx - 1) / pageHeightPx).coerceAtLeast(1)`. */
  function PageCount(contentHeightPx: int, pageHeightPx: int): (r: int)
    requires pageHeightPx > 0
    ensures r >= 1
    ensures r * pageHeightPx >= contentHeightPx
    ensures r == 1 || (r - 1) * pageHeightPx < contentHeightPx
  {
    var q := TruncDiv(contentHeightPx + pageHeightPx - 1, pageHeightPx);
    if q < 1 then 1 else q
  }

  /** One PDF page of the web render: its number and the top of the slice it shows. */
  datatype PageSlice = PageSlice(pageNumber: int, topPx: int)

  /** The page loop: page i (numbered i + 1) shows the slice starting at i * pageHeightPx. */
  method SlicePages(contentHeightPx: int, pageHeightPx: int) returns (pages: seq<PageSlice>)
    requires pageHeightPx > 0
    ensures |pages| == PageCount(contentHeightPx, pageHeightPx)
    ensures forall i :: 0 <= i < |pages| ==> pages[i] == PageSlice(i + 1, i * pageHeightPx)
    ensures |pages| * pageHeightPx >= contentHeightPx
  {
    var pageCount := PageCount(contentHeightPx, pageHeightPx);
    pages := [];
    var i := 0;
    while i < pageCount
      invariant 0 <= i <= pageCount
      invariant |pages| == i
      invariant forall j :: 0 <= j < i ==> pages[j] == PageSlice(j + 1, j * pageHeightPx)
    {
      pages := pages + [PageSlice(i + 1, i * pageHeightPx)];
      i := i + 1;
    }
  }

  // ---------------------------------------------------------------------------
  // ViewMeasure
  // ---------------------------------------------------------------------------

  /** `ViewMeasure.exact(px)` on a 32-bit Int: the low 24 bits of px with the EXACTLY mode bits. */
  function Exact(px: bv32): bv32
  {
    (px & 0x00FF_FFFF) | 0x4000_0000
  }

  /** `ViewMeasure.unspecified()`. */
  function Unspecified(): bv32 { 0 }

  /** The spec keeps the size bits of px and carries mode bits 01. */
  lemma ExactParts(px: bv32)
    ensures Exact(px) & 0x00FF_FFFF == px & 0x00FF_FFFF
    ensures Exact(px) >> 30 == 1
  {
  }

  lemma ExactValue(px: bv32)
    ensures Exact(px) == (px & 0x00FF_FFFF) + 0x4000_0000
  {
  }
}
