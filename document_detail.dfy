/**
 * The detail screen (activities/DocumentDetailActivity.kt): the displayed values, the
 * label/value rows of the detail PDF per document type, its two-column layout and greedy
 * word wrap, and how the document's code and attachments are read from the record.
 */
module DocumentDetail {
  import opened Wrappers
  import Text
  import Lists
  import Wrap
  import Models
  import AttachmentExporter

  /** `v(s)`: a blank value shows as "-", any other value trimmed. */
  function V(s: string): (r: string)
    ensures !Text.IsBlank(r)
    ensures Text.IsBlank(s) ==> r == "-"
    ensures !Text.IsBlank(s) ==> r == Text.Trim(s)
  {
    Text.TrimBlank(s);
    assert "-"[0] == '-';
    if Text.IsBlank(s) then "-"
    else
      var t := Text.Trim(s);
      assert !Text.IsWhitespace(t[0]);
      t
  }

  /** A unit count of zero or less shows as "-". */
  function UnitText(n: int): (r: string)
    ensures n <= 0 ==> r == "-"
    ensures n > 0 ==> r == Text.IntToString(n)
  {
    if n <= 0 then "-" else Text.IntToString(n)
  }

  const PembelianRumahLabels := ["Nama", "Alamat KTP", "Nomor Telepon", "NIK", "NPWP",
    "Status Pernikahan", "Nama Pasangan", "Pekerjaan", "Gaji", "Kontak Darurat",
    "Tempat Kerja", "Nama Perumahan", "Tipe Rumah", "Jenis Pembayaran", "Kategori Tipe Rumah"]
  const RenovasiRumahLabels := ["Nama", "Alamat", "Nomor Telepon", "Deskripsi Renovasi"]
  const PemasanganAcLabels := ["Nama", "Alamat", "Nomor Telepon", "Jenis/Tipe AC", "Jumlah Unit"]
  const PemasanganCctvLabels := ["Nama", "Alamat", "Nomor Telepon", "Jumlah Unit"]

  /** The fixed label order of the detail rows for each kind. */
  function Labels(k: Models.DocKind): seq<string>
  {
    match k
    case PembelianRumahKind => PembelianRumahLabels
    case RenovasiRumahKind => RenovasiRumahLabels
    case PemasanganAcKind => PemasanganAcLabels
    case PemasanganCctvKind => PemasanganCctvLabels
  }

  /** Pairs labels with values, in order. */
  function Pair(labels: seq<string>, values: seq<string>): (r: seq<(string, string)>)
    requires |labels| == |values|
    ensures |r| == |labels|
    ensures forall i :: 0 <= i < |r| ==> r[i] == (labels[i], values[i])
  {
    seq(|labels|, i requires 0 <= i < |labels| => (labels[i], values[i]))
  }

  /** `v` applied to each text, in order. */
  function VAll(xs: seq<string>): (r: seq<string>)
    ensures |r| == |xs|
    ensures forall i :: 0 <= i < |r| ==> r[i] == V(xs[i]) && !Text.IsBlank(r[i])
  {
    seq(|xs|, i requires 0 <= i < |xs| => V(xs[i]))
  }

  /** The values shown beside the labels, in the same order. */
  function Values(d: Models.Document): (r: seq<string>)
    ensures |r| == |Labels(d.Kind())|
    ensures forall i :: 0 <= i < |r| ==> !Text.IsBlank(r[i])
  {
    match d
    case PembelianRumah(_, _, nama, alamatKTP, nik, npwp, noTelepon, statusPernikahan, namaPasangan,
                        pekerjaan, gaji, kontakDarurat, tempatKerja, namaPerumahan, tipeRumah,
                        jenisPembayaran, tipeRumahKategori, _, _, _, _, _, _) =>
      VAll([nama, alamatKTP, noTelepon, nik, npwp, statusPernikahan, namaPasangan, pekerjaan, gaji,
            kontakDarurat, tempatKerja, namaPerumahan, tipeRumah, jenisPembayaran, tipeRumahKategori])
    case RenovasiRumah(_, _, nama, alamat, noTelepon, deskripsiRenovasi, _, _, _, _, _, _) =>
      VAll([nama, alamat, noTelepon, deskripsiRenovasi])
    case PemasanganAC(_, _, nama, alamat, noTelepon, jenisTipeAC, jumlahUnit, _, _, _, _, _, _) =>
      UnitTextNonBlank(jumlahUnit);
      WithUnits(VAll([nama, alamat, noTelepon, jenisTipeAC]), jumlahUnit)
    case PemasanganCCTV(_, _, nama, alamat, noTelepon, jumlahUnit, _, _, _, _, _, _) =>
      UnitTextNonBlank(jumlahUnit);
      WithUnits(VAll([nama, alamat, noTelepon]), jumlahUnit)
  }

  /** The values followed by the unit count's text. */
  function WithUnits(values: seq<string>, n: int): (r: seq<string>)
    requires forall i :: 0 <= i < |values| ==> !Text.IsBlank(values[i])
    ensures |r| == |values| + 1
    ensures forall i :: 0 <= i < |r| ==> !Text.IsBlank(r[i])
  {
    UnitTextNonBlank(n);
    values + [UnitText(n)]
  }

  /** The label/value rows of the detail PDF; no document, no rows. */
  function DetailRows(d: Option<Models.Document>): seq<(string, string)>
  {
    if d.None? then [] else Pair(Labels(d.value.Kind()), Values(d.value))
  }

  /**
   * Fifteen rows for a house purchase, four for a renovation, five for an AC installation,
   * four for a CCTV installation and none without a document; the labels come in their
   * fixed order and no value is blank.
   */
  lemma DetailRowsShape(d: Option<Models.Document>)
    ensures d.None? ==> DetailRows(d) == []
    ensures d.Some? ==> |DetailRows(d)| == (match d.value.Kind()
      case PembelianRumahKind => 15 case RenovasiRumahKind => 4
      case PemasanganAcKind => 5 case PemasanganCctvKind => 4)
    ensures d.Some? ==> forall i :: 0 <= i < |DetailRows(d)| ==> DetailRows(d)[i].0 == Labels(d.value.Kind())[i]
    ensures forall i :: 0 <= i < |DetailRows(d)| ==> !Text.IsBlank(DetailRows(d)[i].1)
  {
  }

  /** The unit count's text is never blank. */
  lemma UnitTextNonBlank(n: int)
    ensures !Text.IsBlank(UnitText(n))
  {
    if n > 0 {
      IntToStringNonBlank(n);
    } else {
      assert UnitText(n)[0] == '-';
    }
  }

  /** The text of a positive number is not blank. */
  lemma IntToStringNonBlank(n: int)
    requires n > 0
    ensures !Text.IsBlank(Text.IntToString(n))
  {
    assert Text.IsDigit(Text.IntToString(n)[0]);
  }

  /**
   * `uniqueCode()`: the document's code, or "DOC" when there is no document or its code is
   * blank; never blank.
   */
  function UniqueCode(d: Option<Models.Document>): (r: string)
    ensures !Text.IsBlank(r)
    ensures d.None? || Text.IsBlank(d.value.uniqueCode) ==> r == "DOC"
    ensures d.Some? && !Text.IsBlank(d.value.uniqueCode) ==> r == d.value.uniqueCode
  {
    assert "DOC"[0] == 'D';
    if d.None? then "DOC" else Text.IfBlank(d.value.uniqueCode, "DOC")
  }

  /** The `attachments` field as read by reflection: a map, a list, or something else. */
  datatype RawField =
    | MapField(entries: seq<(Option<string>, Option<string>)>)
    | ListField(items: seq<Option<string>>)
    | OtherField

  /** The field as a document record holds it: a map of name to URL. */
  function AttachmentsField(d: Models.Document): (r: RawField)
    ensures r.MapField? && |r.entries| == |d.attachments|
    ensures forall i :: 0 <= i < |d.attachments| ==>
      r.entries[i] == (Some(d.attachments[i].0), Some(d.attachments[i].1))
  {
    MapField(seq(|d.attachments|, i requires 0 <= i < |d.attachments| =>
      (Some(d.attachments[i].0), Some(d.attachments[i].1))))
  }

  predicate HasUrl(e: (Option<string>, Option<string>))
  {
    !Text.IsNullOrBlank(e.1)
  }

  function FromEntry(e: (Option<string>, Option<string>)): AttachmentExporter.Attachment
    requires e.1.Some?
  {
    AttachmentExporter.Attachment(e.1.value, e.0)
  }

  /** The map entries with a URL, as attachments named by their key, in order. */
  function FromEntries(es: seq<(Option<string>, Option<string>)>): (r: seq<AttachmentExporter.Attachment>)
    ensures |r| <= |es|
    ensures forall a :: a in r ==> !Text.IsBlank(a.url)
  {
    if es == [] then []
    else
      var e := es[|es| - 1];
      FromEntries(es[..|es| - 1]) + (if HasUrl(e) then [FromEntry(e)] else [])
  }

  /** The non-null list elements, as attachments with a URL and no name, in order. */
  function FromItems(xs: seq<Option<string>>): (r: seq<AttachmentExporter.Attachment>)
    ensures |r| <= |xs|
    ensures forall a :: a in r ==> a.name.None?
  {
    if xs == [] then []
    else
      var x := xs[|xs| - 1];
      FromItems(xs[..|xs| - 1]) + (if x.Some? then [AttachmentExporter.Attachment(x.value, None)] else [])
  }

  /** `collectAttachments()`: from a map or a list; anything else, or no document, gives none. */
  function CollectAttachments(raw: Option<RawField>): seq<AttachmentExporter.Attachment>
  {
    if raw.None? then []
    else match raw.value
      case MapField(es) => FromEntries(es)
      case ListField(xs) => FromItems(xs)
      case OtherField => []
  }

  /** An attachment is collected exactly when its URL is not blank and the map holds it under its name. */
  lemma {:induction false} FromEntriesMembers(es: seq<(Option<string>, Option<string>)>, a: AttachmentExporter.Attachment)
    ensures a in FromEntries(es) <==> (a.name, Some(a.url)) in es && !Text.IsBlank(a.url)
    decreases |es|
  {
    if es != [] {
      var init, e := es[..|es| - 1], es[|es| - 1];
      FromEntriesMembers(init, a);
      assert es == init + [e];
    }
  }

  /** A document's map gives one attachment per entry with a non-blank URL, named by its key. */
  lemma DocumentAttachments(d: Models.Document, a: AttachmentExporter.Attachment)
    ensures a in CollectAttachments(Some(AttachmentsField(d))) <==>
      a.name.Some? && (a.name.value, a.url) in d.attachments && !Text.IsBlank(a.url)
  {
    var es := AttachmentsField(d).entries;
    FromEntriesMembers(es, a);
    if a.name.Some? && (a.name.value, a.url) in d.attachments {
      var i :| 0 <= i < |d.attachments| && d.attachments[i] == (a.name.value, a.url);
      assert es[i] == (a.name, Some(a.url));
    }
    if (a.name, Some(a.url)) in es {
      var i :| 0 <= i < |es| && es[i] == (a.name, Some(a.url));
      assert d.attachments[i] == (a.name.value, a.url);
    }
  }

  /** The caption of attachment i: its name, else the URL after the last '/', else "lampiran_{i+1}". */
  function AttachmentLabel(a: AttachmentExporter.Attachment, i: nat): (r: string)
    ensures a.name.Some? ==> r == a.name.value
    ensures a.name.None? && !Text.IsBlank(Text.SubstringAfterLast(a.url, '/', a.url)) ==>
      r == Text.SubstringAfterLast(a.url, '/', a.url) && '/' !in r
    ensures a.name.None? && Text.IsBlank(Text.SubstringAfterLast(a.url, '/', a.url)) ==>
      r == "lampiran_" + Text.IntToString(i + 1)
  {
    assert ("lampiran_" + Text.IntToString(i + 1))[0] == 'l';
    if a.name.Some? then a.name.value
    else Text.IfBlank(Text.SubstringAfterLast(a.url, '/', a.url), "lampiran_" + Text.IntToString(i + 1))
  }

  const MaxUrlShown := 110

  /** A URL longer than 110 characters is cut to its first 110 and an ellipsis. */
  function ShortUrl(url: string): (r: string)
    ensures |url| <= MaxUrlShown ==> r == url
    ensures |url| > MaxUrlShown ==> |r| == MaxUrlShown + 1 && Text.StartsWith(url, r[..MaxUrlShown]) && r[MaxUrlShown] == '…'
    ensures |r| <= MaxUrlShown + 1
  {
    if |url| > MaxUrlShown then url[..MaxUrlShown] + "…" else url
  }

  /** A text drawn at (x, y). */
  datatype DrawOp = DrawText(s: string, x: int, y: int)

  /** `(textSize + 2).toInt()` for the 10pt paints: the line step of the wrap and the label step. */
  const LineStep := 12
  /** `(valuePaint.textSize + lineGap).toInt()` with lineGap 14. */
  const ValueStep := 24
  const EntryStep := LineStep + ValueStep
  const PageW := 595
  const Margin := 36

  /** The lines the wrap draws: words between single spaces, an empty line drawn when a word overflows it. */
  function Wrapped(text: string, measure: string -> int, maxWidth: int): seq<string>
  {
    Wrap.Lines(Text.Split(text, ' '), Wrap.FitsWidth(measure, maxWidth), true)
  }

  /**
   * With no empty word (no leading, trailing or doubled space), the drawn non-empty lines
   * joined by single spaces give the text back, and an empty line is drawn only first,
   * when the first word alone is too wide.
   */
  lemma WrappedRejoins(text: string, measure: string -> int, maxWidth: int)
    requires Wrap.NoEmptyWord(Text.Split(text, ' '))
    ensures Text.Join(Lists.Filter(Wrapped(text, measure, maxWidth), Wrap.NonEmptyLine), " ") == text
    ensures forall k :: 0 <= k < |Wrapped(text, measure, maxWidth)| && Wrapped(text, measure, maxWidth)[k] == "" ==>
      k == 0 && measure(Text.Split(text, ' ')[0]) > maxWidth
  {
    Wrap.LinesRejoin(Text.Split(text, ' '), Wrap.FitsWidth(measure, maxWidth), true);
    Text.JoinSplit(text, ' ');
  }

  /** Every drawn line fits the width, or is one word too wide on its own, or is empty. */
  lemma WrappedShape(text: string, measure: string -> int, maxWidth: int)
    ensures forall l :: l in Wrapped(text, measure, maxWidth) ==>
      l == "" || measure(l) <= maxWidth || l in Text.Split(text, ' ')
  {
    Wrap.LinesShape(Text.Split(text, ' '), Wrap.FitsWidth(measure, maxWidth), true);
  }

  /** n steps of the given height. */
  function Steps(n: nat, step: int): int
  {
    if n == 0 then 0 else Steps(n - 1, step) + step
  }

  lemma {:induction false} StepsValue(n: nat, step: int)
    ensures Steps(n, step) == n * step
  {
    if n > 0 {
      StepsValue(n - 1, step);
    }
  }

  /** The baseline of line k of a text drawn from y0. */
  function LineTop(y0: int, k: nat): int
  {
    y0 + Steps(k, LineStep)
  }

  /** The lines drawn one LineStep apart from y0. */
  function LinesAt(lines: seq<string>, x: int, y0: int): (r: seq<DrawOp>)
    ensures |r| == |lines|
  {
    if lines == [] then []
    else LinesAt(lines[..|lines| - 1], x, y0) + [DrawText(lines[|lines| - 1], x, LineTop(y0, |lines| - 1))]
  }

  /** Line k is drawn at x, k line steps below y0. */
  lemma {:induction false} LinesAtIndex(lines: seq<string>, x: int, y0: int, k: int)
    requires 0 <= k < |lines|
    ensures LinesAt(lines, x, y0)[k] == DrawText(lines[k], x, y0 + k * LineStep)
    decreases |lines|
  {
    if k < |lines| - 1 {
      LinesAtIndex(lines[..|lines| - 1], x, y0, k);
    } else {
      StepsValue(k, LineStep);
    }
  }

  /** The wrap of one paint at one width, as a function of the text. */
  function Wrapper(measure: string -> int, maxWidth: int): (w: string -> seq<string>)
    ensures Wraps(w, measure, maxWidth)
  {
    (t: string) => Wrapped(t, measure, maxWidth)
  }

  /** w wraps every text as drawMultiline does at this width. */
  ghost predicate Wraps(w: string -> seq<string>, measure: string -> int, maxWidth: int)
  {
    forall t :: w(t) == Wrapped(t, measure, maxWidth)
  }

  /** One entry of a column: the label with a colon, and under it the value (or "-"). */
  function EntryOps(e: (string, string), x: int, y: int, wrapLabel: string -> seq<string>,
                    wrapValue: string -> seq<string>): seq<DrawOp>
  {
    LinesAt(wrapLabel(LabelText(e)), x, y) + LinesAt(wrapValue(ValueText(e)), x, LineTop(y, 1))
  }

  /** `"$k:"`. */
  function LabelText(e: (string, string)): string
  {
    e.0 + ":"
  }

  /** `v.ifBlank { "-" }`. */
  function ValueText(e: (string, string)): (r: string)
    ensures !Text.IsBlank(r)
  {
    assert "-"[0] == '-';
    Text.IfBlank(e.1, "-")
  }

  /** The top of entry i of a column. */
  function EntryTop(y0: int, i: nat): int
  {
    y0 + Steps(i, EntryStep)
  }

  /** A column: entry i starts EntryStep * i below the top. */
  function ColumnOps(list: seq<(string, string)>, x: int, y0: int, wrapLabel: string -> seq<string>,
                     wrapValue: string -> seq<string>): seq<DrawOp>
  {
    if list == [] then []
    else ColumnOps(list[..|list| - 1], x, y0, wrapLabel, wrapValue)
         + EntryOps(list[|list| - 1], x, EntryTop(y0, |list| - 1), wrapLabel, wrapValue)
  }

  lemma {:induction false} StepsNonNegative(n: nat, step: int)
    requires step >= 0
    ensures Steps(n, step) >= 0
  {
    if n > 0 {
      StepsNonNegative(n - 1, step);
    }
  }

  /** Lines drawn from y0 at x are all at x and no higher than y0. */
  lemma {:induction false} LinesAtStay(lines: seq<string>, x: int, y0: int)
    ensures forall op :: op in LinesAt(lines, x, y0) ==> op.x == x && op.y >= y0
    decreases |lines|
  {
    if lines != [] {
      LinesAtStay(lines[..|lines| - 1], x, y0);
      StepsNonNegative(|lines| - 1, LineStep);
    }
  }

  /** Everything a column draws is at its x, and no higher than its top. */
  lemma {:induction false} ColumnStaysInColumn(list: seq<(string, string)>, x: int, y0: int,
                                               wrapLabel: string -> seq<string>, wrapValue: string -> seq<string>)
    ensures forall op :: op in ColumnOps(list, x, y0, wrapLabel, wrapValue) ==> op.x == x && op.y >= y0
    decreases |list|
  {
    if list != [] {
      var n := |list|;
      var e := list[n - 1];
      var y := EntryTop(y0, n - 1);
      ColumnStaysInColumn(list[..n - 1], x, y0, wrapLabel, wrapValue);
      StepsNonNegative(n - 1, EntryStep);
      LinesAtStay(wrapLabel(LabelText(e)), x, y);
      LinesAtStay(wrapValue(ValueText(e)), x, LineTop(y, 1));
    }
  }

  lemma ColumnStep(list: seq<(string, string)>, i: int, x: int, y0: int, wrapLabel: string -> seq<string>,
                   wrapValue: string -> seq<string>)
    requires 0 <= i < |list|
    ensures ColumnOps(list[..i + 1], x, y0, wrapLabel, wrapValue)
      == ColumnOps(list[..i], x, y0, wrapLabel, wrapValue)
         + EntryOps(list[i], x, EntryTop(y0, i), wrapLabel, wrapValue)
  {
    var l := list[..i + 1];
    assert l[..|l| - 1] == list[..i] && l[|l| - 1] == list[i] && |l| - 1 == i;
  }

  /** `val half = (rows.size + 1) / 2`. */
  function Half(n: nat): nat
  {
    (n + 1) / 2
  }

  /** The left column takes the rows up to half, the right the rest: in order, the left one at most one longer. */
  lemma ColumnsSplit(rows: seq<(string, string)>)
    ensures Half(|rows|) <= |rows|
    ensures rows[..Half(|rows|)] + rows[Half(|rows|)..] == rows
    ensures 0 <= |rows[..Half(|rows|)]| - |rows[Half(|rows|)..]| <= 1
  {
  }

  /** The page's canvas, as the list of texts drawn on it. */
  class PdfCanvas {
    var ops: seq<DrawOp>

    constructor()
      ensures ops == []
    {
      ops := [];
    }

    /**
     * `drawMultiline(canvas, text, x, startY, maxWidth, paint)`: the words between single
     * spaces packed greedily while `measure(trial) <= maxWidth`; an overflowing word draws
     * the current line, even an empty one; the last line only when not empty. Line k lands
     * at startY + k * LineStep, and the y under the last line is returned.
     */
    method DrawMultiline(text: string, x: int, startY: int, maxWidth: int, measure: string -> int) returns (y: int)
      modifies this`ops
      ensures ops == old(ops) + LinesAt(Wrapped(text, measure, maxWidth), x, startY)
      ensures y == startY + |Wrapped(text, measure, maxWidth)| * LineStep
    {
      var words := Text.Split(text, ' ');
      ghost var fits := Wrap.FitsWidth(measure, maxWidth);
      var line := "";
      y := startY;
      ghost var drawn: seq<string> := [];
      assert words[..0] == [];
      for i := 0 to |words|
        invariant (drawn, line) == Wrap.Pack(words[..i], fits, true)
        invariant ops == old(ops) + LinesAt(drawn, x, startY) && y == LineTop(startY, |drawn|)
      {
        var w := words[i];
        var trial := if line == "" then w else line + " " + w;
        assert fits(trial) == (measure(trial) <= maxWidth);
        assert trial == Wrap.Trial(line, w);
        Wrap.PackSnoc(words, i, fits, true);
        if measure(trial) <= maxWidth {
          line := trial;
        } else {
          y := DrawLine(old(ops), drawn, line, x, startY, y);
          drawn := drawn + [line];
          line := w;
        }
      }
      assert words[..|words|] == words;
      if line != "" {
        y := DrawLine(old(ops), drawn, line, x, startY, y);
        drawn := drawn + [line];
      } else {
        assert drawn + [] == drawn;
      }
      StepsValue(|drawn|, LineStep);
    }

    /** Draws the next line of a wrapped text one step under the previous one. */
    method DrawLine(ghost base: seq<DrawOp>, ghost drawn: seq<string>, line: string, x: int, startY: int, y: int)
      returns (next: int)
      requires ops == base + LinesAt(drawn, x, startY) && y == LineTop(startY, |drawn|)
      modifies this`ops
      ensures ops == base + LinesAt(drawn + [line], x, startY)
      ensures next == LineTop(startY, |drawn + [line]|)
    {
      LinesAtSnoc(drawn, line, x, startY);
      ops := ops + [DrawText(line, x, y)];
      next := y + LineStep;
    }

    /** One entry: the label lines, then the value lines one step lower; the wrapped heights are not used. */
    method DrawEntry(e: (string, string), x: int, y0: int, labelMeasure: string -> int, valueMeasure: string -> int,
                     colW: int, ghost wrapLabel: string -> seq<string>, ghost wrapValue: string -> seq<string>)
      returns (y: int)
      requires Wraps(wrapLabel, labelMeasure, colW) && Wraps(wrapValue, valueMeasure, colW)
      modifies this`ops
      ensures ops == old(ops) + EntryOps(e, x, y0, wrapLabel, wrapValue)
      ensures y == y0 + EntryStep
    {
      var _ := DrawMultiline(LabelText(e), x, y0, colW, labelMeasure);
      y := y0 + LineStep;
      var _ := DrawMultiline(ValueText(e), x, y, colW, valueMeasure);
      y := y + ValueStep;
      assert wrapLabel(LabelText(e)) == Wrapped(LabelText(e), labelMeasure, colW);
      assert wrapValue(ValueText(e)) == Wrapped(ValueText(e), valueMeasure, colW);
      Assoc(old(ops), LinesAt(Wrapped(LabelText(e), labelMeasure, colW), x, y0),
            LinesAt(Wrapped(ValueText(e), valueMeasure, colW), x, LineTop(y0, 1)));
    }

    /** Draws entry i of a column under the entries before it. */
    method DrawNextEntry(ghost base: seq<DrawOp>, list: seq<(string, string)>, i: nat, x: int, y0: int, y: int,
                         labelMeasure: string -> int, valueMeasure: string -> int, colW: int,
                         ghost wrapLabel: string -> seq<string>, ghost wrapValue: string -> seq<string>)
      returns (next: int)
      requires Wraps(wrapLabel, labelMeasure, colW) && Wraps(wrapValue, valueMeasure, colW)
      requires i < |list|
      requires ops == base + ColumnOps(list[..i], x, y0, wrapLabel, wrapValue)
      requires y == EntryTop(y0, i)
      modifies this`ops
      ensures ops == base + ColumnOps(list[..i + 1], x, y0, wrapLabel, wrapValue)
      ensures next == EntryTop(y0, i + 1)
    {
      ColumnStep(list, i, x, y0, wrapLabel, wrapValue);
      Assoc(base, ColumnOps(list[..i], x, y0, wrapLabel, wrapValue), EntryOps(list[i], x, y, wrapLabel, wrapValue));
      next := DrawEntry(list[i], x, y, labelMeasure, valueMeasure, colW, wrapLabel, wrapValue);
    }

    /** `drawCol(list, x)`: the entries one under another; the y under the last is returned. */
    method DrawCol(list: seq<(string, string)>, x: int, y0: int, labelMeasure: string -> int, valueMeasure: string -> int,
                   colW: int, ghost wrapLabel: string -> seq<string>, ghost wrapValue: string -> seq<string>)
      returns (y: int)
      requires Wraps(wrapLabel, labelMeasure, colW) && Wraps(wrapValue, valueMeasure, colW)
      modifies this`ops
      ensures ops == old(ops) + ColumnOps(list, x, y0, wrapLabel, wrapValue)
      ensures y == y0 + |list| * EntryStep
    {
      y := y0;
      for i := 0 to |list|
        invariant ops == old(ops) + ColumnOps(list[..i], x, y0, wrapLabel, wrapValue)
        invariant y == EntryTop(y0, i)
      {
        y := DrawNextEntry(old(ops), list, i, x, y0, y, labelMeasure, valueMeasure, colW, wrapLabel, wrapValue);
      }
      assert list[..|list|] == list;
      StepsValue(|list|, EntryStep);
    }

    /**
     * `drawKeyValueColumn(...)` on the A4 page: the first half of the rows (rounded up) in
     * the left column at the margin, the rest in the right one; both start at startY and the
     * lower end is returned, which is always the left column's.
     */
    method DrawKeyValueColumn(startY: int, colGap: int, labelMeasure: string -> int, valueMeasure: string -> int,
                              rows: seq<(string, string)>, ghost wrapLabel: string -> seq<string>,
                              ghost wrapValue: string -> seq<string>) returns (y: int)
      requires Wraps(wrapLabel, labelMeasure, ColumnWidth(colGap)) && Wraps(wrapValue, valueMeasure, ColumnWidth(colGap))
      modifies this`ops
      ensures ops == old(ops)
        + ColumnOps(rows[..Half(|rows|)], Margin, startY, wrapLabel, wrapValue)
        + ColumnOps(rows[Half(|rows|)..], RightColumnX(colGap), startY, wrapLabel, wrapValue)
      ensures y == startY + Half(|rows|) * EntryStep
      ensures y >= startY + (|rows| - Half(|rows|)) * EntryStep
    {
      var colW := ColumnWidth(colGap);
      var half := Half(|rows|);
      var left := rows[..half];
      var right := rows[half..];
      var yLeft := DrawCol(left, Margin, startY, labelMeasure, valueMeasure, colW, wrapLabel, wrapValue);
      var yRight := DrawCol(right, RightColumnX(colGap), startY, labelMeasure, valueMeasure, colW, wrapLabel, wrapValue);
      MulMono(|right|, |left|, EntryStep);
      y := if yLeft >= yRight then yLeft else yRight;
    }
  }

  /** `colW = (pageW - margin * 2 - colGap) / 2`, Kotlin division. */
  function ColumnWidth(colGap: int): int
  {
    AttachmentExporter.TruncDiv(PageW - Margin * 2 - colGap, 2)
  }

  /** `margin + colW + colGap`: where the right column starts. */
  function RightColumnX(colGap: int): int
  {
    Margin + ColumnWidth(colGap) + colGap
  }

  lemma MulMono(a: int, b: int, c: int)
    requires 0 <= a <= b && c >= 0
    ensures a * c <= b * c
  {
  }

  lemma LinesAtSnoc(lines: seq<string>, l: string, x: int, y0: int)
    ensures LinesAt(lines + [l], x, y0) == LinesAt(lines, x, y0) + [DrawText(l, x, LineTop(y0, |lines|))]
  {
    assert (lines + [l])[..|lines|] == lines;
  }

  lemma Assoc<T>(a: seq<T>, b: seq<T>, c: seq<T>)
    ensures a + b + c == a + (b + c)
  {
  }
}
