/**
 * The monthly report screen (activities/MonthlyReportActivity.kt): for each of the four
 * collections a chain of queries, from the indexed query by Timestamp down to reading the whole
 * collection and filtering it by hand, turns documents into three-column rows; the rows are
 * deduplicated, shown with per-section totals, and handed to the report PDF writer. The
 * answer of each query (its documents, or the error it throws) is a parameter; the month's
 * start and end times are parameters too.
 */
module MonthlyReport {
  import opened Wrappers
  import opened Firestore
  import Text
  import Lists
  import opened ReportPdfWriter

  /** The documents a query returns, in order; None is a snapshot whose `data` is null. */
  type Snapshot = seq<Option<Doc>>

  /** `(m["_seconds"] as? Number)` on a nested map: the first entry with that key. */
  function NumEntry(es: seq<(string, Value)>, key: string): (r: Option<int>)
    ensures r.Some? ==> exists i :: 0 <= i < |es| && es[i] == (key, Num(r.value))
    ensures r.None? ==> forall i :: 0 <= i < |es| && es[i].0 == key ==> !es[i].1.Num? || exists j :: 0 <= j < i && es[j].0 == key
  {
    if es == [] then None
    else if es[0].0 == key then (if es[0].1.Num? then Some(es[0].1.n) else None)
    else
      var r := NumEntry(es[1..], key);
      assert forall i :: 1 <= i < |es| ==> es[i] == es[1..][i - 1];
      r
  }

  /** `toDate().time` of a Timestamp: seconds and nanoseconds to milliseconds, with Java's truncating division. */
  function TimestampMillis(seconds: int, nanos: int): int
  {
    seconds * 1000 + (if nanos >= 0 then nanos / 1_000_000 else -((-nanos) / 1_000_000))
  }

  /**
   * `extractMillis`: a Timestamp `createdAt`, else a numeric `createdAt`, else a numeric
   * `createdAtMillis`, else `_seconds` of a map `createdAt` times 1000, else nothing.
   */
  function ExtractMillis(d: Doc): (r: Option<int>)
  {
    match Field(d, "createdAt")
    case Some(Timestamp(s, ns)) => Some(TimestampMillis(s, ns))
    case Some(Num(n)) => Some(n)
    case _ =>
      match Field(d, "createdAtMillis")
      case Some(Num(m)) => Some(m)
      case _ =>
        match Field(d, "createdAt")
        case Some(MapV(es)) => (match NumEntry(es, "_seconds")
                                 case Some(s) => Some(s * 1000)
                                 case None => None)
        case _ => None
  }

  /** The four sources of a creation time, in the order they are tried. */
  lemma ExtractMillisPriority(d: Doc)
    ensures "createdAt" in d && d["createdAt"].Timestamp? ==>
      ExtractMillis(d) == Some(TimestampMillis(d["createdAt"].seconds, d["createdAt"].nanos))
    ensures "createdAt" in d && d["createdAt"].Num? ==> ExtractMillis(d) == Some(d["createdAt"].n)
    ensures (!("createdAt" in d && (d["createdAt"].Timestamp? || d["createdAt"].Num?)) &&
             "createdAtMillis" in d && d["createdAtMillis"].Num?) ==> ExtractMillis(d) == Some(d["createdAtMillis"].n)
    ensures !("createdAtMillis" in d && d["createdAtMillis"].Num?) && "createdAt" in d && d["createdAt"].MapV? ==>
      ExtractMillis(d) == (match NumEntry(d["createdAt"].entries, "_seconds")
                           case Some(s) => Some(s * 1000)
                           case None => None)
    ensures ExtractMillis(d).None? <==>
      && !("createdAt" in d && (d["createdAt"].Timestamp? || d["createdAt"].Num?))
      && !("createdAtMillis" in d && d["createdAtMillis"].Num?)
      && !("createdAt" in d && d["createdAt"].MapV? && NumEntry(d["createdAt"].entries, "_seconds").Some?)
  {
  }

  /** The Timestamp the app itself stores reads back as its time in milliseconds. */
  lemma StoredTimestampMillis(d: Doc, seconds: int, nanos: int)
    requires "createdAt" in d && d["createdAt"] == Timestamp(seconds, nanos) && 0 <= nanos < 1_000_000_000
    ensures ExtractMillis(d).Some?
    ensures seconds * 1000 <= ExtractMillis(d).value < seconds * 1000 + 1000
  {
  }

  /** `(d[a] ?: d[b] ?: d[c] ?: "-").toString()`. */
  function FirstText(d: Doc, keys: seq<string>): (r: string)
    ensures FirstField(d, keys).None? ==> r == "-"
    ensures FirstField(d, keys).Some? ==> r == ToText(FirstField(d, keys).value)
  {
    match FirstField(d, keys)
    case Some(v) => ToText(v)
    case None => "-"
  }

  const NameKeys := ["nama", "namaPembeli", "name"]
  const AddressKeys := ["alamat", "alamatKTP", "address"]
  const PhoneKeys := ["noTelepon", "telepon", "phone"]

  /** `mapRow`: each column from the first present of its three fields, "-" when none is. */
  function MapRow(d: Doc): (r: Row)
    ensures r == Row(FirstText(d, NameKeys), FirstText(d, AddressKeys), FirstText(d, PhoneKeys))
  {
    Row(FirstText(d, NameKeys), FirstText(d, AddressKeys), FirstText(d, PhoneKeys))
  }

  /** Each column of a row is its first present field, not whatever a later one holds. */
  lemma MapRowPriority(d: Doc)
    ensures StrField(d, "nama").Some? ==> MapRow(d).nama == d["nama"].s
    ensures Field(d, "nama").None? && StrField(d, "namaPembeli").Some? ==> MapRow(d).nama == d["namaPembeli"].s
    ensures Field(d, "nama").None? && Field(d, "namaPembeli").None? && Field(d, "name").None? ==> MapRow(d).nama == "-"
    ensures StrField(d, "alamat").Some? ==> MapRow(d).alamat == d["alamat"].s
    ensures Field(d, "alamat").None? && StrField(d, "alamatKTP").Some? ==> MapRow(d).alamat == d["alamatKTP"].s
    ensures StrField(d, "noTelepon").Some? ==> MapRow(d).telp == d["noTelepon"].s
    ensures Field(d, "noTelepon").None? && Field(d, "telepon").None? && Field(d, "phone").None? ==> MapRow(d).telp == "-"
  {
    assert NameKeys[0] == "nama" && NameKeys[1] == "namaPembeli" && NameKeys[2] == "name";
    assert AddressKeys[0] == "alamat" && AddressKeys[1] == "alamatKTP";
    assert PhoneKeys[0] == "noTelepon" && PhoneKeys[1] == "telepon" && PhoneKeys[2] == "phone";
  }

  /** The hand-made filter of the last two fallbacks: not marked otherwise than active, created in [start, end). */
  predicate InPeriod(d: Doc, start: int, end: int)
  {
    (StrField(d, "status").None? || Text.Lower(StrField(d, "status").value) == "active")
    && ExtractMillis(d).Some? && start <= ExtractMillis(d).value < end
  }

  /** The rows of an indexed query: one per document, a null `data` read as an empty map. */
  function Answered(q: Result<Snapshot>): (r: seq<Row>)
    ensures q.Failure? ==> r == []
    ensures q.Success? ==> |r| == |q.value|
    ensures q.Success? ==> forall i :: 0 <= i < |q.value| ==> r[i] == MapRow(q.value[i].GetOr(map[]))
  {
    if q.Failure? then [] else seq(|q.value|, i requires 0 <= i < |q.value| => MapRow(q.value[i].GetOr(map[])))
  }

  /** The rows of a whole-collection read, filtered by hand: documents without data are skipped. */
  function Kept(docs: Snapshot, start: int, end: int): (r: seq<Row>)
    decreases |docs|
  {
    if docs == [] then []
    else
      var rest := Kept(docs[..|docs| - 1], start, end);
      var last := docs[|docs| - 1];
      if last.Some? && InPeriod(last.value, start, end) then rest + [MapRow(last.value)] else rest
  }

  /** Exactly the documents that pass the filter give rows. */
  lemma {:induction false} KeptRows(docs: Snapshot, start: int, end: int)
    ensures forall x :: x in Kept(docs, start, end) <==>
      exists d :: Some(d) in docs && InPeriod(d, start, end) && x == MapRow(d)
    decreases |docs|
  {
    if docs != [] {
      KeptRows(docs[..|docs| - 1], start, end);
      assert forall o :: o in docs <==> o in docs[..|docs| - 1] || o == docs[|docs| - 1];
    }
  }

  /** The row key documents are deduplicated on. */
  function RowKey(r: Row): string
  {
    r.nama + "|" + r.alamat + "|" + r.telp
  }

  /** The answers the four queries of `fetchCollection` give for one collection. */
  datatype CollectionAnswers = CollectionAnswers(
    byTimestamp: Result<Snapshot>, byMillis: Result<Snapshot>, cache: Result<Snapshot>, server: Result<Snapshot>)

  /** The rows of the first of the three fallible steps that gives any. */
  function FirstRows(a: CollectionAnswers, start: int, end: int): seq<Row>
  {
    var r1 := Answered(a.byTimestamp);
    var r2 := if r1 == [] then Answered(a.byMillis) else r1;
    if r2 == [] && a.cache.Success? then Kept(a.cache.value, start, end) else r2
  }

  /**
   * `fetchCollection`: the first non-empty of the Timestamp query, the millisecond query and
   * the filtered cache read, else the filtered server read, whose failure is the only one
   * passed on; the rows are then deduplicated keeping first occurrences.
   */
  function Fetched(a: CollectionAnswers, start: int, end: int): (r: Result<seq<Row>>)
  {
    var r3 := FirstRows(a, start, end);
    if r3 != [] then Success(Lists.DistinctBy(r3, RowKey))
    else if a.server.Failure? then Failure(a.server.message)
    else Success(Lists.DistinctBy(Kept(a.server.value, start, end), RowKey))
  }

  /** A later query matters only when every earlier one gave no rows. */
  lemma FetchedStopsAtFirstAnswer(a: CollectionAnswers, b: CollectionAnswers, start: int, end: int)
    ensures a.byTimestamp == b.byTimestamp && Answered(a.byTimestamp) != [] ==> Fetched(a, start, end) == Fetched(b, start, end)
    ensures a.byTimestamp == b.byTimestamp && a.byMillis == b.byMillis && Answered(a.byMillis) != [] ==>
      Fetched(a, start, end) == Fetched(b, start, end)
    ensures a.byTimestamp == b.byTimestamp && a.byMillis == b.byMillis && a.cache == b.cache
            && a.cache.Success? && Kept(a.cache.value, start, end) != [] ==>
      Fetched(a, start, end) == Fetched(b, start, end)
  {
  }

  /** The result never holds two rows with the same key, and comes from the answer it stopped at, in order. */
  lemma FetchedDistinct(a: CollectionAnswers, start: int, end: int)
    ensures Fetched(a, start, end).Success? ==> Lists.UniqueKeys(Fetched(a, start, end).value, RowKey)
    ensures Answered(a.byTimestamp) != [] ==>
      && Fetched(a, start, end).Success?
      && Lists.Subsequence(Fetched(a, start, end).value, Answered(a.byTimestamp))
  {
    var r3 := FirstRows(a, start, end);
    if r3 != [] {
      Lists.DistinctByUnique(r3, RowKey);
      Lists.DistinctBySubsequence(r3, RowKey);
    } else if a.server.Success? {
      Lists.DistinctByUnique(Kept(a.server.value, start, end), RowKey);
    }
  }

  /**
   * When the indexed queries give nothing, every row comes from a document that passes the
   * hand-made filter, and a server that holds such a document yields at least one row.
   */
  lemma FallbackRowsInPeriod(a: CollectionAnswers, start: int, end: int)
    requires Answered(a.byTimestamp) == [] && Answered(a.byMillis) == []
    ensures Fetched(a, start, end).Success? ==> forall x :: x in Fetched(a, start, end).value ==>
      exists d :: InPeriod(d, start, end) && x == MapRow(d)
    ensures a.server.Success? && (exists d :: Some(d) in a.server.value && InPeriod(d, start, end)) ==>
      Fetched(a, start, end).Success? && Fetched(a, start, end).value != []
  {
    var r3 := if a.cache.Success? then Kept(a.cache.value, start, end) else [];
    var rows := if r3 != [] then r3 else if a.server.Success? then Kept(a.server.value, start, end) else [];
    if a.cache.Success? {
      KeptRows(a.cache.value, start, end);
    }
    if a.server.Success? {
      KeptRows(a.server.value, start, end);
    }
    Lists.DistinctBySubsequence(rows, RowKey);
    SubsequenceMembers(Lists.DistinctBy(rows, RowKey), rows);
    if a.server.Success? && (exists d :: Some(d) in a.server.value && InPeriod(d, start, end)) && r3 == [] {
      var d :| Some(d) in a.server.value && InPeriod(d, start, end);
      assert MapRow(d) in rows;
      Lists.DistinctByKeys(rows, RowKey, RowKey(MapRow(d)));
      assert Lists.HasKey(rows, RowKey, RowKey(MapRow(d)));
    }
  }

  lemma {:induction false} SubsequenceMembers(a: seq<Row>, b: seq<Row>)
    requires Lists.Subsequence(a, b)
    ensures forall x :: x in a ==> x in b
    decreases |b|
  {
    if a != [] && b != [] {
      if a[0] == b[0] && Lists.Subsequence(a[1..], b[1..]) {
        SubsequenceMembers(a[1..], b[1..]);
        assert forall x :: x in a ==> x == a[0] || x in a[1..];
      } else {
        SubsequenceMembers(a, b[1..]);
      }
      assert forall x :: x in b[1..] ==> x in b;
    }
  }

  /** Two different rows can share a key, since the separator may occur inside a column. */
  lemma KeyMergesDistinctRows()
    ensures Row("a|b", "c", "d") != Row("a", "b|c", "d")
    ensures RowKey(Row("a|b", "c", "d")) == RowKey(Row("a", "b|c", "d"))
  {
  }

  /** `for (doc in q) out += mapRow(doc.data ?: emptyMap())`. */
  method AppendAnswered(out: seq<Row>, docs: Snapshot) returns (r: seq<Row>)
    ensures r == out + Answered(Success(docs))
  {
    r := out;
    var i := 0;
    while i < |docs|
      invariant 0 <= i <= |docs|
      invariant r == out + Answered(Success(docs[..i]))
    {
      AnsweredSnoc(docs, i);
      r := r + [MapRow(docs[i].GetOr(map[]))];
      i := i + 1;
    }
    assert docs[..i] == docs;
  }

  lemma AnsweredSnoc(docs: Snapshot, i: nat)
    requires i < |docs|
    ensures Answered(Success(docs[..i + 1])) == Answered(Success(docs[..i])) + [MapRow(docs[i].GetOr(map[]))]
  {
    var a, b := Answered(Success(docs[..i + 1])), Answered(Success(docs[..i])) + [MapRow(docs[i].GetOr(map[]))];
    forall k | 0 <= k < |a| ensures a[k] == b[k] {
      assert docs[..i + 1][k] == docs[k];
      if k < i {
        assert docs[..i][k] == docs[k];
      }
    }
  }

  /** The hand-filtering loop of the last two fallbacks. */
  method AppendKept(out: seq<Row>, docs: Snapshot, start: int, end: int) returns (r: seq<Row>)
    ensures r == out + Kept(docs, start, end)
  {
    r := out;
    var i := 0;
    while i < |docs|
      invariant 0 <= i <= |docs|
      invariant r == out + Kept(docs[..i], start, end)
    {
      assert docs[..i + 1][..i] == docs[..i];
      var data := docs[i];
      if data.Some? {
        var status := StrField(data.value, "status");
        if status.None? || Text.Lower(status.value) == "active" {
          var created := ExtractMillis(data.value);
          if created.Some? && start <= created.value < end {
            r := r + [MapRow(data.value)];
          }
        }
      }
      i := i + 1;
    }
    assert docs[..i] == docs;
  }

  /** `fetchCollection(colName)`, given the answers of its four queries. */
  method FetchCollection(a: CollectionAnswers, start: int, end: int) returns (r: Result<seq<Row>>)
    ensures r == Fetched(a, start, end)
  {
    var out: seq<Row> := [];
    if a.byTimestamp.Success? {
      out := AppendAnswered(out, a.byTimestamp.value);
    }
    assert out == Answered(a.byTimestamp);
    if out == [] && a.byMillis.Success? {
      out := AppendAnswered(out, a.byMillis.value);
    }
    assert out == if Answered(a.byTimestamp) == [] then Answered(a.byMillis) else Answered(a.byTimestamp);
    if out == [] && a.cache.Success? {
      out := AppendKept(out, a.cache.value, start, end);
    }
    assert out == FirstRows(a, start, end);
    if out == [] {
      if a.server.Failure? {
        return Failure(a.server.message);
      }
      out := AppendKept(out, a.server.value, start, end);
      assert out == Kept(a.server.value, start, end);
    }
    r := Success(Lists.DistinctBy(out, RowKey));
  }

  /** What the download button hands to the PDF writer. */
  datatype ReportRequest = ReportRequest(fileName: string, title: string, subtitle: string, sections: seq<seq<Row>>)

  const NoDataMessage := "Tidak ada data laporan untuk periode ini"

  class MonthlyReportActivity {
    var rowsPembelian: seq<Row>
    var rowsRenovasi: seq<Row>
    var rowsAC: seq<Row>
    var rowsCCTV: seq<Row>
    var startMillis: int
    var endMillis: int
    /** The texts of the month and year pickers. */
    var monthText: string
    var yearText: string

    constructor(monthText: string, yearText: string)
      ensures rowsPembelian == [] && rowsRenovasi == [] && rowsAC == [] && rowsCCTV == []
      ensures this.monthText == monthText && this.yearText == yearText
    {
      rowsPembelian, rowsRenovasi, rowsAC, rowsCCTV := [], [], [], [];
      startMillis, endMillis := 0, 0;
      this.monthText, this.yearText := monthText, yearText;
    }

    /** The "Total Dokumen" figure under all sections. */
    function TotalDocuments(): (n: nat)
      reads this
      ensures n == |rowsPembelian + rowsRenovasi + rowsAC + rowsCCTV|
    {
      |rowsPembelian| + |rowsRenovasi| + |rowsAC| + |rowsCCTV|
    }

    /**
     * `recalcRangeAndReload()` for the period [start, end): the sections are cleared, the four
     * collections fetched, and their rows stored in the order pembelian, renovasi, AC, CCTV
     * until one fetch fails, after which the remaining sections stay empty.
     */
    method Reload(start: int, end: int, p: CollectionAnswers, r: CollectionAnswers, a: CollectionAnswers,
                  c: CollectionAnswers)
      modifies this
      ensures startMillis == start && endMillis == end
      ensures monthText == old(monthText) && yearText == old(yearText)
      ensures Stored(Fetched(p, start, end), Fetched(r, start, end), Fetched(a, start, end), Fetched(c, start, end))
    {
      // The fetches only read their answers, so they are taken before the state changes.
      var fp := FetchCollection(p, start, end);
      var fr := FetchCollection(r, start, end);
      var fa := FetchCollection(a, start, end);
      var fc := FetchCollection(c, start, end);
      startMillis, endMillis := start, end;
      Store(fp, fr, fa, fc);
    }

    /**
     * The sections after the four fetches end: each holds its rows only when its own fetch and
     * every earlier one succeeded, since the results are awaited in this order.
     */
    ghost predicate Stored(fp: Result<seq<Row>>, fr: Result<seq<Row>>, fa: Result<seq<Row>>, fc: Result<seq<Row>>)
      reads this
    {
      && rowsPembelian == (if fp.Success? then fp.value else [])
      && rowsRenovasi == (if fp.Success? && fr.Success? then fr.value else [])
      && rowsAC == (if fp.Success? && fr.Success? && fa.Success? then fa.value else [])
      && rowsCCTV == (if fp.Success? && fr.Success? && fa.Success? && fc.Success? then fc.value else [])
    }

    /** The sections cleared, then `rows*.setAll(x.await())` in order, stopping at the first fetch that threw. */
    method Store(fp: Result<seq<Row>>, fr: Result<seq<Row>>, fa: Result<seq<Row>>, fc: Result<seq<Row>>)
      modifies this
      ensures Stored(fp, fr, fa, fc)
      ensures startMillis == old(startMillis) && endMillis == old(endMillis)
      ensures monthText == old(monthText) && yearText == old(yearText)
    {
      rowsPembelian, rowsRenovasi, rowsAC, rowsCCTV := [], [], [], [];
      if fp.Failure? { return; }
      rowsPembelian := fp.value;
      if fr.Failure? { return; }
      rowsRenovasi := fr.value;
      if fa.Failure? { return; }
      rowsAC := fa.value;
      if fc.Failure? { return; }
      rowsCCTV := fc.value;
    }

    /**
     * `onClickDownload()`: refused with a message when all four sections are empty, else the
     * request for a report named after the given time stamp.
     */
    method OnClickDownload(stamp: string) returns (request: Result<ReportRequest>)
      ensures request.Failure? <==> rowsPembelian == [] && rowsRenovasi == [] && rowsAC == [] && rowsCCTV == []
      ensures request.Failure? ==> request.message == NoDataMessage
      ensures request.Success? ==> request.value == ReportRequest(
        "Laporan_Bulanan_" + stamp + ".pdf", "Laporan Bulanan", "Periode: " + monthText + " " + yearText,
        [rowsPembelian, rowsRenovasi, rowsAC, rowsCCTV])
    {
      if rowsPembelian == [] && rowsRenovasi == [] && rowsAC == [] && rowsCCTV == [] {
        return Failure(NoDataMessage);
      }
      request := Success(ReportRequest("Laporan_Bulanan_" + stamp + ".pdf", "Laporan Bulanan",
                                       "Periode: " + monthText + " " + yearText,
                                       [rowsPembelian, rowsRenovasi, rowsAC, rowsCCTV]));
    }
  }
}
