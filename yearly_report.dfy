/**
 * The yearly report screen (activities/YearlyReportActivity.kt): the monthly report's fetch
 * and row rules over a whole year, with a year picker limited to 2005..2027.
 */
module YearlyReport {
  import opened Wrappers
  import Text
  import opened ReportPdfWriter
  import opened MonthlyReport

  const FirstYear := 2005
  const LastYear := 2027

  /** `coerceIn(2005, 2027)`. */
  function ClampYear(year: int): (r: int)
    ensures FirstYear <= r <= LastYear
    ensures FirstYear <= year <= LastYear ==> r == year
    ensures year < FirstYear ==> r == FirstYear
    ensures year > LastYear ==> r == LastYear
  {
    if year < FirstYear then FirstYear else if year > LastYear then LastYear else year
  }

  const NoYearDataMessage := "Tidak ada data untuk tahun ini"

  class YearlyReportActivity {
    var rowsPembelian: seq<Row>
    var rowsRenovasi: seq<Row>
    var rowsAC: seq<Row>
    var rowsCCTV: seq<Row>
    var selectedYear: int
    var startMillis: int
    var endMillis: int

    /** The picked year is always one the picker offers. */
    ghost predicate Valid()
      reads this
    {
      FirstYear <= selectedYear <= LastYear
    }

    /** `onCreate`: the current year, clamped into the picker's range; all sections empty. */
    constructor(currentYear: int)
      ensures Valid()
      ensures selectedYear == ClampYear(currentYear)
      ensures rowsPembelian == [] && rowsRenovasi == [] && rowsAC == [] && rowsCCTV == []
    {
      selectedYear := ClampYear(currentYear);
      rowsPembelian, rowsRenovasi, rowsAC, rowsCCTV := [], [], [], [];
      startMillis, endMillis := 0, 0;
    }

    /** Picking entry pos of the years list 2005..2027. */
    method PickYear(pos: nat)
      requires pos <= LastYear - FirstYear
      modifies this
      ensures Valid()
      ensures selectedYear == FirstYear + pos
      ensures rowsPembelian == old(rowsPembelian) && rowsRenovasi == old(rowsRenovasi)
      ensures rowsAC == old(rowsAC) && rowsCCTV == old(rowsCCTV)
      ensures startMillis == old(startMillis) && endMillis == old(endMillis)
    {
      selectedYear := FirstYear + pos;
    }

    /**
     * `recalcRangeAndReload()` for the selected year's range [start, end): the same fetch per
     * collection as the monthly report, its rows stored in order until one fetch fails.
     */
    method Reload(start: int, end: int, p: CollectionAnswers, r: CollectionAnswers, a: CollectionAnswers,
                  c: CollectionAnswers)
      requires Valid()
      modifies this
      ensures Valid() && selectedYear == old(selectedYear)
      ensures startMillis == start && endMillis == end
      ensures Stored(Fetched(p, start, end), Fetched(r, start, end), Fetched(a, start, end), Fetched(c, start, end))
    {
      // The fetches only read their answers, so they are taken before the state changes.
      var fp := FetchCollection(p, start, end);
      var fr := FetchCollection(r, start, end);
      var fa := FetchCollection(a, start, end);
      var fc := FetchCollection(c, start, end);
      startMillis, endMillis := start, end;
      Store(fp, fr, fa, fc);
    }

    /** Each section holds its rows only when its own fetch and every earlier one succeeded. */
    ghost predicate Stored(fp: Result<seq<Row>>, fr: Result<seq<Row>>, fa: Result<seq<Row>>, fc: Result<seq<Row>>)
      reads this
    {
      && rowsPembelian == (if fp.Success? then fp.value else [])
      && rowsRenovasi == (if fp.Success? && fr.Success? then fr.value else [])
      && rowsAC == (if fp.Success? && fr.Success? && fa.Success? then fa.value else [])
      && rowsCCTV == (if fp.Success? && fr.Success? && fa.Success? && fc.Success? then fc.value else [])
    }

    /** `clear(); addAll(x.await())` per section, in order, stopping at the first fetch that threw. */
    method Store(fp: Result<seq<Row>>, fr: Result<seq<Row>>, fa: Result<seq<Row>>, fc: Result<seq<Row>>)
      modifies this
      ensures Stored(fp, fr, fa, fc)
      ensures selectedYear == old(selectedYear)
      ensures startMillis == old(startMillis) && endMillis == old(endMillis)
    {
      rowsPembelian, rowsRenovasi, rowsAC, rowsCCTV := [], [], [], [];
      if fp.Failure? { return; }
      rowsPembelian := fp.value;
      if fr.Failure? { return; }
      rowsRenovasi := fr.value;
      if fa.Failure? { return; }
      rowsAC := fa.value;
      if fc.Failure? { return; }
      rowsCCTV := fc.value;
    }

    /** The "Total Dokumen" figure under all sections. */
    function TotalDocuments(): (n: nat)
      reads this
      ensures n == |rowsPembelian + rowsRenovasi + rowsAC + rowsCCTV|
    {
      |rowsPembelian| + |rowsRenovasi| + |rowsAC| + |rowsCCTV|
    }

    /** `onClickDownload()`: refused when all sections are empty, else a report named after the year and time stamp. */
    method OnClickDownload(stamp: string) returns (request: Result<ReportRequest>)
      ensures request.Failure? <==> rowsPembelian == [] && rowsRenovasi == [] && rowsAC == [] && rowsCCTV == []
      ensures request.Failure? ==> request.message == NoYearDataMessage
      ensures request.Success? ==> request.value == ReportRequest(
        "Laporan_Tahunan_" + Text.IntToString(selectedYear) + "_" + stamp + ".pdf", "Laporan Tahunan",
        "Periode: Tahun " + Text.IntToString(selectedYear), [rowsPembelian, rowsRenovasi, rowsAC, rowsCCTV])
    {
      if rowsPembelian == [] && rowsRenovasi == [] && rowsAC == [] && rowsCCTV == [] {
        return Failure(NoYearDataMessage);
      }
      var year := Text.IntToString(selectedYear);
      request := Success(ReportRequest("Laporan_Tahunan_" + year + "_" + stamp + ".pdf", "Laporan Tahunan",
                                       "Periode: Tahun " + year, [rowsPembelian, rowsRenovasi, rowsAC, rowsCCTV]));
    }
  }
}
