/**
 * The monthly and yearly report PDF (utils/ReportPdfWriter.kt): a title block and column
 * header on every page, then four sections of three-column rows with a total each, and a
 * grand total, breaking to a new page whenever the next item would cross the bottom margin.
 * The canvas is a log of draw operations per page, each tagged with the part of the report
 * it draws; the text heights derived from the font sizes are integer constants.
 */
module ReportPdfWriter {
  import Text

  /** One report line: name, address and phone. */
  datatype Row = Row(nama: string, alamat: string, telp: string)

  const PageW := 595
  const PageH := 842
  const Margin := 32
  const ContentW := PageW - Margin * 2
  /** `(contentW * 0.34f).toInt()` and `(contentW * 0.48f).toInt()`; colTelpW is the remainder. */
  const ColNamaW := ContentW * 34 / 100
  const ColAlamatW := ContentW * 48 / 100
  const ColTelpW := ContentW - ColNamaW - ColAlamatW

  /** The lowest y anything may need to reach: `pageH - margin`. */
  const Bottom := PageH - Margin

  // `(textSize + k).toInt()` for the paints used: title 16, subtitle 11, header 10.5, text 10.
  const TitleStep := 20
  const SubtitleStep := 19
  const HeaderStep := 16
  const SectionNeed := 18
  const SectionTitleStep := 14
  const RowHeight := 16
  const TotalHeight := 21
  const GrandNeed := 16

  /** The y at which content starts under the title block and column header. */
  const TopY := Margin + TitleStep + SubtitleStep + 10 + HeaderStep + 8

  /** The three columns split the content width exactly, each with room to draw in. */
  lemma ColumnsFillContent()
    ensures ColNamaW + ColAlamatW + ColTelpW == ContentW
    ensures ColNamaW > 0 && ColAlamatW > 0 && ColTelpW > 0
    ensures ColNamaW == 180 && ColAlamatW == 254 && ColTelpW == 97
  {
  }

  /** What a drawn text is. */
  datatype Part = Title | Subtitle | ColumnName | SectionName | Cell | SectionTotal | GrandTotal

  /** `drawText` (with its part of the report) and `drawLine` across the page at height y. */
  datatype Op = Text(s: string, x: int, y: int, part: Part) | Rule(y: int)

  datatype Page = Page(number: int, ops: seq<Op>)

  /** `needBreak(y, n)`: the item does not fit above the bottom margin. */
  predicate NeedBreak(y: int, needed: int)
  {
    y + needed > Bottom
  }

  /** The ops `drawTitle(c, startY)` draws. */
  function TitleOps(title: string, subtitle: string, startY: int): seq<Op>
  {
    [Text(title, Margin, startY, Title), Text(subtitle, Margin, startY + TitleStep, Subtitle),
     Rule(startY + TitleStep + SubtitleStep)]
  }

  /** The ops `drawColumnHeader(c, startY)` draws. */
  function ColumnOps(startY: int): seq<Op>
  {
    [Text("Nama", Margin, startY, ColumnName), Text("Alamat", Margin + ColNamaW, startY, ColumnName),
     Text("No Telepon", Margin + ColNamaW + ColAlamatW, startY, ColumnName), Rule(startY + HeaderStep)]
  }

  /** What every page starts with: the title block at the top margin, then the column header. */
  function Heading(title: string, subtitle: string): seq<Op>
  {
    TitleOps(title, subtitle, Margin) + ColumnOps(Margin + TitleStep + SubtitleStep + 10)
  }

  /** The page's ops start with the given heading. */
  predicate Headed(ops: seq<Op>, heading: seq<Op>)
  {
    |ops| >= |heading| && ops[..|heading|] == heading
  }

  /** Nothing is drawn below the bottom margin. */
  predicate Fits(ops: seq<Op>)
  {
    forall i :: 0 <= i < |ops| ==> ops[i].y <= Bottom
  }

  /** The ops of the given pages, page after page. */
  function AllOps(pages: seq<Page>): seq<Op>
  {
    if pages == [] then [] else AllOps(pages[..|pages| - 1]) + pages[|pages| - 1].ops
  }

  /** The content an op contributes: a text that is not part of the per-page heading. */
  function ItemOf(op: Op): seq<(Part, string)>
  {
    if op.Text? && op.part != Title && op.part != Subtitle && op.part != ColumnName then [(op.part, op.s)] else []
  }

  /** The report's content, in drawing order. */
  function Content(ops: seq<Op>): seq<(Part, string)>
  {
    if ops == [] then [] else Content(ops[..|ops| - 1]) + ItemOf(ops[|ops| - 1])
  }

  lemma {:induction false} ContentAppend(a: seq<Op>, b: seq<Op>)
    ensures Content(a + b) == Content(a) + Content(b)
    decreases |b|
  {
    if b == [] {
      assert a + b == a;
    } else {
      ContentAppend(a, b[..|b| - 1]);
      assert (a + b)[..|a + b| - 1] == a + b[..|b| - 1];
      assert (a + b)[|a + b| - 1] == b[|b| - 1];
    }
  }

  lemma HeadingHasNoContent(title: string, subtitle: string)
    ensures Content(Heading(title, subtitle)) == []
  {
    var h := Heading(title, subtitle);
    assert forall i :: 0 <= i < |h| ==> ItemOf(h[i]) == [];
    NoContent(h);
  }

  lemma {:induction false} NoContent(ops: seq<Op>)
    requires forall i :: 0 <= i < |ops| ==> ItemOf(ops[i]) == []
    ensures Content(ops) == []
    decreases |ops|
  {
    if ops != [] {
      NoContent(ops[..|ops| - 1]);
    }
  }

  /** The three cells of each row, in order. */
  function RowItems(rows: seq<Row>): seq<(Part, string)>
  {
    if rows == [] then []
    else
      var r := rows[|rows| - 1];
      RowItems(rows[..|rows| - 1]) + [(Cell, r.nama), (Cell, r.alamat), (Cell, r.telp)]
  }

  function SectionTotalText(n: int): string
  {
    "Total Dokumen: " + Text.IntToString(n)
  }

  function GrandTotalText(n: int): string
  {
    "Total Dokumen (Semua): " + Text.IntToString(n)
  }

  /** One section: its name, its rows, then its total, which is its number of rows. */
  function SectionItems(name: string, rows: seq<Row>): seq<(Part, string)>
  {
    [(SectionName, name)] + RowItems(rows) + [(SectionTotal, SectionTotalText(|rows|))]
  }

  const PembelianTitle := "Pembelian Rumah"
  const RenovasiTitle := "Renovasi Rumah"
  const ACTitle := "Pemasangan AC"
  const CCTVTitle := "Pemasangan CCTV"

  /** The whole report: the four sections in order, then the grand total of all their rows. */
  function ReportContent(p: seq<Row>, r: seq<Row>, a: seq<Row>, c: seq<Row>): seq<(Part, string)>
  {
    SectionItems(PembelianTitle, p) + SectionItems(RenovasiTitle, r) + SectionItems(ACTitle, a)
    + SectionItems(CCTVTitle, c) + [(GrandTotal, GrandTotalText(|p| + |r| + |a| + |c|))]
  }

  /** Reading the cells back, three at a time, from report content. */
  function CellRows(items: seq<(Part, string)>): seq<Row>
  {
    if items == [] then []
    else if |items| >= 3 && items[0].0 == Cell && items[1].0 == Cell && items[2].0 == Cell then
      [Row(items[0].1, items[1].1, items[2].1)] + CellRows(items[3..])
    else CellRows(items[1..])
  }

  lemma {:induction false} CellRowsAppend(a: seq<(Part, string)>, b: seq<(Part, string)>)
    requires forall i :: 0 <= i < |a| ==> a[i].0 != Cell
    ensures CellRows(a + b) == CellRows(b)
    decreases |a|
  {
    if a == [] {
      assert a + b == b;
    } else {
      assert (a + b)[0] == a[0];
      assert (a + b)[1..] == a[1..] + b;
      CellRowsAppend(a[1..], b);
    }
  }

  lemma {:induction false} CellRowsOfRows(rows: seq<Row>, rest: seq<(Part, string)>)
    requires rest == [] || rest[0].0 != Cell
    ensures CellRows(RowItems(rows) + rest) == rows + CellRows(rest)
    decreases |rows|
  {
    if rows == [] {
      assert RowItems(rows) + rest == rest;
    } else {
      CellRowsFront(rows, rest);
      CellRowsOfRows(rows[1..], rest);
      assert rows == [rows[0]] + rows[1..];
    }
  }

  /** The first row's cells are read back as that row. */
  lemma CellRowsFront(rows: seq<Row>, rest: seq<(Part, string)>)
    requires rows != []
    ensures CellRows(RowItems(rows) + rest) == [rows[0]] + CellRows(RowItems(rows[1..]) + rest)
  {
    var tail := RowItems(rows[1..]) + rest;
    RowItemsFront(rows);
    assert RowItems(rows) + rest == RowCells(rows[0]) + tail;
    CellRowsOfCells(rows[0], tail);
  }

  /** The three cells of a row. */
  function RowCells(r: Row): seq<(Part, string)>
  {
    [(Cell, r.nama), (Cell, r.alamat), (Cell, r.telp)]
  }

  /** Three cells in front are read back as their row. */
  lemma CellRowsOfCells(r: Row, tail: seq<(Part, string)>)
    ensures CellRows(RowCells(r) + tail) == [r] + CellRows(tail)
  {
    var x := RowCells(r) + tail;
    assert x[0] == (Cell, r.nama) && x[1] == (Cell, r.alamat) && x[2] == (Cell, r.telp);
    assert x[3..] == tail;
  }

  lemma {:induction false} RowItemsFront(rows: seq<Row>)
    requires rows != []
    ensures RowItems(rows) == [(Cell, rows[0].nama), (Cell, rows[0].alamat), (Cell, rows[0].telp)] + RowItems(rows[1..])
    decreases |rows|
  {
    if |rows| > 1 {
      RowItemsFront(rows[..|rows| - 1]);
      assert rows[..|rows| - 1][1..] == rows[1..][..|rows[1..]| - 1];
    } else {
      assert rows[1..] == [];
    }
  }

  lemma SectionCells(name: string, rows: seq<Row>, rest: seq<(Part, string)>)
    ensures CellRows(SectionItems(name, rows) + rest) == rows + CellRows(rest)
  {
    var total := [(SectionTotal, SectionTotalText(|rows|))];
    assert SectionItems(name, rows) + rest == [(SectionName, name)] + (RowItems(rows) + (total + rest));
    CellRowsAppend([(SectionName, name)], RowItems(rows) + (total + rest));
    CellRowsOfRows(rows, total + rest);
    CellRowsAppend(total, rest);
  }

  /** Every row of every section is drawn exactly once, section after section, in input order. */
  lemma ReportRowsInOrder(p: seq<Row>, r: seq<Row>, a: seq<Row>, c: seq<Row>)
    ensures CellRows(ReportContent(p, r, a, c)) == p + r + a + c
  {
    SectionsInOrder(PembelianTitle, RenovasiTitle, ACTitle, CCTVTitle, p, r, a, c,
                    [(GrandTotal, GrandTotalText(|p| + |r| + |a| + |c|))]);
  }

  lemma SectionsInOrder(n1: string, n2: string, n3: string, n4: string,
                        p: seq<Row>, r: seq<Row>, a: seq<Row>, c: seq<Row>, g: seq<(Part, string)>)
    requires forall i :: 0 <= i < |g| ==> g[i].0 != Cell
    ensures CellRows(SectionItems(n1, p) + SectionItems(n2, r) + SectionItems(n3, a) + SectionItems(n4, c) + g)
         == p + r + a + c
  {
    var s1, s2, s3, s4 := SectionItems(n1, p), SectionItems(n2, r), SectionItems(n3, a), SectionItems(n4, c);
    CellRowsAppend(g, []);
    assert g + [] == g;
    var t4 := s4 + g;
    SectionCells(n4, c, g);
    assert CellRows(t4) == c;
    var t3 := s3 + t4;
    SectionCells(n3, a, t4);
    var t2 := s2 + t3;
    SectionCells(n2, r, t3);
    var t1 := s1 + t2;
    SectionCells(n1, p, t2);
    Regroup(s1, s2, s3, s4, g);
    Regroup(p, r, a, c, []);
  }

  lemma ReportContentSections(p: seq<Row>, r: seq<Row>, a: seq<Row>, c: seq<Row>)
    ensures ReportContent(p, r, a, c)
         == SectionItems(PembelianTitle, p) + SectionItems(RenovasiTitle, r) + SectionItems(ACTitle, a)
            + SectionItems(CCTVTitle, c) + [(GrandTotal, GrandTotalText(|p| + |r| + |a| + |c|))]
  {
  }

  lemma Regroup<T>(a: seq<T>, b: seq<T>, c: seq<T>, d: seq<T>, e: seq<T>)
    ensures a + b + c + d + e == a + (b + (c + (d + e)))
    ensures a + (b + (c + d)) == a + b + c + d
    ensures a + b + c + d == a + (b + c + d)
  {
  }

  class ReportPdfWriter {
    const title: string
    const subtitle: string
    const rowsPembelian: seq<Row>
    const rowsRenovasi: seq<Row>
    const rowsAC: seq<Row>
    const rowsCCTV: seq<Row>
    /** What `drawTitle` and `drawColumnHeader` put at the top of every page. */
    ghost const heading: seq<Op>
    var pageNo: int
    /** The finished pages of the document, in order. */
    var pages: seq<Page>
    /** The canvas of the page being drawn. */
    var current: seq<Op>
    /** The ops of the pages finished since the report began. */
    ghost var done: seq<Op>
    /** The content drawn since the report began. */
    ghost var content: seq<(Part, string)>

    constructor(title: string, subtitle: string, p: seq<Row>, r: seq<Row>, a: seq<Row>, c: seq<Row>)
      ensures this.title == title && this.subtitle == subtitle && Valid()
      ensures rowsPembelian == p && rowsRenovasi == r && rowsAC == a && rowsCCTV == c
      ensures pageNo == 0 && pages == [] && current == []
    {
      this.title, this.subtitle := title, subtitle;
      rowsPembelian, rowsRenovasi, rowsAC, rowsCCTV := p, r, a, c;
      heading := Heading(title, subtitle);
      pageNo, pages, current, done, content := 0, [], [], [], [];
    }

    ghost predicate Valid()
    {
      heading == Heading(title, subtitle)
    }

    /**
     * The pages before the report are `prior`; those finished since are numbered on from
     * n0 + 1, the open page has number pageNo next, each starts with the heading and draws
     * nothing below the bottom margin, and `done` holds their ops.
     */
    ghost predicate Finished(prior: seq<Page>, n0: int)
      reads this`pages, this`pageNo, this`done
    {
      && |prior| <= |pages| && pages[..|prior|] == prior && pageNo == n0 + (|pages| - |prior|) + 1
      && (forall i :: |prior| <= i < |pages| ==> pages[i].number == n0 + 1 + (i - |prior|))
      && (forall i :: |prior| <= i < |pages| ==> Headed(pages[i].ops, heading) && Fits(pages[i].ops))
      && done == AllOps(pages[|prior|..])
    }

    /** The open page starts with the heading and draws nothing below the bottom margin. */
    ghost predicate OpenPage()
      reads this`current
    {
      Headed(current, heading) && Fits(current)
    }

    /** `content` is what everything drawn since the report began, the open page included, shows. */
    ghost predicate Tracked()
      reads this`done, this`current, this`content
    {
      content == Content(done + current)
    }

    /** `newPage(doc)` with `drawTitle` and `drawColumnHeader`: the next page number, headed. */
    method NewPage() returns (y: int)
      requires Valid()
      modifies this`pageNo, this`current
      ensures pageNo == old(pageNo) + 1 && current == heading && y == TopY
    {
      pageNo := pageNo + 1;
      current := [];
      y := DrawTitle(Margin);
      y := DrawColumnHeader(y);
    }

    method DrawTitle(startY: int) returns (y: int)
      modifies this`current
      ensures current == old(current) + TitleOps(title, subtitle, startY)
      ensures y == startY + TitleStep + SubtitleStep + 10
    {
      y := startY;
      current := current + [Text(title, Margin, y, Title)];
      y := y + TitleStep;
      current := current + [Text(subtitle, Margin, y, Subtitle)];
      y := y + SubtitleStep;
      current := current + [Rule(y)];
      y := y + 10;
    }

    method DrawColumnHeader(startY: int) returns (y: int)
      modifies this`current
      ensures current == old(current) + ColumnOps(startY)
      ensures y == startY + HeaderStep + 8
    {
      y := startY;
      var x := Margin;
      current := current + [Text("Nama", x, y, ColumnName)];
      x := x + ColNamaW;
      current := current + [Text("Alamat", x, y, ColumnName)];
      x := x + ColAlamatW;
      current := current + [Text("No Telepon", x, y, ColumnName)];
      y := y + HeaderStep;
      current := current + [Rule(y)];
      y := y + 8;
    }

    /** `doc.finishPage(page)`. */
    method FinishPage(ghost prior: seq<Page>, ghost n0: int)
      requires Finished(prior, n0) && OpenPage()
      modifies this`pages, this`done
      ensures pages == old(pages) + [Page(pageNo, current)] && done == old(done) + current
      ensures |prior| <= |pages| && pages[..|prior|] == prior && done == AllOps(pages[|prior|..])
      ensures forall i :: |prior| <= i < |pages| ==> pages[i].number == n0 + 1 + (i - |prior|)
      ensures forall i :: |prior| <= i < |pages| ==> Headed(pages[i].ops, heading) && Fits(pages[i].ops)
    {
      ghost var before := pages[|prior|..];
      pages := pages + [Page(pageNo, current)];
      done := done + current;
      assert pages[|prior|..] == before + [Page(pageNo, current)];
      assert pages[..|prior|] == old(pages)[..|prior|];
      AllOpsSnoc(before, Page(pageNo, current));
    }

    /**
     * The break check before each item: when `needBreak(y, need)`, the page is finished and a
     * new headed page started; either way the item then fits.
     */
    method MakeRoom(y: int, need: int, ghost prior: seq<Page>, ghost n0: int) returns (y': int)
      requires Valid() && Finished(prior, n0) && OpenPage() && 0 <= need <= Bottom - TopY
      modifies this`pages, this`pageNo, this`current, this`done
      ensures Finished(prior, n0) && OpenPage() && y' + need <= Bottom
      ensures done + current == old(done + current) + (if NeedBreak(y, need) then heading else [])
      ensures !NeedBreak(y, need) ==> y' == y && pages == old(pages) && pageNo == old(pageNo) && current == old(current)
      ensures NeedBreak(y, need) ==> y' == TopY && |pages| == |old(pages)| + 1
    {
      y' := y;
      if NeedBreak(y, need) {
        FinishPage(prior, n0);
        y' := NewPage();
        assert heading[..|heading|] == heading;
      }
    }

    /** MakeRoom, seen through the content: a break adds only a heading, which holds no content. */
    method MakeRoomKeeping(y: int, need: int, ghost prior: seq<Page>, ghost n0: int) returns (y': int)
      requires Valid() && Finished(prior, n0) && OpenPage() && Tracked() && 0 <= need <= Bottom - TopY
      modifies this`pages, this`pageNo, this`current, this`done
      ensures Finished(prior, n0) && OpenPage() && Tracked() && y' + need <= Bottom
    {
      ghost var before := done + current;
      y' := MakeRoom(y, need, prior, n0);
      HeadingHasNoContent(title, subtitle);
      ContentAppend(before, if NeedBreak(y, need) then heading else []);
    }

    /** One text or line at a height that fits, on the open page. */
    method Put(op: Op)
      requires OpenPage() && Tracked() && op.y <= Bottom
      modifies this`current, this`content
      ensures OpenPage() && Tracked() && current == old(current) + [op]
      ensures content == old(content) + ItemOf(op)
    {
      StillOpen(current, heading, op);
      ContentAppendOne(done + current, op);
      assert done + (current + [op]) == done + current + [op];
      current := current + [op];
      content := content + ItemOf(op);
    }

    /** `drawSection(title, rows)`: name, rows and total, each after its break check. */
    method DrawSection(name: string, rows: seq<Row>, y0: int, ghost prior: seq<Page>, ghost n0: int) returns (y: int)
      requires Valid() && Finished(prior, n0) && OpenPage() && Tracked()
      modifies this`pages, this`pageNo, this`current, this`done, this`content
      ensures Finished(prior, n0) && OpenPage() && Tracked()
      ensures content == old(content) + SectionItems(name, rows)
    {
      ghost var c0 := content;
      y := DrawSectionName(name, y0, prior, n0);
      ghost var c1 := content;
      y := DrawRows(rows, y, prior, n0);
      ghost var c2 := content;
      var total := SectionTotalText(|rows|);
      y := MakeRoomKeeping(y, TotalHeight, prior, n0);
      Put(Text(total, Margin, y, SectionTotal));
      y := y + TotalHeight;
      Regroup(c0, [(SectionName, name)], RowItems(rows), [(SectionTotal, total)], []);
    }

    /** The section's name and the line under it, after its break check. */
    method DrawSectionName(name: string, y0: int, ghost prior: seq<Page>, ghost n0: int) returns (y: int)
      requires Valid() && Finished(prior, n0) && OpenPage() && Tracked()
      modifies this`pages, this`pageNo, this`current, this`done, this`content
      ensures Finished(prior, n0) && OpenPage() && Tracked()
      ensures content == old(content) + [(SectionName, name)]
    {
      y := MakeRoomKeeping(y0, SectionNeed, prior, n0);
      Put(Text(name, Margin, y, SectionName));
      y := y + SectionTitleStep;
      Put(Rule(y));
      y := y + 6;
    }

    /** The `rows.forEach` loop of `drawSection`. */
    method DrawRows(rows: seq<Row>, y0: int, ghost prior: seq<Page>, ghost n0: int) returns (y: int)
      requires Valid() && Finished(prior, n0) && OpenPage() && Tracked()
      modifies this`pages, this`pageNo, this`current, this`done, this`content
      ensures Finished(prior, n0) && OpenPage() && Tracked()
      ensures content == old(content) + RowItems(rows)
    {
      y := y0;
      var i := 0;
      while i < |rows|
        invariant 0 <= i <= |rows| && Finished(prior, n0) && OpenPage() && Tracked()
        invariant content == old(content) + RowItems(rows[..i])
      {
        y := DrawRow(rows[i], y, prior, n0);
        assert rows[..i + 1][..i] == rows[..i];
        i := i + 1;
      }
      assert rows[..i] == rows;
    }

    /** One row: its break check, then its three cells across the columns. */
    method DrawRow(r: Row, y0: int, ghost prior: seq<Page>, ghost n0: int) returns (y: int)
      requires Valid() && Finished(prior, n0) && OpenPage() && Tracked()
      modifies this`pages, this`pageNo, this`current, this`done, this`content
      ensures Finished(prior, n0) && OpenPage() && Tracked()
      ensures content == old(content) + [(Cell, r.nama), (Cell, r.alamat), (Cell, r.telp)]
    {
      y := MakeRoomKeeping(y0, RowHeight, prior, n0);
      var x := Margin;
      Put(Text(r.nama, x, y, Cell));
      x := x + ColNamaW;
      Put(Text(r.alamat, x, y, Cell));
      x := x + ColAlamatW;
      Put(Text(r.telp, x, y, Cell));
      y := y + RowHeight;
    }

    /**
     * `writeTo(doc)`: the pages it adds are numbered on from the writer's page counter, each
     * is finished once, starts with the title block and column header and draws nothing
     * below the bottom margin, and together they draw the four sections and the grand total.
     */
    method WriteTo()
      requires Valid()
      modifies this`pages, this`pageNo, this`current, this`done, this`content
      ensures |pages| > |old(pages)| && pages[..|old(pages)|] == old(pages)
      ensures pageNo == old(pageNo) + (|pages| - |old(pages)|)
      ensures forall i :: |old(pages)| <= i < |pages| ==> pages[i].number == old(pageNo) + 1 + (i - |old(pages)|)
      ensures forall i :: |old(pages)| <= i < |pages| ==>
        Headed(pages[i].ops, Heading(title, subtitle)) && Fits(pages[i].ops)
      ensures Content(AllOps(pages[|old(pages)|..])) == ReportContent(rowsPembelian, rowsRenovasi, rowsAC, rowsCCTV)
    {
      ghost var prior, n0 := pages, pageNo;
      var y := Begin();
      y := DrawBody(y, prior, n0);
      ghost var drawn, report := done + current, content;
      FinishPage(prior, n0);
      assert AllOps(pages[|prior|..]) == drawn;
    }

    /** The four `drawSection` calls and the grand total, on from an empty content. */
    method DrawBody(y0: int, ghost prior: seq<Page>, ghost n0: int) returns (y: int)
      requires Valid() && Finished(prior, n0) && OpenPage() && Tracked() && content == []
      modifies this`pages, this`pageNo, this`current, this`done, this`content
      ensures Finished(prior, n0) && OpenPage() && Tracked()
      ensures content == ReportContent(rowsPembelian, rowsRenovasi, rowsAC, rowsCCTV)
    {
      ghost var s1, s2 := SectionItems(PembelianTitle, rowsPembelian), SectionItems(RenovasiTitle, rowsRenovasi);
      ghost var s3, s4 := SectionItems(ACTitle, rowsAC), SectionItems(CCTVTitle, rowsCCTV);
      ghost var g := [(GrandTotal, GrandTotalText(|rowsPembelian| + |rowsRenovasi| + |rowsAC| + |rowsCCTV|))];
      y := DrawFront(y0, prior, n0);
      assert content == s1 + s2 by {
        assert [] + s1 == s1;
      }
      DrawBack(y, prior, n0);
      ReportContentSections(rowsPembelian, rowsRenovasi, rowsAC, rowsCCTV);
    }

    /** The house-purchase and renovation sections. */
    method DrawFront(y0: int, ghost prior: seq<Page>, ghost n0: int) returns (y: int)
      requires Valid() && Finished(prior, n0) && OpenPage() && Tracked()
      modifies this`pages, this`pageNo, this`current, this`done, this`content
      ensures Finished(prior, n0) && OpenPage() && Tracked()
      ensures content == old(content) + SectionItems(PembelianTitle, rowsPembelian) +
        SectionItems(RenovasiTitle, rowsRenovasi)
    {
      y := DrawSection(PembelianTitle, rowsPembelian, y0, prior, n0);
      y := DrawSection(RenovasiTitle, rowsRenovasi, y, prior, n0);
    }

    /** The AC and CCTV sections, then the grand total of all four lists' rows. */
    method DrawBack(y0: int, ghost prior: seq<Page>, ghost n0: int)
      requires Valid() && Finished(prior, n0) && OpenPage() && Tracked()
      modifies this`pages, this`pageNo, this`current, this`done, this`content
      ensures Finished(prior, n0) && OpenPage() && Tracked()
      ensures content == old(content) + SectionItems(ACTitle, rowsAC) + SectionItems(CCTVTitle, rowsCCTV) +
        [(GrandTotal, GrandTotalText(|rowsPembelian| + |rowsRenovasi| + |rowsAC| + |rowsCCTV|))]
    {
      var y := DrawSection(ACTitle, rowsAC, y0, prior, n0);
      y := DrawSection(CCTVTitle, rowsCCTV, y, prior, n0);
      DrawGrandTotal(|rowsPembelian| + |rowsRenovasi| + |rowsAC| + |rowsCCTV|, y, prior, n0);
    }

    /** The first page of `writeTo`, headed; nothing drawn yet belongs to the report's content. */
    method Begin() returns (y: int)
      requires Valid()
      modifies this`pageNo, this`current, this`done, this`content
      ensures Finished(pages, old(pageNo)) && OpenPage() && Tracked() && content == []
      ensures y == TopY
    {
      done := [];
      y := NewPage();
      assert heading[..|heading|] == heading;
      assert pages[|pages|..] == [];
      HeadingHasNoContent(title, subtitle);
      assert done + current == heading;
      content := [];
    }

    /** The grand total: its break check, a line, then the total of all rows. */
    method DrawGrandTotal(grand: int, y0: int, ghost prior: seq<Page>, ghost n0: int)
      requires Valid() && Finished(prior, n0) && OpenPage() && Tracked()
      modifies this`pages, this`pageNo, this`current, this`done, this`content
      ensures Finished(prior, n0) && OpenPage() && Tracked()
      ensures content == old(content) + [(GrandTotal, GrandTotalText(grand))]
    {
      var grandText := GrandTotalText(grand);
      var y := MakeRoomKeeping(y0, GrandNeed, prior, n0);
      Put(Rule(y));
      y := y + 8;
      Put(Text(grandText, Margin, y, GrandTotal));
    }
  }

  lemma AllOpsSnoc(ps: seq<Page>, p: Page)
    ensures AllOps(ps + [p]) == AllOps(ps) + p.ops
  {
    assert (ps + [p])[..|ps|] == ps;
  }

  lemma StillOpen(ops: seq<Op>, heading: seq<Op>, op: Op)
    requires Headed(ops, heading) && Fits(ops) && op.y <= Bottom
    ensures Headed(ops + [op], heading) && Fits(ops + [op])
  {
    assert (ops + [op])[..|heading|] == ops[..|heading|];
  }

  lemma ContentAppendOne(ops: seq<Op>, op: Op)
    ensures Content(ops + [op]) == Content(ops) + ItemOf(op)
  {
    assert (ops + [op])[..|ops|] == ops;
  }
}
