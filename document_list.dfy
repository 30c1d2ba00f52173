/**
 * The document list screen (activities/DocumentListActivity.kt): one row per document of the
 * four lists the view model holds, newest first, narrowed to the type chosen in the dropdown.
 * The list adapter takes the narrowed rows wholesale and the empty view shows exactly when
 * there are none. The row, the dropdown and the adapter are shared with the search screen,
 * which declares identical copies of them.
 */
module DocumentList {
  import opened Wrappers
  import Models
  import Lists

  const FilterAll := "ALL"

  /** `Row(type, code, name, phone, createdAt, raw)`. */
  datatype Row = Row(rowType: string, code: string, name: string, phone: string, createdAt: int, raw: Models.Document)

  function RowOf(t: string, d: Models.Document): Row
  {
    Row(t, d.uniqueCode, d.nama, d.noTelepon, d.createdAt, d)
  }

  /** The rows of one list, each tagged with the list's type. */
  function Tagged(t: string, docs: seq<Models.Document>): seq<Row>
  {
    seq(|docs|, i requires 0 <= i < |docs| => RowOf(t, docs[i]))
  }

  lemma TaggedSnoc(t: string, docs: seq<Models.Document>, i: int)
    requires 0 <= i < |docs|
    ensures Tagged(t, docs[..i + 1]) == Tagged(t, docs[..i]) + [RowOf(t, docs[i])]
  {
  }

  /** A list the view model has not loaded contributes nothing. */
  function OrEmpty(docs: Option<seq<Models.Document>>): seq<Models.Document>
  {
    if docs.None? then [] else docs.value
  }

  /** The rows of the four lists, in category order, before sorting. */
  function AllRows(pembelian: seq<Models.Document>, renovasi: seq<Models.Document>,
                   ac: seq<Models.Document>, cctv: seq<Models.Document>): seq<Row>
  {
    Tagged(Models.TypeName(Models.PembelianRumahKind), pembelian) + Tagged(Models.TypeName(Models.RenovasiRumahKind), renovasi)
      + Tagged(Models.TypeName(Models.PemasanganAcKind), ac) + Tagged(Models.TypeName(Models.PemasanganCctvKind), cctv)
  }

  function RowCreatedAt(r: Row): int { r.createdAt }

  /** `sortedByDescending { it.createdAt }`: newest first, rows created at the same time keep their order. */
  function NewestRowsFirst(rows: seq<Row>): (r: seq<Row>)
    ensures |r| == |rows|
    ensures Lists.SortedBy(r, RowCreatedAt, Models.NewerOrSame)
    ensures multiset(r) == multiset(rows)
    ensures forall t :: Lists.WithKey(r, RowCreatedAt, t) == Lists.WithKey(rows, RowCreatedAt, t)
  {
    Models.NewerOrSameTotalOrder();
    Lists.SortBySorted(rows, RowCreatedAt, Models.NewerOrSame);
    Lists.SortByPermutes(rows, RowCreatedAt, Models.NewerOrSame);
    Lists.SortByStableAll(rows, RowCreatedAt, Models.NewerOrSame);
    Lists.SortBy(rows, RowCreatedAt, Models.NewerOrSame)
  }

  function OfType(t: string): Row -> bool
  {
    (r: Row) => r.rowType == t
  }

  /** `if (currentFilter == FILTER_ALL) all else all.filter { it.type == currentFilter }`. */
  function Filtered(rows: seq<Row>, filter: string): (r: seq<Row>)
    ensures filter == FilterAll ==> r == rows
    ensures filter != FilterAll ==> forall x :: x in r <==> x in rows && x.rowType == filter
  {
    if filter == FilterAll then rows else Lists.Filter(rows, OfType(filter))
  }

  /** A specific filter keeps the rows of its type in their order: a subsequence, of that type only. */
  lemma FilteredKeepsOrder(rows: seq<Row>, filter: string)
    ensures Lists.Subsequence(Filtered(rows, filter), rows)
    ensures filter != FilterAll ==> forall i :: 0 <= i < |Filtered(rows, filter)| ==> Filtered(rows, filter)[i].rowType == filter
  {
    if filter == FilterAll {
      Lists.SubsequenceRefl(rows);
    } else {
      Lists.FilterSubsequence(rows, OfType(filter));
    }
  }

  /** Filtering rows of one list keeps all of them under their own type and none under another. */
  lemma {:induction false} FilterTagged(t: string, docs: seq<Models.Document>, filter: string)
    requires filter != FilterAll
    ensures Filtered(Tagged(t, docs), filter) == if t == filter then Tagged(t, docs) else []
    decreases |docs|
  {
    if docs != [] {
      FilterTagged(t, docs[1..], filter);
      assert Tagged(t, docs)[1..] == Tagged(t, docs[1..]);
    }
  }

  /** The list of the given kind. */
  function ListOf(k: Models.DocKind, pembelian: seq<Models.Document>, renovasi: seq<Models.Document>,
                  ac: seq<Models.Document>, cctv: seq<Models.Document>): seq<Models.Document>
  {
    match k
    case PembelianRumahKind => pembelian
    case RenovasiRumahKind => renovasi
    case PemasanganAcKind => ac
    case PemasanganCctvKind => cctv
  }

  /** The type names of distinct kinds differ. */
  lemma TypeNameInjective(k1: Models.DocKind, k2: Models.DocKind)
    ensures Models.TypeName(k1) == Models.TypeName(k2) ==> k1 == k2
  {
    var r := Models.KindOfType(Models.TypeName(k1));
  }

  lemma FilterTaggedKind(k: Models.DocKind, j: Models.DocKind, docs: seq<Models.Document>)
    ensures Filtered(Tagged(Models.TypeName(j), docs), Models.TypeName(k)) == if j == k then Tagged(Models.TypeName(j), docs) else []
  {
    TypeNameInjective(j, k);
    assert Models.TypeName(k) != FilterAll by {
      assert Models.TypeName(k)[0] == 'P' || Models.TypeName(k)[0] == 'R';
    }
    FilterTagged(Models.TypeName(j), docs, Models.TypeName(k));
  }

  /**
   * Before sorting, a type filter shows exactly the rows made from that type's list, in its
   * order; so one row per document, tagged with the list it came from.
   */
  lemma FilterAllRows(pembelian: seq<Models.Document>, renovasi: seq<Models.Document>,
                      ac: seq<Models.Document>, cctv: seq<Models.Document>, k: Models.DocKind)
    ensures Filtered(AllRows(pembelian, renovasi, ac, cctv), Models.TypeName(k)) ==
      Tagged(Models.TypeName(k), ListOf(k, pembelian, renovasi, ac, cctv))
  {
    var f := Models.TypeName(k);
    var p, r, a, c := Tagged(Models.TypeName(Models.PembelianRumahKind), pembelian),
      Tagged(Models.TypeName(Models.RenovasiRumahKind), renovasi),
      Tagged(Models.TypeName(Models.PemasanganAcKind), ac), Tagged(Models.TypeName(Models.PemasanganCctvKind), cctv);
    assert f != FilterAll by {
      assert f[0] == 'P' || f[0] == 'R';
    }
    Lists.FilterAppend(p + r + a, c, OfType(f));
    Lists.FilterAppend(p + r, a, OfType(f));
    Lists.FilterAppend(p, r, OfType(f));
    var fp, fr, fa, fc := Filtered(p, f), Filtered(r, f), Filtered(a, f), Filtered(c, f);
    assert Filtered(AllRows(pembelian, renovasi, ac, cctv), f) == fp + fr + fa + fc;
    FilterTaggedKind(k, Models.PembelianRumahKind, pembelian);
    FilterTaggedKind(k, Models.RenovasiRumahKind, renovasi);
    FilterTaggedKind(k, Models.PemasanganAcKind, ac);
    FilterTaggedKind(k, Models.PemasanganCctvKind, cctv);
    OnlyOne(fp, fr, fa, fc);
  }

  /** Four pieces of which all but one are empty join to that one. */
  lemma OnlyOne<T>(a: seq<T>, b: seq<T>, c: seq<T>, d: seq<T>)
    ensures b == [] && c == [] && d == [] ==> a + b + c + d == a
    ensures a == [] && c == [] && d == [] ==> a + b + c + d == b
    ensures a == [] && b == [] && d == [] ==> a + b + c + d == c
    ensures a == [] && b == [] && c == [] ==> a + b + c + d == d
  {
  }

  /** Filtering commutes with reordering: a permutation keeps the multiset of the rows a filter keeps. */
  lemma {:induction false} FilterCount(xs: seq<Row>, p: Row -> bool, x: Row)
    ensures multiset(Lists.Filter(xs, p))[x] == if p(x) then multiset(xs)[x] else 0
    decreases |xs|
  {
    if xs != [] {
      FilterCount(xs[1..], p, x);
      assert xs == [xs[0]] + xs[1..];
    }
  }

  /**
   * After sorting, a type filter shows the documents of that type's list, each exactly as
   * many times as the list holds it, and no other row.
   */
  lemma FilterSortedRows(pembelian: seq<Models.Document>, renovasi: seq<Models.Document>,
                         ac: seq<Models.Document>, cctv: seq<Models.Document>, k: Models.DocKind)
    ensures multiset(Filtered(NewestRowsFirst(AllRows(pembelian, renovasi, ac, cctv)), Models.TypeName(k))) ==
      multiset(Tagged(Models.TypeName(k), ListOf(k, pembelian, renovasi, ac, cctv)))
  {
    var rows := AllRows(pembelian, renovasi, ac, cctv);
    var f := Models.TypeName(k);
    FilterAllRows(pembelian, renovasi, ac, cctv, k);
    forall x ensures multiset(Filtered(NewestRowsFirst(rows), f))[x] == multiset(Filtered(rows, f))[x] {
      FilterCount(NewestRowsFirst(rows), OfType(f), x);
      FilterCount(rows, OfType(f), x);
    }
  }

  /** The dropdown: a label maps to its filter; an unknown label to ALL. */
  function FilterOfLabel(entry: string): (r: string)
    ensures entry == "All" ==> r == FilterAll
    ensures entry == "Pembelian Rumah" ==> r == Models.DocTypePembelianRumah
    ensures entry == "Renovasi Rumah" ==> r == Models.DocTypeRenovasiRumah
    ensures entry == "Pemasangan AC" ==> r == Models.DocTypePemasanganAc
    ensures entry == "Pemasangan CCTV" ==> r == Models.DocTypePemasanganCctv
    ensures entry !in ["All", "Pembelian Rumah", "Renovasi Rumah", "Pemasangan AC", "Pemasangan CCTV"] ==> r == FilterAll
    ensures r == FilterAll || Models.KindOfType(r).Some?
  {
    var m := map["All" := FilterAll, "Pembelian Rumah" := Models.DocTypePembelianRumah,
                 "Renovasi Rumah" := Models.DocTypeRenovasiRumah, "Pemasangan AC" := Models.DocTypePemasanganAc,
                 "Pemasangan CCTV" := Models.DocTypePemasanganCctv];
    if entry in m then m[entry] else FilterAll
  }

  /** The `forEach { rows.add(Row(type, ...)) }` over one list. */
  method AppendTagged(rows: seq<Row>, t: string, docs: seq<Models.Document>) returns (out: seq<Row>)
    ensures out == rows + Tagged(t, docs)
  {
    out := rows;
    for i := 0 to |docs|
      invariant out == rows + Tagged(t, docs[..i])
    {
      TaggedSnoc(t, docs, i);
      out := out + [RowOf(t, docs[i])];
    }
    assert docs[..|docs|] == docs;
  }

  /** One `?.forEach`: a list not loaded adds nothing. */
  method AppendLoaded(rows: seq<Row>, t: string, docs: Option<seq<Models.Document>>) returns (out: seq<Row>)
    ensures out == rows + Tagged(t, OrEmpty(docs))
  {
    if docs.Some? {
      out := AppendTagged(rows, t, docs.value);
    } else {
      out := rows;
      assert Tagged(t, []) == [];
    }
  }

  lemma EmptyPrefix<T>(xs: seq<T>)
    ensures [] + xs == xs
  {
  }

  /** `RowAdapter`: the rows on screen. */
  class RowAdapter {
    var items: seq<Row>

    constructor()
      ensures items == []
    {
      items := [];
    }

    /** `submit(newItems)`: the old items are cleared and the new ones added, in order. */
    method Submit(newItems: seq<Row>)
      modifies this`items
      ensures items == newItems
    {
      items := [];
      items := items + newItems;
    }
  }

  class DocumentListScreen {
    var allRows: seq<Row>
    var currentFilter: string
    var emptyVisible: bool
    const adapter: RowAdapter

    constructor()
      ensures allRows == [] && currentFilter == FilterAll && adapter.items == [] && fresh(adapter)
    {
      allRows := [];
      currentFilter := FilterAll;
      emptyVisible := false;
      adapter := new RowAdapter();
    }

    /** Picking a dropdown entry only changes the filter; the rows change on the next apply. */
    method SelectLabel(entry: string)
      modifies this`currentFilter
      ensures currentFilter == FilterOfLabel(entry)
    {
      currentFilter := FilterOfLabel(entry);
    }

    /** `applyFilterAndShow()`: the adapter shows the filtered rows; the empty view iff there are none. */
    method ApplyFilterAndShow()
      modifies adapter`items, this`emptyVisible
      ensures adapter.items == Filtered(allRows, currentFilter)
      ensures emptyVisible <==> adapter.items == []
    {
      var filtered := Filtered(allRows, currentFilter);
      adapter.Submit(filtered);
      emptyVisible := |filtered| == 0;
    }

    /** `rebuildRows()`: one row per loaded document, newest first, then shown through the filter. */
    method RebuildRows(pembelian: Option<seq<Models.Document>>, renovasi: Option<seq<Models.Document>>,
                       ac: Option<seq<Models.Document>>, cctv: Option<seq<Models.Document>>)
      modifies this`allRows, adapter`items, this`emptyVisible
      ensures allRows == NewestRowsFirst(AllRows(OrEmpty(pembelian), OrEmpty(renovasi), OrEmpty(ac), OrEmpty(cctv)))
      ensures adapter.items == Filtered(allRows, currentFilter)
      ensures emptyVisible <==> adapter.items == []
    {
      var rows: seq<Row> := [];
      rows := AppendLoaded(rows, Models.TypeName(Models.PembelianRumahKind), pembelian);
      rows := AppendLoaded(rows, Models.TypeName(Models.RenovasiRumahKind), renovasi);
      rows := AppendLoaded(rows, Models.TypeName(Models.PemasanganAcKind), ac);
      rows := AppendLoaded(rows, Models.TypeName(Models.PemasanganCctvKind), cctv);
      EmptyPrefix(Tagged(Models.TypeName(Models.PembelianRumahKind), OrEmpty(pembelian)));
      allRows := NewestRowsFirst(rows);
      ApplyFilterAndShow();
    }
  }
}
