/**
 * The report list (activities/SimpleReportAdapter.kt): one row per document of the four
 * lists it is given, house purchases first, then renovations, AC and CCTV installations.
 */
module SimpleReportAdapter {
  import Models

  /** `Row(title, subtitle)`. */
  datatype Row = Row(title: string, subtitle: string)

  const PembelianRumahCategory := "Pembelian Rumah"
  const RenovasiRumahCategory := "Renovasi Rumah"
  const PemasanganAcCategory := "Pemasangan AC"
  const PemasanganCctvCategory := "Pemasangan CCTV"
  const Separator := " • "

  /** The row of one document: its code above "<category> • <name>". */
  function RowOf(d: Models.Document, category: string): Row
  {
    Row(d.uniqueCode, category + Separator + d.nama)
  }

  /** `docs.map { Row(...) }`: one row per document, in the list's order. */
  function RowsOf(docs: seq<Models.Document>, category: string): (r: seq<Row>)
    ensures |r| == |docs|
    ensures forall i :: 0 <= i < |docs| ==> r[i] == RowOf(docs[i], category)
  {
    seq(|docs|, i requires 0 <= i < |docs| => RowOf(docs[i], category))
  }

  /** The rows `submit` leaves: the four lists' rows, one list after the other. */
  function Rows(pembelian: seq<Models.Document>, renovasi: seq<Models.Document>, ac: seq<Models.Document>,
                cctv: seq<Models.Document>): seq<Row>
  {
    RowsOf(pembelian, PembelianRumahCategory) + RowsOf(renovasi, RenovasiRumahCategory) +
    RowsOf(ac, PemasanganAcCategory) + RowsOf(cctv, PemasanganCctvCategory)
  }

  /**
   * The rows are the lists' documents in order: row i of the whole is the i-th house
   * purchase, then the renovations from |pembelian| on, and so on; their number is the sum
   * of the four lengths.
   */
  lemma RowsLayout(pembelian: seq<Models.Document>, renovasi: seq<Models.Document>, ac: seq<Models.Document>,
                   cctv: seq<Models.Document>)
    ensures |Rows(pembelian, renovasi, ac, cctv)| == |pembelian| + |renovasi| + |ac| + |cctv|
    ensures forall i :: 0 <= i < |pembelian| ==>
      Rows(pembelian, renovasi, ac, cctv)[i] == RowOf(pembelian[i], PembelianRumahCategory)
    ensures forall i :: 0 <= i < |renovasi| ==>
      Rows(pembelian, renovasi, ac, cctv)[|pembelian| + i] == RowOf(renovasi[i], RenovasiRumahCategory)
    ensures forall i :: 0 <= i < |ac| ==>
      Rows(pembelian, renovasi, ac, cctv)[|pembelian| + |renovasi| + i] == RowOf(ac[i], PemasanganAcCategory)
    ensures forall i :: 0 <= i < |cctv| ==>
      Rows(pembelian, renovasi, ac, cctv)[|pembelian| + |renovasi| + |ac| + i] == RowOf(cctv[i], PemasanganCctvCategory)
  {
    RowsFirst(pembelian, renovasi, ac, cctv);
    RowsSecond(pembelian, renovasi, ac, cctv);
    RowsThird(pembelian, renovasi, ac, cctv);
    RowsFourth(pembelian, renovasi, ac, cctv);
  }

  /** The house purchases come first. */
  lemma RowsFirst(pembelian: seq<Models.Document>, renovasi: seq<Models.Document>, ac: seq<Models.Document>,
                   cctv: seq<Models.Document>)
    ensures forall i :: 0 <= i < |pembelian| ==>
      Rows(pembelian, renovasi, ac, cctv)[i] == RowOf(pembelian[i], PembelianRumahCategory)
  {
    var a := RowsOf(pembelian, PembelianRumahCategory);
    var b := RowsOf(renovasi, RenovasiRumahCategory);
    var c := RowsOf(ac, PemasanganAcCategory);
    var d := RowsOf(cctv, PemasanganCctvCategory);
  }

  /** The renovations follow the house purchases. */
  lemma RowsSecond(pembelian: seq<Models.Document>, renovasi: seq<Models.Document>, ac: seq<Models.Document>,
                   cctv: seq<Models.Document>)
    ensures forall i :: 0 <= i < |renovasi| ==>
      Rows(pembelian, renovasi, ac, cctv)[|pembelian| + i] == RowOf(renovasi[i], RenovasiRumahCategory)
  {
    var a := RowsOf(pembelian, PembelianRumahCategory);
    var b := RowsOf(renovasi, RenovasiRumahCategory);
    var c := RowsOf(ac, PemasanganAcCategory);
    var d := RowsOf(cctv, PemasanganCctvCategory);
    forall i | 0 <= i < |renovasi|
      ensures Rows(pembelian, renovasi, ac, cctv)[|pembelian| + i] == RowOf(renovasi[i], RenovasiRumahCategory)
    {
      AppendAt(a, b, c + d, i);
    }
  }

  /** The AC installations follow the renovations. */
  lemma RowsThird(pembelian: seq<Models.Document>, renovasi: seq<Models.Document>, ac: seq<Models.Document>,
                   cctv: seq<Models.Document>)
    ensures forall i :: 0 <= i < |ac| ==>
      Rows(pembelian, renovasi, ac, cctv)[|pembelian| + |renovasi| + i] == RowOf(ac[i], PemasanganAcCategory)
  {
    var a := RowsOf(pembelian, PembelianRumahCategory);
    var b := RowsOf(renovasi, RenovasiRumahCategory);
    var c := RowsOf(ac, PemasanganAcCategory);
    var d := RowsOf(cctv, PemasanganCctvCategory);
    forall i | 0 <= i < |ac|
      ensures Rows(pembelian, renovasi, ac, cctv)[|pembelian| + |renovasi| + i] == RowOf(ac[i], PemasanganAcCategory)
    {
      AppendAt(a + b, c, d, i);
    }
  }

  /** The CCTV installations come last. */
  lemma RowsFourth(pembelian: seq<Models.Document>, renovasi: seq<Models.Document>, ac: seq<Models.Document>,
                   cctv: seq<Models.Document>)
    ensures forall i :: 0 <= i < |cctv| ==>
      Rows(pembelian, renovasi, ac, cctv)[|pembelian| + |renovasi| + |ac| + i] == RowOf(cctv[i], PemasanganCctvCategory)
  {
    var a := RowsOf(pembelian, PembelianRumahCategory);
    var b := RowsOf(renovasi, RenovasiRumahCategory);
    var c := RowsOf(ac, PemasanganAcCategory);
    var d := RowsOf(cctv, PemasanganCctvCategory);
    forall i | 0 <= i < |cctv|
      ensures Rows(pembelian, renovasi, ac, cctv)[|pembelian| + |renovasi| + |ac| + i] == RowOf(cctv[i], PemasanganCctvCategory)
    {
      AppendAt(a + b + c, d, [], i);
      assert a + b + c + d + [] == a + b + c + d;
    }
  }

  /** The i-th element of the middle part, seen in the whole. */
  lemma AppendAt<T>(a: seq<T>, b: seq<T>, rest: seq<T>, i: nat)
    requires i < |b|
    ensures (a + b + rest)[|a| + i] == b[i]
  {
  }

  class Adapter {
    var items: seq<Row>

    constructor()
      ensures items == []
    {
      items := [];
    }

    /** `getItemCount()`. */
    function ItemCount(): nat
      reads this`items
    {
      |items|
    }

    /**
     * `submit`: the previous rows are dropped and the four lists' rows added in order; the
     * year plays no part.
     */
    method Submit(year: int, pembelian: seq<Models.Document>, renovasi: seq<Models.Document>,
                  ac: seq<Models.Document>, cctv: seq<Models.Document>)
      modifies this`items
      ensures items == Rows(pembelian, renovasi, ac, cctv)
      ensures ItemCount() == |pembelian| + |renovasi| + |ac| + |cctv|
    {
      items := [];
      var a := RowsOf(pembelian, PembelianRumahCategory);
      items := items + a;
      assert items == a;
      var b := RowsOf(renovasi, RenovasiRumahCategory);
      items := items + b;
      var c := RowsOf(ac, PemasanganAcCategory);
      items := items + c;
      var d := RowsOf(cctv, PemasanganCctvCategory);
      items := items + d;
    }

    /** `onBindViewHolder`: the title and subtitle of the row at a position. */
    method OnBindViewHolder(pos: nat) returns (title: string, subtitle: string)
      requires pos < |items|
      ensures Row(title, subtitle) == items[pos]
    {
      var r := items[pos];
      title := r.title;
      subtitle := r.subtitle;
    }
  }
}
