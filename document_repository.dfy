/**
 * The document store (repositories/DocumentRepository.kt): one collection per document kind,
 * held in memory in the order the backend returns documents when no order is asked for.
 * Saving creates or updates a record, deleting only marks it deleted, listing walks a chain of
 * fallback queries, searching matches name and code, and the monthly report counts records.
 * The clock, the fresh document id, the signed-in uid and the outcome of each backend call
 * are parameters.
 */
module DocumentRepository {
  import opened Wrappers
  import opened Models
  import Text
  import Lists

  const StatusActive := "active"
  const StatusDeleted := "deleted"

  /** `ifEmpty { default }`. */
  function IfEmpty(s: string, default: string): (r: string)
    ensures s == [] ==> r == default
    ensures s != [] ==> r == s
  {
    if s == [] then default else s
  }

  /**
   * The record `save*` writes: a record with an empty id is created under the fresh id, with
   * its creation time, author and status filled in where missing; any other record keeps
   * everything but the update time and updater.
   */
  function Upserted(data: Document, freshId: string, now: int, currentUid: Option<string>): (r: Document)
    ensures r.Kind() == data.Kind()
    ensures r.updatedAt == now && r.updatedBy == currentUid.GetOr("")
    ensures data.id == "" ==>
      && r.id == freshId
      && r.createdAt == (if data.createdAt == 0 then now else data.createdAt)
      && r.createdBy == IfEmpty(data.createdBy, currentUid.GetOr(""))
      && r.status == IfEmpty(data.status, StatusActive)
      && r.(id := data.id, createdAt := data.createdAt, createdBy := data.createdBy, status := data.status,
            updatedAt := data.updatedAt, updatedBy := data.updatedBy) == data
    ensures data.id != "" ==> r.(updatedAt := data.updatedAt, updatedBy := data.updatedBy) == data
  {
    var uid := currentUid.GetOr("");
    if data.id == "" then
      data.(id := freshId, createdAt := if data.createdAt == 0 then now else data.createdAt,
            createdBy := IfEmpty(data.createdBy, uid), updatedAt := now, updatedBy := uid,
            status := IfEmpty(data.status, StatusActive))
    else data.(updatedAt := now, updatedBy := uid)
  }

  /** An update keeps the id, code, creation fields and status, so an edit never revives or renames a record. */
  lemma UpdateKeepsIdentity(data: Document, freshId: string, now: int, currentUid: Option<string>)
    requires data.id != ""
    ensures var r := Upserted(data, freshId, now, currentUid);
      && r.id == data.id && r.uniqueCode == data.uniqueCode && r.createdAt == data.createdAt
      && r.createdBy == data.createdBy && r.status == data.status && r.attachments == data.attachments
  {
    var r := Upserted(data, freshId, now, currentUid);
    assert r.(updatedAt := data.updatedAt, updatedBy := data.updatedBy) == data;
  }

  /** A created record is listed: its status is "active" unless the caller chose one. */
  lemma CreateIsActive(data: Document, freshId: string, now: int, currentUid: Option<string>)
    requires data.id == "" && data.status == ""
    ensures Upserted(data, freshId, now, currentUid).status == StatusActive
  {
  }

  predicate HasDocId(docs: seq<Document>, id: string)
  {
    exists i :: 0 <= i < |docs| && docs[i].id == id
  }

  /** The collection with every record whose id is d's replaced by d. */
  function ReplaceById(docs: seq<Document>, d: Document): (r: seq<Document>)
    ensures |r| == |docs|
    ensures forall i :: 0 <= i < |docs| ==> r[i] == if docs[i].id == d.id then d else docs[i]
  {
    seq(|docs|, i requires 0 <= i < |docs| => if docs[i].id == d.id then d else docs[i])
  }

  lemma ReplaceByIdContents(docs: seq<Document>, d: Document)
    ensures HasDocId(docs, d.id) ==> d in ReplaceById(docs, d)
    ensures forall x :: x in docs && x.id != d.id ==> x in ReplaceById(docs, d)
  {
    var r := ReplaceById(docs, d);
    if HasDocId(docs, d.id) {
      var j :| 0 <= j < |docs| && docs[j].id == d.id;
      assert r[j] == d;
    }
    forall x | x in docs && x.id != d.id ensures x in r {
      var j :| 0 <= j < |docs| && docs[j] == x;
      assert r[j] == x;
    }
  }

  /** `set(record)` on document id: replaces the record with that id, or adds it at the end. */
  function Written(docs: seq<Document>, d: Document): (r: seq<Document>)
    ensures d in r
    ensures forall x :: x in r ==> x == d || (x in docs && x.id != d.id)
    ensures forall x :: x in docs && x.id != d.id ==> x in r
    ensures HasDocId(docs, d.id) ==> |r| == |docs|
    ensures !HasDocId(docs, d.id) ==> r == docs + [d]
  {
    ReplaceByIdContents(docs, d);
    if HasDocId(docs, d.id) then ReplaceById(docs, d) else docs + [d]
  }

  /** The record after `update("status", "deleted", "updatedAt", now)`. */
  function SoftDeleted(d: Document, now: int): (r: Document)
    ensures r.status == StatusDeleted && r.updatedAt == now && r.Kind() == d.Kind()
    ensures r.(status := d.status, updatedAt := d.updatedAt) == d
  {
    d.(status := StatusDeleted, updatedAt := now)
  }

  /** The collection with record id soft-deleted; every record stays. */
  function DeleteIn(docs: seq<Document>, id: string, now: int): (r: seq<Document>)
    ensures |r| == |docs|
    ensures forall i :: 0 <= i < |docs| ==> r[i] == (if docs[i].id == id then SoftDeleted(docs[i], now) else docs[i])
  {
    seq(|docs|, i requires 0 <= i < |docs| => if docs[i].id == id then SoftDeleted(docs[i], now) else docs[i])
  }

  predicate IsActive(d: Document) { d.status == StatusActive }

  /** `whereEqualTo("status", "active")`, in collection order. */
  function ActiveDocs(docs: seq<Document>): (r: seq<Document>)
    ensures forall d :: d in r <==> d in docs && IsActive(d)
  {
    Lists.Filter(docs, IsActive)
  }

  /** The last fallback's filter: a status equal to "active" in any case. */
  predicate LooselyActive(d: Document) { Text.EqualsIgnoreCase(d.status, StatusActive) }

  /** Which of the four queries of `getAllWithFallback` throw. */
  datatype QueryFailures = QueryFailures(ordered: bool, active: bool, orderedAll: bool, all: bool)

  /**
   * `getAllWithFallback`: the first non-empty answer of (1) active records newest first,
   * (2) active records, (3) all records newest first, then (4) all records whose status is
   * "active" in any case, or nothing when that last query throws. A query that throws counts
   * as an empty answer.
   */
  function GetAllWithFallback(docs: seq<Document>, fails: QueryFailures): (r: seq<Document>)
    ensures forall d :: d in r ==> d in docs
    ensures !fails.ordered && ActiveDocs(docs) != [] ==> r == NewestFirst(ActiveDocs(docs))
    ensures (fails.ordered || ActiveDocs(docs) == []) && !fails.active && ActiveDocs(docs) != [] ==>
      r == ActiveDocs(docs)
    ensures ActiveDocs(docs) == [] && !fails.orderedAll ==> r == NewestFirst(docs)
    ensures !fails.orderedAll ==> (r == [] <==> docs == [])
    ensures (forall d :: d in r ==> !IsActive(d)) ==> ActiveDocs(docs) == [] || (fails.ordered && fails.active)
  {
    var active := ActiveDocs(docs);
    if !fails.ordered && NewestFirst(active) != [] then
      assert forall d :: d in NewestFirst(active) ==> d in multiset(active);
      NewestFirst(active)
    else if !fails.active && active != [] then
      assert active[0] in active;
      active
    else if !fails.orderedAll && NewestFirst(docs) != [] then
      assert forall d :: d in NewestFirst(docs) ==> d in multiset(docs);
      NewestFirst(docs)
    else if fails.all then []
    else Lists.Filter(docs, LooselyActive)
  }

  /**
   * When every record of a collection is deleted and the queries succeed, the listing holds
   * deleted records: the unfiltered third query answers before the status is checked again.
   */
  lemma FallbackShowsDeleted(docs: seq<Document>)
    requires docs != [] && forall d :: d in docs ==> d.status == StatusDeleted
    ensures var r := GetAllWithFallback(docs, QueryFailures(false, false, false, false));
      r != [] && forall d :: d in r ==> d.status == StatusDeleted
  {
  }

  /** `contains(query, ignoreCase = true)`. */
  predicate ContainsIgnoreCase(s: string, query: string)
  {
    Text.Contains(Text.Lower(s), Text.Lower(query))
  }

  /** The search rule: the name or the unique code contains the query, ignoring case. */
  predicate SearchMatch(d: Document, query: string)
  {
    ContainsIgnoreCase(d.nama, query) || ContainsIgnoreCase(d.uniqueCode, query)
  }

  /** The matching records of a query answer, in answer order. */
  function Matching(docs: seq<Document>, query: string): (r: seq<Document>)
    ensures forall d :: d in r <==> d in docs && SearchMatch(d, query)
    ensures |r| <= |docs|
  {
    if docs == [] then []
    else
      var init := docs[..|docs| - 1];
      var last := docs[|docs| - 1];
      assert docs == init + [last];
      Matching(init, query) + (if SearchMatch(last, query) then [last] else [])
  }

  /** The `searchDocuments` answer, one list per kind. */
  datatype SearchResult = SearchResult(pembelianRumah: seq<Document>, renovasiRumah: seq<Document>,
                                       pemasanganAc: seq<Document>, pemasanganCctv: seq<Document>)
  {
    function Of(k: DocKind): seq<Document>
    {
      match k
      case PembelianRumahKind => pembelianRumah
      case RenovasiRumahKind => renovasiRumah
      case PemasanganAcKind => pemasanganAc
      case PemasanganCctvKind => pemasanganCctv
    }
  }

  /** The position of a kind in the order the screens and queries visit them. */
  function KindIndex(k: DocKind): (r: nat)
    ensures r < 4 && AllKinds[r] == k
  {
    match k
    case PembelianRumahKind => 0
    case RenovasiRumahKind => 1
    case PemasanganAcKind => 2
    case PemasanganCctvKind => 3
  }

  /** The report `generateMonthlyReport` returns. */
  datatype MonthlyReport = MonthlyReport(month: string, year: string, totalDocuments: int,
                                         pembelianRumahCount: int, renovasiRumahCount: int,
                                         pemasanganAcCount: int, pemasanganCctvCount: int,
                                         generatedAt: int, generatedBy: string)

  /** The records the monthly query counts: active, created in [start, end]. */
  predicate InMonth(d: Document, start: int, end: int)
  {
    IsActive(d) && start <= d.createdAt <= end
  }

  function CountInMonth(docs: seq<Document>, start: int, end: int): (r: nat)
    ensures r <= |docs|
    ensures r == 0 <==> forall d :: d in docs ==> !InMonth(d, start, end)
  {
    if docs == [] then 0
    else (if InMonth(docs[0], start, end) then 1 else 0) + CountInMonth(docs[1..], start, end)
  }

  class DocumentRepository {
    var pembelianRumah: seq<Document>
    var renovasiRumah: seq<Document>
    var pemasanganAc: seq<Document>
    var pemasanganCctv: seq<Document>

    constructor(pembelianRumah: seq<Document>, renovasiRumah: seq<Document>,
                pemasanganAc: seq<Document>, pemasanganCctv: seq<Document>)
      ensures this.pembelianRumah == pembelianRumah && this.renovasiRumah == renovasiRumah
      ensures this.pemasanganAc == pemasanganAc && this.pemasanganCctv == pemasanganCctv
    {
      this.pembelianRumah := pembelianRumah;
      this.renovasiRumah := renovasiRumah;
      this.pemasanganAc := pemasanganAc;
      this.pemasanganCctv := pemasanganCctv;
    }

    /** The collection of a kind. */
    function Collection(k: DocKind): seq<Document>
      reads this
    {
      match k
      case PembelianRumahKind => pembelianRumah
      case RenovasiRumahKind => renovasiRumah
      case PemasanganAcKind => pemasanganAc
      case PemasanganCctvKind => pemasanganCctv
    }

    /** Every collection holds records of its own kind only. */
    ghost predicate Valid()
      reads this
    {
      forall k: DocKind, d :: d in Collection(k) ==> d.Kind() == k
    }

    method SetCollection(k: DocKind, docs: seq<Document>)
      modifies this
      ensures Collection(k) == docs
      ensures forall j :: j != k ==> Collection(j) == old(Collection(j))
    {
      match k
      case PembelianRumahKind => pembelianRumah := docs;
      case RenovasiRumahKind => renovasiRumah := docs;
      case PemasanganAcKind => pemasanganAc := docs;
      case PemasanganCctvKind => pemasanganCctv := docs;
    }

    /**
     * `save*(data)`: writes the upserted record into the collection of its kind and returns
     * its id; a failed write (`writeError`) changes nothing.
     */
    method Save(data: Document, freshId: string, now: int, currentUid: Option<string>, writeError: Option<string>)
      returns (r: Result<string>)
      requires Valid()
      modifies this
      ensures Valid()
      ensures writeError.Some? ==> r == Failure(writeError.value) && Collection(data.Kind()) == old(Collection(data.Kind()))
      ensures writeError.None? ==>
        && r == Success(if data.id == "" then freshId else data.id)
        && Collection(data.Kind()) == Written(old(Collection(data.Kind())), Upserted(data, freshId, now, currentUid))
      ensures forall k :: k != data.Kind() ==> Collection(k) == old(Collection(k))
    {
      if writeError.Some? {
        return Failure(writeError.value);
      }
      var k := data.Kind();
      var saved := Upserted(data, freshId, now, currentUid);
      SetCollection(k, Written(Collection(k), saved));
      r := Success(saved.id);
    }

    /**
     * `delete*(id)`: marks record id of kind k deleted and stamps it. The update fails,
     * changing nothing, when the collection has no such record or when the write itself throws
     * (`writeError`, the backend's outcome for an existing record).
     */
    method Delete(k: DocKind, id: string, now: int, writeError: Option<string>) returns (ok: bool)
      requires Valid()
      modifies this
      ensures Valid()
      ensures ok <==> (exists i :: 0 <= i < |old(Collection(k))| && old(Collection(k))[i].id == id) && writeError.None?
      ensures Collection(k) == if ok then DeleteIn(old(Collection(k)), id, now) else old(Collection(k))
      ensures forall j :: j != k ==> Collection(j) == old(Collection(j))
    {
      ok := writeError.None? && exists i :: 0 <= i < |Collection(k)| && Collection(k)[i].id == id;
      if ok {
        var after := DeleteIn(Collection(k), id, now);
        assert forall d :: d in after ==> d.Kind() == k;
        SetCollection(k, after);
      }
    }

    /** `getAll*()`. */
    function GetAll(k: DocKind, fails: QueryFailures): seq<Document>
      reads this
    {
      GetAllWithFallback(Collection(k), fails)
    }

    /** One `forEach` of `searchDocuments`: the matching records of a query answer. */
    static method CollectMatches(docs: seq<Document>, query: string) returns (out: seq<Document>)
      ensures out == Matching(docs, query)
    {
      out := [];
      var i := 0;
      while i < |docs|
        invariant 0 <= i <= |docs|
        invariant out == Matching(docs[..i], query)
      {
        assert docs[..i + 1][..i] == docs[..i];
        if SearchMatch(docs[i], query) {
          out := out + [docs[i]];
        }
        i := i + 1;
      }
      assert docs[..|docs|] == docs;
    }

    /**
     * `searchDocuments(query)`: for each kind in turn, the active records whose name or code
     * contains the query. The kinds from `failAt` on are not searched: their query throws
     * (or one before it did), and their lists stay empty.
     */
    method SearchDocuments(query: string, failAt: nat) returns (res: SearchResult)
      ensures forall k :: res.Of(k) == if KindIndex(k) < failAt then Matching(ActiveDocs(Collection(k)), query) else []
    {
      var lists: seq<seq<Document>> := [[], [], [], []];
      var i := 0;
      while i < 4 && i < failAt
        invariant 0 <= i <= 4 && |lists| == 4
        invariant i <= failAt
        invariant forall j :: 0 <= j < 4 ==>
          lists[j] == if j < i then Matching(ActiveDocs(Collection(AllKinds[j])), query) else []
      {
        var found := CollectMatches(ActiveDocs(Collection(AllKinds[i])), query);
        lists := lists[i := found];
        i := i + 1;
      }
      res := SearchResult(lists[0], lists[1], lists[2], lists[3]);
      forall k ensures res.Of(k) == if KindIndex(k) < failAt then Matching(ActiveDocs(Collection(k)), query) else [] {
        assert AllKinds[KindIndex(k)] == k;
      }
    }

    /**
     * `generateMonthlyReport(year, month)` over [start, end]: the count of each kind, and
     * their sum. The counts from `failAt` on stay 0: their query throws, or an earlier
     * one did.
     */
    function GenerateMonthlyReport(year: int, month: int, start: int, end: int, failAt: nat, now: int,
                                   currentUid: Option<string>): (r: MonthlyReport)
      reads this
      ensures r.totalDocuments == r.pembelianRumahCount + r.renovasiRumahCount + r.pemasanganAcCount + r.pemasanganCctvCount
      ensures r.pembelianRumahCount == (if failAt > 0 then CountInMonth(pembelianRumah, start, end) else 0)
      ensures r.renovasiRumahCount == (if failAt > 1 then CountInMonth(renovasiRumah, start, end) else 0)
      ensures r.pemasanganAcCount == (if failAt > 2 then CountInMonth(pemasanganAc, start, end) else 0)
      ensures r.pemasanganCctvCount == (if failAt > 3 then CountInMonth(pemasanganCctv, start, end) else 0)
      ensures r.month == Text.PadStart(Text.IntToString(month), 2, '0') && r.year == Text.IntToString(year)
      ensures 0 <= month < 10 ==> |r.month| == 2 && r.month[0] == '0'
      ensures r.generatedAt == now && r.generatedBy == currentUid.GetOr("")
    {
      var pr := if failAt > 0 then CountInMonth(pembelianRumah, start, end) else 0;
      var rr := if failAt > 1 then CountInMonth(renovasiRumah, start, end) else 0;
      var ac := if failAt > 2 then CountInMonth(pemasanganAc, start, end) else 0;
      var cc := if failAt > 3 then CountInMonth(pemasanganCctv, start, end) else 0;
      MonthlyReport(Text.PadStart(Text.IntToString(month), 2, '0'), Text.IntToString(year),
                    pr + rr + ac + cc, pr, rr, ac, cc, now, currentUid.GetOr(""))
    }
  }
}
