/**
 * The search screen (activities/SearchDocumentActivity.kt): a non-blank query is handed to
 * the view model; each answer becomes one row per document, newest first, shown through the
 * type filter. Changing the filter narrows the rows on screen, not the full answer.
 */
module SearchDocument {
  import opened Wrappers
  import Text
  import Lists
  import Models
  import DocumentRepository
  import DocumentList

  const EmptyQueryMessage := "Masukkan nama atau kode unik"
  const NoResultMessage := "Tidak ada hasil"

  /** `etQuery.text?.toString()?.trim().orEmpty()`. */
  function QueryText(text: Option<string>): string
  {
    if text.None? then "" else Text.Trim(text.value)
  }

  /** The rows of one answer: one per document, tagged by its list, newest first. */
  function ResultRows(res: DocumentRepository.SearchResult): seq<DocumentList.Row>
  {
    DocumentList.NewestRowsFirst(DocumentList.AllRows(res.pembelianRumah, res.renovasiRumah, res.pemasanganAc,
                                                      res.pemasanganCctv))
  }

  /**
   * An answer gives as many rows as it has documents, newest first, and a type filter keeps
   * exactly the rows of that type's documents.
   */
  lemma ResultRowsShape(res: DocumentRepository.SearchResult, k: Models.DocKind)
    ensures |ResultRows(res)| == |res.pembelianRumah| + |res.renovasiRumah| + |res.pemasanganAc| + |res.pemasanganCctv|
    ensures Lists.SortedBy(ResultRows(res), DocumentList.RowCreatedAt, Models.NewerOrSame)
    ensures multiset(DocumentList.Filtered(ResultRows(res), Models.TypeName(k))) ==
      multiset(DocumentList.Tagged(Models.TypeName(k), res.Of(k)))
  {
    DocumentList.FilterSortedRows(res.pembelianRumah, res.renovasiRumah, res.pemasanganAc, res.pemasanganCctv, k);
    assert DocumentList.ListOf(k, res.pembelianRumah, res.renovasiRumah, res.pemasanganAc, res.pemasanganCctv) == res.Of(k);
  }

  /**
   * Narrowing what is on screen to one type and then to another shows nothing: the second
   * filter sees only rows of the first type.
   */
  lemma SwitchingTypesShowsNothing(rows: seq<DocumentList.Row>, first: string, second: string)
    requires first != DocumentList.FilterAll && second != DocumentList.FilterAll && first != second
    ensures DocumentList.Filtered(DocumentList.Filtered(rows, first), second) == []
  {
  }

  /** Narrowing twice to the same type changes nothing, and ALL after a type keeps that type's rows. */
  lemma FilterAgain(rows: seq<DocumentList.Row>, filter: string)
    ensures DocumentList.Filtered(DocumentList.Filtered(rows, filter), filter) == DocumentList.Filtered(rows, filter)
    ensures DocumentList.Filtered(DocumentList.Filtered(rows, filter), DocumentList.FilterAll) == DocumentList.Filtered(rows, filter)
  {
    if filter != DocumentList.FilterAll {
      Lists.FilterAllPass(Lists.Filter(rows, DocumentList.OfType(filter)), DocumentList.OfType(filter));
    }
  }

  class SearchScreen {
    var currentFilter: string
    var emptyVisible: bool
    /** The toasts shown, oldest first. */
    var toasts: seq<string>
    /** The queries handed to `viewModel.searchDocuments`, oldest first. */
    var searches: seq<string>
    const adapter: DocumentList.RowAdapter

    constructor()
      ensures currentFilter == DocumentList.FilterAll && toasts == [] && searches == []
      ensures fresh(adapter) && adapter.items == []
    {
      currentFilter := DocumentList.FilterAll;
      emptyVisible := false;
      toasts := [];
      searches := [];
      adapter := new DocumentList.RowAdapter();
    }

    /** `performSearch()`: an empty trimmed query only shows a toast; any other is searched for. */
    method PerformSearch(text: Option<string>)
      modifies this`toasts, this`searches
      ensures QueryText(text) == "" ==> toasts == old(toasts) + [EmptyQueryMessage] && searches == old(searches)
      ensures QueryText(text) != "" ==> searches == old(searches) + [QueryText(text)] && toasts == old(toasts)
    {
      var q := QueryText(text);
      if |q| == 0 {
        toasts := toasts + [EmptyQueryMessage];
        return;
      }
      searches := searches + [q];
    }

    /**
     * `applyFilterAndShow(all)`: the adapter shows the rows of the current filter; when there
     * are none the empty view and a toast say so.
     */
    method ApplyFilterAndShow(all: seq<DocumentList.Row>)
      modifies adapter`items, this`emptyVisible, this`toasts
      ensures adapter.items == DocumentList.Filtered(all, currentFilter)
      ensures emptyVisible <==> adapter.items == []
      ensures toasts == old(toasts) + (if adapter.items == [] then [NoResultMessage] else [])
    {
      var filtered := DocumentList.Filtered(all, currentFilter);
      adapter.Submit(filtered);
      emptyVisible := |filtered| == 0;
      if |filtered| == 0 {
        toasts := toasts + [NoResultMessage];
      }
    }

    /** The `searchResult` observer: the answer's rows, through the current filter. */
    method OnSearchResult(res: DocumentRepository.SearchResult)
      modifies adapter`items, this`emptyVisible, this`toasts
      ensures adapter.items == DocumentList.Filtered(ResultRows(res), currentFilter)
      ensures emptyVisible <==> adapter.items == []
      ensures toasts == old(toasts) + (if adapter.items == [] then [NoResultMessage] else [])
    {
      var rows := ResultRows(res);
      ApplyFilterAndShow(rows);
    }

    /** Picking a dropdown entry sets the filter and re-filters the rows already on screen. */
    method SelectLabel(entry: string)
      modifies this`currentFilter, adapter`items, this`emptyVisible, this`toasts
      ensures currentFilter == DocumentList.FilterOfLabel(entry)
      ensures adapter.items == DocumentList.Filtered(old(adapter.items), currentFilter)
      ensures emptyVisible <==> adapter.items == []
      ensures toasts == old(toasts) + (if adapter.items == [] then [NoResultMessage] else [])
    {
      currentFilter := DocumentList.FilterOfLabel(entry);
      var shown := adapter.items;
      ApplyFilterAndShow(shown);
    }
  }
}
