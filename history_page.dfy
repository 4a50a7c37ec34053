/** The history page: the loaded (possibly searched) records split into pages of
    ten, the page number kept within the pages that exist, the reload and return
    to page 1 when the search text changes, and the confirm dialog that deletes
    one record or clears them all. */
module HistoryPage {
  import opened Wrappers
  import opened Model
  import opened Ingest
  import opened HistoryService

  // ===========================================================================
  // Pages
  // ===========================================================================

  /** `itemsPerPage`. */
  const ItemsPerPage: nat := 10

  /** `Math.ceil(n / itemsPerPage)`: the fewest pages of ten that hold `n` records. */
  function TotalPages(n: nat): (r: nat)
    ensures n <= r * ItemsPerPage
    ensures r > 0 ==> (r - 1) * ItemsPerPage < n
    ensures r == 0 <==> n == 0
  {
    (n + ItemsPerPage - 1) / ItemsPerPage
  }

  /** How `Array.prototype.slice` reads an index: a negative one counts from the
      end, and the result is clamped to `0..len`. */
  function SliceIndex(i: int, len: nat): (r: nat)
    ensures r <= len
    ensures 0 <= i <= len ==> r == i
    ensures i > len ==> r == len
  {
    if i < 0 then (if len + i < 0 then 0 else len + i)
    else if i > len then len
    else i
  }

  /** `s.slice(start, end)`. */
  function JsSlice<T>(s: seq<T>, start: int, end: int): seq<T>
  {
    var a, b := SliceIndex(start, |s|), SliceIndex(end, |s|);
    if a < b then s[a..b] else []
  }

  /** `getCurrentPageItems` for page `page`. */
  function PageItems(items: seq<HistoryItem>, page: int): seq<HistoryItem>
  {
    var startIndex := (page - 1) * ItemsPerPage;
    JsSlice(items, startIndex, startIndex + ItemsPerPage)
  }

  /** Page `p` holds the records from `(p-1)*10` up to `p*10`, clipped to the list:
      at most ten, in their order in the list. */
  lemma PageItemsWithinList(items: seq<HistoryItem>, page: int)
    requires page >= 1
    ensures var lo := Min((page - 1) * ItemsPerPage, |items|);
      var hi := Min(page * ItemsPerPage, |items|);
      && PageItems(items, page) == items[lo..hi]
      && |PageItems(items, page)| <= ItemsPerPage
      && forall k :: 0 <= k < |PageItems(items, page)| ==>
           PageItems(items, page)[k] == items[(page - 1) * ItemsPerPage + k]
  {
    var lo := Min((page - 1) * ItemsPerPage, |items|);
    var hi := Min(page * ItemsPerPage, |items|);
    assert SliceIndex((page - 1) * ItemsPerPage, |items|) == lo;
    assert SliceIndex((page - 1) * ItemsPerPage + ItemsPerPage, |items|) == hi;
  }

  /** Pages after the last one are empty, and every page up to the last one is
      not. */
  lemma PageNonEmptyIff(items: seq<HistoryItem>, page: int)
    requires page >= 1
    ensures PageItems(items, page) != [] <==> page <= TotalPages(|items|)
  {
    PageItemsWithinList(items, page);
  }

  /** Pages `1..k` put together in order. */
  function Pages(items: seq<HistoryItem>, k: nat): seq<HistoryItem>
  {
    if k == 0 then [] else Pages(items, k - 1) + PageItems(items, k)
  }

  /** The first `k` pages are the first `10 * k` records. */
  lemma {:induction false} PagesArePrefix(items: seq<HistoryItem>, k: nat)
    ensures Pages(items, k) == items[..Min(k * ItemsPerPage, |items|)]
  {
    if k > 0 {
      PagesArePrefix(items, k - 1);
      PageItemsWithinList(items, k);
      var lo := Min((k - 1) * ItemsPerPage, |items|);
      var hi := Min(k * ItemsPerPage, |items|);
      assert items[..lo] + items[lo..hi] == items[..hi];
    }
  }

  /** Putting pages `1..totalPages` together gives back every record, once, in
      order. */
  lemma PagesReassemble(items: seq<HistoryItem>)
    ensures Pages(items, TotalPages(|items|)) == items
  {
    PagesArePrefix(items, TotalPages(|items|));
  }

  // ===========================================================================
  // The page state
  // ===========================================================================

  class HistoryPage {
    /** The history store the page reads and writes. */
    const store: HistoryStore
    /** `searchText`. */
    var searchText: string
    /** `currentPage`. */
    var currentPage: int
    /** `historyItems`: the records last loaded. */
    var historyItems: seq<HistoryItem>
    /** `selectedItemId`: the record the dialog would delete, `null` for all. */
    var selectedItemId: Option<string>
    /** `showConfirmDialog`. */
    var showConfirmDialog: bool
    /** `showSuccessToast` (its two-second timer is not modelled). */
    var showSuccessToast: bool

    /** The store keeps its bound, and the page number is at least 1. */
    ghost predicate Valid()
      reads this, store
    {
      store.Valid() && currentPage >= 1
    }

    /** The state before the effects run. */
    constructor(store: HistoryStore)
      requires store.Valid()
      ensures this.store == store && Valid()
      ensures searchText == "" && currentPage == 1 && historyItems == []
      ensures selectedItemId == None && !showConfirmDialog && !showSuccessToast
    {
      this.store := store;
      searchText := "";
      currentPage := 1;
      historyItems := [];
      selectedItemId := None;
      showConfirmDialog := false;
      showSuccessToast := false;
    }

    /** `totalPages` for the loaded records. */
    function PageCount(): nat
      reads this
    {
      TotalPages(|historyItems|)
    }

    /** `currentPageItems`. */
    function CurrentPageItems(): seq<HistoryItem>
      reads this
    {
      PageItems(historyItems, currentPage)
    }

    /** `loadHistory`: all records for an empty search text, the matching ones
        otherwise. */
    method LoadHistory()
      modifies this
      ensures historyItems == SearchHistory(store.items, searchText)
      ensures searchText == "" ==> historyItems == store.items
      ensures searchText == old(searchText) && currentPage == old(currentPage)
      ensures selectedItemId == old(selectedItemId) && showConfirmDialog == old(showConfirmDialog)
      ensures showSuccessToast == old(showSuccessToast)
    {
      var history;
      if searchText != "" {
        history := store.Search(searchText);
      } else {
        history := store.GetAll();
      }
      historyItems := history;
    }

    /** The two mount effects: the records are loaded and the page is 1. */
    method Mount()
      requires Valid()
      modifies this
      ensures Valid()
      ensures historyItems == SearchHistory(store.items, searchText) && currentPage == 1
      ensures searchText == old(searchText) && selectedItemId == old(selectedItemId)
      ensures showConfirmDialog == old(showConfirmDialog) && showSuccessToast == old(showSuccessToast)
    {
      LoadHistory();
      LoadHistory();
      currentPage := 1;
    }

    /** Typing in the search box: a new text reloads the records and returns to
        page 1; the same text runs no effect and changes nothing. */
    method SetSearchText(text: string)
      requires Valid()
      modifies this
      ensures Valid() && searchText == text
      ensures text != old(searchText) ==>
        historyItems == SearchHistory(store.items, text) && currentPage == 1
      ensures text == old(searchText) ==>
        historyItems == old(historyItems) && currentPage == old(currentPage)
      ensures selectedItemId == old(selectedItemId) && showConfirmDialog == old(showConfirmDialog)
      ensures showSuccessToast == old(showSuccessToast)
    {
      if text != searchText {
        searchText := text;
        LoadHistory();
        currentPage := 1;
      }
    }

    /** `handlePageChange`: a page from 1 to `totalPages` becomes current; any other
        number is ignored. */
    method PageChange(page: int)
      requires Valid()
      modifies this
      ensures Valid()
      ensures 1 <= page <= PageCount() ==> currentPage == page
      ensures !(1 <= page <= PageCount()) ==> currentPage == old(currentPage)
      ensures historyItems == old(historyItems) && searchText == old(searchText)
      ensures selectedItemId == old(selectedItemId) && showConfirmDialog == old(showConfirmDialog)
      ensures showSuccessToast == old(showSuccessToast)
    {
      if page >= 1 && page <= TotalPages(|historyItems|) {
        currentPage := page;
      }
    }

    /** `handleClearHistory`: the dialog opens with nothing selected, meaning all. */
    method ClearHistory()
      modifies this
      ensures showConfirmDialog && selectedItemId == None
      ensures historyItems == old(historyItems) && searchText == old(searchText)
      ensures currentPage == old(currentPage) && showSuccessToast == old(showSuccessToast)
    {
      showConfirmDialog := true;
      selectedItemId := None;
    }

    /** `handleDeleteHistoryItem`: the dialog opens with one record selected. */
    method DeleteHistoryItem(itemId: string)
      modifies this
      ensures showConfirmDialog && selectedItemId == Some(itemId)
      ensures historyItems == old(historyItems) && searchText == old(searchText)
      ensures currentPage == old(currentPage) && showSuccessToast == old(showSuccessToast)
    {
      selectedItemId := Some(itemId);
      showConfirmDialog := true;
    }

    /** `handleCancelClear`: the dialog closes and the selection is dropped. */
    method CancelClear()
      modifies this
      ensures !showConfirmDialog && selectedItemId == None
      ensures historyItems == old(historyItems) && searchText == old(searchText)
      ensures currentPage == old(currentPage) && showSuccessToast == old(showSuccessToast)
    {
      showConfirmDialog := false;
      selectedItemId := None;
    }

    /** `handleConfirmClear`: a selected id (the empty string is falsy, so it does
        not count) deletes that record, otherwise every record is cleared; then the
        records are reloaded, the toast shows, the dialog closes and the selection
        is dropped. The page number is left as it was. */
    method ConfirmClear()
      requires Valid()
      modifies this, store
      ensures Valid()
      ensures old(selectedItemId).Some? && old(selectedItemId).value != "" ==>
        store.items == DeleteHistory(old(store.items), old(selectedItemId).value)
      ensures !(old(selectedItemId).Some? && old(selectedItemId).value != "") ==> store.items == []
      ensures historyItems == SearchHistory(store.items, searchText) && showSuccessToast
      ensures !showConfirmDialog && selectedItemId == None
      ensures searchText == old(searchText) && currentPage == old(currentPage)
    {
      if selectedItemId.Some? && selectedItemId.value != "" {
        var success := store.Delete(selectedItemId.value);
        if success {
          LoadHistory();
          showSuccessToast := true;
        }
      } else {
        var success := store.Clear();
        if success {
          LoadHistory();
          showSuccessToast := true;
        }
      }
      showConfirmDialog := false;
      selectedItemId := None;
    }
  }
}
