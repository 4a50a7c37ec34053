/** `HistoryService` in local mode: the stored translation history as a list held
    by an object, newest item first. Reading the slot and writing it back are one
    field of the object; a slot that does not parse reads as the empty list,
    which is a state this object can be in like any other. */
module HistoryService {
  import opened Wrappers
  import opened Model
  import opened Ingest

  class HistoryStore {
    /** The decoded contents of the `translation_history` slot. */
    var items: seq<HistoryItem>

    /** Every operation keeps the history within the cap. */
    ghost predicate Valid()
      reads this
    {
      |items| <= MaxHistory
    }

    /** An empty slot reads as `[]`. */
    constructor()
      ensures items == [] && Valid()
    {
      items := [];
    }

    /** `getAll`. */
    method GetAll() returns (r: seq<HistoryItem>)
      ensures r == items
    {
      r := items;
    }

    /** `add`: stamps the draft with the given id and time, puts it in front and
        keeps the first 100 items. */
    method Add(draft: HistoryDraft, id: string, timestamp: string) returns (newItem: HistoryItem)
      requires Valid()
      modifies this
      ensures Valid()
      ensures newItem == Stamp(draft, id, timestamp)
      ensures items == PrependCapped(old(items), newItem)
      ensures items[0] == newItem && |items| == Min(|old(items)| + 1, MaxHistory)
      ensures items[1..] == old(items)[..|items| - 1]
    {
      newItem := Stamp(draft, id, timestamp);
      var history := GetAll();
      history := [newItem] + history;
      items := history[..Min(|history|, MaxHistory)];
    }

    /** `delete`: keeps the items with another id and reports success, also when
        no item had that id. */
    method Delete(id: string) returns (ok: bool)
      requires Valid()
      modifies this
      ensures Valid()
      ensures ok && items == DeleteHistory(old(items), id)
    {
      var history := GetAll();
      items := DeleteHistory(history, id);
      ok := true;
    }

    /** `clear`: writes the empty list. */
    method Clear() returns (ok: bool)
      modifies this
      ensures Valid()
      ensures ok && items == []
    {
      items := [];
      ok := true;
    }

    /** `search`. */
    method Search(keyword: string) returns (r: seq<HistoryItem>)
      ensures r == SearchHistory(items, keyword)
    {
      var history := GetAll();
      if keyword == "" {
        return history;
      }
      r := SearchHistory(history, keyword);
    }
  }
}
