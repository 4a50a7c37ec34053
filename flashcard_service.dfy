/** `FlashcardService` in local mode: the stored vocabulary cards as a list held by
    an object, oldest card first. */
module FlashcardService {
  import opened Seqs
  import opened Text
  import opened Model
  import opened Ingest

  class FlashcardStore {
    /** The decoded contents of the `flashcard_words` slot. */
    var cards: seq<Flashcard>

    /** An empty slot reads as `[]`. */
    constructor()
      ensures cards == []
    {
      cards := [];
    }

    /** `getAll`. */
    method GetAll() returns (r: seq<Flashcard>)
      ensures r == cards
    {
      r := cards;
    }

    /** `addFromWordParse`: returns the first card with the same word and changes
        nothing, or appends a new not-learned card with the given stamp. */
    method AddFromWordParse(wp: WordParse, example: string, exampleTranslation: string, stamp: CardStamp)
      returns (card: Flashcard)
      modifies this
      ensures AddCard(old(cards), wp, example, exampleTranslation, stamp) == AddResult(cards, card)
      ensures UniqueWords(old(cards)) ==> UniqueWords(cards)
    {
      AddCardFacts(cards, wp, example, exampleTranslation, stamp);
      var all := GetAll();
      var i := IndexOfWord(all, wp.word);
      if i >= 0 {
        return all[i];
      }
      card := NewCard(wp, stamp, example, exampleTranslation);
      all := all + [card];
      cards := all;
    }

    /** `addBatch`: splits both texts into sentences, then adds every word parse in
        input order through `AddFromWordParse` with its example, the k-th one with
        `stamps(k)`, and returns the cards in input order. */
    method AddBatch(wordParses: seq<WordParse>, indonesianText: string, chineseTranslation: string,
                    stamps: nat -> CardStamp)
      returns (newCards: seq<Flashcard>)
      modifies this
      ensures Ingest.AddBatch(old(cards), wordParses, indonesianText, chineseTranslation, stamps)
           == BatchResult(cards, newCards)
    {
      var indoSentences := Sentences(indonesianText);
      var cnSentences := Sentences(chineseTranslation);
      newCards := AddEach(wordParses, indoSentences, cnSentences, stamps);
    }

    /** The loop of `addBatch` over the split sentences. */
    method AddEach(wordParses: seq<WordParse>, indoSentences: seq<string>, cnSentences: seq<string>,
                   stamps: nat -> CardStamp)
      returns (newCards: seq<Flashcard>)
      modifies this
      ensures BatchFold(old(cards), wordParses, indoSentences, cnSentences, stamps) == BatchResult(cards, newCards)
    {
      newCards := [];
      var k := 0;
      while k < |wordParses|
        invariant 0 <= k <= |wordParses|
        invariant BatchFold(old(cards), wordParses[..k], indoSentences, cnSentences, stamps)
               == BatchResult(cards, newCards)
      {
        var wp := wordParses[k];
        var exampleSentence, exampleTranslation := PickExample(wp, indoSentences, cnSentences);
        BatchFoldSnoc(old(cards), wordParses, indoSentences, cnSentences, stamps, k);
        var card := AddFromWordParse(wp, exampleSentence, exampleTranslation, stamps(k));
        newCards := newCards + [card];
        k := k + 1;
      }
      assert wordParses[..k] == wordParses;
    }

    /** `updateStatus`: the first card with the id gets the status in place; an
        absent id changes nothing and reports false. */
    method UpdateStatus(id: int, status: Status) returns (ok: bool)
      modifies this
      ensures SetStatus(old(cards), id, status) == StatusUpdate(ok, cards)
    {
      var all := GetAll();
      var i := IndexOfId(all, id);
      if i >= 0 {
        all := all[i := all[i].(status := status)];
        cards := all;
        return true;
      }
      return false;
    }

    /** `delete`: keeps the cards with another id and reports success. */
    method Delete(id: int) returns (ok: bool)
      modifies this
      ensures ok && cards == DeleteCard(old(cards), id)
    {
      var all := GetAll();
      cards := DeleteCard(all, id);
      ok := true;
    }

    /** `getProgress`. */
    method GetProgress() returns (p: Progress)
      ensures p == Ingest.GetProgress(cards)
    {
      var all := GetAll();
      p := Ingest.GetProgress(all);
    }
  }
}
