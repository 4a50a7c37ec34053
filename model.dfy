/** The entities shared by the services, the serverless handlers and the pages:
    `WordParse`, `HistoryItem` and `FlashcardItem`, and the lookups on them. */
module Model {
  import opened Wrappers
  import opened Seqs

  /** One word the recognition reply marks as vocabulary; no field is validated. */
  datatype WordParse = WordParse(word: string, meaning: string, partOfSpeech: string, root: string)

  /** The argument of `HistoryService.add`: a history item without `id` and `timestamp`. */
  datatype HistoryDraft = HistoryDraft(
    indonesian: string, chinese: string, wordParses: seq<WordParse>, imageUrl: Option<string>)

  /** One completed translation. */
  datatype HistoryItem = HistoryItem(
    id: string, timestamp: string,
    indonesian: string, chinese: string, wordParses: seq<WordParse>, imageUrl: Option<string>)

  /** The three learning states of a flashcard. */
  datatype Status = NotLearned | Learning | Learned

  /** A vocabulary card: the fields of its `WordParse` plus the card's own. The
      optional `imageUrl` of the source type is never set by any operation and is
      not modelled. */
  datatype Flashcard = Flashcard(
    id: int,
    word: string, meaning: string, partOfSpeech: string, root: string,
    pronunciation: string, example: string, exampleTranslation: string,
    status: Status, addedAt: string)

  /** What `Date.now() + Math.random()` and `new Date().toISOString()` supply when a
      card is created. */
  datatype CardStamp = CardStamp(id: int, addedAt: string)

  /** `{ ...item, id, timestamp }`. */
  function Stamp(draft: HistoryDraft, id: string, timestamp: string): HistoryItem
  {
    HistoryItem(id, timestamp, draft.indonesian, draft.chinese, draft.wordParses, draft.imageUrl)
  }

  /** The fields of a history item that its creator supplied. */
  function DraftOf(h: HistoryItem): HistoryDraft
  {
    HistoryDraft(h.indonesian, h.chinese, h.wordParses, h.imageUrl)
  }

  /** Stamping keeps every supplied field and adds exactly the given id and time. */
  lemma StampRoundTrip(draft: HistoryDraft, id: string, timestamp: string)
    ensures DraftOf(Stamp(draft, id, timestamp)) == draft
    ensures Stamp(draft, id, timestamp).id == id && Stamp(draft, id, timestamp).timestamp == timestamp
  {
  }

  /** `generatePronunciation`: the word between two slashes. */
  function Pronunciation(word: string): (r: string)
    ensures |r| == |word| + 2 && r[0] == '/' && r[|r| - 1] == '/' && r[1..|r| - 1] == word
  {
    "/" + word + "/"
  }

  /** Distinct words get distinct pronunciations. */
  lemma PronunciationInjective(a: string, b: string)
    requires Pronunciation(a) == Pronunciation(b)
    ensures a == b
  {
    var p := Pronunciation(a);
    assert a == p[1..|p| - 1] == b;
  }

  /** The card `addFromWordParse` builds for a word that is not yet in the collection. */
  function NewCard(wp: WordParse, stamp: CardStamp, example: string, exampleTranslation: string): Flashcard
  {
    Flashcard(stamp.id, wp.word, wp.meaning, wp.partOfSpeech, wp.root,
              Pronunciation(wp.word), example, exampleTranslation, NotLearned, stamp.addedAt)
  }

  /** The `WordParse` part of a card (`FlashcardItem extends WordParse`). */
  function WordParseOf(c: Flashcard): WordParse
  {
    WordParse(c.word, c.meaning, c.partOfSpeech, c.root)
  }

  /** A new card is its word parse extended with a not-learned status, the slash
      pronunciation of its word and the given example, id and time. */
  lemma NewCardRoundTrip(wp: WordParse, stamp: CardStamp, example: string, exampleTranslation: string)
    ensures var c := NewCard(wp, stamp, example, exampleTranslation);
      && WordParseOf(c) == wp && c.status == NotLearned && c.pronunciation == Pronunciation(wp.word)
      && c.example == example && c.exampleTranslation == exampleTranslation
      && c.id == stamp.id && c.addedAt == stamp.addedAt
  {
  }

  /** `cards.findIndex(c => c.word === word)`. */
  function IndexOfWord(cards: seq<Flashcard>, word: string): int
  {
    FindIndex(cards, (c: Flashcard) => c.word == word)
  }

  /** `cards.findIndex(c => c.id === id)`. */
  function IndexOfId(cards: seq<Flashcard>, id: int): int
  {
    FindIndex(cards, (c: Flashcard) => c.id == id)
  }

  predicate HasWord(cards: seq<Flashcard>, word: string)
  {
    exists i :: 0 <= i < |cards| && cards[i].word == word
  }

  predicate HasId(cards: seq<Flashcard>, id: int)
  {
    exists i :: 0 <= i < |cards| && cards[i].id == id
  }

  /** No two cards share a `word`: the invariant the de-duplicating adds keep. */
  predicate UniqueWords(cards: seq<Flashcard>)
  {
    forall i, j :: 0 <= i < j < |cards| ==> cards[i].word != cards[j].word
  }

  /** No two cards share an `id`. */
  predicate UniqueIds(cards: seq<Flashcard>)
  {
    forall i, j :: 0 <= i < j < |cards| ==> cards[i].id != cards[j].id
  }

  /** Once a word is in the collection, appending cards does not move its first card. */
  lemma IndexOfWordStable(cards: seq<Flashcard>, more: seq<Flashcard>, word: string)
    requires IndexOfWord(cards, word) >= 0
    ensures IndexOfWord(cards + more, word) == IndexOfWord(cards, word)
  {
    var i := IndexOfWord(cards, word);
    var all := cards + more;
    assert all[i] == cards[i];
    assert forall j :: 0 <= j < i ==> all[j] == cards[j];
    FindIndexFound(all, (c: Flashcard) => c.word == word, i);
  }
}
