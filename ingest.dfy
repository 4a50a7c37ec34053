/** The rules the history and flashcard collections follow, as functions on
    sequences. The browser's local-mode services and the serverless storage
    handler both implement these same rules; their methods are proved against
    the functions here. */
module Ingest {
  import opened Wrappers
  import opened Seqs
  import opened Text
  import opened Model

  // ===========================================================================
  // History
  // ===========================================================================

  /** The history keeps at most this many items (`slice(0, 100)`). */
  const MaxHistory: nat := 100

  function Min(a: int, b: int): int
  {
    if a < b then a else b
  }

  /** `history.unshift(item); history.slice(0, 100)`: the new item comes first and
      the oldest items fall off the end once the cap is reached. */
  function PrependCapped(items: seq<HistoryItem>, x: HistoryItem): (r: seq<HistoryItem>)
    ensures |r| == Min(|items| + 1, MaxHistory)
    ensures r[0] == x && r[1..] == items[..|r| - 1]
  {
    ([x] + items)[..Min(|items| + 1, MaxHistory)]
  }

  /** Adding the items of `xs` one after the other, `xs[0]` first. */
  function AddAll(items: seq<HistoryItem>, xs: seq<HistoryItem>): seq<HistoryItem>
    decreases |xs|
  {
    if xs == [] then items else AddAll(PrependCapped(items, xs[0]), xs[1..])
  }

  function Reverse<T>(s: seq<T>): (r: seq<T>)
    ensures |r| == |s|
  {
    if s == [] then [] else Reverse(s[1..]) + [s[0]]
  }

  /** Cutting a list to `n` after cutting its tail to `m` is cutting it to `n`
      once `n` does not reach past the tail's cut. */
  lemma PrefixOfTruncatedTail<T>(a: seq<T>, b: seq<T>, m: nat, n: nat)
    requires m <= |b| && n <= |a| + m
    ensures (a + b[..m])[..n] == (a + b)[..n]
  {
    assert forall i :: 0 <= i < n ==> (a + b[..m])[i] == (a + b)[i];
  }

  /** Newest first, and never more than 100: after a run of adds the history is
      the added items, latest first, followed by the older items, cut to 100. */
  lemma {:induction false} AddAllNewestFirst(items: seq<HistoryItem>, xs: seq<HistoryItem>)
    requires |items| <= MaxHistory
    ensures AddAll(items, xs) == (Reverse(xs) + items)[..Min(|xs| + |items|, MaxHistory)]
    ensures |AddAll(items, xs)| <= MaxHistory
    decreases |xs|
  {
    if xs == [] {
      assert (Reverse(xs) + items)[..|items|] == items;
    } else {
      var x, rest := xs[0], xs[1..];
      var p := PrependCapped(items, x);
      AddAllNewestFirst(p, rest);
      var m := Min(|items| + 1, MaxHistory);
      var n := Min(|xs| + |items|, MaxHistory);
      assert p == ([x] + items)[..m];
      assert Min(|rest| + |p|, MaxHistory) == n;
      assert Reverse(xs) + items == Reverse(rest) + ([x] + items);
      PrefixOfTruncatedTail(Reverse(rest), [x] + items, m, n);
    }
  }

  /** Adding A and then B shows B before A. */
  lemma NewestFirst(items: seq<HistoryItem>, a: HistoryItem, b: HistoryItem)
    ensures PrependCapped(PrependCapped(items, a), b)[0] == b
    ensures PrependCapped(PrependCapped(items, a), b)[1] == a
  {
    var once := PrependCapped(items, a);
    var twice := PrependCapped(once, b);
    assert twice[1..][0] == once[0];
  }

  /** `history.filter(item => item.id !== id)`. */
  function DeleteHistory(items: seq<HistoryItem>, id: string): (r: seq<HistoryItem>)
    ensures IsSubseq(r, items)
    ensures forall h :: h in r <==> h in items && h.id != id
    ensures forall h :: multiset(r)[h] == if h.id != id then multiset(items)[h] else 0
    ensures (forall i :: 0 <= i < |items| ==> items[i].id != id) ==> r == items
  {
    var keep := (h: HistoryItem) => h.id != id;
    FilterFacts(items, keep);
    Filter(items, keep)
  }

  /** The lower-cased keyword occurs in the lower-cased Indonesian text or in the
      lower-cased Chinese text. */
  predicate Matches(h: HistoryItem, keyword: string)
  {
    var k := Lower(keyword);
    Contains(Lower(h.indonesian), k) || Contains(Lower(h.chinese), k)
  }

  /** `HistoryService.search`: an empty keyword gives everything, any other keyword
      the matching items in their stored order. */
  function SearchHistory(items: seq<HistoryItem>, keyword: string): (r: seq<HistoryItem>)
    ensures keyword == "" ==> r == items
    ensures keyword != "" ==> IsSubseq(r, items) && forall h :: h in r <==> h in items && Matches(h, keyword)
    ensures keyword != "" ==>
      forall h :: multiset(r)[h] == if Matches(h, keyword) then multiset(items)[h] else 0
  {
    if keyword == "" then items
    else
      var keep := (h: HistoryItem) => Matches(h, keyword);
      FilterFacts(items, keep);
      Filter(items, keep)
  }

  /** Search is case-insensitive: keywords that lower-case alike find the same items. */
  lemma SearchIgnoresCase(items: seq<HistoryItem>, a: string, b: string)
    requires Lower(a) == Lower(b)
    ensures SearchHistory(items, a) == SearchHistory(items, b)
  {
    assert |a| == |Lower(a)| == |Lower(b)| == |b|;
    if a != "" {
      FilterSameOn(items, (h: HistoryItem) => Matches(h, a), (h: HistoryItem) => Matches(h, b));
    }
  }

  // ===========================================================================
  // Flashcards
  // ===========================================================================

  /** The collection after an add, and the card the add returns. */
  datatype AddResult = AddResult(cards: seq<Flashcard>, card: Flashcard)

  /** `addFromWordParse`: the first card with the word, or a new card appended. */
  function AddCard(cards: seq<Flashcard>, wp: WordParse, example: string, exampleTranslation: string,
                   stamp: CardStamp): AddResult
  {
    var i := IndexOfWord(cards, wp.word);
    if i >= 0 then AddResult(cards, cards[i])
    else AddResult(cards + [NewCard(wp, stamp, example, exampleTranslation)],
                   NewCard(wp, stamp, example, exampleTranslation))
  }

  /** A word already in the collection returns its first card and changes nothing;
      a new word appends one new card at the end; either way the card carries the
      word and no word gets a second card. */
  lemma AddCardFacts(cards: seq<Flashcard>, wp: WordParse, example: string, exampleTranslation: string,
                     stamp: CardStamp)
    ensures var r := AddCard(cards, wp, example, exampleTranslation, stamp);
      && (HasWord(cards, wp.word) ==> r.cards == cards && r.card == cards[IndexOfWord(cards, wp.word)])
      && (!HasWord(cards, wp.word) ==>
            r.cards == cards + [r.card] && r.card == NewCard(wp, stamp, example, exampleTranslation))
      && r.card.word == wp.word && r.card in r.cards && cards <= r.cards
      && (UniqueWords(cards) ==> UniqueWords(r.cards))
  {
    var r := AddCard(cards, wp, example, exampleTranslation, stamp);
    IndexOfWordFound(cards, wp.word);
    if !HasWord(cards, wp.word) {
      assert r.cards[|cards|] == r.card;
    }
  }

  /** The example sentence chosen for a word, and its translation. */
  datatype Example = Example(sentence: string, translation: string)

  /** `s.toLowerCase().includes(word.toLowerCase())`. */
  predicate Mentions(sentence: string, word: string)
  {
    Contains(Lower(sentence), Lower(word))
  }

  /** The example rule of `addBatch`: the first source sentence that mentions the
      word, trimmed; its translation is the trimmed target sentence at the same
      index when there is a non-empty one there, and the word's meaning otherwise. */
  function ExampleFor(wp: WordParse, indo: seq<string>, cn: seq<string>): Example
  {
    var i := FindIndex(indo, (s: string) => Mentions(s, wp.word));
    var sentence := if i >= 0 then Trim(indo[i]) else wp.word;
    var translation := if 0 <= i < |cn| && cn[i] != "" then Trim(cn[i]) else wp.meaning;
    Example(sentence, translation)
  }

  /** The example sentence and its translation for one word, as both loops of
      `addBatch` compute them. */
  method PickExample(wp: WordParse, indoSentences: seq<string>, cnSentences: seq<string>)
    returns (exampleSentence: string, exampleTranslation: string)
    ensures ExampleFor(wp, indoSentences, cnSentences) == Example(exampleSentence, exampleTranslation)
  {
    var sentenceIndex := FindIndex(indoSentences, (s: string) => Mentions(s, wp.word));
    exampleSentence := if sentenceIndex >= 0 then Trim(indoSentences[sentenceIndex]) else wp.word;
    exampleTranslation :=
      if 0 <= sentenceIndex < |cnSentences| && cnSentences[sentenceIndex] != ""
      then Trim(cnSentences[sentenceIndex]) else wp.meaning;
  }

  /** The example is the first mentioning sentence, aligned by index with the
      translation. */
  lemma ExampleIsFirstMention(wp: WordParse, indo: seq<string>, cn: seq<string>, k: nat)
    requires k < |indo| && Mentions(indo[k], wp.word)
    requires forall j :: 0 <= j < k ==> !Mentions(indo[j], wp.word)
    ensures ExampleFor(wp, indo, cn)
         == Example(Trim(indo[k]), if k < |cn| && cn[k] != "" then Trim(cn[k]) else wp.meaning)
  {
    var i := FindIndex(indo, (s: string) => Mentions(s, wp.word));
    assert i == k;
  }

  /** A word that no sentence mentions is its own example, translated by its meaning. */
  lemma ExampleFallback(wp: WordParse, indo: seq<string>, cn: seq<string>)
    requires forall k :: 0 <= k < |indo| ==> !Mentions(indo[k], wp.word)
    ensures ExampleFor(wp, indo, cn) == Example(wp.word, wp.meaning)
  {
    var i := FindIndex(indo, (s: string) => Mentions(s, wp.word));
    assert i == -1;
  }

  /** The collection after a batch, and the cards the batch returns in input order. */
  datatype BatchResult = BatchResult(cards: seq<Flashcard>, added: seq<Flashcard>)

  /** One iteration of `addBatch`: pick the example, then add as `addFromWordParse`
      (whose contract says what the step does). */
  function BatchStep(cards: seq<Flashcard>, wp: WordParse, indo: seq<string>, cn: seq<string>,
                     stamp: CardStamp): AddResult
  {
    var ex := ExampleFor(wp, indo, cn);
    AddCard(cards, wp, ex.sentence, ex.translation, stamp)
  }

  /** `addBatch` over already split sentences: each word parse, in input order, is
      added as by `AddCard` with its example; the k-th word uses `stamps(k)` when it
      creates a card. */
  function BatchFold(cards: seq<Flashcard>, wps: seq<WordParse>, indo: seq<string>, cn: seq<string>,
                     stamps: nat -> CardStamp): (r: BatchResult)
    decreases |wps|
    ensures |r.added| == |wps| && cards <= r.cards
  {
    if wps == [] then BatchResult(cards, [])
    else
      var n := |wps| - 1;
      var prev := BatchFold(cards, wps[..n], indo, cn, stamps);
      var step := BatchStep(prev.cards, wps[n], indo, cn, stamps(n));
      StepFacts(prev.cards, wps[n], indo, cn, stamps(n));
      BatchResult(step.cards, prev.added + [step.card])
  }

  /** One more word parse is one more step of the fold. */
  lemma BatchFoldSnoc(cards: seq<Flashcard>, wps: seq<WordParse>, indo: seq<string>, cn: seq<string>,
                      stamps: nat -> CardStamp, k: nat)
    requires k < |wps|
    ensures var prev := BatchFold(cards, wps[..k], indo, cn, stamps);
      var step := BatchStep(prev.cards, wps[k], indo, cn, stamps(k));
      BatchFold(cards, wps[..k + 1], indo, cn, stamps) == BatchResult(step.cards, prev.added + [step.card])
  {
    assert wps[..k + 1][..k] == wps[..k];
  }

  /** `addBatch` on the raw texts: both are split into sentences first. */
  function AddBatch(cards: seq<Flashcard>, wps: seq<WordParse>, indonesianText: string,
                    chineseTranslation: string, stamps: nat -> CardStamp): BatchResult
  {
    BatchFold(cards, wps, Sentences(indonesianText), Sentences(chineseTranslation), stamps)
  }

  /** Some word parse of the batch carries `word`. */
  predicate InBatch(wps: seq<WordParse>, word: string)
  {
    exists k :: 0 <= k < |wps| && wps[k].word == word
  }

  lemma InBatchLast(wps: seq<WordParse>, word: string)
    requires wps != []
    ensures InBatch(wps, word) <==> InBatch(wps[..|wps| - 1], word) || wps[|wps| - 1].word == word
  {
    var n := |wps| - 1;
    var front := wps[..n];
    if InBatch(wps, word) && wps[n].word != word {
      var k :| 0 <= k < |wps| && wps[k].word == word;
      assert front[k] == wps[k];
    }
    if InBatch(front, word) {
      var k :| 0 <= k < n && front[k].word == word;
      assert front[k] == wps[k];
    }
  }

  lemma HasWordAppend(cards: seq<Flashcard>, c: Flashcard, word: string)
    ensures HasWord(cards + [c], word) <==> HasWord(cards, word) || c.word == word
  {
    var all := cards + [c];
    assert all[|cards|] == c;
    if HasWord(all, word) && !HasWord(cards, word) {
      var i :| 0 <= i < |all| && all[i].word == word;
      if i < |cards| {
        assert all[i] == cards[i];
      }
    }
    if HasWord(cards, word) {
      var i :| 0 <= i < |cards| && cards[i].word == word;
      assert all[i] == cards[i];
    }
  }

  /** What one step does, from `AddCardFacts`. */
  lemma StepFacts(cards: seq<Flashcard>, wp: WordParse, indo: seq<string>, cn: seq<string>, stamp: CardStamp)
    ensures var r := BatchStep(cards, wp, indo, cn, stamp);
      var ex := ExampleFor(wp, indo, cn);
      && (HasWord(cards, wp.word) ==> r.cards == cards && r.card == cards[IndexOfWord(cards, wp.word)])
      && (!HasWord(cards, wp.word) ==>
            r.cards == cards + [r.card] && r.card == NewCard(wp, stamp, ex.sentence, ex.translation))
      && r.card.word == wp.word && cards <= r.cards
      && (UniqueWords(cards) ==> UniqueWords(r.cards))
  {
    var ex := ExampleFor(wp, indo, cn);
    AddCardFacts(cards, wp, ex.sentence, ex.translation, stamp);
  }

  /** The last step of a non-empty fold. */
  lemma BatchFoldLast(cards: seq<Flashcard>, wps: seq<WordParse>, indo: seq<string>, cn: seq<string>,
                      stamps: nat -> CardStamp)
    requires wps != []
    ensures var n := |wps| - 1;
      var prev := BatchFold(cards, wps[..n], indo, cn, stamps);
      var step := BatchStep(prev.cards, wps[n], indo, cn, stamps(n));
      BatchFold(cards, wps, indo, cn, stamps) == BatchResult(step.cards, prev.added + [step.card])
  {
  }

  /** One step adds the step's word and no other. */
  lemma StepWords(cards: seq<Flashcard>, wp: WordParse, indo: seq<string>, cn: seq<string>,
                  stamp: CardStamp, word: string)
    ensures HasWord(BatchStep(cards, wp, indo, cn, stamp).cards, word) <==> HasWord(cards, word) || wp.word == word
  {
    var r := BatchStep(cards, wp, indo, cn, stamp);
    StepFacts(cards, wp, indo, cn, stamp);
    if !HasWord(cards, wp.word) {
      HasWordAppend(cards, r.card, word);
    }
  }

  /** `findIndex` by word is -1 exactly when the word is absent. */
  lemma IndexOfWordFound(cards: seq<Flashcard>, word: string)
    ensures HasWord(cards, word) <==> 0 <= IndexOfWord(cards, word)
  {
    if HasWord(cards, word) {
      var i :| 0 <= i < |cards| && cards[i].word == word;
      FindIndexFound(cards, (c: Flashcard) => c.word == word, i);
    }
  }

  /** After one step a word already present keeps its first card, and the step's
      own word has the step's card as its first card. */
  lemma StepFirstCard(cards: seq<Flashcard>, wp: WordParse, indo: seq<string>, cn: seq<string>,
                      stamp: CardStamp, word: string)
    ensures var r := BatchStep(cards, wp, indo, cn, stamp);
      && (HasWord(cards, word) ==>
            IndexOfWord(r.cards, word) == IndexOfWord(cards, word) && 0 <= IndexOfWord(cards, word)
            && r.cards[IndexOfWord(cards, word)] == cards[IndexOfWord(cards, word)])
      && (wp.word == word ==>
            0 <= IndexOfWord(r.cards, word) && r.card == r.cards[IndexOfWord(r.cards, word)])
  {
    var r := BatchStep(cards, wp, indo, cn, stamp);
    StepFacts(cards, wp, indo, cn, stamp);
    IndexOfWordFound(cards, word);
    IndexOfWordFound(cards, wp.word);
    if HasWord(cards, word) {
      var more := r.cards[|cards|..];
      assert r.cards == cards + more;
      IndexOfWordStable(cards, more, word);
    }
    if wp.word == word && !HasWord(cards, word) {
      assert r.cards[|cards|] == r.card;
      FindIndexFound(r.cards, (x: Flashcard) => x.word == word, |cards|);
    }
  }

  /** After a batch the collection holds a word exactly when it held it before or the
      batch carries it: a batch adds no other word and loses none. */
  lemma {:induction false} BatchWords(cards: seq<Flashcard>, wps: seq<WordParse>, indo: seq<string>,
                                      cn: seq<string>, stamps: nat -> CardStamp, word: string)
    ensures HasWord(BatchFold(cards, wps, indo, cn, stamps).cards, word)
        <==> HasWord(cards, word) || InBatch(wps, word)
    decreases |wps|
  {
    if wps != [] {
      var n := |wps| - 1;
      BatchWords(cards, wps[..n], indo, cn, stamps, word);
      BatchFoldLast(cards, wps, indo, cn, stamps);
      StepWords(BatchFold(cards, wps[..n], indo, cn, stamps).cards, wps[n], indo, cn, stamps(n), word);
      InBatchLast(wps, word);
    }
  }

  /** A batch keeps the collection free of duplicate words. */
  lemma {:induction false} BatchKeepsWordsUnique(cards: seq<Flashcard>, wps: seq<WordParse>,
                                                  indo: seq<string>, cn: seq<string>, stamps: nat -> CardStamp)
    requires UniqueWords(cards)
    ensures UniqueWords(BatchFold(cards, wps, indo, cn, stamps).cards)
    decreases |wps|
  {
    if wps != [] {
      var n := |wps| - 1;
      BatchKeepsWordsUnique(cards, wps[..n], indo, cn, stamps);
      BatchFoldLast(cards, wps, indo, cn, stamps);
      StepFacts(BatchFold(cards, wps[..n], indo, cn, stamps).cards, wps[n], indo, cn, stamps(n));
    }
  }

  /** Every card a batch returns is the first card in the final collection that
      carries its word. */
  lemma {:induction false} BatchReturnsFirstCard(cards: seq<Flashcard>, wps: seq<WordParse>, indo: seq<string>,
                                                  cn: seq<string>, stamps: nat -> CardStamp, k: nat)
    requires k < |wps|
    ensures var r := BatchFold(cards, wps, indo, cn, stamps);
      0 <= IndexOfWord(r.cards, wps[k].word) && r.added[k] == r.cards[IndexOfWord(r.cards, wps[k].word)]
    decreases |wps|, 1
  {
    var n := |wps| - 1;
    if k < n {
      BatchReturnsFirstCardFront(cards, wps, indo, cn, stamps, k);
    } else {
      var prev := BatchFold(cards, wps[..n], indo, cn, stamps);
      BatchFoldLast(cards, wps, indo, cn, stamps);
      StepFirstCard(prev.cards, wps[n], indo, cn, stamps(n), wps[n].word);
    }
  }

  lemma {:induction false} BatchReturnsFirstCardFront(cards: seq<Flashcard>, wps: seq<WordParse>, indo: seq<string>,
                                                       cn: seq<string>, stamps: nat -> CardStamp, k: nat)
    requires k < |wps| - 1
    ensures var r := BatchFold(cards, wps, indo, cn, stamps);
      0 <= IndexOfWord(r.cards, wps[k].word) && r.added[k] == r.cards[IndexOfWord(r.cards, wps[k].word)]
    decreases |wps|, 0
  {
    var n := |wps| - 1;
    var front := wps[..n];
    var prev := BatchFold(cards, front, indo, cn, stamps);
    var step := BatchStep(prev.cards, wps[n], indo, cn, stamps(n));
    var w := wps[k].word;
    assert front[k] == wps[k];
    BatchReturnsFirstCard(cards, front, indo, cn, stamps, k);
    IndexOfWordFound(prev.cards, w);
    StepFirstCard(prev.cards, wps[n], indo, cn, stamps(n), w);
    BatchFoldLast(cards, wps, indo, cn, stamps);
    assert (prev.added + [step.card])[k] == prev.added[k];
  }

  /** The k-th card a batch returns carries the k-th word. */
  lemma BatchAddedWord(cards: seq<Flashcard>, wps: seq<WordParse>, indo: seq<string>,
                       cn: seq<string>, stamps: nat -> CardStamp, k: nat)
    requires k < |wps|
    ensures BatchFold(cards, wps, indo, cn, stamps).added[k].word == wps[k].word
  {
    BatchReturnsFirstCard(cards, wps, indo, cn, stamps, k);
  }

  /** A word repeated within a batch yields the very card of its first occurrence. */
  lemma BatchRepeatedWordSameCard(cards: seq<Flashcard>, wps: seq<WordParse>, indo: seq<string>,
                                  cn: seq<string>, stamps: nat -> CardStamp, j: nat, k: nat)
    requires j < k < |wps| && wps[j].word == wps[k].word
    ensures BatchFold(cards, wps, indo, cn, stamps).added[j] == BatchFold(cards, wps, indo, cn, stamps).added[k]
  {
    BatchReturnsFirstCard(cards, wps, indo, cn, stamps, j);
    BatchReturnsFirstCard(cards, wps, indo, cn, stamps, k);
  }

  /** A step on a word the collection lacks returns a new card. */
  lemma StepNewCard(cards: seq<Flashcard>, wp: WordParse, indo: seq<string>, cn: seq<string>, stamp: CardStamp)
    requires !HasWord(cards, wp.word)
    ensures var ex := ExampleFor(wp, indo, cn);
      BatchStep(cards, wp, indo, cn, stamp).card == NewCard(wp, stamp, ex.sentence, ex.translation)
  {
    StepFacts(cards, wp, indo, cn, stamp);
  }

  /** A word that is neither in the collection nor earlier in the batch gets a new
      card built from its word parse, its stamp and its example. */
  lemma {:induction false} BatchNewWordGetsNewCard(cards: seq<Flashcard>, wps: seq<WordParse>, indo: seq<string>,
                                                    cn: seq<string>, stamps: nat -> CardStamp, k: nat)
    requires k < |wps| && !HasWord(cards, wps[k].word)
    requires forall j :: 0 <= j < k ==> wps[j].word != wps[k].word
    ensures var ex := ExampleFor(wps[k], indo, cn);
      BatchFold(cards, wps, indo, cn, stamps).added[k] == NewCard(wps[k], stamps(k), ex.sentence, ex.translation)
    decreases |wps|, 1
  {
    var n := |wps| - 1;
    if k < n {
      BatchNewWordFront(cards, wps, indo, cn, stamps, k);
    } else {
      var front := wps[..n];
      assert forall j :: 0 <= j < n ==> front[j] == wps[j];
      BatchWords(cards, front, indo, cn, stamps, wps[n].word);
      BatchFoldLast(cards, wps, indo, cn, stamps);
      StepNewCard(BatchFold(cards, front, indo, cn, stamps).cards, wps[n], indo, cn, stamps(n));
    }
  }

  lemma {:induction false} BatchNewWordFront(cards: seq<Flashcard>, wps: seq<WordParse>, indo: seq<string>,
                                              cn: seq<string>, stamps: nat -> CardStamp, k: nat)
    requires k < |wps| - 1 && !HasWord(cards, wps[k].word)
    requires forall j :: 0 <= j < k ==> wps[j].word != wps[k].word
    ensures var ex := ExampleFor(wps[k], indo, cn);
      BatchFold(cards, wps, indo, cn, stamps).added[k] == NewCard(wps[k], stamps(k), ex.sentence, ex.translation)
    decreases |wps|, 0
  {
    var n := |wps| - 1;
    var front := wps[..n];
    var prev := BatchFold(cards, front, indo, cn, stamps);
    var step := BatchStep(prev.cards, wps[n], indo, cn, stamps(n));
    assert front[k] == wps[k];
    assert forall j :: 0 <= j < k ==> front[j] == wps[j];
    BatchNewWordGetsNewCard(cards, front, indo, cn, stamps, k);
    BatchFoldLast(cards, wps, indo, cn, stamps);
    assert (prev.added + [step.card])[k] == prev.added[k];
  }

  /** The outcome of `updateStatus` on the collection. */
  datatype StatusUpdate = StatusUpdate(found: bool, cards: seq<Flashcard>)

  /** `cards.find(c => c.id === id)` then `card.status = status`: the first card with
      the id gets the new status and nothing else changes; an absent id changes
      nothing and is reported. */
  function SetStatus(cards: seq<Flashcard>, id: int, status: Status): (r: StatusUpdate)
    ensures r.found <==> HasId(cards, id)
    ensures |r.cards| == |cards|
    ensures !r.found ==> r.cards == cards
    ensures r.found ==>
      var i := IndexOfId(cards, id);
      0 <= i < |cards| && cards[i].id == id && r.cards[i].status == status
      && forall j :: 0 <= j < |cards| ==>
        r.cards[j].(status := cards[j].status) == cards[j] && (j != i ==> r.cards[j] == cards[j])
  {
    var i := IndexOfId(cards, id);
    if i >= 0 then StatusUpdate(true, cards[i := cards[i].(status := status)])
    else StatusUpdate(false, cards)
  }

  /** `cards.filter(c => c.id !== id)`. */
  function DeleteCard(cards: seq<Flashcard>, id: int): (r: seq<Flashcard>)
    ensures IsSubseq(r, cards)
    ensures forall c :: c in r <==> c in cards && c.id != id
    ensures forall c :: multiset(r)[c] == if c.id != id then multiset(cards)[c] else 0
    ensures (forall i :: 0 <= i < |cards| ==> cards[i].id != id) ==> r == cards
  {
    var keep := (c: Flashcard) => c.id != id;
    FilterFacts(cards, keep);
    Filter(cards, keep)
  }

  /** `cards.filter(c => c.status === s).length`. */
  function CountStatus(cards: seq<Flashcard>, s: Status): nat
  {
    |Filter(cards, (c: Flashcard) => c.status == s)|
  }

  /** The three status counts add up to the number of cards. */
  lemma {:induction false} StatusCountsPartition(cards: seq<Flashcard>)
    ensures CountStatus(cards, NotLearned) + CountStatus(cards, Learning) + CountStatus(cards, Learned) == |cards|
  {
    if cards != [] {
      StatusCountsPartition(cards[1..]);
    }
  }

  lemma ProductZero(a: real, b: real)
    requires a * b == 0.0 && b != 0.0
    ensures a == 0.0
  {
  }

  /** The learning progress `getProgress` reports. */
  datatype Progress = Progress(total: nat, learned: nat, learning: nat, notLearned: nat, percentage: real)

  /** The arithmetic of the percentage: `(learned / total) * 100` for a non-empty
      collection. */
  lemma PercentageFacts(learned: nat, total: nat)
    requires 0 < total && learned <= total
    ensures var p := (learned as real / total as real) * 100.0;
      && p * (total as real) == 100.0 * (learned as real)
      && 0.0 <= p <= 100.0
      && (p == 100.0 <==> learned == total)
  {
    var q := learned as real / total as real;
    var t := total as real;
    assert q * t == learned as real;
    assert 0.0 <= q <= 1.0;
    assert (q - 1.0) * t == learned as real - t;
    if learned == total {
      ProductZero(q - 1.0, t);
    }
  }

  /** The share of learned cards in percent, 0 for an empty collection. */
  function Percentage(learned: nat, total: nat): (p: real)
    requires learned <= total
    ensures total == 0 ==> p == 0.0
    ensures total > 0 ==> p * (total as real) == 100.0 * (learned as real)
    ensures 0.0 <= p <= 100.0
    ensures p == 100.0 <==> total > 0 && learned == total
  {
    if total > 0 then
      PercentageFacts(learned, total);
      (learned as real / total as real) * 100.0
    else
      0.0
  }

  /** `getProgress`: the counts per status and the share of learned cards in
      percent, 0 for an empty collection. */
  function GetProgress(cards: seq<Flashcard>): (p: Progress)
    ensures p.total == |cards| && p.learned + p.learning + p.notLearned == p.total
    ensures p.learned == CountStatus(cards, Learned) && p.learning == CountStatus(cards, Learning)
    ensures p.notLearned == CountStatus(cards, NotLearned)
    ensures p.total == 0 ==> p.percentage == 0.0
    ensures p.total > 0 ==> p.percentage * (p.total as real) == 100.0 * (p.learned as real)
    ensures 0.0 <= p.percentage <= 100.0
    ensures p.percentage == 100.0 <==> p.total > 0 && p.learned == p.total
  {
    StatusCountsPartition(cards);
    var learned := CountStatus(cards, Learned);
    Progress(|cards|, learned, CountStatus(cards, Learning), CountStatus(cards, NotLearned),
             Percentage(learned, |cards|))
  }
}
