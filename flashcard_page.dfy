/** The flashcard page: the cards it shows ordered by learning status, the index of
    the card on screen, prev/next navigation that cycles over the cards not yet
    learned, the mark-learned toggle and the part-of-speech label. */
module FlashcardPage {
  import opened Wrappers
  import opened Seqs
  import opened Model
  import opened Ingest
  import opened FlashcardService

  // ===========================================================================
  // Ordering
  // ===========================================================================

  /** `statusOrder`: not learned first, then learning, then learned. */
  function Rank(s: Status): nat
  {
    match s
    case NotLearned => 0
    case Learning => 1
    case Learned => 2
  }

  /** Selects the cards of one rank. */
  function RankIs(k: nat): Flashcard -> bool
  {
    (c: Flashcard) => Rank(c.status) == k
  }

  /** `[...cards].sort((a, b) => statusOrder[a.status] - statusOrder[b.status])`.
      `Array.prototype.sort` is stable, so every card of rank 0 comes first in its
      original order, then those of rank 1, then those of rank 2. */
  function SortByStatus(cards: seq<Flashcard>): seq<Flashcard>
  {
    Filter(cards, RankIs(0)) + Filter(cards, RankIs(1)) + Filter(cards, RankIs(2))
  }

  /** The sort is a permutation whose ranks never decrease, and cards of the same
      rank keep their relative order: together these determine a stable sort. */
  lemma SortByStatusIsStableSort(cards: seq<Flashcard>)
    ensures var r := SortByStatus(cards);
      && (forall i, j :: 0 <= i < j < |r| ==> Rank(r[i].status) <= Rank(r[j].status))
      && multiset(r) == multiset(cards)
      && (forall k: nat :: Filter(r, RankIs(k)) == Filter(cards, RankIs(k)))
  {
    SortedByRank(cards);
    SortPermutes(cards);
    forall k: nat ensures Filter(SortByStatus(cards), RankIs(k)) == Filter(cards, RankIs(k)) {
      SortKeepsRankOrder(cards, k);
    }
  }

  lemma SortedByRank(cards: seq<Flashcard>)
    ensures var r := SortByStatus(cards);
      forall i, j :: 0 <= i < j < |r| ==> Rank(r[i].status) <= Rank(r[j].status)
  {
    var a, b, c := Filter(cards, RankIs(0)), Filter(cards, RankIs(1)), Filter(cards, RankIs(2));
    var r := a + b + c;
    forall i | 0 <= i < |r| ensures Rank(r[i].status) == if i < |a| then 0 else if i < |a| + |b| then 1 else 2 {
      if i < |a| {
        assert r[i] == a[i] && a[i] in a;
      } else if i < |a| + |b| {
        assert r[i] == b[i - |a|] && b[i - |a|] in b;
      } else {
        assert r[i] == c[i - |a| - |b|] && c[i - |a| - |b|] in c;
      }
    }
  }

  lemma SortPermutes(cards: seq<Flashcard>)
    ensures multiset(SortByStatus(cards)) == multiset(cards)
  {
    forall x ensures multiset(SortByStatus(cards))[x] == multiset(cards)[x] {
      SortCount(cards, x);
    }
  }

  lemma SortCount(cards: seq<Flashcard>, x: Flashcard)
    ensures multiset(SortByStatus(cards))[x] == multiset(cards)[x]
  {
    var a, b, c := Filter(cards, RankIs(0)), Filter(cards, RankIs(1)), Filter(cards, RankIs(2));
    assert multiset(a + b + c) == multiset(a) + multiset(b) + multiset(c);
    FilterMultiset(cards, RankIs(0), x);
    FilterMultiset(cards, RankIs(1), x);
    FilterMultiset(cards, RankIs(2), x);
    assert RankIs(Rank(x.status))(x);
  }

  lemma SortKeepsRankOrder(cards: seq<Flashcard>, k: nat)
    ensures Filter(SortByStatus(cards), RankIs(k)) == Filter(cards, RankIs(k))
  {
    var a, b, c := Filter(cards, RankIs(0)), Filter(cards, RankIs(1)), Filter(cards, RankIs(2));
    FilterAppend(a + b, c, RankIs(k));
    FilterAppend(a, b, RankIs(k));
    OnePart(cards, 0, k);
    OnePart(cards, 1, k);
    OnePart(cards, 2, k);
    if k > 2 {
      FilterNoneKept(cards, RankIs(k));
    }
  }

  /** Filtering the cards of rank `j` by rank `k` keeps them all or none. */
  lemma OnePart(cards: seq<Flashcard>, j: nat, k: nat)
    ensures Filter(Filter(cards, RankIs(j)), RankIs(k)) == if j == k then Filter(cards, RankIs(k)) else []
  {
    var part := Filter(cards, RankIs(j));
    assert forall i :: 0 <= i < |part| ==> part[i] in part;
    if j == k {
      FilterAllKept(part, RankIs(k));
    } else {
      FilterNoneKept(part, RankIs(k));
    }
  }

  // ===========================================================================
  // The card on screen
  // ===========================================================================

  /** `word.status !== 'learned'`. */
  predicate IsUnlearned(c: Flashcard)
  {
    c.status != Learned
  }

  /** `firstUnlearnedIndex !== -1 ? firstUnlearnedIndex : 0`. */
  function InitialIndex(words: seq<Flashcard>): (r: nat)
    ensures words != [] ==> r < |words|
  {
    var i := FindIndex(words, IsUnlearned);
    if i != -1 then i else 0
  }

  /** The page opens at the first unlearned card, or at 0 when every card is
      learned. */
  lemma InitialIndexFacts(words: seq<Flashcard>)
    ensures var r := InitialIndex(words);
      && ((exists i :: 0 <= i < |words| && IsUnlearned(words[i])) ==>
            IsUnlearned(words[r]) && forall j :: 0 <= j < r ==> !IsUnlearned(words[j]))
      && ((forall i :: 0 <= i < |words| ==> !IsUnlearned(words[i])) ==> r == 0)
  {
    if i :| 0 <= i < |words| && IsUnlearned(words[i]) {
      FindIndexFound(words, IsUnlearned, i);
    }
  }

  /** After the sort the first unlearned card, if there is one, is the first card,
      so the page always opens at index 0. */
  lemma InitialIndexAfterSort(cards: seq<Flashcard>)
    ensures InitialIndex(SortByStatus(cards)) == 0
  {
    var r := SortByStatus(cards);
    SortedByRank(cards);
    if r != [] && !IsUnlearned(r[0]) {
      assert forall i :: 0 <= i < |r| ==> Rank(r[0].status) <= Rank(r[i].status);
    }
  }

  // ===========================================================================
  // Navigation
  // ===========================================================================

  /** `a % n` on JavaScript numbers: the remainder truncates toward zero, so it has
      the sign of `a`. */
  function JsRem(a: int, n: int): (r: int)
    requires n > 0
    ensures a >= 0 ==> r == a % n
    ensures a < 0 ==> -n < r <= 0
  {
    if a >= 0 then a % n else -((-a) % n)
  }

  /** The cyclic steps on positions `0..n`: the truncating and the Euclidean
      remainder agree on them, and they wrap at both ends. */
  lemma CyclicSteps(p: int, n: int)
    requires 0 <= p < n
    ensures JsRem(p + 1, n) == if p + 1 < n then p + 1 else 0
    ensures JsRem(p - 1 + n, n) == if p > 0 then p - 1 else n - 1
  {
    if p + 1 < n {
      ModSmall(p + 1, n);
    } else {
      ModWrap(n, n);
    }
    if p > 0 {
      ModWrap(p - 1 + n, n);
    } else {
      ModSmall(n - 1, n);
    }
  }

  lemma ModSmall(a: int, n: int)
    requires 0 <= a < n
    ensures a % n == a
  {
  }

  lemma ModWrap(a: int, n: int)
    requires 0 < n <= a < 2 * n
    ensures a % n == a - n
  {
  }

  /** `wordsData.filter(word => word.status !== 'learned')`. */
  function Unlearned(words: seq<Flashcard>): seq<Flashcard>
  {
    Filter(words, IsUnlearned)
  }

  /** The position in the unlearned list of the card on screen, or -1 when that
      card is learned. */
  function UnlearnedPosition(words: seq<Flashcard>, current: nat): int
    requires current < |words|
  {
    IndexOfId(Unlearned(words), words[current].id)
  }

  /** The index `findIndex` gives for the card that holds the id of `u[k]`: it is
      found, because `u` is drawn from `words`. */
  function IndexOfUnlearned(words: seq<Flashcard>, k: nat): (r: nat)
    requires k < |Unlearned(words)|
    ensures r < |words| && words[r].id == Unlearned(words)[k].id
  {
    var u := Unlearned(words);
    assert u[k] in u;
    var i :| 0 <= i < |words| && words[i] == u[k];
    FindIndexFound(words, (c: Flashcard) => c.id == u[k].id, i);
    IndexOfId(words, u[k].id)
  }

  /** `handleNextCard`'s new index: one step forward in the unlearned list. */
  function NextIndex(words: seq<Flashcard>, current: nat): (r: nat)
    requires current < |words| && Unlearned(words) != []
    ensures r < |words|
  {
    var n := |Unlearned(words)|;
    IndexOfUnlearned(words, JsRem(UnlearnedPosition(words, current) + 1, n))
  }

  /** `handlePrevCard`'s new index: one step back in the unlearned list. */
  function PrevIndex(words: seq<Flashcard>, current: nat): (r: nat)
    requires current < |words| && Unlearned(words) != []
    ensures r < |words|
  {
    var n := |Unlearned(words)|;
    IndexOfUnlearned(words, JsRem(UnlearnedPosition(words, current) - 1 + n, n))
  }

  /** The unlearned cards of a list with unique ids have unique ids. */
  lemma {:induction false} FilterKeepsUniqueIds(s: seq<Flashcard>, p: Flashcard -> bool)
    requires UniqueIds(s)
    ensures UniqueIds(Filter(s, p))
  {
    if s != [] {
      FilterKeepsUniqueIds(s[1..], p);
      var rest := Filter(s[1..], p);
      forall x | x in rest ensures x.id != s[0].id {
        FilterMembership(s[1..], p, x);
        var i :| 0 <= i < |s[1..]| && s[1..][i] == x;
        assert s[i + 1] == x;
      }
      if p(s[0]) {
        var r := [s[0]] + rest;
        forall i, j | 0 <= i < j < |r| ensures r[i].id != r[j].id {
          assert r[j] == rest[j - 1] && rest[j - 1] in rest;
          if i > 0 {
            assert r[i] == rest[i - 1];
          }
        }
      }
    }
  }

  /** With unique ids, `findIndex` by id finds the card itself. */
  lemma IndexOfOwnId(s: seq<Flashcard>, i: nat)
    requires UniqueIds(s) && i < |s|
    ensures IndexOfId(s, s[i].id) == i
  {
    FindIndexFound(s, (c: Flashcard) => c.id == s[i].id, i);
  }

  /** With unique ids the index found holds exactly the chosen unlearned card. */
  lemma IndexOfUnlearnedIsCard(words: seq<Flashcard>, k: nat)
    requires UniqueIds(words) && k < |Unlearned(words)|
    ensures words[IndexOfUnlearned(words, k)] == Unlearned(words)[k]
  {
    var u := Unlearned(words);
    assert u[k] in u;
    FilterMembership(words, IsUnlearned, u[k]);
    var i :| 0 <= i < |words| && words[i] == u[k];
    IndexOfOwnId(words, i);
  }

  /** An unlearned card on screen sits at its own place in the unlearned list. */
  lemma PositionOfUnlearned(words: seq<Flashcard>, current: nat)
    requires UniqueIds(words) && current < |words| && IsUnlearned(words[current])
    ensures var p := UnlearnedPosition(words, current);
      0 <= p < |Unlearned(words)| && Unlearned(words)[p] == words[current]
  {
    var u := Unlearned(words);
    FilterMembership(words, IsUnlearned, words[current]);
    FilterKeepsUniqueIds(words, IsUnlearned);
    var k :| 0 <= k < |u| && u[k] == words[current];
    IndexOfOwnId(u, k);
  }

  /** With unique ids the card found for `u[k]` is unlearned. */
  lemma UnlearnedCardFound(words: seq<Flashcard>, k: nat)
    requires UniqueIds(words) && k < |Unlearned(words)|
    ensures IsUnlearned(words[IndexOfUnlearned(words, k)])
  {
    var u := Unlearned(words);
    IndexOfUnlearnedIsCard(words, k);
    assert u[k] in u;
    FilterMembership(words, IsUnlearned, u[k]);
  }

  /** With unique ids, next and prev land on an unlearned card, whatever card is on
      screen. */
  lemma NavigationLandsOnUnlearned(words: seq<Flashcard>, current: nat)
    requires UniqueIds(words) && current < |words| && Unlearned(words) != []
    ensures IsUnlearned(words[NextIndex(words, current)])
    ensures IsUnlearned(words[PrevIndex(words, current)])
  {
    var n := |Unlearned(words)|;
    var p := UnlearnedPosition(words, current);
    UnlearnedCardFound(words, JsRem(p + 1, n));
    UnlearnedCardFound(words, JsRem(p - 1 + n, n));
  }

  /** From an unlearned card, next moves to the following unlearned card, wrapping
      from the last to the first, and prev to the preceding one, wrapping from the
      first to the last. */
  lemma NavigationIsCyclic(words: seq<Flashcard>, current: nat)
    requires UniqueIds(words) && current < |words| && IsUnlearned(words[current])
    requires Unlearned(words) != []
    ensures var u := Unlearned(words);
      var p := UnlearnedPosition(words, current);
      && 0 <= p < |u| && u[p] == words[current]
      && words[NextIndex(words, current)] == u[if p + 1 < |u| then p + 1 else 0]
      && words[PrevIndex(words, current)] == u[if p > 0 then p - 1 else |u| - 1]
  {
    PositionOfUnlearned(words, current);
    var p := UnlearnedPosition(words, current);
    CyclicSteps(p, |Unlearned(words)|);
    NextLandsOn(words, current);
    PrevLandsOn(words, current);
  }

  /** Next lands on the card at the following position, modulo the length. */
  lemma NextLandsOn(words: seq<Flashcard>, current: nat)
    requires UniqueIds(words) && current < |words| && Unlearned(words) != []
    ensures var u := Unlearned(words);
      var k := JsRem(UnlearnedPosition(words, current) + 1, |u|);
      0 <= k < |u| && words[NextIndex(words, current)] == u[k]
  {
    IndexOfUnlearnedIsCard(words, JsRem(UnlearnedPosition(words, current) + 1, |Unlearned(words)|));
  }

  /** Prev lands on the card at the preceding position, modulo the length. */
  lemma PrevLandsOn(words: seq<Flashcard>, current: nat)
    requires UniqueIds(words) && current < |words| && Unlearned(words) != []
    ensures var u := Unlearned(words);
      var k := JsRem(UnlearnedPosition(words, current) - 1 + |u|, |u|);
      0 <= k < |u| && words[PrevIndex(words, current)] == u[k]
  {
    var n := |Unlearned(words)|;
    IndexOfUnlearnedIsCard(words, JsRem(UnlearnedPosition(words, current) - 1 + n, n));
  }

  /** From an unlearned card, next then prev comes back to it, and so does prev
      then next. */
  lemma NextPrevRoundTrip(words: seq<Flashcard>, current: nat)
    requires UniqueIds(words) && current < |words| && IsUnlearned(words[current])
    requires Unlearned(words) != []
    ensures PrevIndex(words, NextIndex(words, current)) == current
    ensures NextIndex(words, PrevIndex(words, current)) == current
  {
    var u := Unlearned(words);
    var n := |u|;
    NavigationIsCyclic(words, current);
    var p := UnlearnedPosition(words, current);
    var next, prev := NextIndex(words, current), PrevIndex(words, current);
    var pn, pp := if p + 1 < n then p + 1 else 0, if p > 0 then p - 1 else n - 1;
    assert IsUnlearned(words[next]) by {
      assert u[pn] in u;
      FilterMembership(words, IsUnlearned, u[pn]);
    }
    assert IsUnlearned(words[prev]) by {
      assert u[pp] in u;
      FilterMembership(words, IsUnlearned, u[pp]);
    }
    NavigationIsCyclic(words, next);
    NavigationIsCyclic(words, prev);
    FilterKeepsUniqueIds(words, IsUnlearned);
    IndexOfOwnId(u, pn);
    IndexOfOwnId(u, pp);
    IndexOfOwnId(u, p);
    IndexOfOwnId(words, current);
  }

  /** From a learned card (one picked from the word list), next goes to the first
      unlearned card, and prev to the second-to-last one (the only one when
      there is just one): the position -1 steps back to `n - 2`. */
  lemma NavigationFromLearned(words: seq<Flashcard>, current: nat)
    requires UniqueIds(words) && current < |words| && !IsUnlearned(words[current])
    requires Unlearned(words) != []
    ensures var u := Unlearned(words);
      && words[NextIndex(words, current)] == u[0]
      && words[PrevIndex(words, current)] == u[if |u| >= 2 then |u| - 2 else 0]
  {
    var u := Unlearned(words);
    var n := |u|;
    FilterMembership(words, IsUnlearned, words[current]);
    FilterKeepsUniqueIds(words, IsUnlearned);
    var p := UnlearnedPosition(words, current);
    if p >= 0 {
      assert u[p].id == words[current].id;
      assert u[p] in u;
      FilterMembership(words, IsUnlearned, u[p]);
      var i :| 0 <= i < |words| && words[i] == u[p];
    }
    assert p == -1;
    assert JsRem(p + 1, n) == 0;
    if n >= 2 {
      ModSmall(n - 2, n);
    }
    IndexOfUnlearnedIsCard(words, JsRem(p + 1, n));
    IndexOfUnlearnedIsCard(words, JsRem(p - 1 + n, n));
  }

  // ===========================================================================
  // Status toggle and part of speech
  // ===========================================================================

  /** `currentWord.status === 'learned' ? 'not-learned' : 'learned'`. */
  function Toggle(s: Status): (r: Status)
    ensures r == Learned <==> s != Learned
    ensures r != Learning
  {
    if s == Learned then NotLearned else Learned
  }

  /** Toggling twice undoes a toggle, except that a card being learned comes back
      as not learned. */
  lemma ToggleTwice(s: Status)
    ensures Toggle(Toggle(s)) == if s == Learning then NotLearned else s
  {
  }

  /** The value of `posMap[chinese]`: one of the eight own entries, a member the
      object literal inherits from `Object.prototype`, or `undefined`. */
  datatype LookupValue = OwnEntry(english: string) | InheritedMember(name: string) | Undefined

  /** The names every object literal inherits from `Object.prototype`. */
  const ObjectPrototypeNames: set<string> := {
    "constructor", "hasOwnProperty", "isPrototypeOf", "propertyIsEnumerable",
    "toLocaleString", "toString", "valueOf", "__proto__",
    "__defineGetter__", "__defineSetter__", "__lookupGetter__", "__lookupSetter__"
  }

  /** The eight own entries of `posMap`. */
  function PosEntry(chinese: string): Option<string>
  {
    if chinese == "名词" then Some("noun")
    else if chinese == "动词" then Some("verb")
    else if chinese == "形容词" then Some("adjective")
    else if chinese == "副词" then Some("adverb")
    else if chinese == "代词" then Some("pronoun")
    else if chinese == "介词" then Some("preposition")
    else if chinese == "连词" then Some("conjunction")
    else if chinese == "感叹词" then Some("interjection")
    else None
  }

  /** `posMap[chinese]` on the object literal. */
  function PosMapLookup(chinese: string): LookupValue
  {
    match PosEntry(chinese)
    case Some(e) => OwnEntry(e)
    case None => if chinese in ObjectPrototypeNames then InheritedMember(chinese) else Undefined
  }

  /** What `posMap[chinese] || ''` evaluates to: a string, or an inherited function
      or object, which is truthy. */
  datatype JsValue = JsString(text: string) | JsMember(name: string)

  /** `getPartOfSpeechEnglish` as written. */
  function PartOfSpeechAsWritten(chinese: string): JsValue
  {
    match PosMapLookup(chinese)
    case OwnEntry(e) => JsString(e)
    case InheritedMember(name) => JsMember(name)
    case Undefined => JsString("")
  }

  /** As written, a label such as `toString` yields the inherited function rather
      than the empty string. */
  lemma AsWrittenLeaksInheritedMember()
    ensures PartOfSpeechAsWritten("toString") == JsMember("toString")
    ensures PartOfSpeechAsWritten("toString") != JsString(PartOfSpeechEnglish("toString"))
  {
    assert "toString" in ObjectPrototypeNames;
  }

  /** `getPartOfSpeechEnglish` as intended: the eight labels map to their English
      names, and every other string, inherited member names included, to `""`. */
  function PartOfSpeechEnglish(chinese: string): (r: string)
    ensures r != "" <==> PosEntry(chinese).Some?
    ensures PosEntry(chinese).Some? ==> r == PosEntry(chinese).value
  {
    match PosEntry(chinese)
    case Some(e) => e
    case None => ""
  }

  /** Distinct labels get distinct English names. */
  lemma PartOfSpeechInjective(a: string, b: string)
    requires PartOfSpeechEnglish(a) != "" && PartOfSpeechEnglish(a) == PartOfSpeechEnglish(b)
    ensures a == b
  {
  }

  /** The intended lookup differs from the one as written only on the inherited
      member names. */
  lemma AsWrittenAgreesElsewhere(chinese: string)
    requires chinese !in ObjectPrototypeNames
    ensures PartOfSpeechAsWritten(chinese) == JsString(PartOfSpeechEnglish(chinese))
  {
  }

  // ===========================================================================
  // The page state
  // ===========================================================================

  class FlashcardPage {
    /** The card store the page reads and writes. */
    const store: FlashcardStore
    /** `wordsData`: the cards on the page, sorted when loaded. */
    var wordsData: seq<Flashcard>
    /** `currentCardIndex`. */
    var currentCardIndex: int
    /** `isFlashcardFlipped`. */
    var isFlipped: bool
    /** `showSuccessToast` (its two-second timer is not modelled). */
    var showSuccessToast: bool

    /** The index points at a card, or is 0 on an empty page. */
    ghost predicate Valid()
      reads this
    {
      0 <= currentCardIndex && (currentCardIndex < |wordsData| || currentCardIndex == 0)
    }

    /** The state before the mount effect runs. */
    constructor(store: FlashcardStore)
      ensures this.store == store && Valid()
      ensures wordsData == [] && currentCardIndex == 0 && !isFlipped && !showSuccessToast
    {
      this.store := store;
      wordsData := [];
      currentCardIndex := 0;
      isFlipped := false;
      showSuccessToast := false;
    }

    /** `getCurrentWord`: `undefined` on an empty page. */
    function CurrentWord(): Option<Flashcard>
      reads this
    {
      if 0 <= currentCardIndex < |wordsData| then Some(wordsData[currentCardIndex]) else None
    }

    /** `loadWords`: the stored cards, sorted by status, with the first unlearned
        card (or the first card) on screen. */
    method LoadWords()
      modifies this
      ensures Valid()
      ensures wordsData == SortByStatus(store.cards) && currentCardIndex == InitialIndex(wordsData)
      ensures isFlipped == old(isFlipped) && showSuccessToast == old(showSuccessToast)
    {
      var cards := store.GetAll();
      var sorted := SortByStatus(cards);
      wordsData := sorted;
      var first := FindIndex(sorted, IsUnlearned);
      currentCardIndex := if first != -1 then first else 0;
    }

    /** `handleFlipCard`. */
    method Flip()
      modifies this
      ensures isFlipped == !old(isFlipped)
      ensures wordsData == old(wordsData) && currentCardIndex == old(currentCardIndex)
      ensures showSuccessToast == old(showSuccessToast)
    {
      isFlipped := !isFlipped;
    }

    /** `handleNextCard`: with no unlearned card nothing changes; otherwise the next
        unlearned card comes up face down. */
    method Next()
      requires Valid()
      modifies this
      ensures Valid() && wordsData == old(wordsData) && showSuccessToast == old(showSuccessToast)
      ensures Unlearned(wordsData) == [] ==>
        currentCardIndex == old(currentCardIndex) && isFlipped == old(isFlipped)
      ensures Unlearned(wordsData) != [] ==>
        currentCardIndex == NextIndex(wordsData, old(currentCardIndex)) && !isFlipped
    {
      var unlearnedWords := Filter(wordsData, IsUnlearned);
      if |unlearnedWords| > 0 {
        var n := |unlearnedWords|;
        var currentUnlearnedIndex := IndexOfId(unlearnedWords, wordsData[currentCardIndex].id);
        var newUnlearnedIndex := JsRem(currentUnlearnedIndex + 1, n);
        currentCardIndex := IndexOfUnlearned(wordsData, newUnlearnedIndex);
        isFlipped := false;
      }
    }

    /** `handlePrevCard`: with no unlearned card nothing changes; otherwise the
        previous unlearned card comes up face down. */
    method Prev()
      requires Valid()
      modifies this
      ensures Valid() && wordsData == old(wordsData) && showSuccessToast == old(showSuccessToast)
      ensures Unlearned(wordsData) == [] ==>
        currentCardIndex == old(currentCardIndex) && isFlipped == old(isFlipped)
      ensures Unlearned(wordsData) != [] ==>
        currentCardIndex == PrevIndex(wordsData, old(currentCardIndex)) && !isFlipped
    {
      var unlearnedWords := Filter(wordsData, IsUnlearned);
      if |unlearnedWords| > 0 {
        var n := |unlearnedWords|;
        var currentUnlearnedIndex := IndexOfId(unlearnedWords, wordsData[currentCardIndex].id);
        var newUnlearnedIndex := JsRem(currentUnlearnedIndex - 1 + n, n);
        currentCardIndex := IndexOfUnlearned(wordsData, newUnlearnedIndex);
        isFlipped := false;
      }
    }

    /** `handleWordItemClick`: a card of the page comes up face down; an unknown id
        changes nothing. */
    method SelectWord(wordId: int)
      requires Valid()
      modifies this
      ensures Valid() && wordsData == old(wordsData) && showSuccessToast == old(showSuccessToast)
      ensures !HasId(wordsData, wordId) ==>
        currentCardIndex == old(currentCardIndex) && isFlipped == old(isFlipped)
      ensures HasId(wordsData, wordId) ==>
        currentCardIndex == IndexOfId(wordsData, wordId) && wordsData[currentCardIndex].id == wordId
        && !isFlipped
    {
      var wordIndex := IndexOfId(wordsData, wordId);
      if wordIndex != -1 {
        currentCardIndex := wordIndex;
        isFlipped := false;
      } else {
        assert !HasId(wordsData, wordId);
      }
    }

    /** `handleMarkLearned`: the card on screen, learned or not, gets the toggled
        status in the store; when the store finds it the page reloads and shows its
        toast. An empty page does nothing. */
    method MarkLearned()
      requires Valid()
      modifies this, store
      ensures Valid()
      ensures old(wordsData) == [] ==>
        store.cards == old(store.cards) && wordsData == old(wordsData)
        && currentCardIndex == old(currentCardIndex) && showSuccessToast == old(showSuccessToast)
      ensures old(wordsData) != [] ==>
        var word := old(wordsData)[old(currentCardIndex)];
        var update := SetStatus(old(store.cards), word.id, Toggle(word.status));
        && store.cards == update.cards
        && (update.found ==>
              wordsData == SortByStatus(store.cards) && currentCardIndex == InitialIndex(wordsData)
              && showSuccessToast)
        && (!update.found ==>
              wordsData == old(wordsData) && currentCardIndex == old(currentCardIndex)
              && showSuccessToast == old(showSuccessToast))
      ensures isFlipped == old(isFlipped)
    {
      if wordsData == [] {
        return;
      }
      var currentWord := wordsData[currentCardIndex];
      var newStatus := if currentWord.status == Learned then NotLearned else Learned;
      var success := store.UpdateStatus(currentWord.id, newStatus);
      if success {
        LoadWords();
        showSuccessToast := true;
      }
    }

    /** `handleDeleteWord`: after the user confirms, the card leaves the store and
        the page reloads with its toast; without confirmation nothing changes. */
    method DeleteWord(wordId: int, confirmed: bool)
      requires Valid()
      modifies this, store
      ensures Valid() && isFlipped == old(isFlipped)
      ensures !confirmed ==>
        store.cards == old(store.cards) && wordsData == old(wordsData)
        && currentCardIndex == old(currentCardIndex) && showSuccessToast == old(showSuccessToast)
      ensures confirmed ==>
        store.cards == DeleteCard(old(store.cards), wordId)
        && wordsData == SortByStatus(store.cards) && currentCardIndex == InitialIndex(wordsData)
        && showSuccessToast
    {
      if confirmed {
        var success := store.Delete(wordId);
        ghost var remaining := store.cards;
        if success {
          LoadWords();
          assert store.cards == remaining;
          showSuccessToast := true;
        }
      }
    }
  }
}
