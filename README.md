# Indonesian–Chinese picture translator: the storage, recognition and review logic

The application photographs Indonesian text. It asks a chat model to transcribe and
translate the text into Chinese and to explain the underlined words. It keeps every
translation in a history of at most 100 entries, newest first. Each explained word
becomes a flashcard, unique by its spelling, which the user reviews on a flashcard
page. This project models in Dafny the logic that keeps those records and turns the
model's reply into a result:

- **The two stored lists**, translation history and flashcards. The browser's local
  mode keeps them in `FlashcardStore` and `HistoryStore` classes. The serverless
  storage handler keeps them in `KvStore`. Both act through the same rules in
  `Ingest`:
  - A history add prepends and keeps the first 100.
  - A delete filters by id.
  - A search is a case-insensitive substring filter.
  - A card add returns the existing card with the same word, or appends a new
    `not-learned` card whose pronunciation is `/word/`.
  - A batch add splits both texts into sentences on `.!?。！？`. It takes as each
    word's example the first sentence that mentions the word, and as its
    translation the target sentence at the same index.
  - A status update sets the status of the first card with the id.
  - The progress counts cards per status and gives the share learned in percent.

  The handler's dispatch on `type` and `action` and its status codes are
  `StorageApi.RouteOf` and `StorageApi.Serve`. Its one-pass batch is proved to
  leave the same collection and return the same cards as the browser's loop of
  single adds.
- **Reading the chat model's reply** (`Recognition`):
  - It takes the first ```` ```json ```` fenced block up to the first closing
    fence, otherwise the span from the first `{` to the last `}`, otherwise the
    whole reply, and then trims it.
  - It parses the text. `JSON.parse` is a parameter of the model.
  - It rejects a result that lacks either text and replaces a non-array word list
    with `[]`.
  - The browser maps error messages to friendly ones. The serverless `translate`
    handler has its own ladder of status codes, and a lemma shows that the handler
    and the browser agree on every reply.
- **The two review pages**:
  - `FlashcardPage` sorts the cards stably by status and opens at the first card
    not yet learned. Next and previous move cyclically over the unlearned cards
    only. Marking a card toggles its status, and the page also maps part-of-speech
    labels to English.
  - `HistoryPage` splits the loaded records into pages of ten and keeps the page
    number within range. It returns to page 1 when the search text changes, and
    its confirm dialog deletes one record or clears them all.

Ids, timestamps and the clock are parameters. The history add takes the id and
the formatted time. The card add takes a `CardStamp`, and the batch takes the
stamp of its k-th word as `stamps(k)`. The key-value store's failure is a field
of the handler's `Env`.

Where the model follows the code rather than the design descriptions:
- The server's `addBatch` checks for duplicates against the list it is building,
  so a word repeated within one batch yields the card added for its first
  occurrence. That is exactly what the browser's loop of adds does, and
  `FlashcardService.FlashcardStore.AddEach` and `StorageApi.AddBatchOnePass` are
  both proved equal to `Ingest.BatchFold`.
- A history delete and a card delete report success whether or not anything
  matched.
- The handler reads `id` without checking it. A history or card `delete` whose body
  lacks the `id`, or carries one of the other kind than the stored ids, answers
  success and keeps every entry. An `updateStatus` without a numeric id answers 404.
- `handleConfirmClear` tests the selected id for truthiness, so an empty id
  selects "clear everything".
- A card the user marks while it is `learning` becomes `learned`, and marking it
  again gives `not-learned`, not `learning` (`FlashcardPage.ToggleTwice`).
- On the history page, `handleConfirmClear` does not touch `currentPage`. After a
  delete the current page can therefore lie past the last page, and it then shows
  nothing (`HistoryPage.PageNonEmptyIff`).

Modules, in dependency order: `Wrappers`, `Seqs`, `Text`, `Model`, `Ingest`,
`HistoryService`, `FlashcardService`, `StorageApi`, `Recognition`,
`FlashcardPage`, `HistoryPage`.

## Model

| member | source | states |
|---|---|---|
| HistoryService.HistoryStore.constructor | src/services/storage.ts:65-66 | an empty slot reads as the empty history, within the bound |
| HistoryService.HistoryStore.GetAll | src/services/storage.ts:60-72 | returns the stored history as it is |
| HistoryService.HistoryStore.Add | src/services/storage.ts:80-98 | returns the draft with the given id and time; the new history is that item followed by the old history cut so that the length is `min(old + 1, 100)`; the 100 bound is kept |
| Ingest.PrependCapped | src/services/storage.ts:92-95 | the result starts with the new item, has length `min(n + 1, 100)` for an old length n, and its rest is a prefix of the old list |
| Ingest.AddAllNewestFirst | src/services/storage.ts:92-96 | a sequence of adds leaves the added items newest first, ahead of the old items, cut to the 100 newest; never more than 100 |
| Ingest.NewestFirst | src/services/storage.ts:92-93 | after two adds the later item is at index 0 and the earlier one at index 1 |
| HistoryService.HistoryStore.Delete | src/services/storage.ts:113-116 | always reports success; the new history is `DeleteHistory` of the old one |
| Ingest.DeleteHistory | src/services/storage.ts:114 | an order-preserving subsequence holding exactly the items with another id, each as often as before; unchanged when no item has the id |
| HistoryService.HistoryStore.Clear | src/services/storage.ts:131-132 | reports success and leaves the empty history |
| HistoryService.HistoryStore.Search | src/services/storage.ts:141-149 | returns `SearchHistory` of the stored items; changes nothing |
| Ingest.SearchHistory | src/services/storage.ts:141-149 | the empty keyword gives the whole list; any other keyword gives an order-preserving subsequence holding exactly the items whose lower-cased `indonesian` or `chinese` contains the lower-cased keyword, each as often as in the list |
| Ingest.SearchIgnoresCase | src/services/storage.ts:145-148 | two keywords that lower-case alike give the same results |
| Text.LowerIdempotent | src/services/storage.ts:145 | lower-casing twice is lower-casing once |
| Text.LowerHasNoUpper | src/services/storage.ts:145 | a lower-cased text holds no upper-case ASCII letter |
| Text.ContainsIff | src/services/storage.ts:147-148 | `includes` holds exactly when the pattern occurs at some index |
| FlashcardService.FlashcardStore.constructor | src/services/storage.ts:163-164 | an empty slot reads as no cards |
| FlashcardService.FlashcardStore.GetAll | src/services/storage.ts:158-170 | returns the stored cards as they are |
| FlashcardService.FlashcardStore.AddFromWordParse | src/services/storage.ts:182-202 | the returned card and the new collection are `AddCard` of the old one; unique words stay unique |
| Ingest.AddCardFacts | src/services/storage.ts:184-199 | a word already present returns the first card with that word and leaves the collection unchanged; a new word appends exactly one card, `NewCard` of the parse, and returns it; the returned card has the word, is in the collection, the old collection is a prefix of the new one, and unique words stay unique |
| Model.Pronunciation | src/services/storage.ts:300-302 | the word between two slashes |
| Model.PronunciationInjective | src/services/storage.ts:300-302 | distinct words get distinct pronunciations |
| Model.NewCardRoundTrip | src/services/storage.ts:189-197 | a new card is `not-learned`, has the pronunciation of its word, the given example, translation, id and time, and gives back its word parse |
| Model.StampRoundTrip | src/services/storage.ts:80-90 | a stamped history item gives back its draft and carries the given id and time |
| Model.IndexOfWordStable | src/services/storage.ts:184 | appending cards does not move the first card with a word already present |
| Text.Split | src/services/storage.ts:226 | the text splits into at least one piece, and no piece holds a terminator |
| Text.Sentences | src/services/storage.ts:226-227 | every sentence kept is not blank |
| Text.SplitRoundTrip | src/services/storage.ts:226 | the split has one more piece than the text has terminators, and joining the pieces with those terminators gives back the text |
| Text.TrimIsInfix | src/services/storage.ts:235 | the trimmed text is an infix of the text with only white space cut from both ends, and it neither starts nor ends with white space |
| Text.TrimEmptyIff | src/services/storage.ts:226 | a text trims to empty exactly when every character is white space |
| Ingest.PickExample | src/services/storage.ts:230-240 | the loop computes `ExampleFor` |
| Ingest.ExampleIsFirstMention | src/services/storage.ts:230-240 | when sentence k is the first that mentions the word, ignoring case, the example is that sentence trimmed, and the translation is target sentence k trimmed if there is one, otherwise the meaning |
| Ingest.ExampleFallback | src/services/storage.ts:234-240 | when no sentence mentions the word, the example is the word and the translation its meaning |
| FlashcardService.FlashcardStore.AddEach | src/services/storage.ts:229-249 | the loop of single adds leaves the collection and returns the cards that `BatchFold` gives |
| FlashcardService.FlashcardStore.AddBatch | src/services/storage.ts:224-251 | splits both texts into sentences and leaves what `AddBatch` gives for them |
| Ingest.BatchFold | src/services/storage.ts:229-251 | one returned card per word parse, and the old collection is a prefix of the new one |
| Ingest.BatchFoldSnoc | src/services/storage.ts:229-249 | one more word parse is one more step of the loop |
| Ingest.BatchWords | src/services/storage.ts:229-249 | after the batch a word is in the collection exactly when it was before or is in the batch |
| Ingest.BatchKeepsWordsUnique | src/services/storage.ts:229-249 | a batch keeps words unique in the collection |
| Ingest.BatchReturnsFirstCard | src/services/storage.ts:242-248 | the card returned for the k-th word is the first card with that word in the final collection |
| Ingest.BatchAddedWord | src/services/storage.ts:242-248 | the k-th returned card has the k-th word |
| Ingest.BatchRepeatedWordSameCard | src/services/storage.ts:229-251 | a word repeated in the batch returns the same card both times |
| Ingest.BatchNewWordGetsNewCard | src/services/storage.ts:229-248 | a word neither stored nor earlier in the batch gets a new card with its example and the k-th stamp |
| FlashcardService.FlashcardStore.UpdateStatus | src/services/storage.ts:266-273 | reports and leaves what `SetStatus` gives |
| Ingest.SetStatus | src/services/storage.ts:266-273 | found exactly when a card has the id; then the first such card has the new status and every card is as before in every other respect; otherwise nothing changes; the length never changes |
| FlashcardService.FlashcardStore.Delete | src/services/storage.ts:288-291 | always reports success; the new collection is `DeleteCard` of the old one |
| Ingest.DeleteCard | src/services/storage.ts:289 | an order-preserving subsequence holding exactly the cards with another id, each as often as before; unchanged when no card has the id |
| FlashcardService.FlashcardStore.GetProgress | src/services/storage.ts:312-319 | returns `GetProgress` of the stored cards |
| Ingest.GetProgress | src/services/storage.ts:312-319 | the total is the number of cards and is the sum of the three status counts; the percentage is 0 for no cards, otherwise satisfies `percentage * total == 100 * learned`; it lies in 0..100 and is 100 exactly when every card is learned |
| Ingest.Percentage | src/services/storage.ts:317 | 0 for an empty collection, otherwise `100 * learned / total`, which lies in 0..100 and is 100 exactly when all are learned |
| Ingest.StatusCountsPartition | src/services/storage.ts:313-316 | the three status counts sum to the number of cards |
| StorageApi.RouteOf | api/storage.ts:48-203 | `OPTIONS` is the preflight; any other `type` than `history` or `flashcard` is a bad type; an action outside the four history or five flashcard actions is a bad action; every performed action belongs to its type |
| StorageApi.Apply | api/storage.ts:56-201 | each case body answers 200, except an `updateStatus` whose id finds no card (missing, not a number, or unknown), which answers 404 and writes nothing; a `delete` whose id is missing or of the other kind answers 200 and keeps every entry; a card `add` with both example fields is the browser's `AddCard`; a history case leaves the cards alone and a card case the history |
| StorageApi.Serve | api/storage.ts:39-217 | `OPTIONS` answers 200 and changes nothing; a bad type or action answers 400 and changes nothing; a 500 comes from a performed action exactly when its store fails or its body does not fit; a `TypeError` comes exactly from a `null` body for a case that reads the body (before the store is read, so it wins over a store failure), a card `add` without `wordParse`, or an `addBatch` missing one of its three fields; `UndefinedWrite` marks the three bodies listed under Left out; a 404 comes exactly from an `updateStatus` whose id finds no card; only a 200 writes, and it writes only the list of the request's type |
| StorageApi.KvStore.constructor | api/storage.ts:59 | empty slots read as empty lists |
| StorageApi.KvStore.Handle | api/storage.ts:39-217 | answers and writes what `Serve` says for the old lists, for every body, including a `delete` or `updateStatus` body without an id or with an id of the other kind |
| StorageApi.KvStore.HandleAddHistory | api/storage.ts:62-83 | returns the stamped item and prepends it, keeping the first 100; the cards are untouched |
| StorageApi.KvStore.HandleAddCard | api/storage.ts:108-131 | a word already stored returns its first card and writes nothing; with both example fields it returns and writes what `AddCard` gives, the same rule as the browser's add; the history is untouched |
| StorageApi.AddBatchOnePass | api/storage.ts:133-178 | the single pass, deduplicating against the list it builds, ends in the collection and the returned cards of `BatchFold`: those of the browser's loop of adds |
| StorageApi.KvStore.HandleUpdateStatus | api/storage.ts:180-189 | an id that finds a card answers 200 and writes `SetStatus`; a missing id, or one that finds no card, answers 404 and writes nothing |
| Recognition.FirstOccurrence | src/services/openai.ts:144 | the first index at or after the start where the pattern occurs, or -1 when it occurs nowhere there |
| Recognition.FirstClose | src/services/openai.ts:144 | the first index at or after the start where the closing `\n?```` of the fence pattern begins, or -1 |
| Recognition.FenceBounds | src/services/openai.ts:144 | a match opens at the first ```` ```json ````, skips one newline after it, and ends at the first closing fence after that; no match exactly when no closing fence begins anywhere from the end of an opening one on |
| Recognition.FenceGroupHoldsNoFence | src/services/openai.ts:144-146 | the lazily matched group holds no fence |
| Recognition.FencedReply | src/services/openai.ts:144-146 | a reply with one fenced block, and no backquote before the block or inside it, yields exactly the text inside the block |
| Recognition.LastIndexOf | src/services/openai.ts:149 | the last index holding the character, or -1 when there is none |
| Recognition.BraceBounds | src/services/openai.ts:149 | a match runs from the first `{` to the last `}` after it; no match exactly when no `}` follows any `{` |
| Recognition.BracedReply | src/services/openai.ts:148-152 | a reply without a fence yields the span from its first `{` to its last `}` |
| Recognition.PlainReply | src/services/openai.ts:143-153 | a reply with neither a fence nor a brace is taken whole |
| Recognition.Normalize | src/services/openai.ts:163-165 | the word list is always an array; an array is kept as it is, anything else becomes `[]`; both texts are unchanged |
| Recognition.NormalizeIdempotent | src/services/openai.ts:163-165 | normalising twice is normalising once |
| Recognition.Recognize | src/services/openai.ts:135-167 | a failed call rethrows its message; absent or empty content throws the empty-content message before parsing; a parse error throws the parser's message; a result without both texts throws the format message; the call succeeds exactly when the content is present, parses and has both texts, and then returns the normalised parse of the extracted text, which has both texts and an array word list |
| Recognition.FriendlyMessage | src/services/openai.ts:172-182 | `API key` is checked before `quota` before `network`, each giving its friendly message; a message holding none of the three is rethrown unchanged |
| Recognition.OwnMessagesHoldNoKeyword | src/services/openai.ts:172-179 | none of the friendly messages, nor the empty-content or format message, contains a keyword of the mapping |
| Recognition.FriendlyMessageStable | src/services/openai.ts:172-182 | mapping a mapped message changes nothing, and the function's own two messages pass through unchanged |
| Recognition.TranslateImage | src/services/openai.ts:135-182 | succeeds exactly when `Recognize` does, with its result; a failed call's message and a parse error's message go through `FriendlyMessage`; the empty-content and format messages come out unchanged; every message it throws is left alone by the mapping |
| Recognition.ServeTranslate | api/translate.ts:8-133 | a non-POST request answers 405 before any other check; a `null` body then answers 500 with the `TypeError` its destructuring raises; a missing image answers 400 before the key is checked; a missing key answers 500; a failing `fetch` answers 500 with its message; a non-OK upstream status is passed on; an OK reply without content answers 500; 200 comes exactly with a result, which is the normalised parse of the extracted text of an OK reply and has both texts and an array word list |
| Recognition.HandlerAgreesWithClient | api/translate.ts:95-126 | for the same content and parser, the handler answers 200 with exactly the browser's result, and fails exactly where the browser throws: 500 on empty content, 500 with the parser's message on a parse error, 500 on a result without both texts |
| FlashcardPage.SortByStatusIsStableSort | src/pages/p-flashcard/index.tsx:28-31 | the sorted cards are a permutation of the cards with non-decreasing rank (`not-learned`, `learning`, `learned`), and the cards of each rank keep their order |
| FlashcardPage.SortedByRank | src/pages/p-flashcard/index.tsx:28-31 | the ranks of the sorted cards never decrease |
| FlashcardPage.SortPermutes | src/pages/p-flashcard/index.tsx:28 | the sort is a permutation |
| FlashcardPage.SortKeepsRankOrder | src/pages/p-flashcard/index.tsx:28-31 | the sort keeps the relative order of cards with the same rank |
| FlashcardPage.InitialIndex | src/pages/p-flashcard/index.tsx:35-36 | a non-empty list opens at an index within it |
| FlashcardPage.InitialIndexFacts | src/pages/p-flashcard/index.tsx:35-36 | the page opens at the first card not learned, or at 0 when every card is learned |
| FlashcardPage.InitialIndexAfterSort | src/pages/p-flashcard/index.tsx:27-36 | after the sort the page always opens at index 0 |
| FlashcardPage.JsRem | src/pages/p-flashcard/index.tsx:69 | JavaScript `%`: the Euclidean remainder for a non-negative dividend, and a remainder in `-n < r <= 0` for a negative one |
| FlashcardPage.CyclicSteps | src/pages/p-flashcard/index.tsx:69-81 | one step forward from position p is `p + 1`, wrapping to 0; one step back is `p - 1`, wrapping to `n - 1` |
| FlashcardPage.IndexOfUnlearned | src/pages/p-flashcard/index.tsx:70 | the index looked up for an unlearned card lies in the list and holds that card's id |
| FlashcardPage.NextIndex | src/pages/p-flashcard/index.tsx:80-82 | the new index lies in the list |
| FlashcardPage.PrevIndex | src/pages/p-flashcard/index.tsx:68-70 | the new index lies in the list |
| FlashcardPage.NavigationLandsOnUnlearned | src/pages/p-flashcard/index.tsx:64-86 | with unique ids, next and prev land on an unlearned card from any card |
| FlashcardPage.NavigationIsCyclic | src/pages/p-flashcard/index.tsx:64-86 | from an unlearned card, next goes to the following unlearned card, wrapping from the last to the first, and prev to the preceding one, wrapping from the first to the last |
| FlashcardPage.NextPrevRoundTrip | src/pages/p-flashcard/index.tsx:64-86 | from an unlearned card, next then prev comes back to it, and so does prev then next |
| FlashcardPage.NavigationFromLearned | src/pages/p-flashcard/index.tsx:64-86 | from a learned card, next goes to the first unlearned card and prev to the second-to-last one, or to the only one |
| FlashcardPage.Toggle | src/pages/p-flashcard/index.tsx:93-94 | the new status is `learned` exactly when the old one is not, and never `learning` |
| FlashcardPage.ToggleTwice | src/pages/p-flashcard/index.tsx:93-94 | toggling twice gives back the status, except that `learning` comes back as `not-learned` |
| FlashcardPage.PartOfSpeechEnglish | src/pages/p-flashcard/index.tsx:45-57 | the eight labels get their English names and every other input `""` |
| FlashcardPage.PartOfSpeechInjective | src/pages/p-flashcard/index.tsx:46-55 | distinct labels get distinct English names |
| FlashcardPage.AsWrittenLeaksInheritedMember | src/pages/p-flashcard/index.tsx:56 | as written, the label `toString` yields the inherited function, not `""` |
| FlashcardPage.AsWrittenAgreesElsewhere | src/pages/p-flashcard/index.tsx:45-57 | as written and as intended agree on every label that is not an inherited member name |
| FlashcardPage.FlashcardPage.constructor | src/pages/p-flashcard/index.tsx:9-15 | no cards, index 0, face up, no toast |
| FlashcardPage.FlashcardPage.LoadWords | src/pages/p-flashcard/index.tsx:26-37 | the page holds the stored cards sorted by status and opens at `InitialIndex` of them |
| FlashcardPage.FlashcardPage.Flip | src/pages/p-flashcard/index.tsx:60-62 | flips the card and changes nothing else |
| FlashcardPage.FlashcardPage.Next | src/pages/p-flashcard/index.tsx:77-86 | with no unlearned card nothing changes; otherwise the index becomes `NextIndex` and the card comes up face down |
| FlashcardPage.FlashcardPage.Prev | src/pages/p-flashcard/index.tsx:65-74 | with no unlearned card nothing changes; otherwise the index becomes `PrevIndex` and the card comes up face down |
| FlashcardPage.FlashcardPage.SelectWord | src/pages/p-flashcard/index.tsx:105-117 | a card of the page becomes current, face down; an unknown id changes nothing |
| FlashcardPage.FlashcardPage.MarkLearned | src/pages/p-flashcard/index.tsx:89-101 | an empty page does nothing; otherwise the store sets the toggled status on the card shown, and when it finds the card the page reloads and shows its toast |
| FlashcardPage.FlashcardPage.DeleteWord | src/pages/p-flashcard/index.tsx:120-129 | after confirmation the card leaves the store and the page reloads with its toast; without confirmation nothing changes |
| HistoryPage.TotalPages | src/pages/p-history/index.tsx:18-19 | the fewest pages of ten that hold n records: `ceil(n / 10)`, 0 exactly for no records |
| HistoryPage.SliceIndex | src/pages/p-history/index.tsx:114 | `slice` clamps an index past the end to the length and keeps one within the list |
| HistoryPage.PageItemsWithinList | src/pages/p-history/index.tsx:111-115 | page p holds `items[(p-1)*10 .. p*10)` clipped to the list: at most ten, in order |
| HistoryPage.PageNonEmptyIff | src/pages/p-history/index.tsx:111-115 | a page has records exactly when it is at most `totalPages` |
| HistoryPage.PagesArePrefix | src/pages/p-history/index.tsx:111-115 | pages `1..k` together are the first `10 * k` records |
| HistoryPage.PagesReassemble | src/pages/p-history/index.tsx:111-115 | pages `1..totalPages` together give back the whole list |
| HistoryPage.HistoryPage.constructor | src/pages/p-history/index.tsx:10-15 | empty search text, page 1, no records, no selection, dialog and toast hidden |
| HistoryPage.HistoryPage.LoadHistory | src/pages/p-history/index.tsx:32-38 | the records become the search results for the current text, all records for the empty text |
| HistoryPage.HistoryPage.Mount | src/pages/p-history/index.tsx:22-45 | the mount effects load the records and set page 1 |
| HistoryPage.HistoryPage.SetSearchText | src/pages/p-history/index.tsx:41-45 | a new search text reloads the records and returns to page 1; the same text changes nothing |
| HistoryPage.HistoryPage.PageChange | src/pages/p-history/index.tsx:104-108 | a page from 1 to `totalPages` becomes current; any other number leaves the page as it was |
| HistoryPage.HistoryPage.ClearHistory | src/pages/p-history/index.tsx:51-54 | opens the dialog with nothing selected |
| HistoryPage.HistoryPage.DeleteHistoryItem | src/pages/p-history/index.tsx:99-102 | opens the dialog with the record selected |
| HistoryPage.HistoryPage.CancelClear | src/pages/p-history/index.tsx:76-79 | closes the dialog and drops the selection |
| HistoryPage.HistoryPage.ConfirmClear | src/pages/p-history/index.tsx:56-74 | a selected non-empty id deletes that record, otherwise every record is cleared; then the records reload, the toast shows, the dialog closes, the selection is dropped and the page number stays |

## Left out

- Storage I/O: `localStorage`, the Vercel KV client, `fetch` and `callStorageAPI`. The production branches of the services are not modelled. The collections are fields of type `seq`, and the handler's store is the `KvStore` class.
- `JSON.parse` and `JSON.stringify`: parsing is a function parameter. A corrupt slot, which the browser reads as `[]`, is not modelled. Fields other than the three the code reads are not modelled, nor is a top-level value that is not an object (`null`, say).
- `Date.now()`, `Math.random()`, `toLocaleString('zh-CN')` and `toISOString()`: ids and times are parameters. Card ids are the floating-point sum `Date.now() + Math.random()`; here they are integers, and their distinctness is an explicit assumption (`UniqueIds`) where a lemma needs it.
- Text.Lower: folds ASCII letters only. JavaScript's Unicode `toLowerCase` is not modelled, and the search lemmas rely only on both sides going through the same fold.
- StorageApi.Serve: a history `add` without `item`, a card `add` of a new word without `example` or `exampleTranslation`, and an `updateStatus` that finds its card but has no `status` would store an `undefined` field and answer 200 in the handler. The model's records hold no `undefined`, so these requests answer 500 with `UndefinedWrite` and write nothing.
- StorageApi.KvStore.Handle: answers those three bodies as `Serve` does, for the same reason.
- The types of the body's fields: a field of another JSON type than its case expects (a number for `indonesianText`, an `item` without its texts) is not modelled. Only the presence of each field and the kind of the `id` are. The message of a `TypeError` is not modelled, here nor in the translate handler, whose `null` body answers 500 with `TypeErrorBody`.
- Statuses outside the three values: the server accepts any string from the body as a status, and the model has only the three.
- The `catch` branches reachable only by I/O errors in the local services (`getAll` returning `[]`, `addBatch` returning `[]`, a failed `setItem`): the in-memory model cannot fail there.
- Recognition: a value thrown that is not an `Error` is not modelled. A reply without `choices` is modelled as an absent content rather than as a `TypeError`.
- The prompt text and the construction of the chat completion requests in both files, and `estimateCost`: they are opaque third-party calls and floating-point arithmetic.
- Ingest.GetProgress: the percentage is a real number. Floating-point rounding of `(learned / total) * 100` is not modelled.
- Logging: the `console.error` calls in the catch blocks of both handlers and of the local services, and in the translate handler's upstream-failure branch, have no effect on the answers or the stored lists.
- Concurrency: read-modify-write races between tabs or requests are not modelled.
- The page components' rendering, the mobile menu, `document.title`, the history detail dialog, the `confirm` prompt (a parameter of `DeleteWord`), the card scroll, and the two-second timers that hide the toasts.
- The flashcard page calls the asynchronous service methods without `await`. The model gives those calls their evidently intended synchronous meaning over the stored list.
- The home page, the image cropper, the speech hook and the styling configuration are not part of this model.

## Findings

| source | as written | input that shows it | evidently intended | confidence | as-written member | corrected member |
|---|---|---|---|---|---|---|
| src/pages/p-flashcard/index.tsx:45-57 | `posMap[chinese] \|\| ''` looks the label up on an object literal, so the members it inherits from `Object.prototype` are found too | the label `toString` (likewise `constructor`, `valueOf`, `__proto__`, …) yields the inherited function instead of `''` | the eight listed labels map to English and every other label to `''` | medium (not executed) | FlashcardPage.AsWrittenLeaksInheritedMember | FlashcardPage.PartOfSpeechEnglish |
