/** The serverless storage handler: one request selects a collection (`type`) and an
    operation (`action`), reads the stored list from the key-value store, applies
    the same rules as the local-mode services and writes the list back once. */
module StorageApi {
  import opened Wrappers
  import opened Text
  import opened Model
  import opened Ingest

  /** A JSON `id` as `===` and `!==` compare it with the stored ids: history ids are
      strings and card ids numbers, so an id of another kind equals no stored id. */
  datatype JsonId = TextId(text: string) | NumberId(number: int) | OtherId

  /** The request body: `null`, or an object holding the fields the cases
      destructure, each `None` where the object lacks it (it then reads as
      `undefined`). */
  datatype Body =
    | NoBody
    | Fields(item: Option<HistoryDraft>, id: Option<JsonId>, status: Option<Status>,
             wordParse: Option<WordParse>, example: Option<string>, exampleTranslation: Option<string>,
             wordParses: Option<seq<WordParse>>, indonesianText: Option<string>,
             chineseTranslation: Option<string>)

  /** The HTTP method, the `type` and `action` query parameters and the body. */
  datatype Request = Request(httpMethod: string, kind: string, action: string, body: Body)

  /** What the handler draws from the clock and the key-value store: the id and time
      of a new history item, the stamp of the k-th new card, and the failure the
      store raises, if any. */
  datatype Env = Env(historyId: string, timestamp: string, stamps: nat -> CardStamp, kvFault: Option<string>)

  /** Why a request ended in the `catch` block. */
  datatype Failure =
    | KvFailure(message: string)
    | BodyTypeError
    /** Not a `catch`: the case would store an `undefined` field, which the model's
        records cannot hold. */
    | UndefinedWrite

  /** The JSON the handler sends. */
  datatype Reply =
    | NoContent
    | HistoryList(items: seq<HistoryItem>)
    | HistoryEntry(item: HistoryItem)
    | CardList(cards: seq<Flashcard>)
    | CardEntry(card: Flashcard)
    | Success
    | Failed(error: string)
    | Crashed(failure: Failure)

  datatype Response = Response(status: int, reply: Reply)

  const InvalidAction: string := "Invalid action"
  const InvalidType: string := "Invalid type"
  const CardNotFound: string := "Card not found"

  /** The operation a request selects. */
  datatype Action =
    | GetHistory | AddHistory | DeleteHistoryItem | ClearHistory
    | GetCards | AddOneCard | AddCardBatch | UpdateCardStatus | DeleteOneCard

  /** The case of the handler a request reaches. */
  datatype Route = Preflight | Perform(op: Action) | BadAction | BadType

  /** The dispatch: `OPTIONS` first, then `type`, then `action`. */
  function RouteOf(httpMethod: string, kind: string, action: string): (r: Route)
    ensures r == Preflight <==> httpMethod == "OPTIONS"
    ensures r == BadType <==> httpMethod != "OPTIONS" && kind != "history" && kind != "flashcard"
    ensures r == BadAction <==>
      || (httpMethod != "OPTIONS" && kind == "history" && action !in {"getAll", "add", "delete", "clear"})
      || (httpMethod != "OPTIONS" && kind == "flashcard"
          && action !in {"getAll", "add", "addBatch", "updateStatus", "delete"})
    ensures r.Perform? && r.op in {GetHistory, AddHistory, DeleteHistoryItem, ClearHistory} ==> kind == "history"
    ensures r.Perform? && r.op in {GetCards, AddOneCard, AddCardBatch, UpdateCardStatus, DeleteOneCard}
        ==> kind == "flashcard"
  {
    if httpMethod == "OPTIONS" then Preflight
    else if kind == "history" then
      if action == "getAll" then Perform(GetHistory)
      else if action == "add" then Perform(AddHistory)
      else if action == "delete" then Perform(DeleteHistoryItem)
      else if action == "clear" then Perform(ClearHistory)
      else BadAction
    else if kind == "flashcard" then
      if action == "getAll" then Perform(GetCards)
      else if action == "add" then Perform(AddOneCard)
      else if action == "addBatch" then Perform(AddCardBatch)
      else if action == "updateStatus" then Perform(UpdateCardStatus)
      else if action == "delete" then Perform(DeleteOneCard)
      else BadAction
    else BadType
  }

  /** The string a history `delete` compares with `!==`: only a string id can
      equal a stored one. */
  function HistoryIdOf(body: Body): (r: Option<string>)
    ensures r.Some? <==> body.Fields? && body.id.Some? && body.id.value.TextId?
  {
    if body.Fields? && body.id.Some? && body.id.value.TextId? then Some(body.id.value.text) else None
  }

  /** The number a card `updateStatus` or `delete` compares with `===` or `!==`:
      only a number id can equal a stored one. */
  function CardIdOf(body: Body): (r: Option<int>)
    ensures r.Some? <==> body.Fields? && body.id.Some? && body.id.value.NumberId?
  {
    if body.Fields? && body.id.Some? && body.id.value.NumberId? then Some(body.id.value.number) else None
  }

  /** `cardsToUpdate.find(c => c.id === cardId)` finds a card. */
  predicate FindsCard(flashcards: seq<Flashcard>, body: Body)
  {
    CardIdOf(body).Some? && HasId(flashcards, CardIdOf(body).value)
  }

  /** The case throws a `TypeError` on this body: destructuring a `null` body,
      `wordParse.word` in a card `add` without `wordParse`, `split` or `for … of` in
      an `addBatch` without one of its three fields. The cases that read no body
      never throw on it. */
  predicate BodyThrows(op: Action, body: Body)
  {
    match op
    case GetHistory => false
    case ClearHistory => false
    case GetCards => false
    case AddOneCard => body.NoBody? || body.wordParse.None?
    case AddCardBatch =>
      body.NoBody? || body.wordParses.None? || body.indonesianText.None? || body.chineseTranslation.None?
    case _ => body.NoBody?
  }

  /** The case would write an `undefined` field: a history item spread from a
      missing `item`, a new card without `example` or `exampleTranslation`, a found
      card given a missing `status`. */
  predicate WritesUndefined(op: Action, flashcards: seq<Flashcard>, body: Body)
  {
    && body.Fields?
    && match op
       case AddHistory => body.item.None?
       case AddOneCard =>
         && body.wordParse.Some? && !HasWord(flashcards, body.wordParse.value.word)
         && (body.example.None? || body.exampleTranslation.None?)
       case UpdateCardStatus => FindsCard(flashcards, body) && body.status.None?
       case _ => false
  }

  /** The case body runs to its end on this body and writes only what the model's
      records hold. */
  predicate BodyFits(op: Action, flashcards: seq<Flashcard>, body: Body)
  {
    !BodyThrows(op, body) && !WritesUndefined(op, flashcards, body)
  }

  /** The response and the stored lists after a request. */
  datatype Outcome = Outcome(response: Response, history: seq<HistoryItem>, flashcards: seq<Flashcard>)

  /** One case body once the body fits and the store answers. A `delete` whose id
      is missing or of the other kind keeps every entry; a card `add` with both
      example fields is the browser's `AddCard`. */
  function Apply(op: Action, history: seq<HistoryItem>, flashcards: seq<Flashcard>, body: Body, env: Env): (o: Outcome)
    requires BodyFits(op, flashcards, body)
    ensures o.response.status in {200, 404}
    ensures o.response.status == 404 <==> op == UpdateCardStatus && !FindsCard(flashcards, body)
    ensures o.response.status == 404 ==> o.history == history && o.flashcards == flashcards
    ensures op in {GetHistory, AddHistory, DeleteHistoryItem, ClearHistory} ==> o.flashcards == flashcards
    ensures op in {GetCards, AddOneCard, AddCardBatch, UpdateCardStatus, DeleteOneCard} ==> o.history == history
    ensures op == DeleteHistoryItem && HistoryIdOf(body).None? ==> o == Outcome(Response(200, Success), history, flashcards)
    ensures op == DeleteOneCard && CardIdOf(body).None? ==> o == Outcome(Response(200, Success), history, flashcards)
    ensures op == AddOneCard && body.example.Some? && body.exampleTranslation.Some? ==>
      var r := AddCard(flashcards, body.wordParse.value, body.example.value, body.exampleTranslation.value, env.stamps(0));
      o == Outcome(Response(200, CardEntry(r.card)), history, r.cards)
  {
    match op
    case GetHistory => Outcome(Response(200, HistoryList(history)), history, flashcards)
    case AddHistory =>
      var newItem := Stamp(body.item.value, env.historyId, env.timestamp);
      Outcome(Response(200, HistoryEntry(newItem)), PrependCapped(history, newItem), flashcards)
    case DeleteHistoryItem =>
      var kept := if HistoryIdOf(body).Some? then DeleteHistory(history, HistoryIdOf(body).value) else history;
      Outcome(Response(200, Success), kept, flashcards)
    case ClearHistory => Outcome(Response(200, Success), [], flashcards)
    case GetCards => Outcome(Response(200, CardList(flashcards)), history, flashcards)
    case AddOneCard =>
      var wp := body.wordParse.value;
      var i := IndexOfWord(flashcards, wp.word);
      IndexOfWordFound(flashcards, wp.word);
      if i >= 0 then Outcome(Response(200, CardEntry(flashcards[i])), history, flashcards)
      else
        var newCard := NewCard(wp, env.stamps(0), body.example.value, body.exampleTranslation.value);
        Outcome(Response(200, CardEntry(newCard)), history, flashcards + [newCard])
    case AddCardBatch =>
      var r := AddBatch(flashcards, body.wordParses.value, body.indonesianText.value,
                        body.chineseTranslation.value, env.stamps);
      Outcome(Response(200, CardList(r.added)), history, r.cards)
    case UpdateCardStatus =>
      if FindsCard(flashcards, body) then
        var u := SetStatus(flashcards, CardIdOf(body).value, body.status.value);
        Outcome(Response(200, Success), history, u.cards)
      else Outcome(Response(404, Failed(CardNotFound)), history, flashcards)
    case DeleteOneCard =>
      var kept := if CardIdOf(body).Some? then DeleteCard(flashcards, CardIdOf(body).value) else flashcards;
      Outcome(Response(200, Success), history, kept)
  }

  /** What one request does to the two stored lists and what it answers: the
      preflight and the bad requests touch nothing; a `null` body throws before the
      store is read, a failing store and the other throwing bodies after it, each a
      500 that writes nothing; every other request is its case body. */
  function Serve(history: seq<HistoryItem>, flashcards: seq<Flashcard>, req: Request, env: Env): (o: Outcome)
    ensures req.httpMethod == "OPTIONS" ==> o == Outcome(Response(200, NoContent), history, flashcards)
    ensures RouteOf(req.httpMethod, req.kind, req.action) == BadType
        ==> o == Outcome(Response(400, Failed(InvalidType)), history, flashcards)
    ensures RouteOf(req.httpMethod, req.kind, req.action) == BadAction
        ==> o == Outcome(Response(400, Failed(InvalidAction)), history, flashcards)
    ensures o.response.status in {200, 400, 404, 500}
    ensures o.response.status != 200 ==> o.history == history && o.flashcards == flashcards
    ensures o.response.status == 500 <==>
      var route := RouteOf(req.httpMethod, req.kind, req.action);
      route.Perform? && (env.kvFault.Some? || !BodyFits(route.op, flashcards, req.body))
    ensures o.response.reply == Crashed(BodyTypeError) <==>
      var route := RouteOf(req.httpMethod, req.kind, req.action);
      route.Perform? && BodyThrows(route.op, req.body) && (req.body.NoBody? || env.kvFault.None?)
    ensures o.response.reply == Crashed(UndefinedWrite) <==>
      var route := RouteOf(req.httpMethod, req.kind, req.action);
      && route.Perform? && env.kvFault.None? && !BodyThrows(route.op, req.body)
      && WritesUndefined(route.op, flashcards, req.body)
    ensures o.response.status == 404 <==>
      && RouteOf(req.httpMethod, req.kind, req.action) == Perform(UpdateCardStatus)
      && req.body.Fields? && env.kvFault.None? && !FindsCard(flashcards, req.body)
    ensures o.history != history ==> o.flashcards == flashcards && req.kind == "history"
    ensures o.flashcards != flashcards ==> o.history == history && req.kind == "flashcard"
  {
    match RouteOf(req.httpMethod, req.kind, req.action)
    case Preflight => Outcome(Response(200, NoContent), history, flashcards)
    case BadAction => Outcome(Response(400, Failed(InvalidAction)), history, flashcards)
    case BadType => Outcome(Response(400, Failed(InvalidType)), history, flashcards)
    case Perform(op) =>
      if req.body.NoBody? && BodyThrows(op, req.body) then Outcome(Response(500, Crashed(BodyTypeError)), history, flashcards)
      else if env.kvFault.Some? then Outcome(Response(500, Crashed(KvFailure(env.kvFault.value))), history, flashcards)
      else if BodyThrows(op, req.body) then Outcome(Response(500, Crashed(BodyTypeError)), history, flashcards)
      else if WritesUndefined(op, flashcards, req.body) then Outcome(Response(500, Crashed(UndefinedWrite)), history, flashcards)
      else Apply(op, history, flashcards, req.body, env)
  }

  /** The `addBatch` case's single pass: a word already in the accumulating list,
      including one added earlier in this pass, contributes that card; any other
      word gets its example and a new card, appended to both lists. The pass ends
      in the same collection and the same returned cards as the local loop of
      `addFromWordParse` calls. */
  method AddBatchOnePass(stored: seq<Flashcard>, wordParses: seq<WordParse>,
                         indoSentences: seq<string>, cnSentences: seq<string>, stamps: nat -> CardStamp)
    returns (cards2: seq<Flashcard>, newCards: seq<Flashcard>)
    ensures BatchFold(stored, wordParses, indoSentences, cnSentences, stamps) == BatchResult(cards2, newCards)
  {
    cards2 := stored;
    newCards := [];
    var k := 0;
    while k < |wordParses|
      invariant 0 <= k <= |wordParses|
      invariant BatchFold(stored, wordParses[..k], indoSentences, cnSentences, stamps) == BatchResult(cards2, newCards)
    {
      var wordParse := wordParses[k];
      BatchFoldSnoc(stored, wordParses, indoSentences, cnSentences, stamps, k);
      var existing := IndexOfWord(cards2, wordParse.word);
      if existing >= 0 {
        newCards := newCards + [cards2[existing]];
        k := k + 1;
        continue;
      }
      var exampleSentence, exampleTrans := PickExample(wordParse, indoSentences, cnSentences);
      var newCard := NewCard(wordParse, stamps(k), exampleSentence, exampleTrans);
      cards2 := cards2 + [newCard];
      newCards := newCards + [newCard];
      k := k + 1;
    }
    assert wordParses[..k] == wordParses;
  }

  /** The key-value store behind the handler. */
  class KvStore {
    var history: seq<HistoryItem>
    var flashcards: seq<Flashcard>

    /** Empty slots read as `[]`. */
    constructor()
      ensures history == [] && flashcards == []
    {
      history := [];
      flashcards := [];
    }

    /** `handler`: answers one request and writes what `Serve` says. */
    method Handle(req: Request, env: Env) returns (res: Response)
      modifies this
      ensures Serve(old(history), old(flashcards), req, env) == Outcome(res, history, flashcards)
    {
      var route := RouteOf(req.httpMethod, req.kind, req.action);
      if route == Preflight {
        return Response(200, NoContent);
      }
      if route == BadAction {
        return Response(400, Failed(InvalidAction));
      }
      if route == BadType {
        return Response(400, Failed(InvalidType));
      }
      var op := route.op;
      if req.body.NoBody? && BodyThrows(op, req.body) {
        return Response(500, Crashed(BodyTypeError));
      }
      if env.kvFault.Some? {
        return Response(500, Crashed(KvFailure(env.kvFault.value)));
      }
      if BodyThrows(op, req.body) {
        return Response(500, Crashed(BodyTypeError));
      }
      if WritesUndefined(op, flashcards, req.body) {
        return Response(500, Crashed(UndefinedWrite));
      }
      var b := req.body;
      match op {
        case GetHistory => res := Response(200, HistoryList(history));
        case AddHistory => res := HandleAddHistory(b.item.value, env);
        case DeleteHistoryItem =>
          var historyToDelete := history;
          if HistoryIdOf(b).Some? {
            historyToDelete := DeleteHistory(historyToDelete, HistoryIdOf(b).value);
          }
          history := historyToDelete;
          res := Response(200, Success);
        case ClearHistory =>
          history := [];
          res := Response(200, Success);
        case GetCards => res := Response(200, CardList(flashcards));
        case AddOneCard => res := HandleAddCard(b.wordParse.value, b.example, b.exampleTranslation, env);
        case AddCardBatch =>
          var indoSentences := Sentences(b.indonesianText.value);
          var cnSentences := Sentences(b.chineseTranslation.value);
          var cards2, newCards := AddBatchOnePass(flashcards, b.wordParses.value, indoSentences, cnSentences, env.stamps);
          flashcards := cards2;
          res := Response(200, CardList(newCards));
        case UpdateCardStatus => res := HandleUpdateStatus(CardIdOf(b), b.status);
        case DeleteOneCard =>
          var cardsToDelete := flashcards;
          if CardIdOf(b).Some? {
            cardsToDelete := DeleteCard(cardsToDelete, CardIdOf(b).value);
          }
          flashcards := cardsToDelete;
          res := Response(200, Success);
      }
    }

    /** The history `add` case. */
    method HandleAddHistory(item: HistoryDraft, env: Env) returns (res: Response)
      modifies this
      ensures var newItem := Stamp(item, env.historyId, env.timestamp);
        && res == Response(200, HistoryEntry(newItem))
        && history == PrependCapped(old(history), newItem) && flashcards == old(flashcards)
    {
      var newItem := Stamp(item, env.historyId, env.timestamp);
      var currentHistory := history;
      currentHistory := [newItem] + currentHistory;
      history := currentHistory[..Min(|currentHistory|, MaxHistory)];
      res := Response(200, HistoryEntry(newItem));
    }

    /** The flashcard `add` case: an existing word is answered without a write, and
        only a new word reads the example fields. */
    method HandleAddCard(wordParse: WordParse, example: Option<string>, exampleTranslation: Option<string>, env: Env)
      returns (res: Response)
      requires HasWord(flashcards, wordParse.word) || (example.Some? && exampleTranslation.Some?)
      modifies this
      ensures history == old(history)
      ensures HasWord(old(flashcards), wordParse.word) ==>
        res == Response(200, CardEntry(old(flashcards)[IndexOfWord(old(flashcards), wordParse.word)]))
        && flashcards == old(flashcards)
      ensures example.Some? && exampleTranslation.Some? ==>
        var r := AddCard(old(flashcards), wordParse, example.value, exampleTranslation.value, env.stamps(0));
        res == Response(200, CardEntry(r.card)) && flashcards == r.cards
    {
      var currentCards := flashcards;
      var existing := IndexOfWord(currentCards, wordParse.word);
      IndexOfWordFound(currentCards, wordParse.word);
      if existing >= 0 {
        return Response(200, CardEntry(currentCards[existing]));
      }
      var newCard := NewCard(wordParse, env.stamps(0), example.value, exampleTranslation.value);
      currentCards := currentCards + [newCard];
      flashcards := currentCards;
      res := Response(200, CardEntry(newCard));
    }

    /** The flashcard `updateStatus` case: the status is set in place on the found
        card before the write; an id that finds no card is a 404 without a write. */
    method HandleUpdateStatus(cardId: Option<int>, status: Option<Status>) returns (res: Response)
      requires cardId.Some? && HasId(flashcards, cardId.value) ==> status.Some?
      modifies this
      ensures history == old(history)
      ensures cardId.Some? && HasId(old(flashcards), cardId.value) ==>
        res == Response(200, Success) && flashcards == SetStatus(old(flashcards), cardId.value, status.value).cards
      ensures !(cardId.Some? && HasId(old(flashcards), cardId.value)) ==>
        res == Response(404, Failed(CardNotFound)) && flashcards == old(flashcards)
    {
      var cardsToUpdate := flashcards;
      var i := if cardId.Some? then IndexOfId(cardsToUpdate, cardId.value) else -1;
      if i >= 0 {
        cardsToUpdate := cardsToUpdate[i := cardsToUpdate[i].(status := status.value)];
        flashcards := cardsToUpdate;
        return Response(200, Success);
      }
      return Response(404, Failed(CardNotFound));
    }
  }
}
