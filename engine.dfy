/**
 * The bot's state and its handlers as pure transitions. The two SQLite
 * tables become a card sequence and a user map, `context.user_data['reviewing']`
 * becomes a map from chat id to card id, and each handler of main.py becomes a
 * function from the old state (and `today`) to the new state and its reply.
 */
module Engine {
  import opened Wrappers
  import opened Schedule

  /** A Telegram user id; it is the `chat_id` column of `users`. */
  type ChatId = int

  /** The AUTOINCREMENT primary key of `flashcards`. */
  type CardId = nat

  /**
   * A row of `flashcards`. `owner` is None when the row's `user_id` is NULL,
   * which happens when a card is sent before `/start`; `answer` is None when
   * the column is NULL.
   */
  datatype Card = Card(
    id: CardId,
    owner: Option<ChatId>,
    question: string,
    answer: Option<string>,
    box: int,
    due: Day)

  /**
   * The whole state: the cards in ascending id order, the users' reminder
   * flags by chat id, each user's pending review marker, and the next id
   * AUTOINCREMENT hands out.
   */
  datatype Db = Db(
    cards: seq<Card>,
    users: map<ChatId, bool>,
    pending: map<ChatId, CardId>,
    nextId: CardId)

  /** What `review` shows: the card under review and its question. */
  datatype Prompt = Prompt(card: CardId, question: string)

  /**
   * What `handle_answer` does. CardMissing and NoStoredAnswer are the two
   * ways the handler raises (`fetchone()` gives None, or the stored answer is
   * NULL); like an exception they leave every table and the marker as they were.
   */
  datatype AnswerResult = NotReviewing | Correct | Incorrect | CardMissing | NoStoredAnswer

  predicate IdsAscending(cards: seq<Card>)
  {
    forall i, j :: 0 <= i < j < |cards| ==> cards[i].id < cards[j].id
  }

  /** Some card with this id belongs to user `u`. */
  predicate Owns(cards: seq<Card>, u: ChatId, id: CardId)
  {
    exists i :: 0 <= i < |cards| && cards[i].id == id && cards[i].owner == Some(u)
  }

  /**
   * The state invariant: ids are ascending and below the next id, every box
   * is at least 1, every owner is a registered user, and each pending marker
   * names a card of that user. At most one marker per user holds by the shape
   * of `pending`.
   */
  predicate Valid(db: Db)
  {
    IdsAscending(db.cards) &&
    (forall i :: 0 <= i < |db.cards| ==>
      db.cards[i].id < db.nextId && db.cards[i].box >= 1 &&
      (db.cards[i].owner.Some? ==> db.cards[i].owner.value in db.users)) &&
    (forall u :: u in db.pending ==> Owns(db.cards, u, db.pending[u]))
  }

  /** The state of a freshly created database (main.py has no rows yet). */
  function Empty(): (db: Db)
    ensures Valid(db)
    ensures db.cards == [] && db.users == map[] && db.pending == map[]
  {
    Db([], map[], map[], 1)
  }

  /** `SELECT ... FROM flashcards WHERE id = ?`: the index of the card with this id. */
  function Find(cards: seq<Card>, id: CardId): (r: Option<nat>)
    ensures r.Some? ==> r.value < |cards| && cards[r.value].id == id
    ensures r.None? ==> forall i :: 0 <= i < |cards| ==> cards[i].id != id
  {
    if cards == [] then None
    else if cards[0].id == id then Some(0)
    else match Find(cards[1..], id)
      case None => None
      case Some(k) => Some(k + 1)
  }

  /** With ascending ids, Find returns the one index holding that id. */
  lemma FindUnique(cards: seq<Card>, k: nat)
    requires IdsAscending(cards) && k < |cards|
    ensures Find(cards, cards[k].id) == Some(k)
  {
  }

  /** The filter of main.py:47 for one card. */
  predicate IsDue(c: Card, chat: ChatId, today: Day)
  {
    c.owner == Some(chat) && c.due <= today
  }

  /** The rows main.py:47 selects, in ascending id order. */
  function DueCards(cards: seq<Card>, chat: ChatId, today: Day): (r: seq<Card>)
    ensures |r| <= |cards|
    ensures forall c :: c in r <==> c in cards && IsDue(c, chat, today)
  {
    if cards == [] then []
    else if IsDue(cards[0], chat, today) then [cards[0]] + DueCards(cards[1..], chat, today)
    else DueCards(cards[1..], chat, today)
  }

  /** The number of the user's cards in box `b`: one row of main.py:111. */
  function Count(cards: seq<Card>, chat: ChatId, b: int): (r: nat)
    ensures r <= |cards|
    ensures r > 0 <==> exists i :: 0 <= i < |cards| && cards[i].owner == Some(chat) && cards[i].box == b
  {
    if cards == [] then 0
    else
      (if cards[0].owner == Some(chat) && cards[0].box == b then 1 else 0) +
      Count(cards[1..], chat, b)
  }

  /** The number of cards the user owns. */
  function CardTotal(cards: seq<Card>, chat: ChatId): (r: nat)
    ensures r <= |cards|
  {
    if cards == [] then 0
    else (if cards[0].owner == Some(chat) then 1 else 0) + CardTotal(cards[1..], chat)
  }

  /** The boxes holding at least one of the user's cards. */
  function Boxes(cards: seq<Card>, chat: ChatId): set<int>
  {
    set c | c in cards && c.owner == Some(chat) :: c.box
  }

  /** `SELECT box, COUNT(*) ... GROUP BY box` (main.py:111) as a map from box to count. */
  function BoxStatus(cards: seq<Card>, chat: ChatId): (m: map<int, nat>)
    ensures m.Keys == Boxes(cards, chat)
    ensures forall b :: b in m ==> m[b] >= 1
  {
    map b | b in Boxes(cards, chat) :: Count(cards, chat, b)
  }

  /** `SELECT chat_id FROM users WHERE reminder_enabled = 1` (main.py:126). */
  function Recipients(users: map<ChatId, bool>): (r: set<ChatId>)
    ensures r <= users.Keys
    ensures forall u :: u in users ==> (u in r <==> users[u])
  {
    set u | u in users && users[u]
  }

  /** `start` (main.py:25): INSERT OR IGNORE, with reminders on by default. */
  function Register(db: Db, chat: ChatId): (r: Db)
    ensures chat in r.users && r.users.Keys == db.users.Keys + {chat}
    ensures r.cards == db.cards && r.pending == db.pending && r.nextId == db.nextId
  {
    if chat in db.users then db else db.(users := db.users[chat := true])
  }

  /**
   * `add_flashcard` (main.py:33-37): an empty message adds nothing; otherwise
   * a card with the next id, no answer, box 1 and due tomorrow. Its owner is
   * NULL when the sender never ran `/start`.
   */
  function AddCard(db: Db, chat: ChatId, question: string, today: Day): (r: (Db, Option<CardId>))
    ensures r.0.users == db.users && r.0.pending == db.pending
    ensures r.1.Some? <==> question != ""
    ensures |r.0.cards| == |db.cards| + (if question == "" then 0 else 1)
    ensures r.0.cards[..|db.cards|] == db.cards
  {
    if question == "" then (db, None)
    else
      var p := Restart(today);
      var owner := if chat in db.users then Some(chat) else None;
      var c := Card(db.nextId, owner, question, None, p.box, p.due);
      (db.(cards := db.cards + [c], nextId := db.nextId + 1), Some(db.nextId))
  }

  /**
   * `review` (main.py:47-57): with nothing due the state is unchanged;
   * otherwise the first due card is shown and becomes the user's marker,
   * replacing any earlier one.
   */
  function Review(db: Db, chat: ChatId, today: Day): (r: (Db, Option<Prompt>))
    ensures r.0.cards == db.cards && r.0.users == db.users && r.0.nextId == db.nextId
    ensures r.1.None? ==> r.0 == db
    ensures r.1.Some? ==> chat in r.0.pending && r.0.pending[chat] == r.1.value.card
  {
    var due := DueCards(db.cards, chat, today);
    if due == [] then (db, None)
    else (db.(pending := db.pending[chat := due[0].id]), Some(Prompt(due[0].id, due[0].question)))
  }

  /**
   * `handle_answer` (main.py:61-88) with the stored box read as the `box` of
   * main.py:76: a matching answer promotes the pending card, any other answer
   * sends it back to box 1, and the marker is then cleared.
   */
  function Answer(db: Db, chat: ChatId, text: string, today: Day): (r: (Db, AnswerResult))
    requires Valid(db)
    ensures r.0.users == db.users && r.0.nextId == db.nextId && |r.0.cards| == |db.cards|
    ensures r.1 in {NotReviewing, CardMissing, NoStoredAnswer} ==> r.0 == db
    ensures r.1 in {Correct, Incorrect} ==> chat in db.pending && r.0.pending == db.pending - {chat}
    ensures r.1 == NotReviewing <==> chat !in db.pending
  {
    if chat !in db.pending then (db, NotReviewing)
    else match Find(db.cards, db.pending[chat])
      case None => (db, CardMissing)
      case Some(k) =>
        var card := db.cards[k];
        match card.answer
        case None => (db, NoStoredAnswer)
        case Some(stored) =>
          var correct := SameAnswer(text, stored);
          var p := if correct then Promote(card.box, today) else Restart(today);
          (db.(cards := db.cards[k := card.(box := p.box, due := p.due)],
               pending := db.pending - {chat}),
           if correct then Correct else Incorrect)
  }

  /**
   * `reminder` (main.py:95-99): flips the user's flag and reports the new
   * one. For an unregistered user `fetchone()` gives None and the handler
   * raises; that is None here, with nothing changed.
   */
  function ToggleReminder(db: Db, chat: ChatId): (r: (Db, Option<bool>))
    ensures r.0.users.Keys == db.users.Keys && r.0.cards == db.cards && r.0.pending == db.pending
    ensures r.1.Some? <==> chat in db.users
    ensures r.1.Some? ==> r.1.value == !db.users[chat] && r.0.users[chat] == r.1.value
  {
    if chat !in db.users then (db, None)
    else
      var now := !db.users[chat];
      (db.(users := db.users[chat := now]), Some(now))
  }
}
