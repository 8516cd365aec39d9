/**
 * The bot's handlers over mutable state. The two tables and the per-user
 * `context.user_data['reviewing']` entries are fields that the handlers update
 * in place; each method is tied to its transition in Engine, whose properties
 * are proved in Properties.
 */
module Store {
  import opened Wrappers
  import opened Schedule
  import opened Engine
  import opened Properties

  class LeitnerStore {
    var cards: seq<Card>
    var users: map<ChatId, bool>
    var pending: map<ChatId, CardId>
    var nextId: CardId

    /** The fields as one value of the pure model. */
    function State(): Db
      reads this
    {
      Db(cards, users, pending, nextId)
    }

    predicate Valid()
      reads this
    {
      Engine.Valid(State())
    }

    /** An empty database (the tables of "Create the SQLite Database.py"). */
    constructor ()
      ensures Valid() && State() == Empty()
    {
      cards, users, pending, nextId := [], map[], map[], 1;
    }

    /** `start` (main.py:21-28). */
    method Start(chat: ChatId)
      requires Valid()
      modifies this
      ensures Valid() && State() == Register(old(State()), chat)
    {
      RegisterKeepsValid(State(), chat);
      if chat !in users {
        users := users[chat := true];
      }
    }

    /** `add_flashcard` (main.py:31-40); returns the new card's id, if any. */
    method AddFlashcard(chat: ChatId, question: string, today: Day) returns (id: Option<CardId>)
      requires Valid()
      modifies this
      ensures Valid() && (State(), id) == AddCard(old(State()), chat, question, today)
    {
      AddCardKeepsValid(State(), chat, question, today);
      if question == "" {
        return None;
      }
      var p := Restart(today);
      var owner := if chat in users then Some(chat) else None;
      cards := cards + [Card(nextId, owner, question, None, p.box, p.due)];
      id := Some(nextId);
      nextId := nextId + 1;
    }

    /** `review` (main.py:43-57); returns the card shown, if any. */
    method Review(chat: ChatId, today: Day) returns (prompt: Option<Prompt>)
      requires Valid()
      modifies this
      ensures Valid() && (State(), prompt) == Engine.Review(old(State()), chat, today)
    {
      ReviewKeepsValid(State(), chat, today);
      var due := DueCards(cards, chat, today);
      if due == [] {
        return None;
      }
      pending := pending[chat := due[0].id];
      prompt := Some(Prompt(due[0].id, due[0].question));
    }

    /** `handle_answer` (main.py:60-88), with `box` read as the stored box. */
    method HandleAnswer(chat: ChatId, text: string, today: Day) returns (outcome: AnswerResult)
      requires Valid()
      modifies this
      ensures Valid() && (State(), outcome) == Answer(old(State()), chat, text, today)
    {
      AnswerKeepsValid(State(), chat, text, today);
      if chat !in pending {
        return NotReviewing;
      }
      var k := Find(cards, pending[chat]);
      if k.None? {
        return CardMissing;
      }
      var card := cards[k.value];
      if card.answer.None? {
        return NoStoredAnswer;
      }
      var p: Placement;
      if SameAnswer(text, card.answer.value) {
        p := Promote(card.box, today);
        outcome := Correct;
      } else {
        p := Restart(today);
        outcome := Incorrect;
      }
      cards := cards[k.value := card.(box := p.box, due := p.due)];
      pending := pending - {chat};
    }

    /** `reminder` (main.py:91-104); returns the new flag, or None for an unknown user. */
    method Reminder(chat: ChatId) returns (enabled: Option<bool>)
      requires Valid()
      modifies this
      ensures Valid() && (State(), enabled) == ToggleReminder(old(State()), chat)
    {
      ToggleKeepsValid(State(), chat);
      if chat !in users {
        return None;
      }
      enabled := Some(!users[chat]);
      users := users[chat := enabled.value];
    }

    /**
     * `box_status` (main.py:107-120): every box holding some of the user's
     * cards, with how many; nothing else, and the counts add up to the user's
     * number of cards.
     */
    method BoxStatus(chat: ChatId) returns (counts: map<int, nat>)
      requires Valid()
      ensures forall b :: b in counts <==>
        exists i :: 0 <= i < |cards| && cards[i].owner == Some(chat) && cards[i].box == b
      ensures forall b :: b in counts ==> counts[b] == Count(cards, chat, b) >= 1
      ensures forall hi :: (forall i :: 0 <= i < |cards| && cards[i].owner == Some(chat) ==> cards[i].box < hi) ==>
        SumRange(counts, 1, hi) == CardTotal(cards, chat)
    {
      counts := Engine.BoxStatus(cards, chat);
      forall b ensures (b in counts <==>
          exists i :: 0 <= i < |cards| && cards[i].owner == Some(chat) && cards[i].box == b)
        && (b in counts ==> counts[b] == Count(cards, chat, b) >= 1)
      {
        BoxStatusReportsOccupiedBoxes(cards, chat, b);
      }
      forall hi | forall i :: 0 <= i < |cards| && cards[i].owner == Some(chat) ==> cards[i].box < hi
        ensures SumRange(counts, 1, hi) == CardTotal(cards, chat)
      {
        BoxStatusSumsToTotal(cards, chat, 1, hi);
      }
    }

    /** `daily_reminder` (main.py:123-131): the chats to notify. */
    method DailyReminder() returns (chats: set<ChatId>)
      ensures forall u :: u in chats <==> u in users && users[u]
    {
      chats := Recipients(users);
    }
  }
}
