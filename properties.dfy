/**
 * What the handlers of main.py promise, proved about the transitions of
 * Engine: the invariant every handler keeps, and the behaviour of each one.
 */
module Properties {
  import opened Wrappers
  import opened Schedule
  import opened Engine

  // ---------------------------------------------------------------- queries

  /** Appending a card extends the due list by that card exactly when it is due. */
  lemma {:induction false} DueCardsAppend(cards: seq<Card>, c: Card, chat: ChatId, today: Day)
    ensures DueCards(cards + [c], chat, today) ==
      DueCards(cards, chat, today) + (if IsDue(c, chat, today) then [c] else [])
  {
    if cards != [] {
      assert (cards + [c])[1..] == cards[1..] + [c];
      DueCardsAppend(cards[1..], c, chat, today);
    }
  }

  /** With ascending ids, the due list is in ascending id order too. */
  lemma {:induction false} DueCardsAscending(cards: seq<Card>, chat: ChatId, today: Day)
    requires IdsAscending(cards)
    ensures IdsAscending(DueCards(cards, chat, today))
  {
    if cards != [] {
      assert IdsAscending(cards[1..]);
      DueCardsAscending(cards[1..], chat, today);
      forall c | c in DueCards(cards[1..], chat, today) ensures cards[0].id < c.id {
        var j :| 0 <= j < |cards[1..]| && cards[1..][j] == c;
        assert cards[j + 1] == c;
      }
    }
  }

  /**
   * The head of the due list is the user's due card with the smallest id:
   * "first" in the ascending id order of the rows.
   */
  lemma {:induction false} DueCardsHeadIsOldest(cards: seq<Card>, chat: ChatId, today: Day)
    requires IdsAscending(cards)
    requires DueCards(cards, chat, today) != []
    ensures forall c :: c in cards && IsDue(c, chat, today) ==>
      DueCards(cards, chat, today)[0].id <= c.id
  {
    if !IsDue(cards[0], chat, today) {
      assert IdsAscending(cards[1..]);
      DueCardsHeadIsOldest(cards[1..], chat, today);
      forall c | c in cards && IsDue(c, chat, today)
        ensures DueCards(cards, chat, today)[0].id <= c.id
      {
        assert c != cards[0];
        assert c in cards[1..];
      }
    } else {
      forall c | c in cards && IsDue(c, chat, today)
        ensures cards[0].id <= c.id
      {
        var j :| 0 <= j < |cards| && cards[j] == c;
      }
    }
  }

  /** The count of the user's cards in the boxes lo, lo + 1, ..., hi - 1. */
  function CountRange(cards: seq<Card>, chat: ChatId, lo: int, hi: int): nat
    decreases hi - lo
  {
    if lo >= hi then 0 else Count(cards, chat, lo) + CountRange(cards, chat, lo + 1, hi)
  }

  /** The sum of the counts a box status map reports for boxes lo .. hi - 1. */
  function SumRange(m: map<int, nat>, lo: int, hi: int): nat
    decreases hi - lo
  {
    if lo >= hi then 0 else (if lo in m then m[lo] else 0) + SumRange(m, lo + 1, hi)
  }

  lemma {:induction false} CountRangeFirst(cards: seq<Card>, chat: ChatId, lo: int, hi: int)
    requires cards != []
    ensures CountRange(cards, chat, lo, hi) ==
      (if cards[0].owner == Some(chat) && lo <= cards[0].box < hi then 1 else 0) +
      CountRange(cards[1..], chat, lo, hi)
    decreases hi - lo
  {
    if lo < hi {
      CountRangeFirst(cards, chat, lo + 1, hi);
    }
  }

  lemma {:induction false} CountRangeIsTotal(cards: seq<Card>, chat: ChatId, lo: int, hi: int)
    requires forall i :: 0 <= i < |cards| && cards[i].owner == Some(chat) ==> lo <= cards[i].box < hi
    ensures CountRange(cards, chat, lo, hi) == CardTotal(cards, chat)
  {
    if cards == [] {
      CountRangeEmpty(cards, chat, lo, hi);
    } else {
      CountRangeFirst(cards, chat, lo, hi);
      CountRangeIsTotal(cards[1..], chat, lo, hi);
    }
  }

  lemma {:induction false} CountRangeEmpty(cards: seq<Card>, chat: ChatId, lo: int, hi: int)
    requires cards == []
    ensures CountRange(cards, chat, lo, hi) == 0
    decreases hi - lo
  {
    if lo < hi {
      CountRangeEmpty(cards, chat, lo + 1, hi);
    }
  }

  lemma {:induction false} SumRangeOfStatus(cards: seq<Card>, chat: ChatId, lo: int, hi: int)
    ensures SumRange(BoxStatus(cards, chat), lo, hi) == CountRange(cards, chat, lo, hi)
    decreases hi - lo
  {
    if lo < hi {
      SumRangeOfStatus(cards, chat, lo + 1, hi);
      if Count(cards, chat, lo) > 0 {
        var i :| 0 <= i < |cards| && cards[i].owner == Some(chat) && cards[i].box == lo;
        assert cards[i] in cards;
      }
    }
  }

  /**
   * Box status (main.py:111) reports exactly the boxes that hold at least one
   * of the user's cards, each with its number of cards.
   */
  lemma BoxStatusReportsOccupiedBoxes(cards: seq<Card>, chat: ChatId, b: int)
    ensures b in BoxStatus(cards, chat) <==>
      exists i :: 0 <= i < |cards| && cards[i].owner == Some(chat) && cards[i].box == b
    ensures b in BoxStatus(cards, chat) ==>
      BoxStatus(cards, chat)[b] == Count(cards, chat, b) >= 1
  {
    if exists i :: 0 <= i < |cards| && cards[i].owner == Some(chat) && cards[i].box == b {
      var i :| 0 <= i < |cards| && cards[i].owner == Some(chat) && cards[i].box == b;
      assert cards[i] in cards;
    }
  }

  /**
   * The counts of box status, summed over any range of boxes that covers all of
   * the user's cards, give the number of cards the user owns.
   */
  lemma BoxStatusSumsToTotal(cards: seq<Card>, chat: ChatId, lo: int, hi: int)
    requires forall i :: 0 <= i < |cards| && cards[i].owner == Some(chat) ==> lo <= cards[i].box < hi
    ensures SumRange(BoxStatus(cards, chat), lo, hi) == CardTotal(cards, chat)
  {
    SumRangeOfStatus(cards, chat, lo, hi);
    CountRangeIsTotal(cards, chat, lo, hi);
  }

  /**
   * The daily sweep (main.py:126) notifies exactly the users whose flag is on;
   * it is a function of the user table alone, so due cards play no part.
   */
  lemma RecipientsAreEnabledUsers(db: Db, u: ChatId)
    ensures u in Recipients(db.users) <==> u in db.users && db.users[u]
  {
  }

  /**
   * The sweep ignores cards: adding, reviewing and answering leave the set of
   * users to notify as it was, whatever becomes due.
   */
  lemma RecipientsIgnoreCards(db: Db, chat: ChatId, text: string, today: Day)
    requires Valid(db)
    ensures Recipients(AddCard(db, chat, text, today).0.users) == Recipients(db.users)
    ensures Recipients(Review(db, chat, today).0.users) == Recipients(db.users)
    ensures Recipients(Answer(db, chat, text, today).0.users) == Recipients(db.users)
  {
  }

  // ---------------------------------------------------------------- start

  lemma RegisterKeepsValid(db: Db, chat: ChatId)
    requires Valid(db)
    ensures Valid(Register(db, chat))
  {
  }

  /**
   * `start` leaves a known user as is and adds an unknown one with reminders
   * on; nothing else changes, and a second `start` changes nothing (main.py:25).
   */
  lemma RegisterInsertsOrIgnores(db: Db, chat: ChatId)
    ensures var r := Register(db, chat);
      chat in r.users && r.users[chat] == (chat !in db.users || db.users[chat]) &&
      r.users.Keys == db.users.Keys + {chat} &&
      (forall u :: u in db.users ==> r.users[u] == db.users[u]) &&
      r.cards == db.cards && r.pending == db.pending && r.nextId == db.nextId
    ensures Register(Register(db, chat), chat) == Register(db, chat)
  {
  }

  // ---------------------------------------------------------------- add_flashcard

  lemma AddCardKeepsValid(db: Db, chat: ChatId, question: string, today: Day)
    requires Valid(db)
    ensures Valid(AddCard(db, chat, question, today).0)
  {
    var r := AddCard(db, chat, question, today).0;
    if question != "" {
      forall u | u in r.pending ensures Owns(r.cards, u, r.pending[u]) {
        var i :| 0 <= i < |db.cards| && db.cards[i].id == db.pending[u] && db.cards[i].owner == Some(u);
        assert r.cards[i] == db.cards[i];
      }
    }
  }

  /**
   * A new card (main.py:37) gets a fresh id greater than every existing one,
   * the sender as owner if registered, no answer, box 1 and due tomorrow; the
   * other cards, the users and the markers stay. An empty message adds nothing.
   */
  lemma AddCardAppendsNewCard(db: Db, chat: ChatId, question: string, today: Day)
    requires Valid(db)
    ensures var (r, id) := AddCard(db, chat, question, today);
      r.users == db.users && r.pending == db.pending &&
      (question == "" ==> r == db && id == None) &&
      (question != "" ==>
        id.Some? && r.cards == db.cards + [r.cards[|db.cards|]] &&
        (forall i :: 0 <= i < |db.cards| ==> db.cards[i].id < id.value) &&
        r.cards[|db.cards|] == Card(id.value, if chat in db.users then Some(chat) else None,
                                     question, None, 1, today + 1))
  {
  }

  /**
   * A card is never due on the day it is created: adding one leaves every
   * user's due list for today unchanged.
   */
  lemma NewCardNotDueToday(db: Db, chat: ChatId, question: string, today: Day, u: ChatId)
    ensures DueCards(AddCard(db, chat, question, today).0.cards, u, today) == DueCards(db.cards, u, today)
  {
    if question != "" {
      var r := AddCard(db, chat, question, today).0;
      DueCardsAppend(db.cards, r.cards[|db.cards|], u, today);
    }
  }

  // ---------------------------------------------------------------- review

  lemma ReviewKeepsValid(db: Db, chat: ChatId, today: Day)
    requires Valid(db)
    ensures Valid(Review(db, chat, today).0)
  {
    var due := DueCards(db.cards, chat, today);
    if due != [] {
      assert due[0] in db.cards;
      var i :| 0 <= i < |db.cards| && db.cards[i] == due[0];
      assert Owns(db.cards, chat, due[0].id);
    }
  }

  /**
   * `review` (main.py:47-57): with none of the user's cards due, it changes
   * nothing and reports nothing due; otherwise it shows the user's due card
   * with the smallest id and makes it the user's only marker. Cards, users and
   * other users' markers never change.
   */
  lemma ReviewShowsOldestDueCard(db: Db, chat: ChatId, today: Day)
    requires Valid(db)
    ensures var (r, prompt) := Review(db, chat, today);
      r.cards == db.cards && r.users == db.users && r.nextId == db.nextId &&
      (forall u :: u != chat ==> (u in r.pending <==> u in db.pending)) &&
      (forall u :: u != chat && u in db.pending ==> r.pending[u] == db.pending[u]) &&
      (prompt.None? <==> forall c :: c in db.cards ==> !IsDue(c, chat, today)) &&
      (prompt.None? ==> r == db) &&
      (prompt.Some? ==>
        chat in r.pending && r.pending[chat] == prompt.value.card &&
        exists i :: 0 <= i < |db.cards| && db.cards[i].id == prompt.value.card &&
          IsDue(db.cards[i], chat, today) && db.cards[i].question == prompt.value.question &&
          forall c :: c in db.cards && IsDue(c, chat, today) ==> db.cards[i].id <= c.id)
  {
    var due := DueCards(db.cards, chat, today);
    if due != [] {
      DueCardsHeadIsOldest(db.cards, chat, today);
      assert due[0] in db.cards;
      var i :| 0 <= i < |db.cards| && db.cards[i] == due[0];
    }
  }

  /** Asking for a review again on the same day, with nothing in between, shows the same card. */
  lemma ReviewIsRepeatable(db: Db, chat: ChatId, today: Day)
    ensures var (r, prompt) := Review(db, chat, today);
      Review(r, chat, today) == (r, prompt)
  {
    var due := DueCards(db.cards, chat, today);
    if due != [] {
      var r := Review(db, chat, today).0;
      assert r.pending[chat := due[0].id] == r.pending;
    }
  }

  // ---------------------------------------------------------------- handle_answer

  lemma AnswerKeepsValid(db: Db, chat: ChatId, text: string, today: Day)
    requires Valid(db)
    ensures Valid(Answer(db, chat, text, today).0)
  {
    var (r, out) := Answer(db, chat, text, today);
    if out == Correct || out == Incorrect {
      var k := Find(db.cards, db.pending[chat]).value;
      assert forall i :: 0 <= i < |db.cards| ==>
        r.cards[i].id == db.cards[i].id && r.cards[i].owner == db.cards[i].owner;
      forall u | u in r.pending ensures Owns(r.cards, u, r.pending[u]) {
        var i :| 0 <= i < |db.cards| && db.cards[i].id == db.pending[u] && db.cards[i].owner == Some(u);
        assert r.cards[i].id == db.cards[i].id && r.cards[i].owner == db.cards[i].owner;
      }
    }
  }

  /** Under the invariant the pending card always exists (no handler deletes cards). */
  lemma AnswerFindsPendingCard(db: Db, chat: ChatId, text: string, today: Day)
    requires Valid(db)
    ensures Answer(db, chat, text, today).1 != CardMissing
  {
    if chat in db.pending {
      var i :| 0 <= i < |db.cards| && db.cards[i].id == db.pending[chat] && db.cards[i].owner == Some(chat);
      FindUnique(db.cards, i);
    }
  }

  /** Without a marker, an answer is ignored (main.py:61). */
  lemma AnswerWithoutMarkerIsNoOp(db: Db, chat: ChatId, text: string, today: Day)
    requires Valid(db) && chat !in db.pending
    ensures Answer(db, chat, text, today) == (db, NotReviewing)
  {
  }

  /**
   * The answer step for the pending card at index k (main.py:61-88). With no
   * stored answer the handler raises and nothing changes. Otherwise a match up
   * to letter case moves the card up one box and delays it by the interval of
   * its old box; any other answer puts it in box 1, due tomorrow. Only that
   * card's box and due day change, and the user's marker is cleared.
   */
  lemma AnswerSchedulesPendingCard(db: Db, chat: ChatId, text: string, today: Day, k: nat)
    requires Valid(db) && chat in db.pending
    requires k < |db.cards| && db.cards[k].id == db.pending[chat]
    ensures var (r, out) := Answer(db, chat, text, today);
      var old_ := db.cards[k];
      (old_.answer.None? ==> r == db && out == NoStoredAnswer) &&
      (old_.answer.Some? ==>
        out == (if SameAnswer(text, old_.answer.value) then Correct else Incorrect) &&
        r.users == db.users && r.nextId == db.nextId &&
        r.pending == db.pending - {chat} &&
        |r.cards| == |db.cards| &&
        (forall j :: 0 <= j < |db.cards| && j != k ==> r.cards[j] == db.cards[j]) &&
        r.cards[k].id == old_.id && r.cards[k].owner == old_.owner &&
        r.cards[k].question == old_.question && r.cards[k].answer == old_.answer &&
        (out == Correct ==> r.cards[k].box == old_.box + 1 && r.cards[k].due == today + Interval(old_.box)) &&
        (out == Incorrect ==> r.cards[k].box == 1 && r.cards[k].due == today + 1))
  {
    FindUnique(db.cards, k);
  }

  /**
   * A second answer after a recorded outcome meets no marker: it changes
   * nothing, so one review can move a card at most once (main.py:88).
   */
  lemma AnswerTwiceIsStale(db: Db, chat: ChatId, text: string, again: string, today: Day, later: Day)
    requires Valid(db)
    requires Answer(db, chat, text, today).1 in {Correct, Incorrect}
    ensures var r := Answer(db, chat, text, today).0;
      Valid(r) && Answer(r, chat, again, later) == (r, NotReviewing)
  {
    AnswerKeepsValid(db, chat, text, today);
  }

  /**
   * Cards created by `add_flashcard` carry no answer (main.py:37 never fills
   * the column). A later `review` shows the new card when the sender is
   * registered and no other card of theirs is due that day. Once it is shown,
   * answering it always raises at main.py:71 and leaves the state, marker
   * included, as it was.
   */
  lemma NewCardCannotBeAnswered(db: Db, chat: ChatId, question: string, today: Day,
                                later: Day, text: string, when: Day)
    requires Valid(db) && question != ""
    ensures var db1 := AddCard(db, chat, question, today).0;
      var (db2, prompt) := Review(db1, chat, later);
      Valid(db2) &&
      (chat in db.users && later > today && DueCards(db.cards, chat, later) == [] ==>
        prompt == Some(Prompt(db.nextId, question))) &&
      (prompt.Some? && prompt.value.card == db.nextId ==>
        Answer(db2, chat, text, when) == (db2, NoStoredAnswer))
  {
    AddCardKeepsValid(db, chat, question, today);
    var db1 := AddCard(db, chat, question, today).0;
    ReviewKeepsValid(db1, chat, later);
    var (db2, prompt) := Review(db1, chat, later);
    var c := db1.cards[|db.cards|];
    assert db1.cards == db.cards + [c];
    DueCardsAppend(db.cards, c, chat, later);
    if prompt.Some? && prompt.value.card == db.nextId {
      FindUnique(db2.cards, |db.cards|);
    }
  }

  /** Every box stays at least 1 under every handler: part of the invariant. */
  lemma BoxesStayPositive(db: Db, chat: ChatId, text: string, today: Day)
    requires Valid(db)
    ensures forall c :: c in Answer(db, chat, text, today).0.cards ==> c.box >= 1
    ensures forall c :: c in Review(db, chat, today).0.cards ==> c.box >= 1
    ensures forall c :: c in AddCard(db, chat, text, today).0.cards ==> c.box >= 1
  {
    AnswerKeepsValid(db, chat, text, today);
    ReviewKeepsValid(db, chat, today);
    AddCardKeepsValid(db, chat, text, today);
  }

  // ---------------------------------------------------------------- reminder

  lemma ToggleKeepsValid(db: Db, chat: ChatId)
    requires Valid(db)
    ensures Valid(ToggleReminder(db, chat).0)
  {
  }

  /**
   * `reminder` (main.py:95-99) flips a registered user's flag, reports the new
   * value and touches nothing else; toggling twice restores the state.
   */
  lemma ToggleFlipsFlag(db: Db, chat: ChatId)
    ensures var (r, now) := ToggleReminder(db, chat);
      (chat !in db.users <==> now.None?) &&
      (chat !in db.users ==> r == db) &&
      (chat in db.users ==>
        now == Some(!db.users[chat]) && r.users == db.users[chat := !db.users[chat]] &&
        r.cards == db.cards && r.pending == db.pending && r.nextId == db.nextId)
    ensures ToggleReminder(ToggleReminder(db, chat).0, chat).0 == db
  {
    if chat in db.users {
      assert db.users[chat := !db.users[chat]][chat := db.users[chat]] == db.users;
    }
  }

  /** After a toggle the sweep adds or drops exactly that user. */
  lemma ToggleUpdatesRecipients(db: Db, chat: ChatId)
    requires chat in db.users
    ensures var r := ToggleReminder(db, chat).0;
      Recipients(r.users) ==
        if db.users[chat] then Recipients(db.users) - {chat} else Recipients(db.users) + {chat}
  {
  }
}
