/**
 * `handle_answer` exactly as main.py:71-76 is written. The interval
 * expression of main.py:76 uses a name `box` that the function never binds,
 * so a matching answer raises NameError after the "Correct!" reply and before
 * the UPDATE and the `del` of main.py:88: the card stays where it was and the
 * marker stays set. A wrong answer takes the other branch and works.
 * Engine.Answer is the corrected handler, reading `box` as the stored box.
 */
module AsWritten {
  import opened Wrappers
  import opened Schedule
  import opened Engine
  import opened Properties

  function AnswerAsWritten(db: Db, chat: ChatId, text: string, today: Day): (r: Db)
    requires Valid(db)
    ensures r.users == db.users && r.nextId == db.nextId && |r.cards| == |db.cards|
    ensures chat !in db.pending ==> r == db
    ensures r.pending == db.pending || r.pending == db.pending - {chat}
  {
    if chat in db.pending then
      match Find(db.cards, db.pending[chat])
      case Some(k) =>
        var card := db.cards[k];
        if card.answer.Some? && SameAnswer(text, card.answer.value) then db
        else Answer(db, chat, text, today).0
      case None => db
    else db
  }

  /** As written, no answer ever moves a card to a higher box. */
  lemma AsWrittenNeverPromotes(db: Db, chat: ChatId, text: string, today: Day)
    requires Valid(db)
    ensures var r := AnswerAsWritten(db, chat, text, today);
      |r.cards| == |db.cards| &&
      forall i :: 0 <= i < |db.cards| ==> r.cards[i].box <= db.cards[i].box
  {
    if chat in db.pending {
      match Find(db.cards, db.pending[chat])
      case Some(k) =>
        AnswerSchedulesPendingCard(db, chat, text, today, k);
      case None =>
    }
  }

  /** The database of the counterexample: one card in box 1, due and under review. */
  function OneCardUnderReview(): Db
  {
    Db([Card(1, Some(7), "Capital of France?", Some("Paris"), 1, 0)], map[7 := true], map[7 := 1], 2)
  }

  /**
   * Answering "paris" to a card whose answer is "Paris": as written the card
   * stays in box 1 with its marker still set, while the corrected handler
   * moves it to box 2, due the next day, and clears the marker.
   */
  lemma CorrectAnswerCounterexample()
    ensures Valid(OneCardUnderReview())
    ensures AnswerAsWritten(OneCardUnderReview(), 7, "paris", 0) == OneCardUnderReview()
    ensures var (r, out) := Answer(OneCardUnderReview(), 7, "paris", 0);
      out == Correct && r.cards[0].box == 2 && r.cards[0].due == 1 && r.pending == map[]
  {
    var db := OneCardUnderReview();
    assert Owns(db.cards, 7, 1) by { assert db.cards[0].id == 1; }
    assert Lower("paris") == Lower("Paris") by {
      assert Lower("paris") == "paris";
      assert Lower("Paris") == "paris";
    }
  }
}
