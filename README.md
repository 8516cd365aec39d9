# Leitner flashcard bot, modelled in Dafny

The bot in `main.py` is a Telegram front end to a Leitner-box scheduler, one
handler per action:

- `start` registers the user, with reminders on.
- `add_flashcard` turns a non-empty text message into a card in box 1, due tomorrow.
- `review` shows the user's first due card and remembers it as the pending review.
- `handle_answer` is meant for a text reply to that prompt. A case-insensitive match
  moves the card up one box and delays it by `2^(box-1)` days. Any other answer sends
  it back to box 1, due tomorrow. Either way the pending review is then cleared.
- `reminder` flips the user's reminder flag.
- `box_status` counts the user's cards per box.
- `daily_reminder` selects every user whose flag is on, to message them.

As written, none of these handlers ever runs. `main()` calls `datetime.time(...)` on the
`datetime` class at main.py:146, which raises TypeError. `updater.start_polling()` at
main.py:148 is never reached, so the bot never receives an update. With that line
fixed, `handle_answer` still would not run: a text reply also matches the add-card
filter registered before it (main.py:142), so the reply would be stored as a new card.
The model is of the handlers themselves, as if each were invoked directly.

This project models that scheduler as a small state machine over integer day
numbers. The caller supplies "today", which replaces `datetime.now()`.

- `Wrappers` (`wrappers.dfy`): `Option`, used for SQL NULL and for lookups that can miss.
- `Schedule` (`schedule.dfy`): the arithmetic. It has `Interval(box) = 2^(box-1)`, the
  placements `Promote` and `Restart`, and the answer comparison `SameAnswer`, which is
  equality after ASCII lower-casing.
- `Engine` (`engine.dfy`): the state as values. A `Card` is a row of `flashcards`. A
  `Db` holds the cards in ascending id order, the users' reminder flags by chat id, the
  per-user review marker (`context.user_data['reviewing']`), and the next
  AUTOINCREMENT id. `Engine` also has the state invariant `Valid`, the read-only queries
  (`DueCards`, `BoxStatus`, `Recipients`), and one pure transition per handler
  (`Register`, `AddCard`, `Review`, `Answer`, `ToggleReminder`).
- `Properties` (`properties.dfy`): lemmas about those transitions. Every handler keeps
  `Valid`: boxes at least 1, ids ascending and fresh, owners registered, and each marker
  naming one of that user's cards. Each handler's behaviour is proved too.
- `AsWritten` (`as_written.dfy`): `handle_answer` exactly as `main.py` is written (see
  Findings).
- `Store` (`store.dfy`): class `LeitnerStore`. Its fields are the two tables and the
  markers, and its methods are the handlers. They update those fields in place, and
  each method's `ensures` equates the new state with the `Engine` transition applied to
  the old state.

Decisions:

- **The interval.** The `box` of the correct-answer interval (main.py:76) is the card's
  stored box before the increment. This is the value `box` denotes in the same
  statement's `SET box = box + 1`. So a card answered correctly in box 1 moves to box 2
  and is due in 1 day, and a card in box 2 is due in 2 days. The other reading,
  `2^(newBox-1)`, would give 2 and 4 days; it is not modelled. The choice sits in one
  function, `Schedule.Interval`.
- **A missing answer or a missing card.** These are error outcomes with nothing changed
  (`NoStoredAnswer`, `CardMissing`), not preconditions. In the source both make
  `handle_answer` raise before anything is written and before the marker is deleted.
- **An unregistered user.** `/reminder` from such a user raises at main.py:96, so
  `ToggleReminder` returns `None` and changes nothing. A card sent before `/start` gets
  a NULL `user_id` from the sub-select at main.py:37 (owner `None`). Such a card is
  never due for anyone and is never counted.
- **Identity.** Users are identified by `chat_id`, which the schema script ("Create the SQLite Database.py") declares UNIQUE; the store starts from that script's empty tables (`Engine.Empty`). No
  handler deletes a user, so the internal `users.id` is not needed.
- **Helpers without rows.** `Engine.Empty` and the `Store.LeitnerStore` constructor are
  the empty tables of the schema script: no cards, no users, no markers, next id 1, and
  the invariant holds. `Engine.IsDue` is the WHERE clause of main.py:47 for one card. It
  is part of `Engine.DueCards` and the lemmas about it.
- **Row order.** Rows come in ascending card id order, and "the first due card" of
  main.py:52-55 is the head of that list.
- **Cards are never answerable.** `add_flashcard` never writes the `answer` column
  (main.py:37), so every card the bot itself creates has no answer, and answering it
  raises at main.py:71 (`Properties.NewCardCannotBeAnswered`). The answer steps that
  promote or demote a card concern cards whose answer was stored some other way. The
  model keeps this source behaviour unchanged: the source gives no way to supply an
  answer.

## Model

| member | source | states |
|---|---|---|
| `Schedule.Pow2` | main.py:76 | `2**n` is at least 1 for every n (needed for the interval to be a positive number of days) |
| `Schedule.IntervalMonotone` | main.py:76 | a higher box never waits fewer days than a lower one |
| `Schedule.IntervalDoubles` | main.py:76 | the interval doubles from each box to the next |
| `Schedule.Promote` | main.py:76 | a correct answer puts the card in the next box, due strictly later than today, after exactly the interval of its old box |
| `Schedule.Restart` | main.py:37 | a new or failed card goes to box 1 and is due the day after today |
| `Schedule.LowerChar` | main.py:71 | an ASCII capital becomes its small letter (32 code points higher) and every other character is left as it is |
| `Schedule.Lower` | main.py:71 | lower-casing keeps the length and lower-cases each character on its own |
| `Schedule.SameAnswerPointwise` | main.py:71 | two answers match iff they have the same length and agree character by character up to letter case |
| `Schedule.SameAnswerIgnoresCase` | main.py:71 | an answer matches its lower-cased form in both directions |
| `Schedule.SameAnswerEquivalence` | main.py:71 | matching is reflexive, symmetric and transitive |
| `Schedule.Interval` | main.py:76 | the waiting time after a correct answer, for the stored box; at least one day (the chosen reading of `box`) |
| `Schedule.SameAnswer` | main.py:71 | case-insensitive equality: equal answers match, and matching answers have the same length (full characterisation in `Schedule.SameAnswerPointwise`) |
| `Engine.Register` | main.py:25 | the user is present afterwards and the key set grows by at most that user; cards, markers and ids are untouched (behaviour in `Properties.RegisterInsertsOrIgnores`) |
| `Engine.AddCard` | main.py:33-37 | an id is returned iff the text is non-empty, and then exactly one card is appended after the old ones; users and markers are untouched (whole new row in `Properties.AddCardAppendsNewCard`) |
| `Engine.Review` | main.py:47-57 | cards and users never change; with nothing shown the state is unchanged, and a shown card becomes the user's marker (choice of card in `Properties.ReviewShowsOldestDueCard`) |
| `Engine.Answer` | main.py:61-88 | users and the card count stay; no marker iff NotReviewing; the three non-updating outcomes change nothing, and Correct or Incorrect clear the user's marker (the new box and due day in `Properties.AnswerSchedulesPendingCard`) |
| `Engine.ToggleReminder` | main.py:95-99 | a result iff the user is registered, and it is the negated old flag, now stored; cards, markers and the set of users stay (involution in `Properties.ToggleFlipsFlag`) |
| `Engine.BoxStatus` | main.py:111 | the reported boxes are exactly the boxes of the user's cards, each with a count of at least 1 (sum in `Properties.BoxStatusSumsToTotal`) |
| `Engine.Recipients` | main.py:126 | exactly the registered users whose flag is on (independence from cards in `Properties.RecipientsIgnoreCards`) |
| `Engine.Find` | main.py:67-68 | the lookup by id returns an index holding that id, or none when no card has it |
| `Engine.FindUnique` | main.py:67-68 | with ascending ids the lookup returns exactly the card's own index |
| `Engine.DueCards` | main.py:47 | a card is in the due list iff it belongs to the user and its review day is at most today |
| `Engine.Count` | main.py:111 | a box's count is positive iff some card of the user is in that box |
| `Properties.DueCardsAppend` | main.py:37 | appending a card adds it to the end of a due list exactly when it is due |
| `Properties.DueCardsAscending` | main.py:47 | the due list keeps ascending id order |
| `Properties.DueCardsHeadIsOldest` | main.py:52-55 | the head of the due list has the smallest id among the user's due cards |
| `Properties.BoxStatusReportsOccupiedBoxes` | main.py:111 | the status lists a box iff the user has a card in it, with that box's count, which is at least 1 |
| `Properties.BoxStatusSumsToTotal` | main.py:111 | the reported counts add up to the number of cards the user owns |
| `Properties.CountRangeIsTotal` | main.py:111 | the per-box counts over a range covering every box add up to the user's card total |
| `Properties.RecipientsAreEnabledUsers` | main.py:126 | the sweep selects exactly the registered users whose flag is on |
| `Properties.RecipientsIgnoreCards` | main.py:126 | adding, reviewing and answering never change the users to notify, whatever is due |
| `Properties.RegisterKeepsValid` | main.py:25 | `start` keeps the invariant |
| `Properties.RegisterInsertsOrIgnores` | main.py:25 | `start` adds an unknown user with reminders on, leaves a known one as is, changes nothing else, and a second call changes nothing |
| `Properties.AddCardKeepsValid` | main.py:33-37 | adding a card keeps the invariant (fresh ascending id, box 1) |
| `Properties.AddCardAppendsNewCard` | main.py:33-37 | an empty message adds nothing; otherwise one card is appended: an id above all others, the sender as owner when registered (NULL otherwise), no answer, box 1, due today + 1; the other cards, the users and the markers are unchanged |
| `Properties.NewCardNotDueToday` | main.py:37 | adding a card leaves every user's due list for the same day unchanged, so a card is never due on its creation day |
| `Properties.ReviewKeepsValid` | main.py:47-55 | `review` keeps the invariant: the marker names a card of that user |
| `Properties.ReviewShowsOldestDueCard` | main.py:47-57 | with no due card, nothing changes and nothing is shown; otherwise the user's due card with the smallest id is shown and becomes the marker; cards, users and other users' markers stay |
| `Properties.ReviewIsRepeatable` | main.py:47-55 | a second `review` on the same day shows the same card and changes nothing more |
| `Properties.AnswerKeepsValid` | main.py:61-88 | answering keeps the invariant, so boxes stay at least 1 |
| `Properties.AnswerFindsPendingCard` | main.py:67-68 | under the invariant the pending card always exists |
| `Properties.AnswerWithoutMarkerIsNoOp` | main.py:61 | an answer with no marker changes nothing |
| `Properties.AnswerSchedulesPendingCard` | main.py:61-88 | with no stored answer nothing changes; a case-insensitive match gives box + 1 and due today + 2^(old box - 1); otherwise box 1 and due today + 1; only that card's box and due day change, and the marker is cleared |
| `Properties.AnswerTwiceIsStale` | main.py:88 | after a recorded outcome, a further answer finds no marker and changes nothing, so no review moves a card twice |
| `Properties.NewCardCannotBeAnswered` | main.py:37 | a later `review` shows a card created by `add_flashcard` when the sender is registered and no other card of theirs is due that day; once it is shown, every answer gives `NoStoredAnswer` and changes nothing |
| `Properties.BoxesStayPositive` | main.py:76 | after adding, reviewing or answering, every box is at least 1 |
| `Properties.ToggleKeepsValid` | main.py:95-99 | toggling keeps the invariant |
| `Properties.ToggleFlipsFlag` | main.py:95-99 | a registered user's flag is negated and reported, nothing else changes, and toggling twice restores the state; an unknown user gets no result and no change |
| `Properties.ToggleUpdatesRecipients` | main.py:99 | after a toggle the sweep gains or loses exactly that user |
| `AsWritten.AnswerAsWritten` | main.py:61-88 | the handler as written: users, ids and card count stay, nothing changes without a marker, and the marker is kept or cleared (effect in `AsWritten.AsWrittenNeverPromotes`) |
| `AsWritten.AsWrittenNeverPromotes` | main.py:71-76 | as written, no answer ever raises a card's box |
| `AsWritten.CorrectAnswerCounterexample` | main.py:76 | as written, a correct answer leaves the card and its marker untouched, while the corrected handler promotes it to box 2 and clears the marker |
| `Store.LeitnerStore.Start` | main.py:21-28 | keeps the invariant; the new state is `Register` of the old one |
| `Store.LeitnerStore.AddFlashcard` | main.py:31-40 | keeps the invariant; the new state and the returned id are `AddCard` of the old state |
| `Store.LeitnerStore.Review` | main.py:43-57 | keeps the invariant; the new state and the prompt are `Review` of the old state |
| `Store.LeitnerStore.HandleAnswer` | main.py:60-88 | keeps the invariant; the new state and the outcome are `Answer` of the old state |
| `Store.LeitnerStore.Reminder` | main.py:91-104 | keeps the invariant; the new state and the reported flag are `ToggleReminder` of the old state |
| `Store.LeitnerStore.BoxStatus` | main.py:107-120 | returns exactly the boxes that hold some of the user's cards, each with its count of at least 1, and counts that add up to the user's number of cards |
| `Store.LeitnerStore.DailyReminder` | main.py:123-131 | returns exactly the chats of users whose reminder flag is on |

## Findings

| source | as written | input that shows it | evidently intended | confidence | as-written member | corrected member |
|---|---|---|---|---|---|---|
| main.py:76 | `timedelta(days=2**(box - 1))` uses `box`, which `handle_answer` never binds. Every matching answer raises NameError after replying "Correct!", before the UPDATE and before the marker is deleted (main.py:88). No card ever leaves its box upward. | A card whose answer is "Paris", in box 1 and under review; the user sends "paris" | The card moves to box + 1 and is due after `2^(stored box - 1)` days, and the marker is cleared | not executed | `AsWritten.AnswerAsWritten`, shown by `AsWritten.CorrectAnswerCounterexample` and `AsWritten.AsWrittenNeverPromotes` | `Engine.Answer`, proved by `Properties.AnswerSchedulesPendingCard` |

## Left out

- SQLite plumbing is not modelled: `connect_db`, cursors, commits and closes (main.py:17-18 and every call). The tables are fields of `LeitnerStore` and fields of `Db`.
- The Telegram transport is not modelled: `Update`, `reply_text`, `send_message`, and every reply text and its formatting (main.py:28, 40, 53, 57, 72, 80, 104, 116-120, 131). Handlers return their results (a prompt, an outcome, a flag, a count map, a set of chat ids) instead of sending messages.
- Logging setup (main.py:9-14) is not modelled.
- `main()` is not modelled: handler registration, polling and the job queue (main.py:133-152). This includes two dispatch and configuration faults, with these effects as registered. The add-card handler at main.py:142 is registered before the answer handler at main.py:143 and also matches replies, so every answer is stored as a new card and `handle_answer` never runs. `datetime.time(...)` at main.py:146 is called on the `datetime` class and raises TypeError. So as written `main()` stops there, before `start_polling` at main.py:148, and no handler ever runs. With line 146 fixed, the add-card handler at main.py:142 would still catch every text reply, so `handle_answer` would never run. The model is of the handlers invoked directly.
- Wall-clock time is not modelled. Every handler takes `today` as an integer day number instead of calling `datetime.now()`.
- The calendar's bounds are not modelled. Days are unbounded integers, so `Schedule.Promote` and `Schedule.Restart` always return a placement. In the source, `datetime.now() + timedelta(...)` at main.py:37, 76 and 84 raises OverflowError once the result passes 9999-12-31. That happens for a correct answer in box 23 or higher at today's date, and `timedelta` itself refuses the interval from box 31 up. The model does not include that error path.
- Unicode case folding is not modelled. `str.lower()` is modelled on ASCII letters only (`Schedule.LowerChar`), and other characters compare exactly.
- SQL ordering is not modelled. Rows of `SELECT` and `GROUP BY` are taken in ascending card id order. `Store.LeitnerStore.BoxStatus` returns a map from box to count, not an ordered list of rows.
- The internal `users.id` key is not modelled. Cards refer to their owner by chat id, which the schema declares unique, and no handler deletes users.
- Concurrency is not modelled. Each handler is one atomic step, and two handlers never interleave.
