/**
 * The Leitner scheduling arithmetic of main.py: where a card goes after a
 * review and how many days it waits, plus the case-insensitive comparison
 * of a given answer with the stored one. Days are integer day numbers; the
 * handlers' `datetime.now()` becomes the `today` argument.
 */
module Schedule {

  /** A calendar date as a day number. */
  type Day = int

  /** 2 to the power n. */
  function Pow2(n: nat): (r: nat)
    ensures r >= 1
  {
    if n == 0 then 1 else 2 * Pow2(n - 1)
  }

  /**
   * The number of days a card waits after a correct answer given while it
   * sits in `box`: `2**(box - 1)`. main.py:76 names a variable `box` that is
   * never bound there; this model reads it as the card's stored box before
   * the increment, the value `box` stands for in `SET box = box + 1`.
   */
  function Interval(box: int): (days: nat)
    requires box >= 1
    ensures days >= 1
  {
    Pow2(box - 1)
  }

  /** Intervals double from one box to the next. */
  lemma IntervalDoubles(box: int)
    requires box >= 1
    ensures Interval(box + 1) == 2 * Interval(box)
  {
  }

  /** A higher box never waits less. */
  lemma {:induction false} IntervalMonotone(lo: int, hi: int)
    requires 1 <= lo <= hi
    ensures Interval(lo) <= Interval(hi)
    decreases hi - lo
  {
    if lo < hi {
      IntervalMonotone(lo, hi - 1);
      IntervalDoubles(hi - 1);
    }
  }

  /** Where a card sits and the first day it is due again. */
  datatype Placement = Placement(box: int, due: Day)

  /**
   * The placement of a card that starts over: box 1, due tomorrow. It is
   * used both for a new card (main.py:37) and after a wrong answer
   * (main.py:84).
   */
  function Restart(today: Day): (p: Placement)
    ensures p.box == 1 && p.due == today + 1
  {
    Placement(1, today + 1)
  }

  /** The placement after a correct answer (main.py:76). */
  function Promote(box: int, today: Day): (p: Placement)
    requires box >= 1
    ensures p.box == box + 1
    ensures p.due == today + Interval(box) && p.due > today
  {
    Placement(box + 1, today + Interval(box))
  }

  /** ASCII lower-casing of one character. */
  function LowerChar(c: char): (r: char)
    ensures 'A' <= c <= 'Z' ==> 'a' <= r <= 'z' && r as int - c as int == 32
    ensures !('A' <= c <= 'Z') ==> r == c
  {
    if 'A' <= c <= 'Z' then (c as int + 32) as char else c
  }

  /** `str.lower()`, restricted to the ASCII letters. */
  function Lower(s: string): (r: string)
    ensures |r| == |s|
    ensures forall i :: 0 <= i < |s| ==> r[i] == LowerChar(s[i])
  {
    if s == [] then [] else [LowerChar(s[0])] + Lower(s[1..])
  }

  /** Lower-casing twice is lower-casing once. */
  lemma LowerIdempotent(s: string)
    ensures Lower(Lower(s)) == Lower(s)
  {
  }

  /** The comparison of main.py:71: equal up to letter case. */
  predicate SameAnswer(given: string, stored: string)
    ensures SameAnswer(given, stored) ==> |given| == |stored|
    ensures given == stored ==> SameAnswer(given, stored)
  {
    Lower(given) == Lower(stored)
  }

  /**
   * Two answers match exactly when they have the same length and agree
   * character by character once lower-cased; in particular an answer that
   * differs from the stored one only in letter case is accepted.
   */
  lemma SameAnswerPointwise(given: string, stored: string)
    ensures SameAnswer(given, stored) <==>
      |given| == |stored| &&
      forall i :: 0 <= i < |given| ==> LowerChar(given[i]) == LowerChar(stored[i])
  {
    if |given| == |stored| && forall i :: 0 <= i < |given| ==> LowerChar(given[i]) == LowerChar(stored[i]) {
      assert forall i :: 0 <= i < |given| ==> Lower(given)[i] == Lower(stored)[i];
    }
  }

  /** Matching is an equivalence: reflexive, symmetric and transitive. */
  lemma SameAnswerEquivalence(a: string, b: string, c: string)
    ensures SameAnswer(a, a)
    ensures SameAnswer(a, b) ==> SameAnswer(b, a)
    ensures SameAnswer(a, b) && SameAnswer(b, c) ==> SameAnswer(a, c)
  {
  }

  /** An answer always matches its own lower-cased form. */
  lemma SameAnswerIgnoresCase(s: string)
    ensures SameAnswer(s, Lower(s)) && SameAnswer(Lower(s), s)
  {
    LowerIdempotent(s);
  }
}
