/** The spaced-repetition rule: a grade pushes a card's due day forward by the parent's interval. */
module Scheduler {
  import opened DeckModels

  /** The interval the settings assign to a grade. */
  function Interval(grade: Grade, s: ParentSettings): (d: int)
    ensures grade == AGAIN ==> d == s.againDays
    ensures grade == HARD ==> d == s.hardDays
    ensures grade == EASY ==> d == s.easyDays
  {
    match grade
    case AGAIN => s.againDays
    case HARD => s.hardDays
    case EASY => s.easyDays
  }

  /** The day a card graded `grade` today is due again (no overflow: epoch days are unbounded here). */
  function NextDueEpochDay(today: int, grade: Grade, s: ParentSettings): (r: int)
    ensures r - today == Interval(grade, s)
  {
    today + Interval(grade, s)
  }

  /** Non-negative intervals never schedule a card in the past. */
  predicate NonNegative(s: ParentSettings)
  {
    s.againDays >= 0 && s.hardDays >= 0 && s.easyDays >= 0
  }

  /** Intervals that grow with the grade. */
  predicate Ordered(s: ParentSettings)
  {
    s.againDays <= s.hardDays <= s.easyDays
  }

  function Rank(g: Grade): nat
  {
    match g
    case AGAIN => 0
    case HARD => 1
    case EASY => 2
  }

  lemma NotBeforeToday(today: int, grade: Grade, s: ParentSettings)
    requires NonNegative(s)
    ensures NextDueEpochDay(today, grade, s) >= today
  {
  }

  /** With ordered intervals, a better grade never makes a card due sooner. */
  lemma MonotoneInGrade(today: int, g1: Grade, g2: Grade, s: ParentSettings)
    requires Ordered(s) && Rank(g1) <= Rank(g2)
    ensures NextDueEpochDay(today, g1, s) <= NextDueEpochDay(today, g2, s)
  {
  }

  /** A later day never gives an earlier due day. */
  lemma MonotoneInToday(t1: int, t2: int, grade: Grade, s: ParentSettings)
    requires t1 <= t2
    ensures NextDueEpochDay(t1, grade, s) <= NextDueEpochDay(t2, grade, s)
  {
  }

  /** The defaults: AGAIN keeps the card due today, HARD tomorrow, EASY in three days. */
  lemma Defaults(today: int)
    ensures NonNegative(DefaultSettings) && Ordered(DefaultSettings)
    ensures NextDueEpochDay(today, AGAIN, DefaultSettings) == today
    ensures NextDueEpochDay(today, HARD, DefaultSettings) == today + 1
    ensures NextDueEpochDay(today, EASY, DefaultSettings) == today + 3
  {
  }
}
