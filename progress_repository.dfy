/**
 * Grading: every answer updates the card's stats row, derives a grade from the
 * correct-answer streak, and replaces the card's progress row with the next due day.
 */
module ProgressRepository {
  import opened Wrappers
  import opened Entities
  import opened DeckModels
  import opened Scheduler
  import opened Database

  // ---------------------------------------------------------------------------
  // The rows written
  // ---------------------------------------------------------------------------

  /** The progress row `gradeCard` writes: reviewed today, no longer new, due after the grade's interval. */
  function GradedProgress(deckId: string, cardId: string, today: int, grade: Grade, s: ParentSettings): (p: CardProgressEntity)
    ensures p.cardId == cardId && p.deckId == deckId
    ensures p.dueEpochDay == today + Interval(grade, s)
    ensures p.lastReviewedEpochDay == Some(today) && !p.isNew
  {
    CardProgressEntity(cardId, deckId, NextDueEpochDay(today, grade, s), Some(today), false)
  }

  /** The stored stats row, or a fresh one when the card has none. */
  function StatsOrFresh(stats: map<string, CardStatsEntity>, cardId: string, deckId: string): (r: CardStatsEntity)
    ensures cardId in stats ==> r == stats[cardId]
    ensures cardId !in stats ==> r == FreshStats(cardId, deckId)
  {
    if cardId in stats then stats[cardId] else FreshStats(cardId, deckId)
  }

  /** The stats after one answer. */
  function Answered(s: CardStatsEntity, isCorrect: bool, today: int): (r: CardStatsEntity)
    ensures r.cardId == s.cardId && r.deckId == s.deckId
    ensures r.lastAnsweredEpochDay == Some(today)
    ensures isCorrect ==> r.correctCount == s.correctCount + 1 && r.correctStreak == s.correctStreak + 1 && r.wrongCount == s.wrongCount
    ensures !isCorrect ==> r.wrongCount == s.wrongCount + 1 && r.correctStreak == 0 && r.correctCount == s.correctCount
  {
    if isCorrect then
      s.(correctCount := s.correctCount + 1, correctStreak := s.correctStreak + 1, lastAnsweredEpochDay := Some(today))
    else
      s.(wrongCount := s.wrongCount + 1, correctStreak := 0, lastAnsweredEpochDay := Some(today))
  }

  /** The automatic grade: a wrong answer is AGAIN; a correct one is EASY from a streak of three on, HARD before. */
  function DerivedGrade(isCorrect: bool, updatedStreak: int): (g: Grade)
    ensures g == AGAIN <==> !isCorrect
    ensures g == EASY <==> isCorrect && updatedStreak >= 3
    ensures g == HARD <==> isCorrect && updatedStreak < 3
  {
    if !isCorrect then AGAIN else if updatedStreak >= 3 then EASY else HARD
  }

  // ---------------------------------------------------------------------------
  // A history of answers
  // ---------------------------------------------------------------------------

  /** One answer: whether it was correct, and the day it was given. */
  datatype Answer = Answer(correct: bool, day: int)

  /** The grade `applyAnswerResult` derives for answer `a` given the stats row before it. */
  function NextGrade(s: CardStatsEntity, a: Answer): Grade
  {
    DerivedGrade(a.correct, Answered(s, a.correct, a.day).correctStreak)
  }

  /** The stats row after a history of answers. */
  function Replay(s: CardStatsEntity, h: seq<Answer>): CardStatsEntity
    decreases |h|
  {
    if h == [] then s
    else
      var last := h[|h| - 1];
      Answered(Replay(s, h[..|h| - 1]), last.correct, last.day)
  }

  /** Reference definition: how many answers were correct. */
  function CountCorrect(h: seq<Answer>): (n: nat)
    ensures n <= |h|
    decreases |h|
  {
    if h == [] then 0
    else CountCorrect(h[..|h| - 1]) + (if h[|h| - 1].correct then 1 else 0)
  }

  /** Reference definition: the length of the run of correct answers at the end. */
  function TrailingCorrect(h: seq<Answer>): (n: nat)
    ensures n <= |h|
    decreases |h|
  {
    if h == [] || !h[|h| - 1].correct then 0
    else TrailingCorrect(h[..|h| - 1]) + 1
  }

  /**
   * The counters count the correct and the wrong answers; the streak is the final run of
   * correct answers (continuing the old streak when there was no wrong answer at all);
   * the last-answered day is the day of the last answer.
   */
  lemma {:induction false} ReplayStats(s: CardStatsEntity, h: seq<Answer>)
    ensures var r := Replay(s, h);
      && r.cardId == s.cardId && r.deckId == s.deckId
      && r.correctCount == s.correctCount + CountCorrect(h)
      && r.wrongCount == s.wrongCount + (|h| - CountCorrect(h))
      && r.correctStreak == (if TrailingCorrect(h) == |h| then s.correctStreak + |h| else TrailingCorrect(h))
      && r.lastAnsweredEpochDay == (if h == [] then s.lastAnsweredEpochDay else Some(h[|h| - 1].day))
    decreases |h|
  {
    if h != [] {
      ReplayStats(s, h[..|h| - 1]);
    }
  }

  /** From a card without stats, an answer grades EASY exactly when it completes three correct answers in a row. */
  lemma GradeFromFresh(cardId: string, deckId: string, h: seq<Answer>, a: Answer)
    ensures NextGrade(Replay(FreshStats(cardId, deckId), h), a) ==
      (if !a.correct then AGAIN else if TrailingCorrect(h) >= 2 then EASY else HARD)
  {
    ReplayStats(FreshStats(cardId, deckId), h);
  }

  /** A correct answer right after a wrong one is HARD, whatever came before. */
  lemma CorrectAfterWrong(s: CardStatsEntity, wrong: Answer, right: Answer)
    requires !wrong.correct && right.correct
    ensures NextGrade(Answered(s, false, wrong.day), right) == HARD
  {
  }

  /** Three correct answers on a fresh card grade HARD, HARD, EASY. */
  lemma ThreeCorrectFromFresh(cardId: string, deckId: string, d1: int, d2: int, d3: int)
    ensures var s0 := FreshStats(cardId, deckId);
      var s1 := Answered(s0, true, d1);
      var s2 := Answered(s1, true, d2);
      && NextGrade(s0, Answer(true, d1)) == HARD
      && NextGrade(s1, Answer(true, d2)) == HARD
      && NextGrade(s2, Answer(true, d3)) == EASY
  {
  }

  // ---------------------------------------------------------------------------
  // The repository
  // ---------------------------------------------------------------------------

  class ProgressRepository {
    /** Both DAOs of the source are tables of the same in-memory database. */
    const db: Tables

    constructor (db: Tables)
      ensures this.db == db
    {
      this.db := db;
    }

    /** `gradeCard`: a full replacement of the card's progress row; nothing else changes. */
    method GradeCard(deckId: string, cardId: string, today: int, grade: Grade, settings: ParentSettings)
      requires db.Valid()
      modifies db
      ensures db.Valid()
      ensures db.progress == old(db.progress)[cardId := GradedProgress(deckId, cardId, today, grade, settings)]
      ensures db.decks == old(db.decks) && db.cards == old(db.cards) && db.stats == old(db.stats)
    {
      var nextDue := NextDueEpochDay(today, grade, settings);
      db.UpsertProgress(CardProgressEntity(cardId, deckId, nextDue, Some(today), false));
    }

    /** `getDueForDeck`: the deck's rows due on or before `today` (the SQL ordering is not modelled). */
    function DueForDeck(deckId: string, today: int): (r: map<string, CardProgressEntity>)
      reads db
      ensures forall k :: k in r <==> k in db.progress && db.progress[k].deckId == deckId && db.progress[k].dueEpochDay <= today
      ensures forall k :: k in r ==> r[k] == db.progress[k]
    {
      map k | k in db.progress && db.progress[k].deckId == deckId && db.progress[k].dueEpochDay <= today :: db.progress[k]
    }

    /** `getAllForDeck`: the deck's rows. */
    function AllForDeck(deckId: string): (r: map<string, CardProgressEntity>)
      reads db
      ensures forall k :: k in r <==> k in db.progress && db.progress[k].deckId == deckId
      ensures forall k :: k in r ==> r[k] == db.progress[k]
    {
      map k | k in db.progress && db.progress[k].deckId == deckId :: db.progress[k]
    }

    /** The cards of the deck reviewed on `today`. */
    function ReviewedToday(deckId: string, today: int): (r: set<string>)
      reads db
      ensures forall k :: k in r <==> k in db.progress && db.progress[k].deckId == deckId && db.progress[k].lastReviewedEpochDay == Some(today)
    {
      set k | k in db.progress && db.progress[k].deckId == deckId && db.progress[k].lastReviewedEpochDay == Some(today)
    }

    /** `countReviewedToday`. */
    function CountReviewedToday(deckId: string, today: int): (n: nat)
      reads db
      ensures n == |ReviewedToday(deckId, today)| && n <= |db.progress|
    {
      ReviewedTodayBound(deckId, today);
      |ReviewedToday(deckId, today)|
    }

    lemma ReviewedTodayBound(deckId: string, today: int)
      ensures |ReviewedToday(deckId, today)| <= |db.progress|
    {
      assert ReviewedToday(deckId, today) <= db.progress.Keys;
      SubsetCardinality(ReviewedToday(deckId, today), db.progress.Keys);
    }

    /**
     * `applyAnswerResult`: the stats row (or a fresh one) takes the answer, is stored, and the
     * grade derived from its new streak schedules the card through `GradeCard`.
     */
    method ApplyAnswerResult(deckId: string, cardId: string, today: int, isCorrect: bool, settings: ParentSettings)
      requires db.Valid()
      modifies db
      ensures db.Valid()
      ensures var updated := Answered(StatsOrFresh(old(db.stats), cardId, deckId), isCorrect, today);
        && db.stats == old(db.stats)[cardId := updated]
        && db.progress == old(db.progress)[cardId :=
             GradedProgress(deckId, cardId, today, DerivedGrade(isCorrect, updated.correctStreak), settings)]
      ensures db.decks == old(db.decks) && db.cards == old(db.cards)
    {
      var stats := if cardId in db.stats then db.stats[cardId] else FreshStats(cardId, deckId);
      var updatedStats := Answered(stats, isCorrect, today);
      db.UpsertStats(updatedStats);
      var grade := if !isCorrect then AGAIN else if updatedStats.correctStreak >= 3 then EASY else HARD;
      GradeCard(deckId, cardId, today, grade, settings);
    }
  }

  lemma SubsetCardinality(a: set<string>, b: set<string>)
    requires a <= b
    ensures |a| <= |b|
  {
    if a != {} {
      var x :| x in a;
      SubsetCardinality(a - {x}, b - {x});
    }
  }

  /** After an answer, the card's next due day is today plus the interval of the derived grade. */
  lemma AnswerSchedules(stats: map<string, CardStatsEntity>, deckId: string, cardId: string, today: int,
                        isCorrect: bool, s: ParentSettings)
    ensures var updated := Answered(StatsOrFresh(stats, cardId, deckId), isCorrect, today);
      var p := GradedProgress(deckId, cardId, today, DerivedGrade(isCorrect, updated.correctStreak), s);
      && (!isCorrect ==> p.dueEpochDay == today + s.againDays)
      && (isCorrect && updated.correctStreak >= 3 ==> p.dueEpochDay == today + s.easyDays)
      && (isCorrect && updated.correctStreak < 3 ==> p.dueEpochDay == today + s.hardDays)
  {
  }

  /** A wrong answer under the default intervals keeps the card due today. */
  lemma WrongStaysDueToday(deckId: string, cardId: string, today: int)
    ensures GradedProgress(deckId, cardId, today, DerivedGrade(false, 0), DefaultSettings).dueEpochDay == today
  {
  }
}
