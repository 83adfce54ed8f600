/**
 * The rows of the four Room tables. Epoch days (`Long`) and counters (`Int`)
 * are unbounded integers here.
 */
module Entities {
  import opened Wrappers

  /** A row of `user_cards`: one note. `cardType` is the stored type name (nullable). */
  datatype UserCardEntity = UserCardEntity(
    id: string,
    deckId: string,
    front: string,
    back: string,
    createdAtEpochDay: int,
    cardType: Option<string>,
    clozeText: Option<string>,
    clozeAnswer: Option<string>,
    clozeHint: Option<string>)

  /** A row of `user_decks`. */
  datatype UserDeckEntity = UserDeckEntity(
    id: string,
    title: string,
    createdAtEpochDay: int,
    imageUri: Option<string>)

  /** A row of `card_progress`, keyed by `cardId`. */
  datatype CardProgressEntity = CardProgressEntity(
    cardId: string,
    deckId: string,
    dueEpochDay: int,
    lastReviewedEpochDay: Option<int>,
    isNew: bool)

  /** A row of `card_stats`, keyed by `cardId`. */
  datatype CardStatsEntity = CardStatsEntity(
    cardId: string,
    deckId: string,
    correctCount: int,
    wrongCount: int,
    correctStreak: int,
    lastAnsweredEpochDay: Option<int>)

  /** `CardStatsEntity(cardId, deckId)` with the declared defaults. */
  function FreshStats(cardId: string, deckId: string): (r: CardStatsEntity)
    ensures r.cardId == cardId && r.deckId == deckId
    ensures r.correctCount == 0 && r.wrongCount == 0 && r.correctStreak == 0
    ensures r.lastAnsweredEpochDay.None?
  {
    CardStatsEntity(cardId, deckId, 0, 0, 0, None)
  }
}
