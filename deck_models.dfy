/** The domain values shared by the screens: cards, decks, grades and the parent's intervals. */
module DeckModels {
  import opened Wrappers
  import opened CardTypes

  /**
   * A study card as the learn and browse screens see it. Besides the declared
   * id/front/back it carries the type and the cloze fields that the repositories fill in.
   */
  datatype Card = Card(
    id: string,
    front: string,
    back: string,
    cardType: CardType,
    clozeText: Option<string>,
    clozeAnswer: Option<string>,
    clozeHint: Option<string>)

  /** `Card(id, front, back, type)` with the cloze fields left at null. */
  function SimpleCard(id: string, front: string, back: string, t: CardType): (c: Card)
    ensures c.id == id && c.front == front && c.back == back && c.cardType == t
    ensures c.clozeText.None? && c.clozeAnswer.None? && c.clozeHint.None?
  {
    Card(id, front, back, t, None, None, None)
  }

  datatype Deck = Deck(id: string, title: string, cards: seq<Card>, imageUri: Option<string>)

  /** The three self-grading buttons. */
  datatype Grade = AGAIN | HARD | EASY

  /** The intervals in days the parent configures for each grade. */
  datatype ParentSettings = ParentSettings(againDays: int, hardDays: int, easyDays: int)

  /** `ParentSettings()` with its declared defaults. */
  const DefaultSettings: ParentSettings := ParentSettings(0, 1, 3)
}
