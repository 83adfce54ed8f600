/** One study instance generated from a stored note. */
module CardInstances {
  import opened Wrappers
  import opened CardTypes

  const DirectionForward: string := "forward"
  const DirectionReverse: string := "reverse"

  datatype CardInstance = CardInstance(
    instanceId: string,
    noteId: string,
    deckId: string,
    cardType: CardType,
    questionText: string,
    answerText: string,
    expectsTyping: bool,
    direction: Option<string>)
  {
    /** The side shown first. */
    function Front(): string { questionText }

    /** The side revealed or typed. */
    function Back(): string { answerText }

    /** The id progress is stored under: the note's, so all instances of a note share it. */
    function Id(): string { noteId }
  }

  /** The direction is either absent or one of the two named constants. */
  predicate WellDirected(c: CardInstance) {
    c.direction.None? || c.direction.value == DirectionForward || c.direction.value == DirectionReverse
  }
}
