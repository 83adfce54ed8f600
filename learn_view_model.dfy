/**
 * The learn screen: the deck's due and new cards queued as forward instances, and a cursor
 * over that queue moved on after each answer.
 */
module LearnViewModel {
  import opened Wrappers
  import opened Entities
  import opened DeckModels
  import opened CardInstances
  import opened CardInstanceGenerator
  import opened CardQueueBuilder
  import opened DeckCounts

  /** `LearnUiState`. */
  datatype LearnUiState = LearnUiState(
    isLoading: bool,
    deckTitle: string,
    currentCard: Option<CardInstance>,
    remaining: int,
    dueToday: int,
    newCount: int,
    error: Option<string>)

  /** `LearnUiState()` with its declared defaults. */
  const InitialState: LearnUiState := LearnUiState(true, "", None, 0, 0, 0, None)

  const DeckNotFound: string := "Колода не найдена"

  /** The state `load` ends in when no deck has the id. */
  const NotFound: LearnUiState := LearnUiState(false, "", None, 0, 0, 0, Some(DeckNotFound))

  /** `queue.getOrNull(i)`. */
  function GetOrNull(queue: seq<CardInstance>, i: int): (r: Option<CardInstance>)
    ensures r.Some? <==> 0 <= i < |queue|
    ensures r.Some? ==> r.value == queue[i]
  {
    if 0 <= i < |queue| then Some(queue[i]) else None
  }

  /** `(size - index).coerceAtLeast(0)`: the cards not yet shown. */
  function Remaining(size: int, index: int): (r: int)
    ensures r >= 0 && r >= size - index
    ensures index <= size ==> r == size - index
    ensures index >= size ==> r == 0
  {
    if size - index < 0 then 0 else size - index
  }

  /** `baseQueue.map { fromSimpleCard(it, deckId) }`: one basic forward instance per queued card, in order. */
  function Instances(cards: seq<Card>, deckId: string): (r: seq<CardInstance>)
    ensures |r| == |cards|
    ensures forall i :: 0 <= i < |cards| ==> r[i] == FromSimpleCard(cards[i], deckId)
  {
    seq(|cards|, i requires 0 <= i < |cards| => FromSimpleCard(cards[i], deckId))
  }

  /** The queue `load` builds for a deck. */
  function LearnQueue(d: Deck, progress: seq<CardProgressEntity>, today: int): (r: seq<CardInstance>)
    ensures |r| == |BuildQueue(d.cards, progress, today)|
  {
    Instances(BuildQueue(d.cards, progress, today), d.id)
  }

  /**
   * The state `load` ends in for a found deck: the counts, the first queued card, and as many
   * remaining as the counts add up to.
   */
  function LoadedState(d: Deck, progress: seq<CardProgressEntity>, today: int): (s: LearnUiState)
    ensures var byId := AssociateBy(progress);
      && s.dueToday == CountDue(d.cards, byId, today) && s.newCount == CountNew(d.cards, byId)
      && s.remaining == s.dueToday + s.newCount
      && s.currentCard == GetOrNull(LearnQueue(d, progress, today), 0)
      && !s.isLoading && s.error.None? && s.deckTitle == d.title
  {
    var byId := AssociateBy(progress);
    var queue := LearnQueue(d, progress, today);
    CountsSumToQueue(d.cards, progress, today);
    LearnUiState(false, d.title, GetOrNull(queue, 0), Remaining(|queue|, 0),
                 CountDue(d.cards, byId, today), CountNew(d.cards, byId), None)
  }

  /** Every queued instance is of a card of the deck that is due today or was never graded. */
  lemma QueuedCardsAreDueOrNew(d: Deck, progress: seq<CardProgressEntity>, today: int, i: int)
    requires 0 <= i < |LearnQueue(d, progress, today)|
    ensures var q := LearnQueue(d, progress, today)[i];
      exists c :: c in d.cards && q == FromSimpleCard(c, d.id)
                  && (IsDue(c, AssociateBy(progress), today) || IsNew(c, AssociateBy(progress)))
  {
    var c := BuildQueue(d.cards, progress, today)[i];
    QueueMembers(d.cards, progress, today, c);
  }

  /** With no progress at all, the queue is the whole deck in order and every card counts as new. */
  lemma FirstSession(d: Deck, today: int)
    ensures LearnQueue(d, [], today) == Instances(d.cards, d.id)
    ensures LoadedState(d, [], today).newCount == |d.cards| && LoadedState(d, [], today).dueToday == 0
  {
    NoProgressQueuesDeck(d.cards, today);
    NoProgressParts(d.cards, today);
    assert AssociateBy([]) == map[];
    CountsAreQueueParts(d.cards, map[], today);
  }

  class LearnViewModel {
    var state: LearnUiState
    var queue: seq<CardInstance>
    var index: int
    var loadedDeckId: Option<string>

    /** While a loaded deck is on screen, the card and the count shown follow the cursor. */
    ghost predicate Valid()
      reads this
    {
      && index >= 0
      && (!state.isLoading && state.error.None? ==>
            && state.currentCard == GetOrNull(queue, index)
            && state.remaining == Remaining(|queue|, index)
            && |queue| == state.dueToday + state.newCount)
    }

    constructor ()
      ensures state == InitialState && queue == [] && index == 0 && loadedDeckId.None? && Valid()
    {
      state := InitialState;
      queue := [];
      index := 0;
      loadedDeckId := None;
    }

    /**
     * `load`, run to completion, given what the deck repository returns for `deckId`, the
     * deck's progress rows and the day. The same deck still on screen is not reloaded; a missing
     * deck leaves only the not-found state; otherwise the queue is rebuilt from its start.
     */
    method Load(deckId: string, deck: Option<Deck>, progress: seq<CardProgressEntity>, today: int)
      requires Valid()
      modifies this
      ensures Valid()
      ensures old(loadedDeckId) == Some(deckId) && |old(queue)| > 0 && old(state).currentCard.Some? && !old(state).isLoading ==>
        state == old(state) && queue == old(queue) && index == old(index) && loadedDeckId == old(loadedDeckId)
      ensures !(old(loadedDeckId) == Some(deckId) && |old(queue)| > 0 && old(state).currentCard.Some? && !old(state).isLoading) ==>
        && (deck.None? ==> state == NotFound && queue == old(queue) && index == old(index) && loadedDeckId == old(loadedDeckId))
        && (deck.Some? ==>
              && queue == LearnQueue(deck.value, progress, today) && index == 0 && loadedDeckId == Some(deckId)
              && state == LoadedState(deck.value, progress, today))
    {
      if loadedDeckId == Some(deckId) && |queue| > 0 && state.currentCard.Some? && !state.isLoading {
        return;
      }
      state := InitialState;
      if deck.None? {
        state := NotFound;
        return;
      }
      var d := deck.value;
      var byId := AssociateBy(progress);
      var dueToday := CountDue(d.cards, byId, today);
      var newCount := CountNew(d.cards, byId);
      var baseQueue := BuildQueue(d.cards, progress, today);
      queue := Instances(baseQueue, d.id);
      index := 0;
      loadedDeckId := Some(deckId);
      var current := if index < |queue| then Some(queue[index]) else None;
      var remaining := if |queue| - index < 0 then 0 else |queue| - index;
      state := LearnUiState(false, d.title, current, remaining, dueToday, newCount, None);
      CountsSumToQueue(d.cards, progress, today);
    }

    /** `currentCardId`: the id progress is stored under for the card on screen. */
    function CurrentCardId(): (r: Option<string>)
      reads this
      ensures r.Some? <==> state.currentCard.Some?
      ensures r.Some? ==> r.value == state.currentCard.value.noteId
    {
      if state.currentCard.Some? then Some(state.currentCard.value.Id()) else None
    }

    /** `advanceToNextCard`: the cursor moves on, the card there (or none past the end) is shown. */
    method AdvanceToNextCard()
      requires Valid()
      modifies this
      ensures Valid()
      ensures index == old(index) + 1 && queue == old(queue) && loadedDeckId == old(loadedDeckId)
      ensures state == old(state).(currentCard := GetOrNull(queue, index), remaining := Remaining(|queue|, index))
    {
      index := index + 1;
      var current := if index < |queue| then Some(queue[index]) else None;
      var remaining := if |queue| - index < 0 then 0 else |queue| - index;
      state := state.(currentCard := current, remaining := remaining);
    }

    /** `moveNext`: the same step. */
    method MoveNext()
      requires Valid()
      modifies this
      ensures Valid()
      ensures index == old(index) + 1 && queue == old(queue) && loadedDeckId == old(loadedDeckId)
      ensures state == old(state).(currentCard := GetOrNull(queue, index), remaining := Remaining(|queue|, index))
    {
      AdvanceToNextCard();
    }
  }
}
