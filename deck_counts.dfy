/**
 * The two counters the learn and feedback screens show for a deck: how many of its cards
 * are due today and how many have never been graded.
 */
module DeckCounts {
  import opened Entities
  import opened DeckModels
  import opened CardQueueBuilder

  /** `cards.count { p != null && p.dueEpochDay <= today }`. */
  function CountDue(cards: seq<Card>, byId: map<string, CardProgressEntity>, today: int): (n: nat)
    ensures n <= |cards|
  {
    if cards == [] then 0
    else (if IsDue(cards[0], byId, today) then 1 else 0) + CountDue(cards[1..], byId, today)
  }

  /** `cards.count { progressById[it.id] == null }`. */
  function CountNew(cards: seq<Card>, byId: map<string, CardProgressEntity>): (n: nat)
    ensures n <= |cards|
  {
    if cards == [] then 0
    else (if IsNew(cards[0], byId) then 1 else 0) + CountNew(cards[1..], byId)
  }

  /** The counters are the sizes of the two parts of the learn queue. */
  lemma {:induction false} CountsAreQueueParts(cards: seq<Card>, byId: map<string, CardProgressEntity>, today: int)
    ensures CountDue(cards, byId, today) == |DueCards(cards, byId, today)|
    ensures CountNew(cards, byId) == |NewCards(cards, byId)|
  {
    if cards != [] {
      CountsAreQueueParts(cards[1..], byId, today);
    }
  }

  /** Due today plus never graded is exactly the length of the queue the learn screen builds. */
  lemma CountsSumToQueue(cards: seq<Card>, progress: seq<CardProgressEntity>, today: int)
    ensures var byId := AssociateBy(progress);
      CountDue(cards, byId, today) + CountNew(cards, byId) == |BuildQueue(cards, progress, today)|
    ensures var byId := AssociateBy(progress);
      CountDue(cards, byId, today) + CountNew(cards, byId) <= |cards|
  {
    var byId := AssociateBy(progress);
    CountsAreQueueParts(cards, byId, today);
    QueueLength(cards, byId, today);
  }
}
