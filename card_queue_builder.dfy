/**
 * The learn queue: the deck's cards that are due today, in deck order, followed by
 * the cards that have never been graded, in deck order.
 */
module CardQueueBuilder {
  import opened Wrappers
  import opened Entities
  import opened DeckModels

  // ---------------------------------------------------------------------------
  // associateBy { it.cardId }
  // ---------------------------------------------------------------------------

  /** The progress rows keyed by card id; a later row with the same id replaces an earlier one. */
  function AssociateBy(progress: seq<CardProgressEntity>): (m: map<string, CardProgressEntity>)
    decreases |progress|
  {
    if progress == [] then map[]
    else
      var last := progress[|progress| - 1];
      AssociateBy(progress[..|progress| - 1])[last.cardId := last]
  }

  /** Reference definition: the index of the last row for `id`, or -1. */
  function LastIndexOf(progress: seq<CardProgressEntity>, id: string): (r: int)
    ensures -1 <= r < |progress|
    ensures r >= 0 ==> progress[r].cardId == id
    ensures forall j :: r < j < |progress| ==> progress[j].cardId != id
    decreases |progress|
  {
    if progress == [] then -1
    else if progress[|progress| - 1].cardId == id then |progress| - 1
    else LastIndexOf(progress[..|progress| - 1], id)
  }

  /** The map holds exactly the ids that occur, each bound to its last row. */
  lemma {:induction false} AssociateByLastWins(progress: seq<CardProgressEntity>, id: string)
    ensures id in AssociateBy(progress) <==> LastIndexOf(progress, id) >= 0
    ensures id in AssociateBy(progress) ==> AssociateBy(progress)[id] == progress[LastIndexOf(progress, id)]
    decreases |progress|
  {
    if progress != [] {
      var init := progress[..|progress| - 1];
      AssociateByLastWins(init, id);
      if progress[|progress| - 1].cardId != id {
        assert LastIndexOf(progress, id) == LastIndexOf(init, id);
        if LastIndexOf(init, id) >= 0 {
          assert progress[LastIndexOf(init, id)] == init[LastIndexOf(init, id)];
        }
      }
    }
  }

  /** Every id that occurs in the rows is a key. */
  lemma AssociateByKeys(progress: seq<CardProgressEntity>, i: int)
    requires 0 <= i < |progress|
    ensures progress[i].cardId in AssociateBy(progress)
  {
    AssociateByLastWins(progress, progress[i].cardId);
  }

  // ---------------------------------------------------------------------------
  // due + newCards
  // ---------------------------------------------------------------------------

  /** The card has a progress row and that row is due on or before `today`. */
  predicate IsDue(c: Card, byId: map<string, CardProgressEntity>, today: int)
  {
    c.id in byId && byId[c.id].dueEpochDay <= today
  }

  /** The card has no progress row. */
  predicate IsNew(c: Card, byId: map<string, CardProgressEntity>)
  {
    c.id !in byId
  }

  /** `cards.mapNotNull { ... }`: the due cards in order. */
  function DueCards(cards: seq<Card>, byId: map<string, CardProgressEntity>, today: int): (r: seq<Card>)
    ensures |r| <= |cards|
  {
    if cards == [] then []
    else if IsDue(cards[0], byId, today) then [cards[0]] + DueCards(cards[1..], byId, today)
    else DueCards(cards[1..], byId, today)
  }

  /** `cards.filter { progressById[it.id] == null }`: the new cards in order. */
  function NewCards(cards: seq<Card>, byId: map<string, CardProgressEntity>): (r: seq<Card>)
    ensures |r| <= |cards|
  {
    if cards == [] then []
    else if IsNew(cards[0], byId) then [cards[0]] + NewCards(cards[1..], byId)
    else NewCards(cards[1..], byId)
  }

  /** The queue: due cards first, then new cards. */
  function BuildQueue(cards: seq<Card>, progress: seq<CardProgressEntity>, today: int): (r: seq<Card>)
    ensures var byId := AssociateBy(progress);
      var d := |DueCards(cards, byId, today)|;
      d <= |r| &&
      (forall i :: 0 <= i < d ==> IsDue(r[i], byId, today)) &&
      (forall i :: d <= i < |r| ==> IsNew(r[i], byId))
  {
    var byId := AssociateBy(progress);
    DueCardsAreDue(cards, byId, today);
    NewCardsAreNew(cards, byId);
    DueCards(cards, byId, today) + NewCards(cards, byId)
  }

  lemma {:induction false} DueCardsAreDue(cards: seq<Card>, byId: map<string, CardProgressEntity>, today: int)
    ensures forall c :: c in DueCards(cards, byId, today) <==> c in cards && IsDue(c, byId, today)
  {
    if cards != [] {
      DueCardsAreDue(cards[1..], byId, today);
      assert cards == [cards[0]] + cards[1..];
    }
  }

  lemma {:induction false} NewCardsAreNew(cards: seq<Card>, byId: map<string, CardProgressEntity>)
    ensures forall c :: c in NewCards(cards, byId) <==> c in cards && IsNew(c, byId)
  {
    if cards != [] {
      NewCardsAreNew(cards[1..], byId);
      assert cards == [cards[0]] + cards[1..];
    }
  }

  /** A card is queued exactly when it is in the deck and is due or new; a card scheduled later is left out. */
  lemma QueueMembers(cards: seq<Card>, progress: seq<CardProgressEntity>, today: int, c: Card)
    ensures var byId := AssociateBy(progress);
      c in BuildQueue(cards, progress, today) <==>
      c in cards && (IsDue(c, byId, today) || IsNew(c, byId))
  {
    var byId := AssociateBy(progress);
    DueCardsAreDue(cards, byId, today);
    NewCardsAreNew(cards, byId);
  }

  /** A card is never queued twice over: the due and new parts together are no longer than the deck. */
  lemma {:induction false} QueueLength(cards: seq<Card>, byId: map<string, CardProgressEntity>, today: int)
    ensures |DueCards(cards, byId, today)| + |NewCards(cards, byId)| <= |cards|
  {
    if cards != [] {
      QueueLength(cards[1..], byId, today);
    }
  }

  lemma BuildQueueLength(cards: seq<Card>, progress: seq<CardProgressEntity>, today: int)
    ensures |BuildQueue(cards, progress, today)| <= |cards|
  {
    QueueLength(cards, AssociateBy(progress), today);
  }

  // ---------------------------------------------------------------------------
  // Order
  // ---------------------------------------------------------------------------

  /** `a` is `b` with some elements removed, order kept. */
  predicate IsSubsequence(a: seq<Card>, b: seq<Card>)
    decreases |b|
  {
    if a == [] then true
    else if b == [] then false
    else if a[0] == b[0] then IsSubsequence(a[1..], b[1..])
    else IsSubsequence(a, b[1..])
  }

  /** The due part keeps deck order. */
  lemma {:induction false} DueInDeckOrder(cards: seq<Card>, byId: map<string, CardProgressEntity>, today: int)
    ensures IsSubsequence(DueCards(cards, byId, today), cards)
  {
    if cards != [] {
      DueInDeckOrder(cards[1..], byId, today);
      var rest := DueCards(cards[1..], byId, today);
      if !IsDue(cards[0], byId, today) && rest != [] {
        DueCardsAreDue(cards[1..], byId, today);
        assert rest[0] in rest;
      }
    }
  }

  /** The new part keeps deck order. */
  lemma {:induction false} NewInDeckOrder(cards: seq<Card>, byId: map<string, CardProgressEntity>)
    ensures IsSubsequence(NewCards(cards, byId), cards)
  {
    if cards != [] {
      NewInDeckOrder(cards[1..], byId);
      var rest := NewCards(cards[1..], byId);
      if !IsNew(cards[0], byId) && rest != [] {
        NewCardsAreNew(cards[1..], byId);
        assert rest[0] in rest;
      }
    }
  }

  // ---------------------------------------------------------------------------
  // Special cases
  // ---------------------------------------------------------------------------

  /** With no progress at all, every card is new and the queue is the deck itself. */
  lemma {:induction false} NoProgressQueuesDeck(cards: seq<Card>, today: int)
    ensures BuildQueue(cards, [], today) == cards
  {
    var byId: map<string, CardProgressEntity> := map[];
    assert AssociateBy([]) == byId;
    NoProgressParts(cards, today);
  }

  lemma {:induction false} NoProgressParts(cards: seq<Card>, today: int)
    ensures DueCards(cards, map[], today) == []
    ensures NewCards(cards, map[]) == cards
  {
    if cards != [] {
      NoProgressParts(cards[1..], today);
    }
  }

  /** An example deck: a due card, a card due tomorrow and a new card queue as [due, new]. */
  lemma Example(a: Card, b: Card, c: Card)
    requires a.id == "a" && b.id == "b" && c.id == "c"
    ensures BuildQueue([a, b, c],
      [CardProgressEntity("b", "d", 11, None, false), CardProgressEntity("a", "d", 10, None, false)],
      10) == [a, c]
  {
    var p := [CardProgressEntity("b", "d", 11, None, false), CardProgressEntity("a", "d", 10, None, false)];
    var byId := AssociateBy(p);
    assert p[..1][..0] == [];
    assert AssociateBy(p[..1]) == map["b" := p[0]];
    assert byId == map["b" := p[0], "a" := p[1]];
    assert IsDue(a, byId, 10) && !IsDue(b, byId, 10) && IsNew(c, byId);
    assert [a, b, c][1..] == [b, c];
    assert [b, c][1..] == [c];
    assert [c][1..] == [];
    assert DueCards([c], byId, 10) == [];
    assert DueCards([a, b, c], byId, 10) == [a];
    assert NewCards([b, c], byId) == [c];
    assert NewCards([a, b, c], byId) == [c];
  }
}
