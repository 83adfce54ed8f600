/**
 * The browse-and-train screen: the deck's cards as (front, back) text pairs, walked through
 * one at a time by a cursor that stops one past the last card.
 */
module BrowseTrainViewModel {
  import opened Wrappers
  import opened Text
  import opened CardTypes
  import opened Entities
  import opened DeckModels
  import opened UserDeckRepository

  /** `BrowseTrainState`. */
  datatype BrowseTrainState = BrowseTrainState(
    isLoading: bool,
    deckTitle: string,
    cardsTotal: int,
    currentIndex: int,
    frontText: string,
    backText: string,
    isFinished: bool,
    errorMessage: Option<string>)

  /** `BrowseTrainState()` with its declared defaults. */
  const InitialState: BrowseTrainState := BrowseTrainState(true, "", 0, 0, "", "", false, None)

  /** The not-found message exactly as the source file holds it: its letters were lost to question marks. */
  const DeckNotFound: string := "?????? ?? ???????"

  /** A cloze card whose text and answer are both present and not blank. */
  predicate CompleteCloze(c: Card) {
    c.cardType == CLOZE && !IsNullOrBlank(c.clozeText) && !IsNullOrBlank(c.clozeAnswer)
  }

  /** The pair a card is browsed as: a complete cloze card as (answer, whole sentence), any other as its sides. */
  function CardPair(c: Card): (p: (string, string))
  {
    if CompleteCloze(c) then (c.clozeAnswer.value, c.clozeText.value) else (c.front, c.back)
  }

  /** `deck.cards.map { ... }`. */
  function Pairs(cards: seq<Card>): (ps: seq<(string, string)>)
    ensures |ps| == |cards|
    ensures forall i :: 0 <= i < |cards| ==> ps[i] == CardPair(cards[i])
  {
    seq(|cards|, i requires 0 <= i < |cards| => CardPair(cards[i]))
  }

  /**
   * A stored note is browsed with no blank at all: a complete cloze note shows its answer,
   * then the whole sentence; every other note shows its own two sides.
   */
  lemma BrowsedNote(e: UserCardEntity)
    ensures FromString(e.cardType) == CLOZE && !IsNullOrBlank(e.clozeText) && !IsNullOrBlank(e.clozeAnswer) ==>
      CardPair(EntityToCard(e)) == (e.clozeAnswer.value, e.clozeText.value)
    ensures !(FromString(e.cardType) == CLOZE && !IsNullOrBlank(e.clozeText) && !IsNullOrBlank(e.clozeAnswer)) ==>
      CardPair(EntityToCard(e)) == (e.front, e.back)
  {
  }

  /** `cards.getOrNull(i)?.first.orEmpty()`. */
  function FrontAt(ps: seq<(string, string)>, i: int): string {
    if 0 <= i < |ps| then ps[i].0 else ""
  }

  /** `cards.getOrNull(i)?.second.orEmpty()`. */
  function BackAt(ps: seq<(string, string)>, i: int): string {
    if 0 <= i < |ps| then ps[i].1 else ""
  }

  /** The state `loadDeck` ends in when the deck is found: cursor on the first card, which is shown. */
  function Loaded(d: Deck): (s: BrowseTrainState)
    ensures !s.isLoading && s.errorMessage.None? && !s.isFinished
    ensures s.deckTitle == d.title && s.cardsTotal == |d.cards| && s.currentIndex == 0
    ensures d.cards != [] ==> (s.frontText, s.backText) == CardPair(d.cards[0])
    ensures d.cards == [] ==> s.frontText == "" && s.backText == ""
  {
    var ps := Pairs(d.cards);
    BrowseTrainState(false, d.title, |ps|, 0, FrontAt(ps, 0), BackAt(ps, 0), false, None)
  }

  /** The state `loadDeck` ends in when no deck has the id: every field reset, and the message. */
  const NotFound: BrowseTrainState := BrowseTrainState(false, "", 0, 0, "", "", false, Some(DeckNotFound))

  /** The deck is on screen: loaded without error. */
  predicate Showing(s: BrowseTrainState) {
    !s.isLoading && s.errorMessage.None?
  }

  /** The screen state agrees with the pairs it walks through. */
  ghost predicate Consistent(s: BrowseTrainState, ps: seq<(string, string)>) {
    && 0 <= s.currentIndex <= s.cardsTotal
    && (s.isFinished ==> s.currentIndex == s.cardsTotal && s.frontText == "" && s.backText == "")
    && (Showing(s) ==>
          && s.cardsTotal == |ps|
          && (s.isFinished <==> s.cardsTotal > 0 && s.currentIndex == s.cardsTotal)
          && (s.currentIndex < s.cardsTotal ==> (s.frontText, s.backText) == ps[s.currentIndex])
          && (s.cardsTotal == 0 ==> s.frontText == "" && s.backText == ""))
  }

  lemma LoadedConsistent(d: Deck)
    ensures Consistent(Loaded(d), Pairs(d.cards))
    ensures Consistent(NotFound, Pairs(d.cards))
  {
  }

  /**
   * `advance`: nothing while loading, after an error, once finished or on an empty deck;
   * past the last card the cursor rests on `cardsTotal` with the texts emptied and the walk
   * finished; otherwise the cursor moves on by one and shows that pair. Only the cursor,
   * the texts and the finished flag ever change.
   */
  function AdvanceFrom(s: BrowseTrainState, ps: seq<(string, string)>): (r: BrowseTrainState)
    ensures s.isLoading || s.errorMessage.Some? || s.isFinished || s.cardsTotal == 0 ==> r == s
    ensures r == s.(currentIndex := r.currentIndex, frontText := r.frontText, backText := r.backText, isFinished := r.isFinished)
    ensures Showing(s) && !s.isFinished && s.cardsTotal != 0 ==>
      && r.currentIndex == (if s.currentIndex + 1 >= s.cardsTotal then s.cardsTotal else s.currentIndex + 1)
      && (r.isFinished <==> s.currentIndex + 1 >= s.cardsTotal)
  {
    if s.isLoading || s.errorMessage.Some? || s.isFinished || s.cardsTotal == 0 then s
    else
      var next := s.currentIndex + 1;
      if next >= s.cardsTotal then s.(currentIndex := s.cardsTotal, frontText := "", backText := "", isFinished := true)
      else s.(currentIndex := next, frontText := FrontAt(ps, next), backText := BackAt(ps, next), isFinished := false)
  }

  /**
   * `restart`: nothing while loading or after an error; an empty deck only clears the
   * finished flag; otherwise the cursor goes back to the first pair.
   */
  function RestartFrom(s: BrowseTrainState, ps: seq<(string, string)>): (r: BrowseTrainState)
    ensures s.isLoading || s.errorMessage.Some? ==> r == s
    ensures Showing(s) ==> !r.isFinished
    ensures r == s.(currentIndex := r.currentIndex, frontText := r.frontText, backText := r.backText, isFinished := r.isFinished)
    ensures Showing(s) && s.cardsTotal != 0 ==> r.currentIndex == 0
  {
    if s.isLoading || s.errorMessage.Some? then s
    else if s.cardsTotal == 0 then s.(isFinished := false)
    else s.(currentIndex := 0, frontText := FrontAt(ps, 0), backText := BackAt(ps, 0), isFinished := false)
  }

  lemma AdvanceConsistent(s: BrowseTrainState, ps: seq<(string, string)>)
    requires Consistent(s, ps)
    ensures Consistent(AdvanceFrom(s, ps), ps)
  {
  }

  lemma RestartConsistent(s: BrowseTrainState, ps: seq<(string, string)>)
    requires Consistent(s, ps)
    ensures Consistent(RestartFrom(s, ps), ps)
  {
  }

  /** `k` answers in a row, each "know" or "don't know" alike. */
  function Advanced(s: BrowseTrainState, ps: seq<(string, string)>, k: nat): BrowseTrainState
  {
    if k == 0 then s else AdvanceFrom(Advanced(s, ps, k - 1), ps)
  }

  /**
   * Walking a loaded deck of n cards: after k < n answers the k-th pair is shown; after n
   * answers the walk is finished with the cursor on n, and further answers change nothing.
   */
  lemma {:induction false} WalkThrough(d: Deck, k: nat)
    requires k <= |d.cards|
    ensures var s := Advanced(Loaded(d), Pairs(d.cards), k);
      && s.currentIndex == k
      && (k < |d.cards| ==> !s.isFinished && (s.frontText, s.backText) == CardPair(d.cards[k]))
      && (k == |d.cards| && k > 0 ==> s.isFinished && s.frontText == "" && s.backText == "")
      && s.deckTitle == d.title && s.cardsTotal == |d.cards| && Showing(s)
  {
    if k > 0 {
      WalkThrough(d, k - 1);
    }
  }

  /** Once finished, answering again changes nothing; an empty deck never moves. */
  lemma {:induction false} StaysPut(s: BrowseTrainState, ps: seq<(string, string)>, k: nat)
    requires s.isFinished || s.cardsTotal == 0
    ensures Advanced(s, ps, k) == s
  {
    if k > 0 {
      StaysPut(s, ps, k - 1);
    }
  }

  /** However far the walk has gone, `restart` brings back the state the deck was loaded in. */
  lemma {:induction false} RestartIsReload(d: Deck, k: nat)
    ensures RestartFrom(Advanced(Loaded(d), Pairs(d.cards), k), Pairs(d.cards)) == Loaded(d)
  {
    var ps := Pairs(d.cards);
    if |d.cards| == 0 {
      StaysPut(Loaded(d), ps, k);
    } else if k <= |d.cards| {
      WalkThrough(d, k);
    } else {
      WalkThrough(d, |d.cards|);
      var f := Advanced(Loaded(d), ps, |d.cards|);
      StaysPut(f, ps, k - |d.cards|);
      AdvancedSplit(Loaded(d), ps, |d.cards|, k - |d.cards|);
    }
  }

  lemma {:induction false} AdvancedSplit(s: BrowseTrainState, ps: seq<(string, string)>, a: nat, b: nat)
    ensures Advanced(s, ps, a + b) == Advanced(Advanced(s, ps, a), ps, b)
  {
    if b > 0 {
      AdvancedSplit(s, ps, a, b - 1);
    }
  }

  class BrowseTrainViewModel {
    const deckId: string
    var state: BrowseTrainState
    /** The pairs of the last deck loaded. */
    var cards: seq<(string, string)>

    ghost predicate Valid()
      reads this
    {
      Consistent(state, cards)
    }

    constructor (deckId: string)
      ensures this.deckId == deckId && state == InitialState && cards == [] && Valid()
    {
      this.deckId := deckId;
      state := InitialState;
      cards := [];
    }

    /**
     * `loadDeck`, run to completion, given what the deck repository returns for `deckId`:
     * the reset while loading is overwritten by the found deck or by the not-found state.
     */
    method LoadDeck(deck: Option<Deck>)
      modifies this
      ensures Valid()
      ensures deck.None? ==> state == NotFound && cards == old(cards)
      ensures deck.Some? ==> state == Loaded(deck.value) && cards == Pairs(deck.value.cards)
    {
      state := state.(isLoading := true, deckTitle := "", cardsTotal := 0, currentIndex := 0,
                      frontText := "", backText := "", isFinished := false, errorMessage := None);
      if deck.None? {
        state := state.(isLoading := false, errorMessage := Some(DeckNotFound));
        return;
      }
      var d := deck.value;
      cards := Pairs(d.cards);
      var front := if |cards| > 0 then cards[0].0 else "";
      var back := if |cards| > 0 then cards[0].1 else "";
      state := state.(isLoading := false, deckTitle := d.title, cardsTotal := |cards|, currentIndex := 0,
                      frontText := front, backText := back, isFinished := false, errorMessage := None);
      LoadedConsistent(d);
    }

    method Advance()
      requires Valid()
      modifies this
      ensures Valid() && state == AdvanceFrom(old(state), cards) && cards == old(cards)
    {
      AdvanceConsistent(state, cards);
      if state.isLoading || state.errorMessage.Some? || state.isFinished || state.cardsTotal == 0 {
        return;
      }
      var next := state.currentIndex + 1;
      if next >= state.cardsTotal {
        state := state.(currentIndex := state.cardsTotal, frontText := "", backText := "", isFinished := true);
      } else {
        var front := if next < |cards| then cards[next].0 else "";
        var back := if next < |cards| then cards[next].1 else "";
        state := state.(currentIndex := next, frontText := front, backText := back, isFinished := false);
      }
    }

    /** `onKnow`: the same step as `onDontKnow`. */
    method OnKnow()
      requires Valid()
      modifies this
      ensures Valid() && state == AdvanceFrom(old(state), cards) && cards == old(cards)
    {
      Advance();
    }

    method OnDontKnow()
      requires Valid()
      modifies this
      ensures Valid() && state == AdvanceFrom(old(state), cards) && cards == old(cards)
    {
      Advance();
    }

    method Restart()
      requires Valid()
      modifies this
      ensures Valid() && state == RestartFrom(old(state), cards) && cards == old(cards)
    {
      RestartConsistent(state, cards);
      if state.isLoading || state.errorMessage.Some? {
        return;
      }
      if state.cardsTotal == 0 {
        state := state.(isFinished := false);
        return;
      }
      var front := if |cards| > 0 then cards[0].0 else "";
      var back := if |cards| > 0 then cards[0].1 else "";
      state := state.(currentIndex := 0, frontText := front, backText := back, isFinished := false);
    }
  }
}
