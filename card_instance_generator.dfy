/** Expansion of a stored note into the instances the learner studies. */
module CardInstanceGenerator {
  import opened Wrappers
  import opened Text
  import opened CardTypes
  import opened Entities
  import opened DeckModels
  import opened CardInstances

  /**
   * `replaceFirstIgnoreCase`: the first case-insensitive occurrence of `target`
   * is replaced; without one the text comes back unchanged.
   */
  function ReplaceFirstIgnoreCase(text: string, target: string, replacement: string): (r: string)
    ensures IndexOf(text, target, true) < 0 ==> r == text
    ensures var i := IndexOf(text, target, true);
      i >= 0 ==>
        && IsFirstMatch(text, target, i, true)
        && |r| == |text| - |target| + |replacement|
        && r[..i] == text[..i]
        && r[i..i + |replacement|] == replacement
        && r[i + |replacement|..] == text[i + |target|..]
  {
    var idx := IndexOf(text, target, true);
    if idx < 0 then text
    else text[..idx] + replacement + text[idx + |target|..]
  }

  /** A contained target is replaced at its first case-insensitive occurrence. */
  lemma ReplaceFirstAtMatch(text: string, target: string, replacement: string)
    requires Contains(text, target, true)
    ensures exists i {:trigger IsFirstMatch(text, target, i, true)} ::
      && IsFirstMatch(text, target, i, true)
      && ReplaceFirstIgnoreCase(text, target, replacement) == text[..i] + replacement + text[i + |target|..]
  {
    var i := IndexOf(text, target, true);
    assert IsFirstMatch(text, target, i, true);
  }

  /** The placeholder a cloze question shows: `[hint]`, or `[...]` without a usable hint. */
  function ClozePlaceholder(hint: Option<string>): (r: string)
    ensures |r| >= 2 && r[0] == '[' && r[|r| - 1] == ']'
    ensures !IsNullOrBlank(hint) ==> r == "[" + hint.value + "]"
    ensures IsNullOrBlank(hint) ==> r == "[...]"
  {
    if !IsNullOrBlank(hint) then "[" + hint.value + "]" else "[...]"
  }

  /** The single forward instance shared by BASIC, BASIC_TYPED and the cloze fallback. */
  function Forward(e: UserCardEntity, t: CardType, typing: bool): CardInstance {
    CardInstance(e.id + "#F", e.id, e.deckId, t, e.front, e.back, typing, None)
  }

  /** The `when (type)` of `generate`, for an already resolved type. */
  function GenerateFor(t: CardType, e: UserCardEntity): (r: seq<CardInstance>)
    ensures 1 <= |r| <= 2
    ensures |r| == 2 <==> t == BASIC_REVERSED
    ensures forall k :: 0 <= k < |r| ==> r[k].noteId == e.id && r[k].deckId == e.deckId && WellDirected(r[k])
  {
    match t
    case BASIC => [Forward(e, BASIC, false)]
    case BASIC_REVERSED =>
      [ CardInstance(e.id + "#F", e.id, e.deckId, BASIC_REVERSED, e.front, e.back, false, Some(DirectionForward)),
        CardInstance(e.id + "#R", e.id, e.deckId, BASIC_REVERSED, e.back, e.front, false, Some(DirectionReverse)) ]
    case BASIC_TYPED => [Forward(e, BASIC_TYPED, true)]
    case CLOZE =>
      if IsNullOrBlank(e.clozeText) || IsNullOrBlank(e.clozeAnswer) then
        [Forward(e, BASIC, false)]
      else
        var question := ReplaceFirstIgnoreCase(e.clozeText.value, e.clozeAnswer.value, ClozePlaceholder(e.clozeHint));
        [CardInstance(e.id + "#C1", e.id, e.deckId, CLOZE, question, e.clozeAnswer.value, true, None)]
  }

  /** `generate`: the stored type is resolved through `fromString` first. */
  function Generate(e: UserCardEntity): (r: seq<CardInstance>)
    ensures |r| == 1
    ensures r[0].noteId == e.id && r[0].deckId == e.deckId && r[0].Id() == e.id
    ensures r[0].cardType != BASIC_REVERSED && r[0].direction.None?
    ensures r[0].expectsTyping <==> ExpectsTyping(r[0].cardType)
  {
    GenerateFor(FromString(e.cardType), e)
  }

  /** A BASIC note: one forward instance showing front, then back, without typing. */
  lemma GenerateBasic(e: UserCardEntity)
    requires FromString(e.cardType) == BASIC
    ensures Generate(e) == [CardInstance(e.id + "#F", e.id, e.deckId, BASIC, e.front, e.back, false, None)]
    ensures Generate(e)[0].Front() == e.front && Generate(e)[0].Back() == e.back
  {
  }

  /** The reversed branch: forward then reverse, with question and answer swapped. */
  lemma GenerateForReversed(e: UserCardEntity)
    ensures var r := GenerateFor(BASIC_REVERSED, e);
      && |r| == 2
      && r[0].instanceId == e.id + "#F" && r[1].instanceId == e.id + "#R"
      && r[0].direction == Some(DirectionForward) && r[1].direction == Some(DirectionReverse)
      && r[0].Front() == r[1].Back() == e.front && r[0].Back() == r[1].Front() == e.back
      && r[0].Id() == r[1].Id() == e.id
      && !r[0].expectsTyping && !r[1].expectsTyping
  {
  }

  /** A note stored as "BASIC_REVERSED" is read back as BASIC, so it yields a single instance. */
  lemma GenerateStoredReversed(e: UserCardEntity)
    requires e.cardType == Some("BASIC_REVERSED")
    ensures Generate(e) == [Forward(e, BASIC, false)]
  {
  }

  /** A BASIC_TYPED note: shaped like BASIC, but the answer is typed. */
  lemma GenerateTyped(e: UserCardEntity)
    requires FromString(e.cardType) == BASIC_TYPED
    ensures Generate(e) == [CardInstance(e.id + "#F", e.id, e.deckId, BASIC_TYPED, e.front, e.back, true, None)]
  {
  }

  /** A cloze note without its text or answer falls back to a plain BASIC instance. */
  lemma GenerateClozeFallback(e: UserCardEntity)
    requires FromString(e.cardType) == CLOZE
    requires IsNullOrBlank(e.clozeText) || IsNullOrBlank(e.clozeAnswer)
    ensures Generate(e) == [Forward(e, BASIC, false)]
  {
  }

  /**
   * A complete cloze note: one typed "#C1" instance whose answer is the hidden word verbatim
   * and whose question is the text with the word's first case-insensitive occurrence blanked.
   */
  lemma GenerateCloze(e: UserCardEntity)
    requires FromString(e.cardType) == CLOZE
    requires !IsNullOrBlank(e.clozeText) && !IsNullOrBlank(e.clozeAnswer)
    ensures var r := Generate(e)[0];
      && r.instanceId == e.id + "#C1" && r.cardType == CLOZE && r.expectsTyping
      && r.answerText == e.clozeAnswer.value
      && r.questionText == ReplaceFirstIgnoreCase(e.clozeText.value, e.clozeAnswer.value, ClozePlaceholder(e.clozeHint))
  {
  }

  /** When the answer does occur, the question keeps the text around it and shows the placeholder. */
  lemma GenerateClozeBlanks(e: UserCardEntity, i: nat)
    requires FromString(e.cardType) == CLOZE
    requires !IsNullOrBlank(e.clozeText) && !IsNullOrBlank(e.clozeAnswer)
    requires IsFirstMatch(e.clozeText.value, e.clozeAnswer.value, i, true)
    ensures var q := Generate(e)[0].questionText;
      var p := ClozePlaceholder(e.clozeHint);
      var text := e.clozeText.value;
      q == text[..i] + p + text[i + |e.clozeAnswer.value|..]
  {
    var text, answer := e.clozeText.value, e.clozeAnswer.value;
    assert IndexOf(text, answer, true) == i by {
      var j := IndexOf(text, answer, true);
      assert j >= 0;
      assert !(j < i) && !(i < j);
    }
  }

  /** `generateAll`: `flatMap` of `generate`, in order. */
  function GenerateAll(es: seq<UserCardEntity>): (r: seq<CardInstance>)
    ensures |r| == |es|
    ensures forall k :: 0 <= k < |r| ==> r[k] == Generate(es[k])[0]
  {
    if es == [] then []
    else
      var g, rest := Generate(es[0]), GenerateAll(es[1..]);
      assert forall k :: 1 <= k < |es| ==> (g + rest)[k] == rest[k - 1] == Generate(es[k])[0];
      g + rest
  }

  /** Generating for two lists of notes back to back is generating for their concatenation. */
  lemma {:induction false} GenerateAllAppend(a: seq<UserCardEntity>, b: seq<UserCardEntity>)
    ensures GenerateAll(a + b) == GenerateAll(a) + GenerateAll(b)
  {
    var l, r := GenerateAll(a + b), GenerateAll(a) + GenerateAll(b);
    assert |l| == |r|;
    forall k | 0 <= k < |l| ensures l[k] == r[k] {
      if k < |a| { assert (a + b)[k] == a[k]; } else { assert (a + b)[k] == b[k - |a|]; }
    }
  }

  /** `fromSimpleCard`: a built-in card as a BASIC forward instance of the given deck. */
  function FromSimpleCard(card: Card, deckId: string): (r: CardInstance)
    ensures r.Id() == card.id && r.deckId == deckId
    ensures r.Front() == card.front && r.Back() == card.back
    ensures r.cardType == BASIC && !r.expectsTyping && r.direction.None?
    ensures r.instanceId == card.id + "#F"
  {
    CardInstance(card.id + "#F", card.id, deckId, BASIC, card.front, card.back, false, None)
  }
}
