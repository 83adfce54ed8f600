/** A card being composed in the new-deck form, before it is stored. */
module DraftCards {
  import opened Wrappers
  import opened Text
  import opened CardTypes

  /** `DraftCard`: front/back for the basic types, the three cloze fields for CLOZE. */
  datatype DraftCard = DraftCard(
    cardType: CardType,
    front: string,
    back: string,
    clozeText: Option<string>,
    clozeAnswer: Option<string>,
    clozeHint: Option<string>)

  /** `DraftCard(type, front, back)`: a basic draft, cloze fields null. */
  function BasicDraft(t: CardType, front: string, back: string): (d: DraftCard)
    ensures d.cardType == t && d.front == front && d.back == back
    ensures d.clozeText.None? && d.clozeAnswer.None? && d.clozeHint.None?
  {
    DraftCard(t, front, back, None, None, None)
  }

  /** `DraftCard(CLOZE, clozeText, clozeAnswer, clozeHint)`: front and back stay "". */
  function ClozeDraft(text: string, answer: string, hint: Option<string>): (d: DraftCard)
    ensures d.cardType == CLOZE && d.front == "" && d.back == ""
    ensures d.clozeText == Some(text) && d.clozeAnswer == Some(answer) && d.clozeHint == hint
  {
    DraftCard(CLOZE, "", "", Some(text), Some(answer), hint)
  }

  const Blank: string := "[...]"
  const Dash: string := " — "

  /**
   * `displayText`: a cloze draft shows its text with every case-sensitive occurrence of
   * the answer replaced by "[...]" (an absent text shows as ""); any other draft shows
   * "front — back".
   */
  function DisplayText(d: DraftCard): string
  {
    match d.cardType
    case CLOZE => if d.clozeText.Some? then ReplaceAll(d.clozeText.value, OrEmpty(d.clozeAnswer), Blank) else ""
    case _ => d.front + Dash + d.back
  }

  /** Any non-cloze draft: the front, the dash, then the back. */
  lemma DisplayTextBasic(d: DraftCard)
    requires d.cardType != CLOZE
    ensures var s := DisplayText(d);
      && |s| == |d.front| + 3 + |d.back|
      && s[..|d.front|] == d.front
      && s[|d.front|..|d.front| + 3] == Dash
      && s[|d.front| + 3..] == d.back
  {
  }

  /** A cloze draft whose (non-empty) answer does not occur shows its text unchanged. */
  lemma DisplayTextNoMatch(d: DraftCard)
    requires d.cardType == CLOZE && d.clozeText.Some? && d.clozeAnswer.Some? && d.clozeAnswer.value != []
    requires forall j :: !MatchesAt(d.clozeText.value, d.clozeAnswer.value, j, false)
    ensures DisplayText(d) == d.clozeText.value
  {
    ReplaceAllNoMatch(d.clozeText.value, d.clozeAnswer.value, Blank);
  }

  /** A cloze draft shows the text before the first occurrence, then "[...]", then the rest with the same rule. */
  lemma DisplayTextFirst(d: DraftCard, i: nat)
    requires d.cardType == CLOZE && d.clozeText.Some? && d.clozeAnswer.Some? && d.clozeAnswer.value != []
    requires IsFirstMatch(d.clozeText.value, d.clozeAnswer.value, i, false)
    ensures var t, a := d.clozeText.value, d.clozeAnswer.value;
      DisplayText(d) == t[..i] + Blank + ReplaceAll(t[i + |a|..], a, Blank)
  {
    ReplaceAllFirst(d.clozeText.value, d.clozeAnswer.value, Blank, i);
  }

  /**
   * A cloze draft whose answer is not blank and occurs in its text, as the new-deck form
   * demands, shows that text with the first exact occurrence of the answer, and then every
   * later one, replaced by "[...]".
   */
  lemma ClozeShowsBlankAtFirstMatch(d: DraftCard)
    requires d.cardType == CLOZE && d.clozeText.Some? && d.clozeAnswer.Some? && !IsBlank(d.clozeAnswer.value)
    requires Contains(d.clozeText.value, d.clozeAnswer.value, false)
    ensures var t, a := d.clozeText.value, d.clozeAnswer.value;
      exists i {:trigger IsFirstMatch(t, a, i, false)} ::
        && IsFirstMatch(t, a, i, false)
        && DisplayText(d) == t[..i] + Blank + ReplaceAll(t[i + |a|..], a, Blank)
  {
    var t, a := d.clozeText.value, d.clozeAnswer.value;
    NonBlankNonEmpty(a);
    ContainsFirstMatch(t, a, false);
    var i :| IsFirstMatch(t, a, i, false);
    DisplayTextFirst(d, i);
  }

  /** A cloze draft without text shows nothing. */
  lemma DisplayTextNoText(d: DraftCard)
    requires d.cardType == CLOZE && d.clozeText.None?
    ensures DisplayText(d) == ""
  {
  }

  /** `typeLabel`: the badge text of each type. */
  function TypeLabel(t: CardType): (r: string)
    ensures |r| >= 2
  {
    match t
    case BASIC => "BASIC"
    case BASIC_REVERSED => "x2"
    case BASIC_TYPED => "TYPED"
    case CLOZE => "CLOZE"
  }

  /** The four badges are distinct, so a badge identifies the type. */
  lemma TypeLabelInjective(a: CardType, b: CardType)
    requires TypeLabel(a) == TypeLabel(b)
    ensures a == b
  {
  }
}
