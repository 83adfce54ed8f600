/** The live preview of a cloze card while it is being typed in. */
module ClozePreview {
  import opened Wrappers
  import opened Text
  import opened CardInstanceGenerator

  /** `ClozeMatch`: where the answer was found in the trimmed sentence; -1/-1 when not found. */
  datatype ClozeMatch = ClozeMatch(found: bool, startIndex: int, endIndex: int)

  const NotFound: ClozeMatch := ClozeMatch(false, -1, -1)

  /**
   * `findClozeMatch`: the first case-insensitive occurrence of the trimmed answer in the
   * trimmed sentence; not found for a blank sentence or answer.
   */
  function FindClozeMatch(sentence: string, answer: string): (m: ClozeMatch)
    ensures IsBlank(sentence) || IsBlank(answer) ==> m == NotFound
    ensures !m.found ==> m == NotFound
    ensures m.found ==>
      && 0 <= m.startIndex
      && m.endIndex == m.startIndex + |Trim(answer)| <= |Trim(sentence)|
      && IsFirstMatch(Trim(sentence), Trim(answer), m.startIndex, true)
    ensures !IsBlank(sentence) && !IsBlank(answer) ==>
      (m.found <==> exists j :: MatchesAt(Trim(sentence), Trim(answer), j, true))
  {
    if IsBlank(sentence) || IsBlank(answer) then NotFound
    else
      var s, a := Trim(sentence), Trim(answer);
      if |a| == 0 then NotFound
      else
        var index := IndexOf(s, a, true);
        if index >= 0 then ClozeMatch(true, index, index + |a|) else NotFound
  }

  /** The preview's placeholder: the trimmed hint in brackets, or "[...]". */
  function PreviewPlaceholder(hint: Option<string>): (r: string)
    ensures !IsNullOrBlank(hint) ==> r == "[" + Trim(hint.value) + "]"
    ensures IsNullOrBlank(hint) ==> r == "[...]"
  {
    if !IsNullOrBlank(hint) then "[" + Trim(hint.value) + "]" else "[...]"
  }

  /** A match that fits the trimmed sentence (the source's `substring` calls throw otherwise). */
  predicate FitsSentence(sentence: string, m: ClozeMatch)
  {
    m.found ==> 0 <= m.startIndex <= m.endIndex <= |Trim(sentence)|
  }

  /** `buildQuestionPreview`: "" without a match; otherwise the match is cut out and the placeholder put in. */
  function BuildQuestionPreview(sentence: string, m: ClozeMatch, hint: Option<string>): (r: string)
    requires FitsSentence(sentence, m)
    ensures !m.found ==> r == ""
    ensures m.found ==>
      var s, p := Trim(sentence), PreviewPlaceholder(hint);
      && |r| == |s| - (m.endIndex - m.startIndex) + |p|
      && r[..m.startIndex] == s[..m.startIndex]
      && r[m.startIndex..m.startIndex + |p|] == p
      && r[m.startIndex + |p|..] == s[m.endIndex..]
  {
    if !m.found then ""
    else
      var s := Trim(sentence);
      s[..m.startIndex] + PreviewPlaceholder(hint) + s[m.endIndex..]
  }

  /** `findClozeMatch` always produces a match `buildQuestionPreview` accepts. */
  lemma FoundMatchFits(sentence: string, answer: string)
    ensures FitsSentence(sentence, FindClozeMatch(sentence, answer))
  {
  }

  /**
   * The preview is the question the card will ask (the first case-insensitive occurrence
   * replaced), with the preview's trimmed-hint placeholder.
   */
  lemma PreviewIsQuestion(sentence: string, answer: string, hint: Option<string>)
    requires FindClozeMatch(sentence, answer).found
    ensures BuildQuestionPreview(sentence, FindClozeMatch(sentence, answer), hint)
         == ReplaceFirstIgnoreCase(Trim(sentence), Trim(answer), PreviewPlaceholder(hint))
  {
  }

  /** Without a hint, or with a hint that has no surrounding whitespace, preview and card show the same placeholder. */
  lemma PreviewPlaceholderAgrees(hint: Option<string>)
    requires hint.Some? ==> Trim(hint.value) == hint.value
    ensures PreviewPlaceholder(hint) == ClozePlaceholder(hint)
  {
  }
}
