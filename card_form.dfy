/**
 * The checks the three card forms (new deck, add card, edit card) run before a card is
 * kept: which message, if any, blocks it. Each form trims its inputs first.
 */
module CardForms {
  import opened Wrappers
  import opened Text
  import opened ClozePreview

  const EnterFront: string := "Введите лицевую сторону"
  const EnterBack: string := "Введите оборотную сторону"
  const EnterText: string := "Введите текст предложения"
  const EnterAnswer: string := "Введите скрываемое слово/фразу"
  /** The not-found message of the new-deck and add-card forms. */
  const AnswerNotFound: string := "Скрываемое слово не найдено в тексте"
  /** The not-found message of the edit form. */
  const PhraseNotFound: string := "Скрываемая фраза не найдена в тексте. Проверьте написание."
  const FillAllFields: string := "Заполните все поля"

  /** Front then back: the first side that is blank once trimmed names the error. */
  function BasicError(front: string, back: string): (r: Option<string>)
    ensures IsBlank(front) ==> r == Some(EnterFront)
    ensures !IsBlank(front) && IsBlank(back) ==> r == Some(EnterBack)
    ensures r.None? <==> !IsBlank(front) && !IsBlank(back)
  {
    BlankTrim(front);
    BlankTrim(back);
    if IsBlank(Trim(front)) then Some(EnterFront)
    else if IsBlank(Trim(back)) then Some(EnterBack)
    else None
  }

  /** The reversed type's single check: both sides filled. */
  function ReversedError(front: string, back: string): (r: Option<string>)
    ensures r.None? <==> !IsBlank(front) && !IsBlank(back)
    ensures r.Some? ==> r.value == FillAllFields
  {
    BlankTrim(front);
    BlankTrim(back);
    if IsBlank(Trim(front)) || IsBlank(Trim(back)) then Some(FillAllFields) else None
  }

  /**
   * Text, then answer, then the answer's occurrence in the trimmed text (with or without
   * case, as the form does), reported with the form's own not-found message.
   */
  function ClozeError(text: string, answer: string, ignoreCase: bool, notFound: string): (r: Option<string>)
    ensures IsBlank(text) ==> r == Some(EnterText)
    ensures !IsBlank(text) && IsBlank(answer) ==> r == Some(EnterAnswer)
    ensures !IsBlank(text) && !IsBlank(answer) ==>
      (r.None? <==> Contains(Trim(text), Trim(answer), ignoreCase)) && (r.Some? ==> r.value == notFound)
  {
    BlankTrim(text);
    BlankTrim(answer);
    var t, a := Trim(text), Trim(answer);
    if IsBlank(t) then Some(EnterText)
    else if IsBlank(a) then Some(EnterAnswer)
    else if !Contains(t, a, ignoreCase) then Some(notFound)
    else None
  }

  /** A cloze form that ignores case accepts exactly what the live preview finds. */
  lemma ClozeAcceptedIffPreviewFound(text: string, answer: string, notFound: string)
    ensures ClozeError(text, answer, true, notFound).None? <==> FindClozeMatch(text, answer).found
  {
    if !IsBlank(text) && !IsBlank(answer) {
      var t, a := Trim(text), Trim(answer);
      if FindClozeMatch(text, answer).found {
        var j :| MatchesAt(t, a, j, true);
        assert IndexOf(t, a, true) != -1;
      }
    }
  }

  /** What the case-sensitive form accepts the preview also finds (the converse fails: "Cat" in "a cat"). */
  lemma CaseSensitiveAcceptedIsFound(text: string, answer: string, notFound: string)
    requires ClozeError(text, answer, false, notFound).None?
    ensures FindClozeMatch(text, answer).found
  {
    ContainsImpliesIgnoreCase(Trim(text), Trim(answer));
    ClozeAcceptedIffPreviewFound(text, answer, notFound);
  }

  /** The converse in one instance: an answer differing only in case is refused with, but not without, case. */
  lemma CaseMatters()
    ensures ClozeError("a cat", "Cat", false, AnswerNotFound) == Some(AnswerNotFound)
    ensures ClozeError("a cat", "Cat", true, AnswerNotFound).None?
  {
    TrimNoop("a cat");
    TrimNoop("Cat");
    assert !IsBlank("a cat") && !IsBlank("Cat") by {
      assert !IsWhitespace("a cat"[0]) && !IsWhitespace("Cat"[0]);
    }
    CatIgnoringCase();
    CatNotExact();
  }

  /** "Cat" occurs in "a cat" at 2 when case is ignored. */
  lemma CatIgnoringCase()
    ensures MatchesAt("a cat", "Cat", 2, true)
  {
    assert "a cat"[2..5] == "cat";
    assert Lower('C') == 'c';
  }

  /** "Cat" occurs nowhere in "a cat" when case matters. */
  lemma CatNotExact()
    ensures forall j :: !MatchesAt("a cat", "Cat", j, false)
  {
    forall j ensures !MatchesAt("a cat", "Cat", j, false) {
      if 0 <= j <= 2 {
        assert "a cat"[j..j + 3][0] != 'C';
      }
    }
  }
}
