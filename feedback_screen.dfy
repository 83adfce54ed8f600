/**
 * The feedback screen shown after a typed answer: the progress counter at the top, and the
 * user's answer with each letter marked right or wrong against the expected one by position.
 */
module FeedbackScreen {
  import opened Text
  import opened AnswerNormalizer
  import opened Entities
  import opened DeckModels
  import opened CardQueueBuilder
  import opened DeckCounts

  // ---------------------------------------------------------------------------
  // The counter "done / todayTotal"
  // ---------------------------------------------------------------------------

  /** `(dueToday + newCount).coerceAtLeast(1)`. */
  function TodayTotal(dueToday: nat, newCount: nat): (t: int)
    ensures t >= 1 && t >= dueToday + newCount
    ensures dueToday + newCount >= 1 ==> t == dueToday + newCount
  {
    if dueToday + newCount < 1 then 1 else dueToday + newCount
  }

  /** `(learnedCount + 1).coerceAtMost(todayTotal)`, with `learnedCount` the deck's progress rows. */
  function Done(learnedCount: nat, todayTotal: int): (d: int)
    ensures d <= todayTotal
    ensures learnedCount + 1 <= todayTotal ==> d == learnedCount + 1
    ensures learnedCount + 1 > todayTotal ==> d == todayTotal
  {
    if learnedCount + 1 > todayTotal then todayTotal else learnedCount + 1
  }

  /** The counter reads between "1 / total" and "total / total". */
  lemma CounterInRange(dueToday: nat, newCount: nat, learnedCount: nat)
    ensures 1 <= Done(learnedCount, TodayTotal(dueToday, newCount)) <= TodayTotal(dueToday, newCount)
  {
  }

  /** The counter's total is the length of the queue the learn screen built, once that queue has a card. */
  lemma TodayTotalIsQueueLength(cards: seq<Card>, progress: seq<CardProgressEntity>, today: int)
    requires |BuildQueue(cards, progress, today)| > 0
    ensures var byId := AssociateBy(progress);
      TodayTotal(CountDue(cards, byId, today), CountNew(cards, byId)) == |BuildQueue(cards, progress, today)|
  {
    CountsSumToQueue(cards, progress, today);
  }

  // ---------------------------------------------------------------------------
  // buildLetterDiffAnnotated
  // ---------------------------------------------------------------------------

  /** The three colours a character is drawn in: blue for whitespace, green for right, red for wrong. */
  datatype MarkKind = Space | Right | Wrong

  datatype Mark = Mark(ch: char, kind: MarkKind)

  /** What a blank answer is shown as: one red dash. */
  const Dash: char := '—'

  /**
   * The mark of position `i` of the trimmed answer `u` against the expected answer `c` in
   * normal form: whitespace is never wrong; any other character is right exactly when its
   * lower-case form is the character of `c` at the same position.
   */
  function MarkAt(u: string, c: string, i: nat): MarkKind
    requires i < |u|
  {
    if IsWhitespace(u[i]) then Space
    else if i < |c| && Lower(u[i]) == c[i] then Right
    else Wrong
  }

  /** `buildLetterDiffAnnotated`: one mark per character of the trimmed answer, or the dash for a blank one. */
  method BuildLetterDiff(user: string, correct: string) returns (marks: seq<Mark>)
    ensures IsBlank(Trim(user)) ==> marks == [Mark(Dash, Wrong)]
    ensures !IsBlank(Trim(user)) ==>
      && |marks| == |Trim(user)|
      && forall i :: 0 <= i < |marks| ==>
           marks[i].ch == Trim(user)[i] && marks[i].kind == MarkAt(Trim(user), Normalize(Trim(correct)), i)
  {
    var uDisplay := Trim(user);
    var cDisplay := Trim(correct);
    var c := Normalize(cDisplay);
    if IsBlank(uDisplay) {
      marks := [Mark(Dash, Wrong)];
      return;
    }
    marks := MarkLetters(uDisplay, c);
  }

  /** The loop of `buildLetterDiffAnnotated` over the trimmed answer `raw`, against the normal form `c`. */
  method MarkLetters(raw: string, c: string) returns (marks: seq<Mark>)
    ensures |marks| == |raw|
    ensures forall k :: 0 <= k < |raw| ==> marks[k] == Mark(raw[k], MarkAt(raw, c, k))
  {
    var rawLower := LowerS(raw);
    marks := [];
    var i := 0;
    while i < |raw|
      invariant 0 <= i <= |raw|
      invariant |marks| == i
      invariant forall k :: 0 <= k < i ==> marks[k] == Mark(raw[k], MarkAt(raw, c, k))
    {
      var ch := raw[i];
      var isSpace := IsWhitespace(ch);
      var ok := if isSpace then true else i < |rawLower| && i < |c| && rawLower[i] == c[i];
      var kind := if isSpace then Space else if ok then Right else Wrong;
      marks := marks + [Mark(ch, kind)];
      i := i + 1;
    }
  }

  /** Folding a string whose lower-case form has no "ё" is lower-casing it. */
  lemma FoldWithoutYo(u: string, n: string)
    requires LowerS(u) == n && 'ё' !in n
    ensures Fold(u) == n
  {
    forall k | 0 <= k < |u| ensures Fold(u)[k] == n[k] {
      assert Lower(u[k]) == n[k];
    }
  }

  /** Trimming first does not change the normal form. */
  lemma NormalizeTrim(s: string)
    ensures Normalize(Trim(s)) == Normalize(s)
  {
    TrimIdempotent(s);
  }

  /**
   * An answer typed exactly as the expected one's normal form (up to case) is accepted, and
   * none of its letters is marked wrong.
   */
  lemma ExactAnswerAllRight(user: string, correct: string, i: nat)
    requires LowerS(Trim(user)) == Normalize(Trim(correct))
    requires i < |Trim(user)|
    ensures MarkAt(Trim(user), Normalize(Trim(correct)), i) != Wrong
    ensures IsCorrect(user, correct)
  {
    var u, n := Trim(user), Normalize(Trim(correct));
    assert Lower(u[i]) == n[i];
    FoldWithoutYo(u, n);
    CollapseWsFixed(n);
    assert Normalize(user) == n by {
      assert Normalize(user) == CollapseWs(Fold(u));
    }
    NormalizeTrim(correct);
  }

  /**
   * The answer itself is compared after folding "ё" to "е", the letters are not: typing "ё"
   * for an expected "е" is accepted while that letter is marked wrong.
   */
  lemma YoAcceptedButMarkedWrong()
    ensures IsCorrect("ё", "е")
    ensures Normalize(Trim("е")) == "е"
    ensures MarkAt("ё", "е", 0) == Wrong
  {
    TrimNoop("ё");
    TrimNoop("е");
    assert Fold("ё") == "е" by {
      assert Fold("ё")[0] == FoldChar('ё');
    }
    assert Fold("е") == "е" by {
      assert Fold("е")[0] == FoldChar('е');
    }
    assert Collapsed("е");
    CollapseWsFixed("е");
  }
}
