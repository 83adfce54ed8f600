/**
 * The new-deck screen: a title, a list of draft cards built one at a time from the
 * current inputs, and a save that writes the deck and all its drafts.
 */
module AddDeckViewModel {
  import opened Wrappers
  import opened Text
  import opened CardTypes
  import opened DeckModels
  import opened Entities
  import opened Database
  import opened DraftCards
  import opened CardForms
  import opened CardInstanceGenerator
  import opened UserDeckRepository

  /** `AddDeckUiState`. */
  datatype AddDeckUiState = AddDeckUiState(
    title: string,
    selectedCardType: CardType,
    currentFront: string,
    currentBack: string,
    currentClozeText: string,
    currentClozeAnswer: string,
    currentClozeHint: string,
    draftCards: seq<DraftCard>,
    selectedImageUri: Option<string>,
    isSaving: bool,
    savedSuccessfully: bool,
    errorMessage: Option<string>,
    inputError: Option<string>)

  /** `AddDeckUiState()` with its declared defaults. */
  const InitialState: AddDeckUiState :=
    AddDeckUiState("", BASIC, "", "", "", "", "", [], None, false, false, None, None)

  const EnterTitle: string := "Введите название колоды"
  const AddOneCard: string := "Добавьте хотя бы одну карточку"
  const SaveFailedPrefix: string := "Ошибка сохранения: "

  /**
   * What `addCard` lets into the list: a basic draft of trimmed, non-blank sides and no cloze
   * data; or a cloze draft of "" sides whose trimmed, non-blank answer occurs case-sensitively
   * in its trimmed, non-blank text, with a hint that is absent or trimmed and non-blank.
   */
  ghost predicate WellFormed(d: DraftCard)
  {
    if d.cardType != CLOZE then
      && Trim(d.front) == d.front && !IsBlank(d.front)
      && Trim(d.back) == d.back && !IsBlank(d.back)
      && d.clozeText.None? && d.clozeAnswer.None? && d.clozeHint.None?
    else
      && d.front == "" && d.back == ""
      && d.clozeText.Some? && Trim(d.clozeText.value) == d.clozeText.value && !IsBlank(d.clozeText.value)
      && d.clozeAnswer.Some? && Trim(d.clozeAnswer.value) == d.clozeAnswer.value && !IsBlank(d.clozeAnswer.value)
      && Contains(d.clozeText.value, d.clozeAnswer.value, false)
      && (d.clozeHint.Some? ==> Trim(d.clozeHint.value) == d.clozeHint.value && !IsBlank(d.clozeHint.value))
  }

  /** The draft `addCard` keeps for the current inputs, or the message it shows instead. */
  function DraftFromInputs(s: AddDeckUiState): (r: Result<DraftCard, string>)
    ensures r.Ok? ==> WellFormed(r.value) && r.value.cardType == s.selectedCardType
    ensures s.selectedCardType != CLOZE ==>
      && (r.Ok? <==> !IsBlank(s.currentFront) && !IsBlank(s.currentBack))
      && (r.Err? ==> Some(r.error) == BasicError(s.currentFront, s.currentBack))
      && (r.Ok? ==> r.value.front == Trim(s.currentFront) && r.value.back == Trim(s.currentBack))
    ensures s.selectedCardType == CLOZE ==>
      && (r.Ok? <==> ClozeError(s.currentClozeText, s.currentClozeAnswer, false, AnswerNotFound).None?)
      && (r.Err? ==> Some(r.error) == ClozeError(s.currentClozeText, s.currentClozeAnswer, false, AnswerNotFound))
      && (r.Ok? ==>
            && r.value.clozeText == Some(Trim(s.currentClozeText))
            && r.value.clozeAnswer == Some(Trim(s.currentClozeAnswer))
            && (r.value.clozeHint.None? <==> IsBlank(s.currentClozeHint))
            && (r.value.clozeHint.Some? ==> r.value.clozeHint.value == Trim(s.currentClozeHint)))
  {
    TrimIdempotent(s.currentFront);
    TrimIdempotent(s.currentBack);
    TrimIdempotent(s.currentClozeText);
    TrimIdempotent(s.currentClozeAnswer);
    TrimIdempotent(s.currentClozeHint);
    BlankTrim(s.currentFront);
    BlankTrim(s.currentBack);
    BlankTrim(s.currentClozeText);
    BlankTrim(s.currentClozeAnswer);
    BlankTrim(s.currentClozeHint);
    if s.selectedCardType != CLOZE then
      match BasicError(s.currentFront, s.currentBack)
      case Some(e) => Err(e)
      case None => Ok(BasicDraft(s.selectedCardType, Trim(s.currentFront), Trim(s.currentBack)))
    else
      match ClozeError(s.currentClozeText, s.currentClozeAnswer, false, AnswerNotFound)
      case Some(e) => Err(e)
      case None =>
        Ok(ClozeDraft(Trim(s.currentClozeText), Trim(s.currentClozeAnswer), IfBlankNull(Trim(s.currentClozeHint))))
  }

  /** `filterIndexed { i, _ -> i != index }`: the list without position `index`, the rest in order. */
  function RemoveAt(ds: seq<DraftCard>, index: nat): (r: seq<DraftCard>)
    requires index < |ds|
    ensures |r| == |ds| - 1
    ensures r[..index] == ds[..index] && r[index..] == ds[index + 1..]
    ensures forall d :: d in r ==> d in ds
    decreases index
  {
    if index == 0 then ds[1..]
    else [ds[0]] + RemoveAt(ds[1..], index - 1)
  }

  /** Removing the draft just added gives back the list from before. */
  lemma RemoveLastAdded(ds: seq<DraftCard>, d: DraftCard)
    ensures RemoveAt(ds + [d], |ds|) == ds
  {
    var r := RemoveAt(ds + [d], |ds|);
    assert r == r[..|ds|];
    assert (ds + [d])[..|ds|] == ds;
  }

  /** The steps `addCard` takes, as one expression per kind of form. */
  lemma DraftFromInputsSteps(s: AddDeckUiState)
    ensures s.selectedCardType != CLOZE ==>
      var front, back := Trim(s.currentFront), Trim(s.currentBack);
      DraftFromInputs(s) ==
        if IsBlank(front) then Err(EnterFront)
        else if IsBlank(back) then Err(EnterBack)
        else Ok(DraftCard(s.selectedCardType, front, back, None, None, None))
    ensures s.selectedCardType == CLOZE ==>
      var text, answer := Trim(s.currentClozeText), Trim(s.currentClozeAnswer);
      DraftFromInputs(s) ==
        if IsBlank(text) then Err(EnterText)
        else if IsBlank(answer) then Err(EnterAnswer)
        else if !Contains(text, answer, false) then Err(AnswerNotFound)
        else Ok(DraftCard(CLOZE, "", "", Some(text), Some(answer), IfBlankNull(Trim(s.currentClozeHint))))
  {
  }

  /** `saveDeck`'s checks: a title that is blank once trimmed, then an empty list. */
  function SaveDeckError(title: string, drafts: seq<DraftCard>): (r: Option<string>)
    ensures IsBlank(title) ==> r == Some(EnterTitle)
    ensures !IsBlank(title) && drafts == [] ==> r == Some(AddOneCard)
    ensures r.None? <==> !IsBlank(title) && drafts != []
  {
    BlankTrim(title);
    if IsBlank(Trim(title)) then Some(EnterTitle)
    else if drafts == [] then Some(AddOneCard)
    else None
  }

  /**
   * A listed draft, once stored, reads back as the card it was entered as: a basic draft with
   * its sides (a reversed one as BASIC), a cloze draft as a CLOZE card whose question blanks
   * the first occurrence of the answer with the hint or "[...]".
   */
  lemma StoredDraftReadsBack(id: string, deckId: string, d: DraftCard, today: int)
    requires WellFormed(d)
    ensures var c := EntityToCard(DraftRow(id, deckId, d, today));
      && c.id == id
      && (d.cardType != CLOZE ==>
            c == SimpleCard(id, d.front, d.back, if d.cardType == BASIC_REVERSED then BASIC else d.cardType))
      && (d.cardType == CLOZE ==>
            var t, a := d.clozeText.value, d.clozeAnswer.value;
            && c.cardType == CLOZE && c.back == a
            && exists i {:trigger IsFirstMatch(t, a, i, true)} ::
                 && IsFirstMatch(t, a, i, true)
                 && c.front == t[..i] + ClozePlaceholder(d.clozeHint) + t[i + |a|..])
  {
    if d.cardType == BASIC_REVERSED {
      DraftReadBackReversed(id, deckId, d, today);
    } else if d.cardType != CLOZE {
      DraftReadBackBasic(id, deckId, d, today);
    } else {
      DraftReadBackCloze(id, deckId, d, today);
      ContainsImpliesIgnoreCase(d.clozeText.value, d.clozeAnswer.value);
      DraftReadBackClozeFront(id, deckId, d, today);
    }
  }

  class AddDeckViewModel {
    var state: AddDeckUiState
    /** The repository the screen builds over the deck and card tables only. */
    const repo: UserDeckRepository

    /** Every draft in the list passed `addCard`'s checks. */
    ghost predicate Valid()
      reads this
    {
      forall d :: d in state.draftCards ==> WellFormed(d)
    }

    constructor (db: Tables)
      ensures Valid()
      ensures state == InitialState
      ensures repo.db == db && !repo.hasProgressDao && !repo.hasStatsDao
    {
      state := InitialState;
      repo := new UserDeckRepository(db, false, false);
    }

    /** `onTitleChanged`: the title, and the save error is cleared. */
    method OnTitleChanged(value: string)
      requires Valid()
      modifies this
      ensures Valid()
      ensures state == old(state).(title := value, errorMessage := None)
    {
      state := state.(title := value, errorMessage := None);
    }

    /** `onCardTypeChanged`: only the type changes (typed inputs are kept); the input error is cleared. */
    method OnCardTypeChanged(t: CardType)
      requires Valid()
      modifies this
      ensures Valid()
      ensures state == old(state).(selectedCardType := t, inputError := None)
    {
      state := state.(selectedCardType := t, inputError := None);
    }

    method OnFrontChanged(value: string)
      requires Valid()
      modifies this
      ensures Valid()
      ensures state == old(state).(currentFront := value, inputError := None)
    {
      state := state.(currentFront := value, inputError := None);
    }

    method OnBackChanged(value: string)
      requires Valid()
      modifies this
      ensures Valid()
      ensures state == old(state).(currentBack := value, inputError := None)
    {
      state := state.(currentBack := value, inputError := None);
    }

    method OnClozeTextChanged(value: string)
      requires Valid()
      modifies this
      ensures Valid()
      ensures state == old(state).(currentClozeText := value, inputError := None)
    {
      state := state.(currentClozeText := value, inputError := None);
    }

    method OnClozeAnswerChanged(value: string)
      requires Valid()
      modifies this
      ensures Valid()
      ensures state == old(state).(currentClozeAnswer := value, inputError := None)
    {
      state := state.(currentClozeAnswer := value, inputError := None);
    }

    method OnClozeHintChanged(value: string)
      requires Valid()
      modifies this
      ensures Valid()
      ensures state == old(state).(currentClozeHint := value, inputError := None)
    {
      state := state.(currentClozeHint := value, inputError := None);
    }

    /** `onImageSelected`: only the image changes. */
    method OnImageSelected(uri: Option<string>)
      requires Valid()
      modifies this
      ensures Valid()
      ensures state == old(state).(selectedImageUri := uri)
    {
      state := state.(selectedImageUri := uri);
    }

    /**
     * `addCard`: on an error only the input error is set; otherwise the draft goes to the end
     * of the list and the inputs of its kind are cleared.
     */
    method AddCard()
      requires Valid()
      modifies this
      ensures Valid()
      ensures DraftFromInputs(old(state)).Err? ==>
        state == old(state).(inputError := Some(DraftFromInputs(old(state)).error))
      ensures DraftFromInputs(old(state)).Ok? && old(state).selectedCardType != CLOZE ==>
        state == old(state).(draftCards := old(state).draftCards + [DraftFromInputs(old(state)).value],
                             currentFront := "", currentBack := "", inputError := None)
      ensures DraftFromInputs(old(state)).Ok? && old(state).selectedCardType == CLOZE ==>
        state == old(state).(draftCards := old(state).draftCards + [DraftFromInputs(old(state)).value],
                             currentClozeText := "", currentClozeAnswer := "", currentClozeHint := "",
                             inputError := None)
    {
      DraftFromInputsSteps(state);
      var t := state.selectedCardType;
      if t != CLOZE {
        var front := Trim(state.currentFront);
        var back := Trim(state.currentBack);
        if IsBlank(front) {
          state := state.(inputError := Some(EnterFront));
          return;
        }
        if IsBlank(back) {
          state := state.(inputError := Some(EnterBack));
          return;
        }
        var draft := DraftCard(t, front, back, None, None, None);
        state := state.(draftCards := state.draftCards + [draft], currentFront := "", currentBack := "", inputError := None);
      } else {
        var clozeText := Trim(state.currentClozeText);
        var clozeAnswer := Trim(state.currentClozeAnswer);
        var clozeHint := IfBlankNull(Trim(state.currentClozeHint));
        if IsBlank(clozeText) {
          state := state.(inputError := Some(EnterText));
          return;
        }
        if IsBlank(clozeAnswer) {
          state := state.(inputError := Some(EnterAnswer));
          return;
        }
        if !Contains(clozeText, clozeAnswer, false) {
          state := state.(inputError := Some(AnswerNotFound));
          return;
        }
        var draft := DraftCard(CLOZE, "", "", Some(clozeText), Some(clozeAnswer), clozeHint);
        state := state.(draftCards := state.draftCards + [draft],
                        currentClozeText := "", currentClozeAnswer := "", currentClozeHint := "", inputError := None);
      }
    }

    /** `removeCard`: an index outside the list changes nothing; otherwise exactly that draft goes. */
    method RemoveCard(index: int)
      requires Valid()
      modifies this
      ensures Valid()
      ensures 0 <= index < |old(state).draftCards| ==>
        state == old(state).(draftCards := RemoveAt(old(state).draftCards, index))
      ensures !(0 <= index < |old(state).draftCards|) ==> state == old(state)
    {
      if index < 0 || index >= |state.draftCards| {
        return;
      }
      state := state.(draftCards := RemoveAt(state.draftCards, index));
    }

    /**
     * `saveDeck`, run to completion; `today` and `deckId` stand for the clock and the UUID, and
     * `failure` for the message of an exception thrown by the repository before it writes.
     * A blocked save only sets the error, and touches no table.
     */
    method SaveDeck(today: int, deckId: string, failure: Option<string>)
      requires Valid() && repo.db.Valid()
      modifies this, repo.db
      ensures Valid() && repo.db.Valid()
      ensures SaveDeckError(old(state).title, old(state).draftCards).Some? ==>
        && state == old(state).(errorMessage := SaveDeckError(old(state).title, old(state).draftCards))
        && unchanged(repo.db)
      ensures SaveDeckError(old(state).title, old(state).draftCards).None? && failure.Some? ==>
        && state == old(state).(isSaving := false, errorMessage := Some(SaveFailedPrefix + failure.value))
        && unchanged(repo.db)
      ensures SaveDeckError(old(state).title, old(state).draftCards).None? && failure.None? ==>
        && state == old(state).(isSaving := false, savedSuccessfully := true, errorMessage := None)
        && repo.db.decks == old(repo.db.decks)[deckId := UserDeckEntity(deckId, Trim(old(state).title), today, old(state).selectedImageUri)]
        && repo.db.cards == InsertAll(old(repo.db.cards), DraftRows(deckId, old(state).draftCards, today))
        && repo.db.progress == old(repo.db.progress) && repo.db.stats == old(repo.db.stats)
    {
      var title := Trim(state.title);
      var draftCards := state.draftCards;
      if IsBlank(title) {
        state := state.(errorMessage := Some(EnterTitle));
        return;
      }
      if |draftCards| == 0 {
        state := state.(errorMessage := Some(AddOneCard));
        return;
      }
      state := state.(isSaving := true, errorMessage := None);
      if failure.Some? {
        state := state.(isSaving := false, errorMessage := Some(SaveFailedPrefix + failure.value));
        return;
      }
      TrimIdempotent(old(state).title);
      var _ := repo.CreateDeckWithDraftCards(title, state.selectedImageUri, draftCards, today, deckId);
      state := state.(isSaving := false, savedSuccessfully := true);
    }
  }
}
