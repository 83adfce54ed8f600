/** The screen that adds one card to an existing user deck. */
module AddCardToDeckViewModel {
  import opened Wrappers
  import opened Text
  import opened CardTypes
  import opened DeckModels
  import opened Entities
  import opened Database
  import opened DraftCards
  import opened CardForms
  import opened ClozePreview
  import opened CardInstanceGenerator
  import opened UserDeckRepository

  /** `AddCardToDeckUiState`. */
  datatype AddCardToDeckUiState = AddCardToDeckUiState(
    selectedType: CardType,
    front: string,
    back: string,
    clozeText: string,
    clozeAnswer: string,
    clozeHint: string,
    isSaving: bool,
    savedSuccessfully: bool,
    errorMessage: Option<string>)

  /** `AddCardToDeckUiState()` with its declared defaults. */
  const InitialState: AddCardToDeckUiState := AddCardToDeckUiState(BASIC, "", "", "", "", "", false, false, None)

  const SaveFailed: string := "Не удалось сохранить карточку"
  const ErrorPrefix: string := "Ошибка: "

  /**
   * `save`'s checks for the selected type: both sides for the basic types, text, answer and
   * a case-insensitive occurrence for CLOZE.
   */
  function SaveError(s: AddCardToDeckUiState): (r: Option<string>)
    ensures s.selectedType != CLOZE ==> (r.None? <==> !IsBlank(s.front) && !IsBlank(s.back))
    ensures s.selectedType == BASIC_REVERSED ==> (r.Some? ==> r.value == FillAllFields)
    ensures (s.selectedType == BASIC || s.selectedType == BASIC_TYPED) ==>
      (IsBlank(s.front) ==> r == Some(EnterFront)) && (!IsBlank(s.front) && IsBlank(s.back) ==> r == Some(EnterBack))
    ensures s.selectedType == CLOZE ==> (r.None? <==> FindClozeMatch(s.clozeText, s.clozeAnswer).found)
    ensures s.selectedType == CLOZE ==> r.Some? ==> r == ClozeError(s.clozeText, s.clozeAnswer, true, AnswerNotFound)
  {
    ClozeAcceptedIffPreviewFound(s.clozeText, s.clozeAnswer, AnswerNotFound);
    match s.selectedType
    case BASIC => BasicError(s.front, s.back)
    case BASIC_TYPED => BasicError(s.front, s.back)
    case CLOZE => ClozeError(s.clozeText, s.clozeAnswer, true, AnswerNotFound)
    case BASIC_REVERSED => ReversedError(s.front, s.back)
  }

  /** The draft handed to `addCardToDeck`: the raw sides, and each cloze field null when blank. */
  function SaveDraft(s: AddCardToDeckUiState): DraftCard
  {
    DraftCard(s.selectedType, s.front, s.back, IfBlankNull(s.clozeText), IfBlankNull(s.clozeAnswer), IfBlankNull(s.clozeHint))
  }

  /**
   * A card that passed `save`'s checks reads back as entered: the trimmed sides for the basic
   * types (a reversed card as BASIC), and for CLOZE a card asking the trimmed text with its first
   * case-insensitive occurrence of the trimmed answer blanked.
   */
  lemma SavedCardReadsBack(s: AddCardToDeckUiState, cardId: string, deckId: string, today: int)
    requires SaveError(s).None?
    ensures var c := EntityToCard(AddedRow(cardId, deckId, SaveDraft(s), today));
      && (s.selectedType != CLOZE ==>
            c == SimpleCard(cardId, Trim(s.front), Trim(s.back), if s.selectedType == BASIC_REVERSED then BASIC else s.selectedType))
      && (s.selectedType == CLOZE ==>
            var t, a := Trim(s.clozeText), Trim(s.clozeAnswer);
            && c.cardType == CLOZE && c.back == a
            && exists i {:trigger IsFirstMatch(t, a, i, true)} ::
                 && IsFirstMatch(t, a, i, true)
                 && c.front == t[..i] + ClozePlaceholder(IfBlankNull(Trim(s.clozeHint))) + t[i + |a|..])
  {
    var d := SaveDraft(s);
    if s.selectedType == BASIC_REVERSED {
      DraftReadBackReversed(cardId, deckId, d, today);
    } else if s.selectedType != CLOZE {
      DraftReadBackBasic(cardId, deckId, d, today);
    } else {
      assert SaveError(s) == ClozeError(s.clozeText, s.clozeAnswer, true, AnswerNotFound);
      SavedClozeReadsBack(s, cardId, deckId, today);
    }
  }

  /** The CLOZE half of `SavedCardReadsBack`, from what `save`'s cloze check established. */
  lemma SavedClozeReadsBack(s: AddCardToDeckUiState, cardId: string, deckId: string, today: int)
    requires s.selectedType == CLOZE && !IsBlank(s.clozeText) && !IsBlank(s.clozeAnswer)
    requires Contains(Trim(s.clozeText), Trim(s.clozeAnswer), true)
    ensures var c := EntityToCard(AddedRow(cardId, deckId, SaveDraft(s), today));
      var t, a := Trim(s.clozeText), Trim(s.clozeAnswer);
      && c.cardType == CLOZE && c.back == a
      && exists i {:trigger IsFirstMatch(t, a, i, true)} ::
           && IsFirstMatch(t, a, i, true)
           && c.front == t[..i] + ClozePlaceholder(IfBlankNull(Trim(s.clozeHint))) + t[i + |a|..]
  {
    var t, a := Trim(s.clozeText), Trim(s.clozeAnswer);
    SavedClozeRow(s, cardId, deckId, today);
    EntityClozeFront(AddedRow(cardId, deckId, SaveDraft(s), today), t, a, ClozePlaceholder(IfBlankNull(Trim(s.clozeHint))));
  }

  /** The row `save` inserts for a checked cloze form holds its trimmed fields, a blank hint as null. */
  lemma SavedClozeRow(s: AddCardToDeckUiState, cardId: string, deckId: string, today: int)
    requires s.selectedType == CLOZE && !IsBlank(s.clozeText) && !IsBlank(s.clozeAnswer)
    ensures var r := AddedRow(cardId, deckId, SaveDraft(s), today);
      && r.cardType == Some(Name(CLOZE))
      && r.clozeText == Some(Trim(s.clozeText)) && r.clozeAnswer == Some(Trim(s.clozeAnswer))
      && r.clozeHint == IfBlankNull(Trim(s.clozeHint))
      && !IsBlank(Trim(s.clozeText)) && !IsBlank(Trim(s.clozeAnswer))
  {
    BlankTrim(s.clozeHint);
    BlankTrim(s.clozeText);
    BlankTrim(s.clozeAnswer);
  }

  class AddCardToDeckViewModel {
    const deckId: string
    /** The repository the screen builds over the deck and card tables only. */
    const repo: UserDeckRepository
    var state: AddCardToDeckUiState

    constructor (db: Tables, deckId: string)
      ensures this.deckId == deckId && state == InitialState
      ensures repo.db == db && !repo.hasProgressDao && !repo.hasStatsDao
    {
      this.deckId := deckId;
      repo := new UserDeckRepository(db, false, false);
      state := InitialState;
    }

    /** `onTypeChanged`: CLOZE clears the sides, any other type the cloze fields; the error is cleared. */
    method OnTypeChanged(t: CardType)
      modifies this
      ensures t == CLOZE ==> state == old(state).(selectedType := t, front := "", back := "", errorMessage := None)
      ensures t != CLOZE ==>
        state == old(state).(selectedType := t, clozeText := "", clozeAnswer := "", clozeHint := "", errorMessage := None)
    {
      if t == CLOZE {
        state := state.(selectedType := t, front := "", back := "", errorMessage := None);
      } else {
        state := state.(selectedType := t, clozeText := "", clozeAnswer := "", clozeHint := "", errorMessage := None);
      }
    }

    method OnFrontChanged(value: string)
      modifies this
      ensures state == old(state).(front := value, errorMessage := None)
    {
      state := state.(front := value, errorMessage := None);
    }

    method OnBackChanged(value: string)
      modifies this
      ensures state == old(state).(back := value, errorMessage := None)
    {
      state := state.(back := value, errorMessage := None);
    }

    method OnClozeTextChanged(value: string)
      modifies this
      ensures state == old(state).(clozeText := value, errorMessage := None)
    {
      state := state.(clozeText := value, errorMessage := None);
    }

    method OnClozeAnswerChanged(value: string)
      modifies this
      ensures state == old(state).(clozeAnswer := value, errorMessage := None)
    {
      state := state.(clozeAnswer := value, errorMessage := None);
    }

    method OnClozeHintChanged(value: string)
      modifies this
      ensures state == old(state).(clozeHint := value, errorMessage := None)
    {
      state := state.(clozeHint := value, errorMessage := None);
    }

    /**
     * `save`, run to completion. `today` and `cardId` stand for the clock and the UUID,
     * `insertFails` for an insert the repository turns into `false`, and `failure` for the
     * message of any other exception, taken to strike before the insert. A blocked save sets
     * only the error and touches no table; `isSaving` is set only once the checks pass, and
     * is reset when the save ends.
     */
    method Save(today: int, cardId: string, insertFails: bool, failure: Option<string>)
      requires repo.db.Valid()
      modifies this, repo.db
      ensures repo.db.Valid()
      ensures SaveError(old(state)).Some? ==>
        state == old(state).(errorMessage := SaveError(old(state))) && unchanged(repo.db)
      ensures SaveError(old(state)).None? && failure.Some? ==>
        state == old(state).(isSaving := false, errorMessage := Some(ErrorPrefix + failure.value)) && unchanged(repo.db)
      ensures SaveError(old(state)).None? && failure.None? && insertFails ==>
        && state == old(state).(isSaving := false, errorMessage := Some(SaveFailed))
        && repo.db.cards == old(repo.db.cards)
      ensures SaveError(old(state)).None? && failure.None? && !insertFails ==>
        && state == old(state).(isSaving := false, savedSuccessfully := true, errorMessage := None)
        && repo.db.cards == Insert(old(repo.db.cards), AddedRow(cardId, deckId, SaveDraft(old(state)), today))
      ensures repo.db.decks == old(repo.db.decks) && repo.db.progress == old(repo.db.progress)
      ensures repo.db.stats == old(repo.db.stats)
    {
      var t := state.selectedType;
      var e := SaveError(state);
      if e.Some? {
        state := state.(errorMessage := e);
        return;
      }
      state := state.(isSaving := true, errorMessage := None);
      if failure.Some? {
        state := state.(isSaving := false, errorMessage := Some(ErrorPrefix + failure.value));
        return;
      }
      var draft := DraftCard(t, state.front, state.back,
                             IfBlankNull(state.clozeText), IfBlankNull(state.clozeAnswer), IfBlankNull(state.clozeHint));
      var success := repo.AddCardToDeck(deckId, draft, today, cardId, insertFails);
      if success {
        state := state.(isSaving := false, savedSuccessfully := true);
      } else {
        state := state.(isSaving := false, errorMessage := Some(SaveFailed));
      }
    }
  }
}
