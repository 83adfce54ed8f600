/** The screen that edits one stored card of a user deck. */
module EditUserCardViewModel {
  import opened Wrappers
  import opened Text
  import opened CardTypes
  import opened Entities
  import opened Database
  import opened CardForms
  import opened ClozePreview
  import opened UserDeckRepository

  /** `EditUserCardUiState`. */
  datatype EditUserCardUiState = EditUserCardUiState(
    selectedType: CardType,
    front: string,
    back: string,
    clozeText: string,
    clozeAnswer: string,
    clozeHint: string,
    isLoading: bool,
    isSaving: bool,
    notFound: bool,
    savedSuccessfully: bool,
    errorMessage: Option<string>)

  /** `EditUserCardUiState()` with its declared defaults (loading). */
  const InitialState: EditUserCardUiState :=
    EditUserCardUiState(BASIC, "", "", "", "", "", true, false, false, false, None)

  const SaveFailed: string := "Не удалось сохранить"
  const ErrorPrefix: string := "Ошибка: "

  /** The type the form shows for a stored type: a reversed card is edited as BASIC. */
  function DisplayType(t: CardType): (r: CardType)
    ensures r != BASIC_REVERSED
    ensures t != BASIC_REVERSED ==> r == t
  {
    if t == BASIC_REVERSED then BASIC else t
  }

  /**
   * The state `load` ends in: not found without a row; otherwise the form of the row's
   * display type, a cloze row showing its cloze fields (null as "") and empty sides, any other
   * row its sides and empty cloze fields.
   */
  function LoadedState(e: Option<UserCardEntity>): (r: EditUserCardUiState)
    ensures !r.isLoading && !r.isSaving && !r.savedSuccessfully && r.errorMessage.None?
    ensures r.notFound <==> e.None?
    ensures e.None? ==> r == InitialState.(isLoading := false, notFound := true)
    ensures e.Some? ==> r.selectedType == DisplayType(FromString(e.value.cardType))
    ensures e.Some? && r.selectedType == CLOZE ==>
      && r.front == "" && r.back == ""
      && r.clozeText == OrEmpty(e.value.clozeText) && r.clozeAnswer == OrEmpty(e.value.clozeAnswer)
      && r.clozeHint == OrEmpty(e.value.clozeHint)
    ensures e.Some? && r.selectedType != CLOZE ==>
      r.front == e.value.front && r.back == e.value.back && r.clozeText == "" && r.clozeAnswer == "" && r.clozeHint == ""
  {
    match e
    case None => EditUserCardUiState(BASIC, "", "", "", "", "", false, false, true, false, None)
    case Some(entity) =>
      var displayType := DisplayType(FromString(entity.cardType));
      if displayType == CLOZE then
        EditUserCardUiState(CLOZE, "", "", OrEmpty(entity.clozeText), OrEmpty(entity.clozeAnswer), OrEmpty(entity.clozeHint),
                            false, false, false, false, None)
      else
        EditUserCardUiState(displayType, entity.front, entity.back, "", "", "", false, false, false, false, None)
  }

  /** `save`'s checks: both sides for BASIC and BASIC_TYPED, text, answer and occurrence for CLOZE, none for BASIC_REVERSED. */
  function SaveError(s: EditUserCardUiState): (r: Option<string>)
    ensures s.selectedType == BASIC_REVERSED ==> r.None?
    ensures (s.selectedType == BASIC || s.selectedType == BASIC_TYPED) ==>
      && (r.None? <==> !IsBlank(s.front) && !IsBlank(s.back))
      && (IsBlank(s.front) ==> r == Some(EnterFront))
      && (!IsBlank(s.front) && IsBlank(s.back) ==> r == Some(EnterBack))
    ensures s.selectedType == CLOZE ==> (r.None? <==> FindClozeMatch(s.clozeText, s.clozeAnswer).found)
    ensures s.selectedType == CLOZE ==> r.Some? ==> r == ClozeError(s.clozeText, s.clozeAnswer, true, PhraseNotFound)
  {
    ClozeAcceptedIffPreviewFound(s.clozeText, s.clozeAnswer, PhraseNotFound);
    match s.selectedType
    case BASIC => BasicError(s.front, s.back)
    case BASIC_TYPED => BasicError(s.front, s.back)
    case CLOZE => ClozeError(s.clozeText, s.clozeAnswer, true, PhraseNotFound)
    case BASIC_REVERSED => None
  }

  /** The columns a save writes: the form handed to `updateCardFull` with each blank cloze field as null. */
  function EditedFields(s: EditUserCardUiState): CardFields
  {
    UpdatedFields(s.selectedType, s.front, s.back, IfBlankNull(s.clozeText), IfBlankNull(s.clozeAnswer), IfBlankNull(s.clozeHint))
  }

  /**
   * A row as the repository writes it: trimmed sides and no cloze data, or for CLOZE empty
   * sides, a trimmed non-blank text and answer, and a hint that is absent or trimmed and non-blank.
   */
  ghost predicate Tidy(r: UserCardEntity)
  {
    if FromString(r.cardType) != CLOZE then
      Trim(r.front) == r.front && Trim(r.back) == r.back && r.clozeText.None? && r.clozeAnswer.None? && r.clozeHint.None?
    else
      && r.front == "" && r.back == ""
      && r.clozeText.Some? && Trim(r.clozeText.value) == r.clozeText.value && !IsBlank(r.clozeText.value)
      && r.clozeAnswer.Some? && Trim(r.clozeAnswer.value) == r.clozeAnswer.value && !IsBlank(r.clozeAnswer.value)
      && (r.clozeHint.Some? ==> Trim(r.clozeHint.value) == r.clozeHint.value && !IsBlank(r.clozeHint.value))
  }

  /**
   * Opening a tidy row and saving it untouched writes back the row's own columns; only the
   * type name may change, to the name of the type the form showed.
   */
  lemma UntouchedSaveKeepsRow(r: UserCardEntity)
    requires Tidy(r)
    ensures EditedFields(LoadedState(Some(r))) ==
      CardFields(Name(DisplayType(FromString(r.cardType))), r.front, r.back, r.clozeText, r.clozeAnswer, r.clozeHint)
  {
    TrimNoop("");
    if FromString(r.cardType) == CLOZE {
      assert !IsBlank("") ==> false;
      if r.clozeHint.Some? {
        assert IfBlankNull(r.clozeHint.value) == r.clozeHint;
      }
    }
  }

  /**
   * A reversed row that is opened and saved untouched is stored as BASIC from then on. (The
   * type is already BASIC when read, so the form's own reversed-to-BASIC mapping never fires.)
   */
  lemma UntouchedSaveRetypesReversed(r: UserCardEntity)
    requires Tidy(r) && r.cardType == Some(Name(BASIC_REVERSED))
    ensures LoadedState(Some(r)).selectedType == FromString(r.cardType) == BASIC
    ensures EditedFields(LoadedState(Some(r))).cardType == "BASIC"
  {
    FromStringNameReversed();
    UntouchedSaveKeepsRow(r);
  }

  /** Every row `addCardToDeck` or a new deck writes is tidy once its cloze data passed the form's checks. */
  lemma WrittenRowIsTidy(id: string, deckId: string, d: DraftCards.DraftCard, today: int)
    requires d.cardType == CLOZE ==>
      d.clozeText.Some? && !IsBlank(d.clozeText.value) && d.clozeAnswer.Some? && !IsBlank(d.clozeAnswer.value)
      && (d.clozeHint.Some? ==> !IsBlank(d.clozeHint.value))
    ensures Tidy(DraftRow(id, deckId, d, today))
  {
    var r := DraftRow(id, deckId, d, today);
    FromStringName(CLOZE);
    if d.cardType != CLOZE {
      SelectableOrReversed(d.cardType);
      TrimIdempotent(d.front);
      TrimIdempotent(d.back);
    } else {
      TrimIdempotent(d.clozeText.value);
      TrimIdempotent(d.clozeAnswer.value);
      BlankTrim(d.clozeText.value);
      BlankTrim(d.clozeAnswer.value);
      if d.clozeHint.Some? {
        TrimIdempotent(d.clozeHint.value);
        BlankTrim(d.clozeHint.value);
      }
    }
  }

  /** A stored non-cloze type name never reads back as CLOZE. */
  lemma SelectableOrReversed(t: CardType)
    requires t != CLOZE
    ensures FromString(Some(Name(t))) != CLOZE
  {
    if t == BASIC_REVERSED {
      FromStringNameReversed();
    } else {
      FromStringName(t);
    }
  }

  class EditUserCardViewModel {
    const deckId: string
    const cardId: string
    /** The repository the screen builds over the deck and card tables only. */
    const repo: UserDeckRepository
    var state: EditUserCardUiState

    /** The constructor runs `load`, as the source's `init` does. */
    constructor (db: Tables, deckId: string, cardId: string)
      ensures this.deckId == deckId && this.cardId == cardId
      ensures repo.db == db && !repo.hasProgressDao && !repo.hasStatsDao
      ensures state == LoadedState(FindCard(db.cards, deckId, cardId))
    {
      this.deckId := deckId;
      this.cardId := cardId;
      repo := new UserDeckRepository(db, false, false);
      state := InitialState;
      new;
      Load();
    }

    /** `load`: the form of the stored row, or not found; no table changes. */
    method Load()
      modifies this
      ensures state == LoadedState(repo.GetCardEntity(deckId, cardId))
    {
      state := state.(isLoading := true);
      var entity := repo.GetCardEntity(deckId, cardId);
      if entity.Some? {
        var t := FromString(entity.value.cardType);
        var displayType := if t == BASIC_REVERSED then BASIC else t;
        if displayType == CLOZE {
          state := EditUserCardUiState(CLOZE, "", "", OrEmpty(entity.value.clozeText), OrEmpty(entity.value.clozeAnswer),
                                       OrEmpty(entity.value.clozeHint), false, false, false, false, None);
        } else {
          state := EditUserCardUiState(displayType, entity.value.front, entity.value.back, "", "", "",
                                       false, false, false, false, None);
        }
      } else {
        state := InitialState.(isLoading := false, notFound := true);
      }
    }

    /** `onTypeChanged`: CLOZE clears the sides and keeps the cloze fields, any other type the reverse. */
    method OnTypeChanged(t: CardType)
      modifies this
      ensures t == CLOZE ==> state == old(state).(selectedType := t, front := "", back := "", errorMessage := None)
      ensures t != CLOZE ==>
        state == old(state).(selectedType := t, clozeText := "", clozeAnswer := "", clozeHint := "", errorMessage := None)
    {
      if t == CLOZE {
        state := state.(selectedType := t, front := "", back := "", errorMessage := None);
      } else {
        state := state.(selectedType := t, clozeText := "", clozeAnswer := "", clozeHint := "", errorMessage := None);
      }
    }

    method OnFrontChanged(value: string)
      modifies this
      ensures state == old(state).(front := value, errorMessage := None)
    {
      state := state.(front := value, errorMessage := None);
    }

    method OnBackChanged(value: string)
      modifies this
      ensures state == old(state).(back := value, errorMessage := None)
    {
      state := state.(back := value, errorMessage := None);
    }

    method OnClozeTextChanged(value: string)
      modifies this
      ensures state == old(state).(clozeText := value, errorMessage := None)
    {
      state := state.(clozeText := value, errorMessage := None);
    }

    method OnClozeAnswerChanged(value: string)
      modifies this
      ensures state == old(state).(clozeAnswer := value, errorMessage := None)
    {
      state := state.(clozeAnswer := value, errorMessage := None);
    }

    method OnClozeHintChanged(value: string)
      modifies this
      ensures state == old(state).(clozeHint := value, errorMessage := None)
    {
      state := state.(clozeHint := value, errorMessage := None);
    }

    /**
     * `save`, run to completion; `failure` stands for the message of an exception, taken to
     * strike before the update. A blocked save sets only the error and touches no table; a
     * save that runs writes `EditedFields` into the row, and succeeds iff the row existed.
     */
    method Save(failure: Option<string>)
      requires repo.db.Valid()
      modifies this, repo.db
      ensures repo.db.Valid()
      ensures SaveError(old(state)).Some? ==>
        state == old(state).(errorMessage := SaveError(old(state))) && unchanged(repo.db)
      ensures SaveError(old(state)).None? && failure.Some? ==>
        state == old(state).(isSaving := false, errorMessage := Some(ErrorPrefix + failure.value)) && unchanged(repo.db)
      ensures SaveError(old(state)).None? && failure.None? ==>
        && repo.db.cards == SetFields(old(repo.db.cards), deckId, cardId, EditedFields(old(state)))
        && state == if FindCard(old(repo.db.cards), deckId, cardId).Some?
                    then old(state).(isSaving := false, savedSuccessfully := true, errorMessage := None)
                    else old(state).(isSaving := false, errorMessage := Some(SaveFailed))
      ensures repo.db.decks == old(repo.db.decks) && repo.db.progress == old(repo.db.progress)
      ensures repo.db.stats == old(repo.db.stats)
    {
      var t := state.selectedType;
      var e := SaveError(state);
      if e.Some? {
        state := state.(errorMessage := e);
        return;
      }
      state := state.(isSaving := true, errorMessage := None);
      if failure.Some? {
        state := state.(isSaving := false, errorMessage := Some(ErrorPrefix + failure.value));
        return;
      }
      var success := repo.UpdateCardFull(deckId, cardId, t, state.front, state.back,
                                         IfBlankNull(state.clozeText), IfBlankNull(state.clozeAnswer), IfBlankNull(state.clozeHint));
      if success {
        state := state.(isSaving := false, savedSuccessfully := true);
      } else {
        state := state.(isSaving := false, errorMessage := Some(SaveFailed));
      }
    }
  }
}
