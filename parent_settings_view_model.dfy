/** The parent's settings screen: the three intervals as text, checked and stored on save. */
module ParentSettingsViewModel {
  import opened Wrappers
  import opened Text
  import opened DeckModels
  import opened Scheduler

  /** `ParentSettingsUiState`: the three fields as typed, and the message under them. */
  datatype ParentSettingsUiState = ParentSettingsUiState(
    againDays: string,
    hardDays: string,
    easyDays: string,
    savedMessage: Option<string>)

  const InitialState: ParentSettingsUiState := ParentSettingsUiState("", "", "", None)

  const EnterIntegers: string := "Введите целые числа"
  const NoNegatives: string := "Интервалы не могут быть отрицательными"
  const Saved: string := "Сохранено"

  /** The form showing stored settings: each interval in decimal notation. */
  function ShownSettings(s: ParentSettings): (r: ParentSettingsUiState)
    ensures r.savedMessage.None?
  {
    ParentSettingsUiState(IntToString(s.againDays), IntToString(s.hardDays), IntToString(s.easyDays), None)
  }

  /**
   * What `save` makes of the form: the settings to store, or the message that blocks them
   * (a field that is not a 32-bit integer first, then a negative interval).
   */
  function SaveOutcome(u: ParentSettingsUiState): (r: Result<ParentSettings, string>)
    ensures r.Ok? <==> ParseInt(u.againDays).Some? && ParseInt(u.hardDays).Some? && ParseInt(u.easyDays).Some?
                       && NonNegative(ParentSettings(ParseInt(u.againDays).value, ParseInt(u.hardDays).value, ParseInt(u.easyDays).value))
    ensures r.Ok? ==> r.value == ParentSettings(ParseInt(u.againDays).value, ParseInt(u.hardDays).value, ParseInt(u.easyDays).value)
    ensures r.Ok? ==> NonNegative(r.value)
    ensures r.Err? ==> (r.error == EnterIntegers <==>
                        ParseInt(u.againDays).None? || ParseInt(u.hardDays).None? || ParseInt(u.easyDays).None?)
    ensures r.Err? ==> r.error == EnterIntegers || r.error == NoNegatives
  {
    var a, h, e := ParseInt(u.againDays), ParseInt(u.hardDays), ParseInt(u.easyDays);
    if a.None? || h.None? || e.None? then Err(EnterIntegers)
    else if a.value < 0 || h.value < 0 || e.value < 0 then Err(NoNegatives)
    else Ok(ParentSettings(a.value, h.value, e.value))
  }

  /** Saving the form as it shows stored non-negative settings stores the same settings again. */
  lemma SaveShownRoundTrip(s: ParentSettings)
    requires NonNegative(s) && s.againDays <= MaxInt && s.hardDays <= MaxInt && s.easyDays <= MaxInt
    ensures SaveOutcome(ShownSettings(s)) == Ok(s)
  {
    ParseIntOfIntToString(s.againDays);
    ParseIntOfIntToString(s.hardDays);
    ParseIntOfIntToString(s.easyDays);
  }

  /** Stored settings never schedule a card before the day it is graded. */
  lemma SavedSettingsNotBeforeToday(u: ParentSettingsUiState, today: int, g: Grade)
    requires SaveOutcome(u).Ok?
    ensures NextDueEpochDay(today, g, SaveOutcome(u).value) >= today
  {
  }

  /** The form with a blank field, or a negative one, is refused. */
  lemma SaveRefusals()
    ensures SaveOutcome(ParentSettingsUiState("", "1", "3", None)) == Err(EnterIntegers)
    ensures SaveOutcome(ParentSettingsUiState("-1", "1", "3", None)) == Err(NoNegatives)
  {
    ParseIntExamples();
    ParseIntOfIntToString(-1);
    ParseIntOfIntToString(1);
    ParseIntOfIntToString(3);
    assert IntToString(-1) == "-1" && IntToString(1) == "1" && IntToString(3) == "3";
  }

  class ParentSettingsViewModel {
    var state: ParentSettingsUiState
    /** The settings store, standing in for the DataStore the screen's repository writes. */
    var stored: ParentSettings

    constructor (stored: ParentSettings)
      ensures this.stored == stored
      ensures state == ShownSettings(stored)
    {
      this.stored := stored;
      state := ShownSettings(stored);
    }

    /** The collector of the settings flow: the stored values are shown and the message cleared. */
    method OnSettings(s: ParentSettings)
      modifies this
      ensures state == ShownSettings(s) && stored == old(stored)
    {
      state := state.(againDays := IntToString(s.againDays), hardDays := IntToString(s.hardDays),
                      easyDays := IntToString(s.easyDays), savedMessage := None);
    }

    method OnAgainChanged(v: string)
      modifies this
      ensures state == old(state).(againDays := v, savedMessage := None) && stored == old(stored)
    {
      state := state.(againDays := v, savedMessage := None);
    }

    method OnHardChanged(v: string)
      modifies this
      ensures state == old(state).(hardDays := v, savedMessage := None) && stored == old(stored)
    {
      state := state.(hardDays := v, savedMessage := None);
    }

    method OnEasyChanged(v: string)
      modifies this
      ensures state == old(state).(easyDays := v, savedMessage := None) && stored == old(stored)
    {
      state := state.(easyDays := v, savedMessage := None);
    }

    /** `save`: a refused form only shows its message; an accepted one is stored, then "Сохранено" is shown. */
    method Save()
      modifies this
      ensures SaveOutcome(old(state)).Err? ==>
        state == old(state).(savedMessage := Some(SaveOutcome(old(state)).error)) && stored == old(stored)
      ensures SaveOutcome(old(state)).Ok? ==>
        state == old(state).(savedMessage := Some(Saved)) && stored == SaveOutcome(old(state)).value
    {
      var a := ParseInt(state.againDays);
      var h := ParseInt(state.hardDays);
      var e := ParseInt(state.easyDays);
      if a.None? || h.None? || e.None? {
        state := state.(savedMessage := Some(EnterIntegers));
        return;
      }
      if a.value < 0 || h.value < 0 || e.value < 0 {
        state := state.(savedMessage := Some(NoNegatives));
        return;
      }
      stored := ParentSettings(a.value, h.value, e.value);
      state := state.(savedMessage := Some(Saved));
    }
  }
}
