/** The four note types a user card can have, and how they are stored as text. */
module CardTypes {
  import opened Wrappers

  datatype CardType = BASIC | BASIC_REVERSED | BASIC_TYPED | CLOZE

  /** The enum constant's `name`, which is what the card table stores. */
  function Name(t: CardType): (r: string)
    ensures |r| >= 5
  {
    match t
    case BASIC => "BASIC"
    case BASIC_REVERSED => "BASIC_REVERSED"
    case BASIC_TYPED => "BASIC_TYPED"
    case CLOZE => "CLOZE"
  }

  /** `expectsTyping()`: whether the learner types the answer instead of self-grading. */
  predicate ExpectsTyping(t: CardType) {
    t == BASIC_TYPED || t == CLOZE
  }

  /** `CardType.valueOf(s)`, with `None` for the `IllegalArgumentException` case. */
  function ValueOf(s: string): (r: Option<CardType>)
    ensures r.Some? ==> Name(r.value) == s
    ensures r.None? ==> forall t: CardType :: Name(t) != s
  {
    if s == "BASIC" then Some(BASIC)
    else if s == "BASIC_REVERSED" then Some(BASIC_REVERSED)
    else if s == "BASIC_TYPED" then Some(BASIC_TYPED)
    else if s == "CLOZE" then Some(CLOZE)
    else None
  }

  /**
   * `fromString`: null, unknown names and the deprecated "BASIC_REVERSED" all
   * become BASIC; the other exact names become their constant.
   */
  function FromString(value: Option<string>): (r: CardType)
    ensures r != BASIC_REVERSED
    ensures value.None? ==> r == BASIC
    ensures value == Some("BASIC_REVERSED") ==> r == BASIC
    ensures value.Some? && (forall t: CardType :: Name(t) != value.value) ==> r == BASIC
    ensures value.Some? && r != BASIC ==> Name(r) == value.value
  {
    if value.None? then BASIC
    else if value.value == "BASIC_REVERSED" then BASIC
    else match ValueOf(value.value)
      case Some(t) => t
      case None => BASIC
  }

  /** The lower-case spelling is not an enum name and falls back to BASIC. */
  lemma FromStringCaseSensitive()
    ensures FromString(Some("cloze")) == BASIC
    ensures FromString(Some("basic_typed")) == BASIC
  {
  }

  /** `selectableTypes()`: the types offered in the editors' type selectors. */
  function SelectableTypes(): (r: seq<CardType>)
    ensures BASIC_REVERSED !in r
  {
    [BASIC, BASIC_TYPED, CLOZE]
  }

  /** The selector offers every type but the deprecated BASIC_REVERSED, each once. */
  lemma SelectableTypesExact()
    ensures forall t :: t in SelectableTypes() <==> t != BASIC_REVERSED
    ensures forall i, j :: 0 <= i < j < |SelectableTypes()| ==> SelectableTypes()[i] != SelectableTypes()[j]
  {
    forall t ensures t in SelectableTypes() <==> t != BASIC_REVERSED {
      match t
      case BASIC => assert SelectableTypes()[0] == t;
      case BASIC_REVERSED =>
      case BASIC_TYPED => assert SelectableTypes()[1] == t;
      case CLOZE => assert SelectableTypes()[2] == t;
    }
  }

  /** Every selectable type survives the trip through its stored name. */
  lemma FromStringName(t: CardType)
    requires t in SelectableTypes()
    ensures FromString(Some(Name(t))) == t
  {
  }

  /** The stored name of BASIC_REVERSED is the one name that does not come back as itself. */
  lemma FromStringNameReversed()
    ensures FromString(Some(Name(BASIC_REVERSED))) == BASIC
  {
  }
}
