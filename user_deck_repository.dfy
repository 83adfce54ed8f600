/**
 * The user's own decks: rows created, edited and deleted across the deck, card,
 * progress and stats tables, and stored notes read back as study cards.
 */
module UserDeckRepository {
  import opened Wrappers
  import opened Text
  import opened CardTypes
  import opened Entities
  import opened DeckModels
  import opened CardInstances
  import opened CardInstanceGenerator
  import opened Database
  import opened DraftCards

  // ---------------------------------------------------------------------------
  // Reading a note back
  // ---------------------------------------------------------------------------

  /**
   * `entityToCard`. BASIC and BASIC_REVERSED notes read back as BASIC cards, BASIC_TYPED as
   * BASIC_TYPED; a cloze note becomes a CLOZE card asking the blanked text, or a BASIC_TYPED
   * card from front/back when its text or answer is missing.
   */
  function EntityToCard(e: UserCardEntity): (c: Card)
    ensures c.id == e.id && c.cardType != BASIC_REVERSED
    ensures FromString(e.cardType) == BASIC ==> c == SimpleCard(e.id, e.front, e.back, BASIC)
    ensures FromString(e.cardType) == BASIC_TYPED ==> c == SimpleCard(e.id, e.front, e.back, BASIC_TYPED)
    ensures FromString(e.cardType) == CLOZE && (IsNullOrBlank(e.clozeText) || IsNullOrBlank(e.clozeAnswer)) ==>
      c == SimpleCard(e.id, e.front, e.back, BASIC_TYPED)
    ensures FromString(e.cardType) == CLOZE && !IsNullOrBlank(e.clozeText) && !IsNullOrBlank(e.clozeAnswer) ==>
      && c.cardType == CLOZE
      && c.front == ReplaceFirstIgnoreCase(e.clozeText.value, e.clozeAnswer.value, ClozePlaceholder(e.clozeHint))
      && c.back == e.clozeAnswer.value
      && c.clozeText == e.clozeText && c.clozeAnswer == e.clozeAnswer && c.clozeHint == e.clozeHint
  {
    match FromString(e.cardType)
    case BASIC => SimpleCard(e.id, e.front, e.back, BASIC)
    case BASIC_REVERSED => SimpleCard(e.id, e.front, e.back, BASIC)
    case BASIC_TYPED => SimpleCard(e.id, e.front, e.back, BASIC_TYPED)
    case CLOZE =>
      if IsNullOrBlank(e.clozeText) || IsNullOrBlank(e.clozeAnswer) then
        SimpleCard(e.id, e.front, e.back, BASIC_TYPED)
      else
        var question := ReplaceFirstIgnoreCase(e.clozeText.value, e.clozeAnswer.value, ClozePlaceholder(e.clozeHint));
        Card(e.id, question, e.clozeAnswer.value, CLOZE, e.clozeText, e.clozeAnswer, e.clozeHint)
  }

  /**
   * The card and the generated instance of a note ask and answer the same; they disagree on
   * typing only for a cloze note with missing data (the card is BASIC_TYPED, the instance BASIC).
   */
  lemma CardAgreesWithInstance(e: UserCardEntity)
    ensures var c, i := EntityToCard(e), Generate(e)[0];
      && c.front == i.questionText && c.back == i.answerText && c.id == i.noteId
      && (ExpectsTyping(c.cardType) == i.expectsTyping <==>
          !(FromString(e.cardType) == CLOZE && (IsNullOrBlank(e.clozeText) || IsNullOrBlank(e.clozeAnswer))))
  {
  }

  // ---------------------------------------------------------------------------
  // Shaping the rows written
  // ---------------------------------------------------------------------------

  /** `"${deckId}_card_$index"`. */
  function DraftCardId(deckId: string, index: nat): (id: string)
    ensures |id| > |deckId| + 6 && id[..|deckId|] == deckId
  {
    deckId + "_card_" + NatToString(index)
  }

  /** Distinct positions give distinct ids. */
  lemma DraftCardIdInjective(deckId: string, i: nat, j: nat)
    requires DraftCardId(deckId, i) == DraftCardId(deckId, j)
    ensures i == j
  {
    var p := deckId + "_card_";
    assert DraftCardId(deckId, i)[|p|..] == NatToString(i);
    assert DraftCardId(deckId, j)[|p|..] == NatToString(j);
    NatToStringInjective(i, j);
  }

  /**
   * The row a draft becomes: a cloze draft keeps only its trimmed cloze fields (front and back
   * ""), any other draft its trimmed front and back with the cloze fields null.
   */
  function DraftRow(id: string, deckId: string, d: DraftCard, today: int): (r: UserCardEntity)
    ensures r.id == id && r.deckId == deckId && r.createdAtEpochDay == today
    ensures r.cardType == Some(Name(d.cardType))
    ensures d.cardType == CLOZE ==>
      && r.front == "" && r.back == ""
      && r.clozeText == TrimOpt(d.clozeText) && r.clozeAnswer == TrimOpt(d.clozeAnswer) && r.clozeHint == TrimOpt(d.clozeHint)
    ensures d.cardType != CLOZE ==>
      && r.front == Trim(d.front) && r.back == Trim(d.back)
      && r.clozeText.None? && r.clozeAnswer.None? && r.clozeHint.None?
  {
    if d.cardType == CLOZE then
      UserCardEntity(id, deckId, "", "", today, Some(Name(CLOZE)), TrimOpt(d.clozeText), TrimOpt(d.clozeAnswer), TrimOpt(d.clozeHint))
    else
      UserCardEntity(id, deckId, Trim(d.front), Trim(d.back), today, Some(Name(d.cardType)), None, None, None)
  }

  /** `draftCards.mapIndexed { index, draft -> ... }` of `createDeckWithDraftCards`. */
  function DraftRows(deckId: string, drafts: seq<DraftCard>, today: int): (r: seq<UserCardEntity>)
    ensures |r| == |drafts|
    ensures forall i :: 0 <= i < |r| ==> r[i] == DraftRow(DraftCardId(deckId, i), deckId, drafts[i], today)
  {
    seq(|drafts|, i requires 0 <= i < |drafts| => DraftRow(DraftCardId(deckId, i), deckId, drafts[i], today))
  }

  /** The rows of one new deck have distinct ids. */
  lemma DraftRowsUnique(deckId: string, drafts: seq<DraftCard>, today: int)
    ensures UniqueIds(DraftRows(deckId, drafts, today))
  {
    var r := DraftRows(deckId, drafts, today);
    forall i, j | 0 <= i < j < |r| ensures r[i].id != r[j].id {
      if r[i].id == r[j].id {
        DraftCardIdInjective(deckId, i, j);
      }
    }
  }

  /** `cards.mapIndexed { ... }` of the legacy `createDeckWithCards`: BASIC rows of trimmed pairs. */
  function PairRows(deckId: string, pairs: seq<(string, string)>, today: int): (r: seq<UserCardEntity>)
    ensures |r| == |pairs|
    ensures forall i :: 0 <= i < |r| ==>
      r[i] == DraftRow(DraftCardId(deckId, i), deckId, BasicDraft(BASIC, pairs[i].0, pairs[i].1), today)
  {
    seq(|pairs|, i requires 0 <= i < |pairs| =>
      DraftRow(DraftCardId(deckId, i), deckId, BasicDraft(BASIC, pairs[i].0, pairs[i].1), today))
  }

  /** A stored basic draft reads back as a card of the same type with the trimmed sides. */
  lemma DraftReadBackBasic(id: string, deckId: string, d: DraftCard, today: int)
    requires d.cardType == BASIC || d.cardType == BASIC_TYPED
    ensures EntityToCard(DraftRow(id, deckId, d, today)) == SimpleCard(id, Trim(d.front), Trim(d.back), d.cardType)
  {
    FromStringName(d.cardType);
  }

  /** A stored reversed draft reads back as BASIC. */
  lemma DraftReadBackReversed(id: string, deckId: string, d: DraftCard, today: int)
    requires d.cardType == BASIC_REVERSED
    ensures EntityToCard(DraftRow(id, deckId, d, today)) == SimpleCard(id, Trim(d.front), Trim(d.back), BASIC)
  {
    FromStringNameReversed();
  }

  /** A stored complete cloze draft reads back as a CLOZE card whose answer is the trimmed answer. */
  lemma DraftReadBackCloze(id: string, deckId: string, d: DraftCard, today: int)
    requires d.cardType == CLOZE && d.clozeText.Some? && d.clozeAnswer.Some?
    requires !IsBlank(d.clozeText.value) && !IsBlank(d.clozeAnswer.value)
    ensures var c := EntityToCard(DraftRow(id, deckId, d, today));
      c.cardType == CLOZE && c.back == Trim(d.clozeAnswer.value) && c.clozeText == Some(Trim(d.clozeText.value))
  {
    FromStringName(CLOZE);
    BlankIffTrimEmpty(d.clozeText.value);
    BlankIffTrimEmpty(d.clozeAnswer.value);
    TrimIdempotent(d.clozeText.value);
    TrimIdempotent(d.clozeAnswer.value);
    BlankIffTrimEmpty(Trim(d.clozeText.value));
    BlankIffTrimEmpty(Trim(d.clozeAnswer.value));
  }

  /**
   * A CLOZE row whose text `t` and answer `a` are not blank, `a` occurring in `t` case ignored,
   * reads back asking `t` with that first occurrence replaced by the hint's placeholder `p`.
   */
  lemma EntityClozeFront(e: UserCardEntity, t: string, a: string, p: string)
    requires e.cardType == Some(Name(CLOZE)) && e.clozeText == Some(t) && e.clozeAnswer == Some(a)
    requires !IsBlank(t) && !IsBlank(a) && p == ClozePlaceholder(e.clozeHint)
    requires Contains(t, a, true)
    ensures var c := EntityToCard(e);
      && c.cardType == CLOZE && c.back == a
      && exists i {:trigger IsFirstMatch(t, a, i, true)} ::
           && IsFirstMatch(t, a, i, true)
           && c.front == t[..i] + p + t[i + |a|..]
  {
    FromStringName(CLOZE);
    ReplaceFirstAtMatch(t, a, p);
  }

  /**
   * A stored cloze draft of trimmed fields whose answer occurs in its text (case ignored)
   * reads back with its first occurrence replaced by the hint's placeholder.
   */
  lemma DraftReadBackClozeFront(id: string, deckId: string, d: DraftCard, today: int)
    requires d.cardType == CLOZE && d.clozeText.Some? && d.clozeAnswer.Some?
    requires Trim(d.clozeText.value) == d.clozeText.value && !IsBlank(d.clozeText.value)
    requires Trim(d.clozeAnswer.value) == d.clozeAnswer.value && !IsBlank(d.clozeAnswer.value)
    requires d.clozeHint.Some? ==> Trim(d.clozeHint.value) == d.clozeHint.value
    requires Contains(d.clozeText.value, d.clozeAnswer.value, true)
    ensures var c := EntityToCard(DraftRow(id, deckId, d, today));
      var t, a := d.clozeText.value, d.clozeAnswer.value;
      exists i {:trigger IsFirstMatch(t, a, i, true)} ::
        && IsFirstMatch(t, a, i, true)
        && c.front == t[..i] + ClozePlaceholder(d.clozeHint) + t[i + |a|..]
  {
    var t, a := d.clozeText.value, d.clozeAnswer.value;
    var r := DraftRow(id, deckId, d, today);
    assert r.clozeText == Some(t) && r.clozeAnswer == Some(a) && r.clozeHint == d.clozeHint;
    FromStringName(CLOZE);
    ReplaceFirstAtMatch(t, a, ClozePlaceholder(d.clozeHint));
  }

  /**
   * The columns `updateCardFull` writes: a basic type keeps trimmed front and back and nulls
   * the cloze fields; CLOZE empties front and back, trims the cloze fields and drops a blank hint.
   */
  function UpdatedFields(t: CardType, front: string, back: string,
                         clozeText: Option<string>, clozeAnswer: Option<string>, clozeHint: Option<string>): (f: CardFields)
    ensures f.cardType == Name(t)
    ensures t != CLOZE ==>
      f.front == Trim(front) && f.back == Trim(back) && f.clozeText.None? && f.clozeAnswer.None? && f.clozeHint.None?
    ensures t == CLOZE ==>
      && f.front == "" && f.back == ""
      && f.clozeText == TrimOpt(clozeText) && f.clozeAnswer == TrimOpt(clozeAnswer)
      && (f.clozeHint.None? <==> IsNullOrBlank(clozeHint))
      && (f.clozeHint.Some? ==> f.clozeHint.value == Trim(clozeHint.value))
  {
    if t == CLOZE then
      var hint := if clozeHint.Some? then IfBlankNull(Trim(clozeHint.value)) else None;
      BlankTrim(OrEmpty(clozeHint));
      CardFields(Name(CLOZE), "", "", TrimOpt(clozeText), TrimOpt(clozeAnswer), hint)
    else
      CardFields(Name(t), Trim(front), Trim(back), None, None, None)
  }

  /** Saving the saved fields again writes the same columns. */
  lemma UpdatedFieldsIdempotent(t: CardType, front: string, back: string,
                                clozeText: Option<string>, clozeAnswer: Option<string>, clozeHint: Option<string>)
    ensures var f := UpdatedFields(t, front, back, clozeText, clozeAnswer, clozeHint);
      UpdatedFields(t, f.front, f.back, f.clozeText, f.clozeAnswer, f.clozeHint) == f
  {
    var f := UpdatedFields(t, front, back, clozeText, clozeAnswer, clozeHint);
    if t == CLOZE {
      if clozeText.Some? { TrimIdempotent(clozeText.value); }
      if clozeAnswer.Some? { TrimIdempotent(clozeAnswer.value); }
      if clozeHint.Some? { TrimIdempotent(clozeHint.value); BlankTrim(clozeHint.value); }
      TrimNoop("");
      assert UpdatedFields(CLOZE, "", "", f.clozeText, f.clozeAnswer, f.clozeHint) == f;
    } else {
      TrimIdempotent(front);
      TrimIdempotent(back);
    }
  }

  /**
   * The row `addCardToDeck` inserts is shaped exactly like a row of a new deck, with its
   * own id. (Both keep a blank trimmed hint as "", unlike `updateCardFull`.)
   */
  function AddedRow(cardId: string, deckId: string, d: DraftCard, today: int): (r: UserCardEntity)
    ensures r == DraftRow(cardId, deckId, d, today)
  {
    match d.cardType
    case CLOZE =>
      UserCardEntity(cardId, deckId, "", "", today, Some(Name(CLOZE)), TrimOpt(d.clozeText), TrimOpt(d.clozeAnswer), TrimOpt(d.clozeHint))
    case _ =>
      UserCardEntity(cardId, deckId, Trim(d.front), Trim(d.back), today, Some(Name(d.cardType)), None, None, None)
  }

  // ---------------------------------------------------------------------------
  // What deleting leaves
  // ---------------------------------------------------------------------------

  /** Deleting a deck's rows leaves it without cards and every other deck's cards as they were. */
  lemma {:induction false} RemoveDeckRowsOthers(cards: seq<UserCardEntity>, deckId: string, other: string)
    ensures CardsOfDeck(RemoveDeckRows(cards, deckId), deckId) == []
    ensures other != deckId ==> CardsOfDeck(RemoveDeckRows(cards, deckId), other) == CardsOfDeck(cards, other)
  {
    if cards != [] {
      RemoveDeckRowsOthers(cards[1..], deckId, other);
    }
  }

  /** Deleting a card's row leaves every row of other ids in place. */
  lemma RemoveRowOthers(cards: seq<UserCardEntity>, deckId: string, cardId: string, c: UserCardEntity)
    requires c in cards && c.id != cardId
    ensures c in RemoveRow(cards, deckId, cardId)
    ensures FindCard(RemoveRow(cards, deckId, cardId), deckId, cardId).None?
  {
    RemoveRowMembers(cards, deckId, cardId);
  }

  // ---------------------------------------------------------------------------
  // The repository
  // ---------------------------------------------------------------------------

  /** The cards of stored notes, in order. */
  function Cards(es: seq<UserCardEntity>): (r: seq<Card>)
    ensures |r| == |es|
    ensures forall i :: 0 <= i < |r| ==> r[i] == EntityToCard(es[i])
  {
    seq(|es|, i requires 0 <= i < |es| => EntityToCard(es[i]))
  }

  /** The ids of a list of deck rows. */
  function DeckIds(rows: seq<UserDeckEntity>): (ids: set<string>)
    ensures forall i :: 0 <= i < |rows| ==> rows[i].id in ids
  {
    if rows == [] then {} else {rows[0].id} + DeckIds(rows[1..])
  }

  /** Every id of the list is the id of one of its rows. */
  lemma {:induction false} DeckIdsWitness(rows: seq<UserDeckEntity>, id: string)
    requires id in DeckIds(rows)
    ensures exists i :: 0 <= i < |rows| && rows[i].id == id
  {
    if rows[0].id != id {
      DeckIdsWitness(rows[1..], id);
      var i :| 0 <= i < |rows[1..]| && rows[1..][i].id == id;
      assert rows[i + 1].id == id;
    }
  }

  predicate DistinctDeckIds(rows: seq<UserDeckEntity>) {
    forall i, j :: 0 <= i < j < |rows| ==> rows[i].id != rows[j].id
  }

  /** Rows with distinct ids have as many ids as rows. */
  lemma {:induction false} DistinctDeckIdsCount(rows: seq<UserDeckEntity>)
    requires DistinctDeckIds(rows)
    ensures |DeckIds(rows)| == |rows|
  {
    if rows != [] {
      var rest := rows[1..];
      assert DistinctDeckIds(rest) by {
        forall i, j | 0 <= i < j < |rest| ensures rest[i].id != rest[j].id {
          assert rest[i] == rows[i + 1] && rest[j] == rows[j + 1];
        }
      }
      DistinctDeckIdsCount(rest);
      if rows[0].id in DeckIds(rest) {
        DeckIdsWitness(rest, rows[0].id);
        assert false;
      }
    }
  }

  /**
   * `UserDeckDao.getAll` over the deck table: every stored deck row exactly once, in some order
   * (the `ORDER BY` is not modelled).
   */
  predicate ListsDeckTable(rows: seq<UserDeckEntity>, decks: map<string, UserDeckEntity>) {
    && DistinctDeckIds(rows)
    && DeckIds(rows) == decks.Keys
    && forall i :: 0 <= i < |rows| ==> rows[i].id in decks && decks[rows[i].id] == rows[i]
  }

  /** A listing of the deck table has one row per stored deck, and each stored deck is one of its rows. */
  lemma ListsDeckTableFacts(rows: seq<UserDeckEntity>, decks: map<string, UserDeckEntity>)
    requires ListsDeckTable(rows, decks)
    ensures |rows| == |decks|
    ensures forall id :: id in decks ==> exists i :: 0 <= i < |rows| && rows[i] == decks[id]
  {
    DistinctDeckIdsCount(rows);
    assert |decks.Keys| == |decks|;
    forall id | id in decks ensures exists i :: 0 <= i < |rows| && rows[i] == decks[id] {
      DeckIdsWitness(rows, id);
      var i :| 0 <= i < |rows| && rows[i].id == id;
      assert rows[i] == decks[id];
    }
  }

  class UserDeckRepository {
    const db: Tables
    /** Whether the optional progress and stats DAOs were passed (the source's default is null). */
    const hasProgressDao: bool
    const hasStatsDao: bool

    constructor (db: Tables, hasProgressDao: bool, hasStatsDao: bool)
      ensures this.db == db && this.hasProgressDao == hasProgressDao && this.hasStatsDao == hasStatsDao
    {
      this.db := db;
      this.hasProgressDao := hasProgressDao;
      this.hasStatsDao := hasStatsDao;
    }

    /** The deck row with its cards read back. */
    function DeckOf(d: UserDeckEntity): (r: Deck)
      reads db
      ensures r.id == d.id && r.title == d.title && r.imageUri == d.imageUri
      ensures r.cards == Cards(CardsOfDeck(db.cards, d.id))
    {
      Deck(d.id, d.title, Cards(CardsOfDeck(db.cards, d.id)), d.imageUri)
    }

    /** `loadDeck`: null for an unknown id. */
    function LoadDeck(deckId: string): (r: Option<Deck>)
      reads db
      ensures r.None? <==> deckId !in db.decks
      ensures r.Some? ==> r.value == DeckOf(db.decks[deckId])
    {
      if deckId in db.decks then Some(DeckOf(db.decks[deckId])) else None
    }

    /** `loadAllDecks`, given the deck rows as the DAO lists them (newest first). */
    function LoadAllDecks(rows: seq<UserDeckEntity>): (r: seq<Deck>)
      reads db
      requires ListsDeckTable(rows, db.decks)
      ensures |r| == |rows| == |db.decks|
      ensures forall i :: 0 <= i < |r| ==> r[i] == DeckOf(rows[i])
    {
      ListsDeckTableFacts(rows, db.decks);
      seq(|rows|, i requires 0 <= i < |rows| reads db => DeckOf(rows[i]))
    }

    /** `loadAllDecks` lists every stored deck exactly once, and nothing else. */
    lemma LoadAllDecksListsEachOnce(rows: seq<UserDeckEntity>)
      requires ListsDeckTable(rows, db.decks)
      ensures var r := LoadAllDecks(rows);
        && (forall i :: 0 <= i < |r| ==> r[i].id in db.decks && r[i] == DeckOf(db.decks[r[i].id]))
        && (forall i, j :: 0 <= i < j < |r| ==> r[i].id != r[j].id)
        && (forall id :: id in db.decks ==> exists i :: 0 <= i < |r| && r[i] == DeckOf(db.decks[id]))
    {
      var r := LoadAllDecks(rows);
      ListsDeckTableFacts(rows, db.decks);
      forall id | id in db.decks ensures exists i :: 0 <= i < |r| && r[i] == DeckOf(db.decks[id]) {
        var i :| 0 <= i < |rows| && rows[i] == db.decks[id];
        assert r[i] == DeckOf(db.decks[id]);
      }
    }

    /** `getCardEntity`. */
    function GetCardEntity(deckId: string, cardId: string): (r: Option<UserCardEntity>)
      reads db
      ensures r.Some? ==> r.value in db.cards && IsRow(r.value, deckId, cardId)
      ensures r.None? ==> forall c :: c in db.cards ==> !IsRow(c, deckId, cardId)
    {
      FindCard(db.cards, deckId, cardId)
    }

    /** `getCard`. */
    function GetCard(deckId: string, cardId: string): (r: Option<Card>)
      reads db
      ensures r.None? <==> GetCardEntity(deckId, cardId).None?
      ensures r.Some? ==> r.value == EntityToCard(GetCardEntity(deckId, cardId).value)
    {
      match GetCardEntity(deckId, cardId)
      case None => None
      case Some(e) => Some(EntityToCard(e))
    }

    /** `loadCardInstances`: the deck's notes expanded by the generator. */
    function LoadCardInstances(deckId: string): (r: seq<CardInstance>)
      reads db
      ensures r == GenerateAll(CardsOfDeck(db.cards, deckId))
    {
      GenerateAll(CardsOfDeck(db.cards, deckId))
    }

    /** `createDeckWithCards`; `deckId` and `today` stand for the UUID and the clock. */
    method CreateDeckWithCards(title: string, imageUri: Option<string>, pairs: seq<(string, string)>,
                               today: int, deckId: string) returns (id: string)
      requires db.Valid()
      modifies db
      ensures db.Valid() && id == deckId
      ensures db.decks == old(db.decks)[deckId := UserDeckEntity(deckId, Trim(title), today, imageUri)]
      ensures db.cards == InsertAll(old(db.cards), PairRows(deckId, pairs, today))
      ensures db.progress == old(db.progress) && db.stats == old(db.stats)
    {
      db.InsertDeck(UserDeckEntity(deckId, Trim(title), today, imageUri));
      db.InsertAllCards(PairRows(deckId, pairs, today));
      id := deckId;
    }

    /** `createDeckWithDraftCards`; `deckId` and `today` stand for the UUID and the clock. */
    method CreateDeckWithDraftCards(title: string, imageUri: Option<string>, drafts: seq<DraftCard>,
                                    today: int, deckId: string) returns (id: string)
      requires db.Valid()
      modifies db
      ensures db.Valid() && id == deckId
      ensures db.decks == old(db.decks)[deckId := UserDeckEntity(deckId, Trim(title), today, imageUri)]
      ensures db.cards == InsertAll(old(db.cards), DraftRows(deckId, drafts, today))
      ensures db.progress == old(db.progress) && db.stats == old(db.stats)
    {
      db.InsertDeck(UserDeckEntity(deckId, Trim(title), today, imageUri));
      db.InsertAllCards(DraftRows(deckId, drafts, today));
      id := deckId;
    }

    /** `updateCard`: true iff exactly one row was updated. */
    method UpdateCard(deckId: string, cardId: string, front: string, back: string) returns (ok: bool)
      requires db.Valid()
      modifies db
      ensures db.Valid()
      ensures ok <==> FindCard(old(db.cards), deckId, cardId).Some?
      ensures db.cards == SetText(old(db.cards), deckId, cardId, Trim(front), Trim(back))
      ensures db.decks == old(db.decks) && db.progress == old(db.progress) && db.stats == old(db.stats)
    {
      CountRowsUnique(db.cards, deckId, cardId);
      var rows := db.UpdateText(deckId, cardId, Trim(front), Trim(back));
      ok := rows == 1;
    }

    /** `updateCardFull`: true iff exactly one row was updated. */
    method UpdateCardFull(deckId: string, cardId: string, t: CardType, front: string, back: string,
                          clozeText: Option<string>, clozeAnswer: Option<string>, clozeHint: Option<string>)
      returns (ok: bool)
      requires db.Valid()
      modifies db
      ensures db.Valid()
      ensures ok <==> FindCard(old(db.cards), deckId, cardId).Some?
      ensures db.cards == SetFields(old(db.cards), deckId, cardId, UpdatedFields(t, front, back, clozeText, clozeAnswer, clozeHint))
      ensures db.decks == old(db.decks) && db.progress == old(db.progress) && db.stats == old(db.stats)
    {
      var actualFront, actualBack := "", "";
      var actualText, actualAnswer, actualHint: Option<string> := None, None, None;
      match t {
        case CLOZE =>
          actualText := TrimOpt(clozeText);
          actualAnswer := TrimOpt(clozeAnswer);
          actualHint := if clozeHint.Some? then IfBlankNull(Trim(clozeHint.value)) else None;
        case _ =>
          actualFront := Trim(front);
          actualBack := Trim(back);
      }
      CountRowsUnique(db.cards, deckId, cardId);
      var rows := db.UpdateCardFull(deckId, cardId, CardFields(Name(t), actualFront, actualBack, actualText, actualAnswer, actualHint));
      ok := rows == 1;
    }

    /**
     * `addCardToDeck`; `cardId` and `today` stand for the UUID and the clock, and `insertFails`
     * for an exception from the insert, which the source turns into `false`.
     */
    method AddCardToDeck(deckId: string, d: DraftCard, today: int, cardId: string, insertFails: bool)
      returns (ok: bool)
      requires db.Valid()
      modifies db
      ensures db.Valid()
      ensures ok == !insertFails
      ensures ok ==> db.cards == Insert(old(db.cards), AddedRow(cardId, deckId, d, today))
      ensures !ok ==> db.cards == old(db.cards)
      ensures db.decks == old(db.decks) && db.progress == old(db.progress) && db.stats == old(db.stats)
    {
      var entity := AddedRow(cardId, deckId, d, today);
      if insertFails {
        ok := false;
      } else {
        db.InsertAllCards([entity]);
        assert InsertAll(Insert(old(db.cards), entity), []) == Insert(old(db.cards), entity);
        ok := true;
      }
    }

    /**
     * `deleteCard`: the card row goes, and so do its progress and stats rows when those DAOs
     * are present (whether or not a card row existed). True iff exactly one card row was deleted.
     */
    method DeleteCard(deckId: string, cardId: string) returns (ok: bool)
      requires db.Valid()
      modifies db
      ensures db.Valid()
      ensures ok <==> FindCard(old(db.cards), deckId, cardId).Some?
      ensures db.cards == RemoveRow(old(db.cards), deckId, cardId)
      ensures db.progress == if hasProgressDao then old(db.progress) - {cardId} else old(db.progress)
      ensures db.stats == if hasStatsDao then old(db.stats) - {cardId} else old(db.stats)
      ensures db.decks == old(db.decks)
    {
      CountRowsUnique(db.cards, deckId, cardId);
      var rows := db.DeleteCardById(deckId, cardId);
      if hasProgressDao {
        db.DeleteProgressByCardId(cardId);
      }
      if hasStatsDao {
        db.DeleteStatsByCardId(cardId);
      }
      ok := rows == 1;
    }

    /**
     * `deleteDeck`: the deck's cards, progress and stats rows (the last two when those DAOs are
     * present), then the deck row. True iff the deck row existed.
     */
    method DeleteDeck(deckId: string) returns (ok: bool)
      requires db.Valid()
      modifies db
      ensures db.Valid()
      ensures ok <==> deckId in old(db.decks)
      ensures db.decks == old(db.decks) - {deckId}
      ensures db.cards == RemoveDeckRows(old(db.cards), deckId)
      ensures db.progress == if hasProgressDao then RemoveDeckProgress(old(db.progress), deckId) else old(db.progress)
      ensures db.stats == if hasStatsDao then RemoveDeckStats(old(db.stats), deckId) else old(db.stats)
    {
      db.DeleteCardsByDeckId(deckId);
      if hasProgressDao {
        db.DeleteProgressByDeckId(deckId);
      }
      if hasStatsDao {
        db.DeleteStatsByDeckId(deckId);
      }
      var rows := db.DeleteDeckById(deckId);
      ok := rows == 1;
    }
  }

  /**
   * A new deck under an unused id (no row of that deck, none of the new ids taken) holds
   * exactly its drafts' rows, in order, after the existing rows.
   */
  lemma NewDeckCards(cards: seq<UserCardEntity>, deckId: string, drafts: seq<DraftCard>, today: int)
    requires forall c :: c in cards ==> c.deckId != deckId
    requires DisjointIds(cards, DraftRows(deckId, drafts, today))
    ensures InsertAll(cards, DraftRows(deckId, drafts, today)) == cards + DraftRows(deckId, drafts, today)
    ensures CardsOfDeck(InsertAll(cards, DraftRows(deckId, drafts, today)), deckId) == DraftRows(deckId, drafts, today)
  {
    var rows := DraftRows(deckId, drafts, today);
    DraftRowsUnique(deckId, drafts, today);
    InsertAllFresh(cards, rows);
    CardsOfDeckAppend(cards, rows, deckId);
    CardsOfDeckNone(cards, deckId);
    CardsOfDeckAll(rows, deckId);
  }
}
