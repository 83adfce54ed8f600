/**
 * The four Room tables as in-memory state. `user_cards` keeps its rows in insertion
 * (rowid) order, which is the order the unordered `SELECT`s return them in; the other
 * three tables are keyed by their primary key. An insert with the REPLACE conflict
 * strategy deletes the row with the same key and appends the new one.
 */
module Database {
  import opened Wrappers
  import opened Entities

  // ---------------------------------------------------------------------------
  // user_cards rows
  // ---------------------------------------------------------------------------

  /** `id` is the primary key of `user_cards`. */
  predicate UniqueIds(cards: seq<UserCardEntity>)
  {
    forall i, j :: 0 <= i < j < |cards| ==> cards[i].id != cards[j].id
  }

  /** The rows whose id differs from `id`, in order. */
  function WithoutId(cards: seq<UserCardEntity>, id: string): (r: seq<UserCardEntity>)
    ensures |r| <= |cards|
  {
    if cards == [] then []
    else if cards[0].id == id then WithoutId(cards[1..], id)
    else [cards[0]] + WithoutId(cards[1..], id)
  }

  lemma {:induction false} WithoutIdMembers(cards: seq<UserCardEntity>, id: string)
    ensures forall c :: c in WithoutId(cards, id) <==> c in cards && c.id != id
  {
    if cards != [] {
      WithoutIdMembers(cards[1..], id);
      assert cards == [cards[0]] + cards[1..];
    }
  }

  lemma UniqueCons(c: UserCardEntity, cards: seq<UserCardEntity>)
    ensures UniqueIds([c] + cards) <==> UniqueIds(cards) && forall d :: d in cards ==> d.id != c.id
  {
    var s := [c] + cards;
    if UniqueIds(s) {
      forall i, j | 0 <= i < j < |cards| ensures cards[i].id != cards[j].id {
        assert s[i + 1] == cards[i] && s[j + 1] == cards[j];
      }
      forall d | d in cards ensures d.id != c.id {
        var k :| 0 <= k < |cards| && cards[k] == d;
        assert s[0] == c && s[k + 1] == d;
        assert s[0].id != s[k + 1].id;
      }
    }
    if UniqueIds(cards) && forall d :: d in cards ==> d.id != c.id {
      forall i, j | 0 <= i < j < |s| ensures s[i].id != s[j].id {
        if i == 0 {
          assert s[j] == cards[j - 1];
        } else {
          assert s[i] == cards[i - 1] && s[j] == cards[j - 1];
        }
      }
    }
  }

  lemma {:induction false} WithoutIdUnique(cards: seq<UserCardEntity>, id: string)
    requires UniqueIds(cards)
    ensures UniqueIds(WithoutId(cards, id))
  {
    if cards != [] {
      UniqueCons(cards[0], cards[1..]);
      assert cards == [cards[0]] + cards[1..];
      WithoutIdUnique(cards[1..], id);
      if cards[0].id != id {
        WithoutIdMembers(cards[1..], id);
        UniqueCons(cards[0], WithoutId(cards[1..], id));
      }
    }
  }

  /** Without a row of that id, removing it changes nothing. */
  lemma {:induction false} WithoutAbsentId(cards: seq<UserCardEntity>, id: string)
    requires forall c :: c in cards ==> c.id != id
    ensures WithoutId(cards, id) == cards
  {
    if cards != [] {
      assert cards[0] in cards;
      assert forall c :: c in cards[1..] ==> c in cards;
      WithoutAbsentId(cards[1..], id);
    }
  }

  /** An insert of one row with REPLACE on conflict. */
  function Insert(cards: seq<UserCardEntity>, e: UserCardEntity): (r: seq<UserCardEntity>)
    ensures |r| >= 1 && r[|r| - 1] == e
    ensures UniqueIds(cards) ==> UniqueIds(r)
    ensures forall c :: c in r <==> c == e || (c in cards && c.id != e.id)
  {
    WithoutIdMembers(cards, e.id);
    InsertUnique(cards, e);
    WithoutId(cards, e.id) + [e]
  }

  lemma InsertUnique(cards: seq<UserCardEntity>, e: UserCardEntity)
    ensures UniqueIds(cards) ==> UniqueIds(WithoutId(cards, e.id) + [e])
  {
    if UniqueIds(cards) {
      WithoutIdUnique(cards, e.id);
      WithoutIdMembers(cards, e.id);
      UniqueAppend(WithoutId(cards, e.id), e);
    }
  }

  lemma UniqueAppend(cards: seq<UserCardEntity>, e: UserCardEntity)
    requires UniqueIds(cards) && forall c :: c in cards ==> c.id != e.id
    ensures UniqueIds(cards + [e])
  {
    var s := cards + [e];
    forall i, j | 0 <= i < j < |s| ensures s[i].id != s[j].id {
      assert s[i] == cards[i];
      if j < |cards| {
        assert s[j] == cards[j];
      } else {
        assert cards[i] in cards;
      }
    }
  }

  /** `insertAll`: the rows are inserted one after another. */
  function InsertAll(cards: seq<UserCardEntity>, es: seq<UserCardEntity>): (r: seq<UserCardEntity>)
    ensures UniqueIds(cards) ==> UniqueIds(r)
    decreases |es|
  {
    if es == [] then cards else InsertAll(Insert(cards, es[0]), es[1..])
  }

  /** No id of `a` occurs in `b`. */
  predicate DisjointIds(a: seq<UserCardEntity>, b: seq<UserCardEntity>)
  {
    forall i, j :: 0 <= i < |a| && 0 <= j < |b| ==> a[i].id != b[j].id
  }

  lemma InsertFresh(cards: seq<UserCardEntity>, e: UserCardEntity)
    requires DisjointIds(cards, [e])
    ensures Insert(cards, e) == cards + [e]
  {
    forall c | c in cards ensures c.id != e.id {
      var k :| 0 <= k < |cards| && cards[k] == c;
      assert [e][0] == e;
    }
    WithoutAbsentId(cards, e.id);
  }

  /** The first of the new rows is new to the table. */
  lemma DisjointFirst(cards: seq<UserCardEntity>, es: seq<UserCardEntity>)
    requires es != [] && DisjointIds(cards, es)
    ensures DisjointIds(cards, [es[0]])
  {
    forall i | 0 <= i < |cards| ensures cards[i].id != [es[0]][0].id {
      assert cards[i].id != es[0].id;
    }
  }

  /** Once the first new row is in, the others are still new. */
  lemma DisjointRest(cards: seq<UserCardEntity>, es: seq<UserCardEntity>)
    requires es != [] && UniqueIds(es) && DisjointIds(cards, es)
    ensures DisjointIds(cards + [es[0]], es[1..])
  {
    var next := cards + [es[0]];
    forall i, j | 0 <= i < |next| && 0 <= j < |es[1..]| ensures next[i].id != es[1..][j].id {
      assert es[1..][j] == es[j + 1];
      if i < |cards| {
        assert next[i] == cards[i];
      } else {
        assert next[i] == es[0];
      }
    }
  }

  /** Distinct ids stay distinct without the first row. */
  lemma UniqueRest(es: seq<UserCardEntity>)
    requires es != [] && UniqueIds(es)
    ensures UniqueIds(es[1..])
  {
    forall i, j | 0 <= i < j < |es[1..]| ensures es[1..][i].id != es[1..][j].id {
      assert es[1..][i] == es[i + 1] && es[1..][j] == es[j + 1];
    }
  }

  /** Moving the first element of the second part to the end of the first. */
  lemma AppendFirst(cards: seq<UserCardEntity>, es: seq<UserCardEntity>)
    requires es != []
    ensures cards + [es[0]] + es[1..] == cards + es
  {
    assert es == [es[0]] + es[1..];
  }

  /** Rows with new, distinct ids land at the end, in order. */
  lemma {:induction false} InsertAllFresh(cards: seq<UserCardEntity>, es: seq<UserCardEntity>)
    requires UniqueIds(es)
    requires DisjointIds(cards, es)
    ensures InsertAll(cards, es) == cards + es
    decreases |es|
  {
    if es != [] {
      DisjointFirst(cards, es);
      InsertFresh(cards, es[0]);
      DisjointRest(cards, es);
      UniqueRest(es);
      InsertAllFresh(cards + [es[0]], es[1..]);
      AppendFirst(cards, es);
    }
  }

  /** `getByDeckId`: the deck's rows in table order. */
  function CardsOfDeck(cards: seq<UserCardEntity>, deckId: string): (r: seq<UserCardEntity>)
    ensures |r| <= |cards|
  {
    if cards == [] then []
    else if cards[0].deckId == deckId then [cards[0]] + CardsOfDeck(cards[1..], deckId)
    else CardsOfDeck(cards[1..], deckId)
  }

  lemma {:induction false} CardsOfDeckMembers(cards: seq<UserCardEntity>, deckId: string)
    ensures forall c :: c in CardsOfDeck(cards, deckId) <==> c in cards && c.deckId == deckId
  {
    if cards != [] {
      CardsOfDeckMembers(cards[1..], deckId);
      assert cards == [cards[0]] + cards[1..];
    }
  }

  lemma {:induction false} CardsOfDeckAppend(a: seq<UserCardEntity>, b: seq<UserCardEntity>, deckId: string)
    ensures CardsOfDeck(a + b, deckId) == CardsOfDeck(a, deckId) + CardsOfDeck(b, deckId)
  {
    if a != [] {
      CardsOfDeckAppend(a[1..], b, deckId);
      assert (a + b)[1..] == a[1..] + b;
    } else {
      assert a + b == b;
    }
  }

  lemma {:induction false} CardsOfDeckNone(cards: seq<UserCardEntity>, deckId: string)
    requires forall c :: c in cards ==> c.deckId != deckId
    ensures CardsOfDeck(cards, deckId) == []
  {
    if cards != [] {
      assert cards[0] in cards;
      assert forall c :: c in cards[1..] ==> c in cards;
      CardsOfDeckNone(cards[1..], deckId);
    }
  }

  lemma {:induction false} CardsOfDeckAll(cards: seq<UserCardEntity>, deckId: string)
    requires forall i :: 0 <= i < |cards| ==> cards[i].deckId == deckId
    ensures CardsOfDeck(cards, deckId) == cards
  {
    if cards != [] {
      assert cards[0].deckId == deckId;
      CardsOfDeckAll(cards[1..], deckId);
      assert [cards[0]] + cards[1..] == cards;
    }
  }

  /** The row `WHERE deckId = :deckId AND id = :cardId`. */
  predicate IsRow(c: UserCardEntity, deckId: string, cardId: string)
  {
    c.deckId == deckId && c.id == cardId
  }

  /** `getById(deckId, cardId)` (`LIMIT 1`): the first such row. */
  function FindCard(cards: seq<UserCardEntity>, deckId: string, cardId: string): (r: Option<UserCardEntity>)
    ensures r.Some? ==> r.value in cards && IsRow(r.value, deckId, cardId)
    ensures r.None? ==> forall c :: c in cards ==> !IsRow(c, deckId, cardId)
  {
    if cards == [] then None
    else if IsRow(cards[0], deckId, cardId) then Some(cards[0])
    else
      assert forall c :: c in cards ==> c == cards[0] || c in cards[1..];
      FindCard(cards[1..], deckId, cardId)
  }

  /** How many rows an `UPDATE`/`DELETE ... WHERE deckId AND id` touches. */
  function CountRows(cards: seq<UserCardEntity>, deckId: string, cardId: string): (n: nat)
    ensures n <= |cards|
  {
    if cards == [] then 0
    else (if IsRow(cards[0], deckId, cardId) then 1 else 0) + CountRows(cards[1..], deckId, cardId)
  }

  /** With a primary key, at most one row matches, and one does exactly when `FindCard` finds it. */
  lemma {:induction false} CountRowsUnique(cards: seq<UserCardEntity>, deckId: string, cardId: string)
    requires UniqueIds(cards)
    ensures CountRows(cards, deckId, cardId) <= 1
    ensures CountRows(cards, deckId, cardId) == 1 <==> FindCard(cards, deckId, cardId).Some?
  {
    if cards != [] {
      UniqueCons(cards[0], cards[1..]);
      assert cards == [cards[0]] + cards[1..];
      CountRowsUnique(cards[1..], deckId, cardId);
      if IsRow(cards[0], deckId, cardId) {
        CountRowsNone(cards[1..], deckId, cardId);
      }
    }
  }

  lemma {:induction false} CountRowsNone(cards: seq<UserCardEntity>, deckId: string, cardId: string)
    requires forall c :: c in cards ==> c.id != cardId
    ensures CountRows(cards, deckId, cardId) == 0
  {
    if cards != [] {
      assert cards[0] in cards;
      assert forall c :: c in cards[1..] ==> c in cards;
      CountRowsNone(cards[1..], deckId, cardId);
    }
  }

  /** The columns `updateCardFull` writes. */
  datatype CardFields = CardFields(
    cardType: string,
    front: string,
    back: string,
    clozeText: Option<string>,
    clozeAnswer: Option<string>,
    clozeHint: Option<string>)

  /** `UPDATE user_cards SET type, front, back, cloze... WHERE deckId AND id`: rows keep their place. */
  function SetFields(cards: seq<UserCardEntity>, deckId: string, cardId: string, f: CardFields): (r: seq<UserCardEntity>)
    ensures |r| == |cards|
    ensures forall i :: 0 <= i < |cards| ==>
      r[i] == (if IsRow(cards[i], deckId, cardId)
               then cards[i].(cardType := Some(f.cardType), front := f.front, back := f.back,
                              clozeText := f.clozeText, clozeAnswer := f.clozeAnswer, clozeHint := f.clozeHint)
               else cards[i])
  {
    seq(|cards|, i requires 0 <= i < |cards| =>
      if IsRow(cards[i], deckId, cardId)
      then cards[i].(cardType := Some(f.cardType), front := f.front, back := f.back,
                     clozeText := f.clozeText, clozeAnswer := f.clozeAnswer, clozeHint := f.clozeHint)
      else cards[i])
  }

  /** `UPDATE user_cards SET front, back WHERE deckId AND id`. */
  function SetText(cards: seq<UserCardEntity>, deckId: string, cardId: string, front: string, back: string): (r: seq<UserCardEntity>)
    ensures |r| == |cards|
    ensures forall i :: 0 <= i < |cards| ==>
      r[i] == (if IsRow(cards[i], deckId, cardId) then cards[i].(front := front, back := back) else cards[i])
  {
    seq(|cards|, i requires 0 <= i < |cards| =>
      if IsRow(cards[i], deckId, cardId) then cards[i].(front := front, back := back) else cards[i])
  }

  /** An in-place update keeps every id where it was. */
  lemma SetKeepsIds(cards: seq<UserCardEntity>, r: seq<UserCardEntity>)
    requires |r| == |cards| && forall i :: 0 <= i < |cards| ==> r[i].id == cards[i].id
    requires UniqueIds(cards)
    ensures UniqueIds(r)
  {
  }

  /** `DELETE FROM user_cards WHERE deckId AND id`. */
  function RemoveRow(cards: seq<UserCardEntity>, deckId: string, cardId: string): (r: seq<UserCardEntity>)
    ensures |r| == |cards| - CountRows(cards, deckId, cardId)
  {
    if cards == [] then []
    else if IsRow(cards[0], deckId, cardId) then RemoveRow(cards[1..], deckId, cardId)
    else [cards[0]] + RemoveRow(cards[1..], deckId, cardId)
  }

  lemma {:induction false} RemoveRowMembers(cards: seq<UserCardEntity>, deckId: string, cardId: string)
    ensures forall c :: c in RemoveRow(cards, deckId, cardId) <==> c in cards && !IsRow(c, deckId, cardId)
  {
    if cards != [] {
      RemoveRowMembers(cards[1..], deckId, cardId);
      assert cards == [cards[0]] + cards[1..];
    }
  }

  /** `DELETE FROM user_cards WHERE deckId = :deckId`. */
  function RemoveDeckRows(cards: seq<UserCardEntity>, deckId: string): (r: seq<UserCardEntity>)
    ensures |r| <= |cards|
  {
    if cards == [] then []
    else if cards[0].deckId == deckId then RemoveDeckRows(cards[1..], deckId)
    else [cards[0]] + RemoveDeckRows(cards[1..], deckId)
  }

  lemma {:induction false} RemoveDeckRowsMembers(cards: seq<UserCardEntity>, deckId: string)
    ensures forall c :: c in RemoveDeckRows(cards, deckId) <==> c in cards && c.deckId != deckId
  {
    if cards != [] {
      RemoveDeckRowsMembers(cards[1..], deckId);
      assert cards == [cards[0]] + cards[1..];
    }
  }

  lemma {:induction false} RemoveRowUnique(cards: seq<UserCardEntity>, deckId: string, cardId: string)
    requires UniqueIds(cards)
    ensures UniqueIds(RemoveRow(cards, deckId, cardId))
  {
    if cards != [] {
      UniqueCons(cards[0], cards[1..]);
      assert cards == [cards[0]] + cards[1..];
      RemoveRowUnique(cards[1..], deckId, cardId);
      if !IsRow(cards[0], deckId, cardId) {
        RemoveRowMembers(cards[1..], deckId, cardId);
        UniqueCons(cards[0], RemoveRow(cards[1..], deckId, cardId));
      }
    }
  }

  lemma {:induction false} RemoveDeckRowsUnique(cards: seq<UserCardEntity>, deckId: string)
    requires UniqueIds(cards)
    ensures UniqueIds(RemoveDeckRows(cards, deckId))
  {
    if cards != [] {
      UniqueCons(cards[0], cards[1..]);
      assert cards == [cards[0]] + cards[1..];
      RemoveDeckRowsUnique(cards[1..], deckId);
      if cards[0].deckId != deckId {
        RemoveDeckRowsMembers(cards[1..], deckId);
        UniqueCons(cards[0], RemoveDeckRows(cards[1..], deckId));
      }
    }
  }

  // ---------------------------------------------------------------------------
  // card_progress and card_stats rows
  // ---------------------------------------------------------------------------

  /** `DELETE FROM card_progress WHERE deckId = :deckId`. */
  function RemoveDeckProgress(m: map<string, CardProgressEntity>, deckId: string): (r: map<string, CardProgressEntity>)
    ensures forall k :: k in r <==> k in m && m[k].deckId != deckId
    ensures forall k :: k in r ==> r[k] == m[k]
  {
    map k | k in m && m[k].deckId != deckId :: m[k]
  }

  /** `DELETE FROM card_stats WHERE deckId = :deckId`. */
  function RemoveDeckStats(m: map<string, CardStatsEntity>, deckId: string): (r: map<string, CardStatsEntity>)
    ensures forall k :: k in r <==> k in m && m[k].deckId != deckId
    ensures forall k :: k in r ==> r[k] == m[k]
  {
    map k | k in m && m[k].deckId != deckId :: m[k]
  }

  // ---------------------------------------------------------------------------
  // The tables
  // ---------------------------------------------------------------------------

  class Tables {
    var decks: map<string, UserDeckEntity>
    var cards: seq<UserCardEntity>
    var progress: map<string, CardProgressEntity>
    var stats: map<string, CardStatsEntity>

    /** Every table is keyed by its primary key. */
    ghost predicate Valid()
      reads this
    {
      && UniqueIds(cards)
      && (forall k :: k in decks ==> decks[k].id == k)
      && (forall k :: k in progress ==> progress[k].cardId == k)
      && (forall k :: k in stats ==> stats[k].cardId == k)
    }

    constructor ()
      ensures Valid()
      ensures decks == map[] && cards == [] && progress == map[] && stats == map[]
    {
      decks := map[];
      cards := [];
      progress := map[];
      stats := map[];
    }

    /** `UserDeckDao.insert` (REPLACE). */
    method InsertDeck(d: UserDeckEntity)
      requires Valid()
      modifies this
      ensures Valid()
      ensures decks == old(decks)[d.id := d]
      ensures cards == old(cards) && progress == old(progress) && stats == old(stats)
    {
      decks := decks[d.id := d];
    }

    /** `UserDeckDao.deleteById`: the number of rows deleted. */
    method DeleteDeckById(deckId: string) returns (rows: nat)
      requires Valid()
      modifies this
      ensures Valid()
      ensures decks == old(decks) - {deckId}
      ensures rows == if deckId in old(decks) then 1 else 0
      ensures cards == old(cards) && progress == old(progress) && stats == old(stats)
    {
      rows := if deckId in decks then 1 else 0;
      decks := decks - {deckId};
    }

    /** `UserCardDao.insertAll` (REPLACE). */
    method InsertAllCards(es: seq<UserCardEntity>)
      requires Valid()
      modifies this
      ensures Valid()
      ensures cards == InsertAll(old(cards), es)
      ensures decks == old(decks) && progress == old(progress) && stats == old(stats)
    {
      cards := InsertAll(cards, es);
    }

    /** `UserCardDao.updateCardFull`: the number of rows updated. */
    method UpdateCardFull(deckId: string, cardId: string, f: CardFields) returns (rows: nat)
      requires Valid()
      modifies this
      ensures Valid()
      ensures cards == SetFields(old(cards), deckId, cardId, f)
      ensures rows == CountRows(old(cards), deckId, cardId)
      ensures decks == old(decks) && progress == old(progress) && stats == old(stats)
    {
      rows := CountRows(cards, deckId, cardId);
      var updated := SetFields(cards, deckId, cardId, f);
      SetKeepsIds(cards, updated);
      cards := updated;
    }

    /** `UserCardDao.updateText`: the number of rows updated. */
    method UpdateText(deckId: string, cardId: string, front: string, back: string) returns (rows: nat)
      requires Valid()
      modifies this
      ensures Valid()
      ensures cards == SetText(old(cards), deckId, cardId, front, back)
      ensures rows == CountRows(old(cards), deckId, cardId)
      ensures decks == old(decks) && progress == old(progress) && stats == old(stats)
    {
      rows := CountRows(cards, deckId, cardId);
      var updated := SetText(cards, deckId, cardId, front, back);
      SetKeepsIds(cards, updated);
      cards := updated;
    }

    /** `UserCardDao.deleteById`: the number of rows deleted. */
    method DeleteCardById(deckId: string, cardId: string) returns (rows: nat)
      requires Valid()
      modifies this
      ensures Valid()
      ensures cards == RemoveRow(old(cards), deckId, cardId)
      ensures rows == CountRows(old(cards), deckId, cardId)
      ensures decks == old(decks) && progress == old(progress) && stats == old(stats)
    {
      rows := CountRows(cards, deckId, cardId);
      RemoveRowUnique(cards, deckId, cardId);
      cards := RemoveRow(cards, deckId, cardId);
    }

    /** `UserCardDao.deleteByDeckId`. */
    method DeleteCardsByDeckId(deckId: string)
      requires Valid()
      modifies this
      ensures Valid()
      ensures cards == RemoveDeckRows(old(cards), deckId)
      ensures decks == old(decks) && progress == old(progress) && stats == old(stats)
    {
      RemoveDeckRowsUnique(cards, deckId);
      cards := RemoveDeckRows(cards, deckId);
    }

    /** `CardProgressDao.upsert` (REPLACE): a full replacement of the row keyed by `cardId`. */
    method UpsertProgress(p: CardProgressEntity)
      requires Valid()
      modifies this
      ensures Valid()
      ensures progress == old(progress)[p.cardId := p]
      ensures decks == old(decks) && cards == old(cards) && stats == old(stats)
    {
      progress := progress[p.cardId := p];
    }

    /** `CardProgressDao.deleteByCardId`. */
    method DeleteProgressByCardId(cardId: string)
      requires Valid()
      modifies this
      ensures Valid()
      ensures progress == old(progress) - {cardId}
      ensures decks == old(decks) && cards == old(cards) && stats == old(stats)
    {
      progress := progress - {cardId};
    }

    /** `CardProgressDao.deleteByDeckId`. */
    method DeleteProgressByDeckId(deckId: string)
      requires Valid()
      modifies this
      ensures Valid()
      ensures progress == RemoveDeckProgress(old(progress), deckId)
      ensures decks == old(decks) && cards == old(cards) && stats == old(stats)
    {
      progress := RemoveDeckProgress(progress, deckId);
    }

    /** `CardStatsDao.upsert` (REPLACE). */
    method UpsertStats(s: CardStatsEntity)
      requires Valid()
      modifies this
      ensures Valid()
      ensures stats == old(stats)[s.cardId := s]
      ensures decks == old(decks) && cards == old(cards) && progress == old(progress)
    {
      stats := stats[s.cardId := s];
    }

    /** `CardStatsDao.deleteByCardId`. */
    method DeleteStatsByCardId(cardId: string)
      requires Valid()
      modifies this
      ensures Valid()
      ensures stats == old(stats) - {cardId}
      ensures decks == old(decks) && cards == old(cards) && progress == old(progress)
    {
      stats := stats - {cardId};
    }

    /** `CardStatsDao.deleteByDeckId`. */
    method DeleteStatsByDeckId(deckId: string)
      requires Valid()
      modifies this
      ensures Valid()
      ensures stats == RemoveDeckStats(old(stats), deckId)
      ensures decks == old(decks) && cards == old(cards) && progress == old(progress)
    {
      stats := RemoveDeckStats(stats, deckId);
    }
  }
}
