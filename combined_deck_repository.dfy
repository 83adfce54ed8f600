/**
 * The deck list the learner sees: the built-in decks, then the user's own. Loading one deck
 * goes to the built-in decks for the four reserved ids and to the user's decks otherwise.
 */
module CombinedDeckRepository {
  import opened Wrappers
  import opened Entities
  import opened DeckModels
  import opened UserDeckRepository

  /** The reserved ids of the built-in decks. */
  const BuiltInDeckIds: set<string> := {"animals", "food", "transport", "home"}

  /** Which repository answers `loadDeck` for an id. */
  datatype DeckSource = Assets | UserDecks

  function Route(deckId: string): (r: DeckSource)
    ensures r == Assets <==> deckId in BuiltInDeckIds
  {
    if deckId in BuiltInDeckIds then Assets else UserDecks
  }

  /** A user id outside the four reserved ones is always routed to the user's decks. */
  lemma RouteUserIds(deckId: string)
    requires deckId != "animals" && deckId != "food" && deckId != "transport" && deckId != "home"
    ensures Route(deckId) == UserDecks
  {
  }

  /** The user's decks are loaded from the tables; the built-in decks (read from assets) are parameters. */
  class CombinedDeckRepository {
    const userRepo: UserDeckRepository

    constructor (userRepo: UserDeckRepository)
      ensures this.userRepo == userRepo
    {
      this.userRepo := userRepo;
    }

    /**
     * `loadDeck`, given what the asset repository returns for the id. A reserved id never
     * reaches the user's decks, so a user deck stored under one is not loadable through here.
     */
    function LoadDeck(deckId: string, assetDeck: Option<Deck>): (r: Option<Deck>)
      reads userRepo.db
      ensures Route(deckId) == Assets ==> r == assetDeck
      ensures Route(deckId) == UserDecks ==> r == userRepo.LoadDeck(deckId)
      ensures Route(deckId) == UserDecks ==> (r.Some? <==> deckId in userRepo.db.decks)
    {
      if deckId in BuiltInDeckIds then assetDeck else userRepo.LoadDeck(deckId)
    }

    /** `loadAllDecks`: the built-in decks in their order, then the user's decks in the DAO's order. */
    function LoadAllDecks(assetDecks: seq<Deck>, userRows: seq<UserDeckEntity>): (r: seq<Deck>)
      reads userRepo.db
      requires ListsDeckTable(userRows, userRepo.db.decks)
      ensures |r| == |assetDecks| + |userRepo.db.decks|
      ensures r[..|assetDecks|] == assetDecks
      ensures r[|assetDecks|..] == userRepo.LoadAllDecks(userRows)
    {
      assetDecks + userRepo.LoadAllDecks(userRows)
    }
  }
}
