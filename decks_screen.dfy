/** The deck list's tiles: each deck's look, and its card count in words. */
module DecksScreen {
  import opened Wrappers
  import opened Text
  import opened DeckModels
  import opened CombinedDeckRepository

  const One: string := "карточка"
  const Few: string := "карточки"
  const Many: string := "карточек"

  /** Kotlin's `%` on `Int`: the remainder takes the sign of the dividend. */
  function Rem(a: int, b: int): (r: int)
    requires b > 0
    ensures a >= 0 ==> 0 <= r < b && r == a % b
    ensures a < 0 ==> -b < r <= 0
  {
    if a >= 0 then a % b else -((-a) % b)
  }

  /** `cardWord`: the noun form that follows a count. */
  function CardWord(count: int): (w: string)
    ensures w == One || w == Few || w == Many
  {
    var mod10, mod100 := Rem(count, 10), Rem(count, 100);
    if 11 <= mod100 <= 14 then Many
    else if mod10 == 1 then One
    else if 2 <= mod10 <= 4 then Few
    else Many
  }

  /** The plural categories of Russian cardinals, as the Unicode CLDR rules define them for integers. */
  datatype PluralCategory = CategoryOne | CategoryFew | CategoryMany

  function RussianCategory(n: nat): PluralCategory {
    if n % 10 == 1 && n % 100 != 11 then CategoryOne
    else if 2 <= n % 10 <= 4 && !(12 <= n % 100 <= 14) then CategoryFew
    else CategoryMany
  }

  function Form(c: PluralCategory): string {
    match c
    case CategoryOne => One
    case CategoryFew => Few
    case CategoryMany => Many
  }

  /** The last digit of a count is the last digit of its last two. */
  lemma LastDigitOfLastTwo(n: nat)
    ensures n % 10 == (n % 100) % 10
  {
    var q, r := n / 100, n % 100;
    var t, m := r / 10, r % 10;
    assert n == 10 * (10 * q + t) + m;
  }

  /** For every count a deck can have, the word is the grammatical form for that number. */
  lemma CardWordIsRussianPlural(n: nat)
    ensures CardWord(n) == Form(RussianCategory(n))
  {
    LastDigitOfLastTwo(n);
    var mod10, mod100 := n % 10, n % 100;
    assert 11 <= mod100 <= 14 ==> mod10 == mod100 - 10;
  }

  /** The word depends only on the count's last two digits. */
  lemma CardWordPeriodic(n: nat)
    ensures CardWord(n) == CardWord(n + 100)
  {
    assert (n + 100) % 100 == n % 100;
    assert (n + 100) % 10 == n % 10;
  }

  /** A negative count, which no deck has, always reads as the "many" form. */
  lemma NegativeCountMany(n: int)
    requires n < 0
    ensures CardWord(n) == Many
  {
  }

  /** A few counts and their words. */
  lemma CardWordExamples()
    ensures CardWord(1) == One && CardWord(21) == One && CardWord(101) == One
    ensures CardWord(2) == Few && CardWord(24) == Few
    ensures CardWord(0) == Many && CardWord(5) == Many && CardWord(11) == Many && CardWord(12) == Many && CardWord(111) == Many
  {
  }

  /** `DeckTileUi`; colours are ARGB values, images the names of drawable resources. */
  datatype DeckTileUi = DeckTileUi(
    id: string,
    title: string,
    countText: string,
    tileColor: int,
    imageRes: Option<string>,
    imageUri: Option<string>,
    isBuiltIn: bool)

  /** `"<size> <cardWord(size)>"`. */
  function CountText(d: Deck): string {
    NatToString(|d.cards|) + " " + CardWord(|d.cards|)
  }

  /**
   * `deckToTileUi`: each of the four built-in decks gets its own colour and bundled image and
   * no picked image; every other deck gets one shared colour, no bundled image and its picked one.
   */
  function DeckToTileUi(d: Deck): (t: DeckTileUi)
    ensures t.id == d.id && t.title == d.title && t.countText == CountText(d)
    ensures t.isBuiltIn <==> d.id in BuiltInDeckIds
    ensures t.isBuiltIn ==> t.imageUri.None? && t.imageRes.Some?
    ensures !t.isBuiltIn ==> t.imageRes.None? && t.imageUri == d.imageUri && t.tileColor == 0xFF7B8CDE
  {
    var text := NatToString(|d.cards|) + " " + CardWord(|d.cards|);
    match d.id
    case "animals" => DeckTileUi(d.id, d.title, text, 0xFF66B05D, Some("deck_animals"), None, true)
    case "food" => DeckTileUi(d.id, d.title, text, 0xFFF4B63A, Some("deck_food"), None, true)
    case "transport" => DeckTileUi(d.id, d.title, text, 0xFF4FA7E3, Some("deck_transport"), None, true)
    case "home" => DeckTileUi(d.id, d.title, text, 0xFF9A7DE8, Some("deck_house"), None, true)
    case _ => DeckTileUi(d.id, d.title, text, 0xFF7B8CDE, None, d.imageUri, false)
  }

  /** A tile is drawn as built in exactly when opening its deck goes to the bundled decks. */
  lemma TileAgreesWithRouting(d: Deck)
    ensures DeckToTileUi(d).isBuiltIn <==> Route(d.id) == Assets
  {
  }

  /** The four built-in tiles are told apart by colour. */
  lemma BuiltInColoursDistinct(a: Deck, b: Deck)
    requires DeckToTileUi(a).isBuiltIn && DeckToTileUi(b).isBuiltIn && a.id != b.id
    ensures DeckToTileUi(a).tileColor != DeckToTileUi(b).tileColor
  {
  }
}
