/**
  The card catalog of the Eins game (eins_lib/src/cards.rs): the card values,
  the bounded card reference with its validating constructor, and the builder
  that lays out the ordered catalog of card values.
 */
module Cards {

  import opened Wrappers

  /** Rust's `usize` on a 64-bit target. */
  type Usize = n: int | 0 <= n < 0x1_0000_0000_0000_0000

  /** Upper bound accepted by `CardReference::new`, also the capacity reserved by the builder. */
  const MAX_CARD_NUMBER: Usize := 108

  /** An index into the card catalog; only `New` is meant to build one. */
  datatype CardReference = CardReference(number: Usize) {

    /** The index this reference was created from. */
    function CardNumber(): Usize {
      number
    }
  }

  /** Validating constructor: refuses every number above MAX_CARD_NUMBER (108 itself is accepted). */
  function New(cardNumber: Usize): (r: Option<CardReference>)
    ensures r.None? <==> cardNumber > MAX_CARD_NUMBER
    ensures r.Some? ==> r.value.CardNumber() == cardNumber && r.value.CardNumber() <= MAX_CARD_NUMBER
  {
    if cardNumber > MAX_CARD_NUMBER then None else Some(CardReference(cardNumber))
  }

  // Colors in the order the enum declares them.
  datatype Color = Red | Blue | Orange | Green

  // Symbols of a colored card in the order the enum declares them.
  datatype ColorSymbol =
    | Zero | One | Two | Three | Four | Five | Six | Seven | Eight | Nine
    | DrawTwo | Reverse | Skip

  datatype WildSymbol = ChooseColor | DrawFour

  datatype ColorCard = ColorCard(color: Color, symbol: ColorSymbol)

  datatype WildCard = WildCard(symbol: WildSymbol)

  datatype CardTypes = Normal(card: ColorCard) | Wild(wild: WildCard)

  /** Declared beside the cards; no operation of the catalog uses it. */
  datatype DrawAction = DrawOne | DrawTwo | DrawFour

  /** The order in which the builder walks the colors. */
  const CatalogColors: seq<Color> := [Red, Blue, Green, Orange]

  /** The order in which the builder pushes the symbols of one color. */
  const CatalogSymbols: seq<ColorSymbol> :=
    [Zero, One, Two, Three, Four, Five, Six, Seven, Eight, Nine, ColorSymbol.DrawTwo, Skip, Reverse]

  /** `n` copies of one card. */
  function Repeat(card: CardTypes, n: nat): (r: seq<CardTypes>)
    ensures |r| == n
    ensures forall i :: 0 <= i < n ==> r[i] == card
  {
    if n == 0 then [] else Repeat(card, n - 1) + [card]
  }

  /** The cards of one color, one per symbol, in push order. */
  function ColorBlock(c: Color): seq<CardTypes> {
    seq(|CatalogSymbols|, j requires 0 <= j < |CatalogSymbols| => Normal(ColorCard(c, CatalogSymbols[j])))
  }

  /** Pushing the thirteen symbols of a color one by one appends that color's block. */
  lemma PushColorBlock(before: seq<CardTypes>, c: Color)
    ensures before
      + [Normal(ColorCard(c, Zero))] + [Normal(ColorCard(c, One))] + [Normal(ColorCard(c, Two))]
      + [Normal(ColorCard(c, Three))] + [Normal(ColorCard(c, Four))] + [Normal(ColorCard(c, Five))]
      + [Normal(ColorCard(c, Six))] + [Normal(ColorCard(c, Seven))] + [Normal(ColorCard(c, Eight))]
      + [Normal(ColorCard(c, Nine))] + [Normal(ColorCard(c, ColorSymbol.DrawTwo))]
      + [Normal(ColorCard(c, Skip))] + [Normal(ColorCard(c, Reverse))]
      == before + ColorBlock(c)
  {
  }

  /** The color blocks of the given colors, one after another. */
  function ColorBlocks(colors: seq<Color>): (r: seq<CardTypes>)
    ensures |r| == |CatalogSymbols| * |colors|
  {
    if colors == [] then []
    else ColorBlocks(colors[..|colors| - 1]) + ColorBlock(colors[|colors| - 1])
  }

  /** The catalog in closed form: four ChooseColor, four DrawFour, then a block per color. */
  function Catalog(): (r: seq<CardTypes>)
    ensures |r| == 8 + 4 * 13
    ensures |r| <= MAX_CARD_NUMBER
  {
    Repeat(Wild(WildCard(ChooseColor)), 4)
    + Repeat(Wild(WildCard(WildSymbol.DrawFour)), 4)
    + ColorBlocks(CatalogColors)
  }

  /** `init_deck`: pushes the cards one at a time into a vector of capacity MAX_CARD_NUMBER. */
  method InitDeck() returns (cards: seq<CardTypes>)
    ensures cards == Catalog()
    ensures |cards| <= MAX_CARD_NUMBER
  {
    cards := [];
    for i := 0 to 4
      invariant cards == Repeat(Wild(WildCard(ChooseColor)), i)
    {
      cards := cards + [Wild(WildCard(ChooseColor))];
    }
    for i := 0 to 4
      invariant cards == Repeat(Wild(WildCard(ChooseColor)), 4) + Repeat(Wild(WildCard(WildSymbol.DrawFour)), i)
    {
      cards := cards + [Wild(WildCard(WildSymbol.DrawFour))];
    }
    ghost var wilds := cards;
    var colors := [Red, Blue, Green, Orange];
    for k := 0 to |colors|
      invariant cards == wilds + ColorBlocks(colors[..k])
    {
      var color := colors[k];
      ghost var before := cards;
      cards := cards + [Normal(ColorCard(color, Zero))];
      cards := cards + [Normal(ColorCard(color, One))];
      cards := cards + [Normal(ColorCard(color, Two))];
      cards := cards + [Normal(ColorCard(color, Three))];
      cards := cards + [Normal(ColorCard(color, Four))];
      cards := cards + [Normal(ColorCard(color, Five))];
      cards := cards + [Normal(ColorCard(color, Six))];
      cards := cards + [Normal(ColorCard(color, Seven))];
      cards := cards + [Normal(ColorCard(color, Eight))];
      cards := cards + [Normal(ColorCard(color, Nine))];
      cards := cards + [Normal(ColorCard(color, ColorSymbol.DrawTwo))];
      cards := cards + [Normal(ColorCard(color, Skip))];
      cards := cards + [Normal(ColorCard(color, Reverse))];
      PushColorBlock(before, color);
      assert colors[..k + 1][..k] == colors[..k];
    }
    assert colors[..|colors|] == CatalogColors;
  }
}
