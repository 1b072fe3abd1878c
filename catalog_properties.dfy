/**
  What the catalog laid out by `init_deck` contains, index by index and by
  count, and what the validating constructor of card references admits.
 */
module CatalogProperties {

  import opened Wrappers
  import opened Cards

  // ---------------------------------------------------------------------------
  // Card references
  // ---------------------------------------------------------------------------

  /** Every reference within the bound is rebuilt by `New` from its own number. */
  lemma NewRoundTrip(r: CardReference)
    requires r.CardNumber() <= MAX_CARD_NUMBER
    ensures New(r.CardNumber()) == Some(r)
  {
  }

  /** The constants and the boundary cases of the constructor: 0 and 108 are accepted, 109 is not. */
  lemma NewBoundary()
    ensures MAX_CARD_NUMBER == 108
    ensures New(0).Some? && New(0).value.CardNumber() == 0
    ensures New(MAX_CARD_NUMBER).Some?
    ensures New(MAX_CARD_NUMBER + 1).None?
  {
  }

  /** The constructor admits references past the last catalog entry: 60 through 108. */
  lemma NewAdmitsPastCatalog(n: Usize)
    requires |Catalog()| <= n <= MAX_CARD_NUMBER
    ensures New(n).Some? && New(n).value.CardNumber() >= |Catalog()|
  {
  }

  // ---------------------------------------------------------------------------
  // Layout of the catalog, index by index
  // ---------------------------------------------------------------------------

  /** The normal card the builder puts at offset 13 * c + s of a run of color blocks. */
  lemma {:induction false} ColorBlocksAt(colors: seq<Color>, c: nat, s: nat)
    requires c < |colors| && s < |CatalogSymbols|
    ensures 13 * c + s < |ColorBlocks(colors)|
    ensures ColorBlocks(colors)[13 * c + s] == Normal(ColorCard(colors[c], CatalogSymbols[s]))
  {
    var n := |colors|;
    var init := colors[..n - 1];
    assert ColorBlocks(colors) == ColorBlocks(init) + ColorBlock(colors[n - 1]);
    if c < n - 1 {
      ColorBlocksAt(init, c, s);
    }
  }

  /** Entries 0..3 are ChooseColor and entries 4..7 are DrawFour. */
  lemma CatalogWildPrefix(i: nat)
    requires i < 8
    ensures Catalog()[i] == if i < 4 then Wild(WildCard(ChooseColor)) else Wild(WildCard(WildSymbol.DrawFour))
  {
  }

  /** Entry 8 + 13 * c + s is the s-th symbol of the c-th color. */
  lemma CatalogNormalAt(c: nat, s: nat)
    requires c < |CatalogColors| && s < |CatalogSymbols|
    ensures 8 + 13 * c + s < |Catalog()|
    ensures Catalog()[8 + 13 * c + s] == Normal(ColorCard(CatalogColors[c], CatalogSymbols[s]))
  {
    ColorBlocksAt(CatalogColors, c, s);
  }

  /** Every index at or past 8 holds a normal card. */
  lemma CatalogNoWildAfterPrefix(i: nat)
    requires 8 <= i < |Catalog()|
    ensures Catalog()[i].Normal?
  {
    CatalogNormalAt((i - 8) / 13, (i - 8) % 13);
  }

  /** The first entry is a ChooseColor card and the last is the orange Reverse card. */
  lemma CatalogFirstAndLast()
    ensures Catalog()[0] == Wild(WildCard(ChooseColor))
    ensures Catalog()[|Catalog()| - 1] == Normal(ColorCard(Orange, Reverse))
  {
    CatalogNormalAt(3, 12);
  }

  // ---------------------------------------------------------------------------
  // Where each normal card sits
  // ---------------------------------------------------------------------------

  /** Position of a color in the builder's color order. */
  function ColorIndex(c: Color): (k: nat)
    ensures k < |CatalogColors| && CatalogColors[k] == c
  {
    match c
    case Red => 0
    case Blue => 1
    case Green => 2
    case Orange => 3
  }

  /** Position of a symbol in the builder's push order. */
  function SymbolIndex(s: ColorSymbol): (k: nat)
    ensures k < |CatalogSymbols| && CatalogSymbols[k] == s
  {
    match s
    case Zero => 0
    case One => 1
    case Two => 2
    case Three => 3
    case Four => 4
    case Five => 5
    case Six => 6
    case Seven => 7
    case Eight => 8
    case Nine => 9
    case DrawTwo => 10
    case Skip => 11
    case Reverse => 12
  }

  /** The builder's color order lists each color once. */
  lemma ColorIndexOfEntry(k: nat)
    requires k < |CatalogColors|
    ensures ColorIndex(CatalogColors[k]) == k
  {
  }

  /** The builder's symbol order lists each symbol once. */
  lemma SymbolIndexOfEntry(k: nat)
    requires k < |CatalogSymbols|
    ensures SymbolIndex(CatalogSymbols[k]) == k
  {
  }

  /** The index at which the catalog holds a given normal card. */
  function Position(card: ColorCard): (p: nat)
    ensures p < |Catalog()| && Catalog()[p] == Normal(card)
  {
    CatalogNormalAt(ColorIndex(card.color), SymbolIndex(card.symbol));
    8 + 13 * ColorIndex(card.color) + SymbolIndex(card.symbol)
  }

  /** No other index holds that normal card. */
  lemma PositionUnique(card: ColorCard, i: nat)
    requires i < |Catalog()| && Catalog()[i] == Normal(card)
    ensures i == Position(card)
  {
    if i < 8 {
      CatalogWildPrefix(i);
    } else {
      var c, s := (i - 8) / 13, (i - 8) % 13;
      CatalogNormalAt(c, s);
      ColorIndexOfEntry(c);
      SymbolIndexOfEntry(s);
    }
  }

  /** An element found at exactly one index occurs once in the sequence's multiset. */
  lemma OccursOnceAt<T>(s: seq<T>, k: nat)
    requires k < |s|
    requires forall j :: 0 <= j < |s| && j != k ==> s[j] != s[k]
    ensures multiset(s)[s[k]] == 1
  {
    var x := s[k];
    assert s == s[..k] + [x] + s[k + 1..];
    assert x !in s[..k] by {
      forall j | 0 <= j < k ensures s[..k][j] != x { }
    }
    assert x !in s[k + 1..] by {
      var rest := s[k + 1..];
      forall j | 0 <= j < |rest| ensures rest[j] != x {
        assert rest[j] == s[k + 1 + j];
      }
    }
  }

  /** Each (color, symbol) pair occurs exactly once in the catalog. */
  lemma PairOccursOnce(card: ColorCard)
    ensures multiset(Catalog())[Normal(card)] == 1
  {
    var p := Position(card);
    forall j | 0 <= j < |Catalog()| && j != p
      ensures Catalog()[j] != Catalog()[p]
    {
      if Catalog()[j] == Normal(card) {
        PositionUnique(card, j);
      }
    }
    OccursOnceAt(Catalog(), p);
  }

  /** Every card value there is appears somewhere in the catalog. */
  lemma CatalogComplete(card: CardTypes)
    ensures card in Catalog()
  {
    match card
    case Normal(cc) =>
      var p := Position(cc);
    case Wild(WildCard(ChooseColor)) =>
      CatalogWildPrefix(0);
    case Wild(WildCard(DrawFour)) =>
      CatalogWildPrefix(4);
  }

  // ---------------------------------------------------------------------------
  // Counts
  // ---------------------------------------------------------------------------

  /** A run of copies holds its card n times and nothing else. */
  lemma {:induction false} RepeatCount(card: CardTypes, n: nat, other: CardTypes)
    ensures multiset(Repeat(card, n))[other] == if other == card then n else 0
  {
    if n > 0 {
      RepeatCount(card, n - 1, other);
      assert Repeat(card, n) == Repeat(card, n - 1) + [card];
    }
  }

  /** The catalog holds four ChooseColor and four DrawFour cards. */
  lemma WildCounts()
    ensures multiset(Catalog())[Wild(WildCard(ChooseColor))] == 4
    ensures multiset(Catalog())[Wild(WildCard(WildSymbol.DrawFour))] == 4
  {
    var cc, df := Wild(WildCard(ChooseColor)), Wild(WildCard(WildSymbol.DrawFour));
    var blocks := ColorBlocks(CatalogColors);
    forall j | 0 <= j < |blocks| ensures blocks[j].Normal? {
      assert Catalog()[8 + j] == blocks[j];
      CatalogNoWildAfterPrefix(8 + j);
    }
    assert cc !in blocks && df !in blocks;
    RepeatCount(cc, 4, cc);
    RepeatCount(cc, 4, df);
    RepeatCount(df, 4, cc);
    RepeatCount(df, 4, df);
  }

  /** Whether a card is a normal card of the given color. */
  predicate HasColor(card: CardTypes, c: Color) {
    card.Normal? && card.card.color == c
  }

  /** The number of normal cards of color c. */
  function ColorCount(deck: seq<CardTypes>, c: Color): nat {
    if deck == [] then 0
    else ColorCount(deck[..|deck| - 1], c) + (if HasColor(deck[|deck| - 1], c) then 1 else 0)
  }

  lemma {:induction false} ColorCountAppend(a: seq<CardTypes>, b: seq<CardTypes>, c: Color)
    ensures ColorCount(a + b, c) == ColorCount(a, c) + ColorCount(b, c)
  {
    if b == [] {
      assert a + b == a;
    } else {
      assert (a + b)[..|a + b| - 1] == a + b[..|b| - 1];
      ColorCountAppend(a, b[..|b| - 1], c);
    }
  }

  /** A deck whose every card has color c counts all its cards; one with none counts zero. */
  lemma {:induction false} ColorCountUniform(deck: seq<CardTypes>, c: Color)
    requires (forall i :: 0 <= i < |deck| ==> HasColor(deck[i], c))
          || (forall i :: 0 <= i < |deck| ==> !HasColor(deck[i], c))
    ensures ColorCount(deck, c) == if forall i :: 0 <= i < |deck| ==> HasColor(deck[i], c) then |deck| else 0
  {
    if deck != [] {
      ColorCountUniform(deck[..|deck| - 1], c);
    }
  }

  /** A run of color blocks holds 13 cards of c per occurrence of c in the run. */
  lemma {:induction false} ColorBlocksColorCount(colors: seq<Color>, c: Color)
    ensures ColorCount(ColorBlocks(colors), c) == 13 * multiset(colors)[c]
  {
    if colors != [] {
      var init, last := colors[..|colors| - 1], colors[|colors| - 1];
      assert colors == init + [last];
      ColorBlocksColorCount(init, c);
      ColorCountAppend(ColorBlocks(init), ColorBlock(last), c);
      ColorCountUniform(ColorBlock(last), c);
    }
  }

  /** Each color has exactly 13 normal cards in the catalog. */
  lemma ColorHasThirteen(c: Color)
    ensures ColorCount(Catalog(), c) == 13
  {
    var wilds := Repeat(Wild(WildCard(ChooseColor)), 4) + Repeat(Wild(WildCard(WildSymbol.DrawFour)), 4);
    ColorCountAppend(wilds, ColorBlocks(CatalogColors), c);
    ColorCountUniform(wilds, c);
    ColorBlocksColorCount(CatalogColors, c);
  }

  /** The built catalog meets its capacity and opens and closes with the cards the builder's test expects. */
  method CheckDeck() returns (cards: seq<CardTypes>)
    ensures |cards| == 60 && |cards| <= MAX_CARD_NUMBER
    ensures cards[0] == Wild(WildCard(ChooseColor))
    ensures cards[|cards| - 1] == Normal(ColorCard(Orange, Reverse))
  {
    cards := InitDeck();
    CatalogFirstAndLast();
  }
}
