# Eins card catalog in Dafny

Eins is an UNO-style card game written in Rust. This project models the card
catalog of its library (`eins_lib/src/cards.rs`):

- the card values: `Color`, `ColorSymbol`, `WildSymbol`, `ColorCard`,
  `WildCard`, `CardTypes` (`Normal` or `Wild`) and `DrawAction`, as Dafny
  datatypes;
- `MAX_CARD_NUMBER` (108) and `CardReference`, a bounded card index. Its
  validating constructor `new` is the function `Cards.New`, returning an
  `Option`. Its accessor `card_number` is `CardReference.CardNumber`;
- `init_deck`, the builder that pushes the catalog's card values one by one
  into a vector. It is modelled as the method `Cards.InitDeck`, with the same
  three loops. The loop over colors makes the same thirteen pushes in the
  same order. The method is proved equal to the closed-form function
  `Cards.Catalog`: four ChooseColor cards, four DrawFour cards, then one block
  per color.

The module `CatalogProperties` states what the catalog holds:

- the card at each index;
- that each (color, symbol) pair occurs exactly once, so every card value
  occurs somewhere;
- that there are four cards of each wild kind;
- that each color has exactly 13 normal cards.

It also states the boundary cases of the reference constructor.

The model follows the code as written:

- The catalog holds 8 + 4 × 13 = 60 cards, not the 108 of a full UNO deck.
  There is no second copy of the 1–9, DrawTwo, Skip and Reverse cards.
  108 is only the vector's reserved capacity.
- `new` refuses only numbers above 108, so 108 itself is accepted. Numbers
  60 through 108 are accepted even though the catalog has no entry there
  (`CatalogProperties.NewAdmitsPastCatalog`).
- The symbols of a color are pushed in the order Zero..Nine, DrawTwo, Skip,
  Reverse. The enum declares Reverse before Skip.
- The colors are walked in the order Red, Blue, Green, Orange. The enum
  declares Orange before Green.

`usize` is modelled as the subset type `Cards.Usize` (0 ≤ n < 2^64).
`MAX_CARD_NUMBER + 1` stays far inside that range.

Files:

- `wrappers.dfy`: `Option`.
- `cards.dfy`: module `Cards`, which holds the types, the reference
  constructor, the closed-form catalog and `InitDeck`.
- `catalog_properties.dfy`: module `CatalogProperties`, which holds the
  lemmas.

## Model

| member | source | states |
|---|---|---|
| Cards.New | eins_lib/src/cards.rs:6-13 | returns None exactly when the number exceeds MAX_CARD_NUMBER (so 108 is accepted); a returned reference's `CardNumber()` is the number given, hence at most 108 |
| CatalogProperties.NewRoundTrip | eins_lib/src/cards.rs:3-17 | every reference within the bound is what `New` returns for its own `card_number` |
| CatalogProperties.NewBoundary | eins_lib/src/cards.rs:184-194 | MAX_CARD_NUMBER is 108; `New(0)` yields a reference numbered 0; `New(108)` succeeds; `New(109)` is None |
| CatalogProperties.NewAdmitsPastCatalog | eins_lib/src/cards.rs:6-13 | every number from the catalog length (60) to 108 is accepted by `New`, although no catalog entry has that index |
| Cards.Repeat | eins_lib/src/cards.rs:77-86 | a run of `n` pushes of one card has length `n` and that card at every index |
| Cards.PushColorBlock | eins_lib/src/cards.rs:88-139 | the thirteen pushes of one color append exactly that color's block, in the order Zero..Nine, DrawTwo, Skip, Reverse |
| Cards.ColorBlocks | eins_lib/src/cards.rs:87-140 | the blocks of k colors hold 13·k cards |
| Cards.Catalog | eins_lib/src/cards.rs:75-141 | the catalog holds 8 + 4·13 = 60 cards, within the MAX_CARD_NUMBER capacity |
| Cards.InitDeck | eins_lib/src/cards.rs:75-142 | the pushed vector equals the closed-form catalog, and its length is at most MAX_CARD_NUMBER |
| CatalogProperties.ColorBlocksAt | eins_lib/src/cards.rs:87-139 | offset 13·c + s of a run of color blocks holds the normal card of the c-th color and s-th symbol |
| CatalogProperties.CatalogWildPrefix | eins_lib/src/cards.rs:77-86 | entries 0..3 are Wild ChooseColor and entries 4..7 are Wild DrawFour |
| CatalogProperties.CatalogNormalAt | eins_lib/src/cards.rs:87-139 | entry 8 + 13·c + s is Normal{[Red, Blue, Green, Orange][c], [Zero..Nine, DrawTwo, Skip, Reverse][s]} for c < 4, s < 13 |
| CatalogProperties.CatalogNoWildAfterPrefix | eins_lib/src/cards.rs:87-140 | no entry at index 8 or beyond is a Wild card |
| CatalogProperties.CatalogFirstAndLast | eins_lib/src/cards.rs:161-182 | the first entry is Wild ChooseColor and the last is Normal{Orange, Reverse} |
| CatalogProperties.ColorIndex | eins_lib/src/cards.rs:87 | every color has a position among the four colors the builder walks |
| CatalogProperties.SymbolIndex | eins_lib/src/cards.rs:88-139 | every symbol has a position among the thirteen symbols pushed per color |
| CatalogProperties.ColorIndexOfEntry | eins_lib/src/cards.rs:87 | the builder walks each color once: the position of its k-th color is k |
| CatalogProperties.SymbolIndexOfEntry | eins_lib/src/cards.rs:88-139 | each color block pushes each symbol once: the position of its k-th symbol is k |
| CatalogProperties.Position | eins_lib/src/cards.rs:87-139 | every normal card value is held by the catalog at a computed index |
| CatalogProperties.PositionUnique | eins_lib/src/cards.rs:87-139 | no other index of the catalog holds that normal card |
| CatalogProperties.PairOccursOnce | eins_lib/src/cards.rs:87-139 | each (color, symbol) pair occurs exactly once in the catalog's multiset |
| CatalogProperties.CatalogComplete | eins_lib/src/cards.rs:75-141 | every card value, wild or normal, occurs in the catalog |
| CatalogProperties.RepeatCount | eins_lib/src/cards.rs:77-86 | a run of `n` pushes of one card holds that card `n` times and no other card |
| CatalogProperties.WildCounts | eins_lib/src/cards.rs:77-86 | the catalog holds exactly four ChooseColor and four DrawFour cards |
| CatalogProperties.ColorBlocksColorCount | eins_lib/src/cards.rs:87-140 | a run of color blocks holds 13 normal cards of a color per occurrence of that color in the run |
| CatalogProperties.ColorHasThirteen | eins_lib/src/cards.rs:87-140 | each color has exactly 13 normal cards in the catalog |
| CatalogProperties.CheckDeck | eins_lib/src/cards.rs:161-182 | the built deck has 60 cards, within capacity, starts with Wild ChooseColor and ends with Normal{Orange, Reverse} |

## Left out

- `Vec::with_capacity`: the reserved capacity is not observable in the result. The model states only that the result fits in it.
- `DrawAction` is declared as a datatype. No operation in the catalog uses it.
- The `for_loop` test in `eins_lib/src/cards.rs` exercises no library code.
- `eins_lib/src/lib.rs` is not part of this model. It is a separate set of card declarations built on an external entity-component library, with no operations.
- `eins_lib/src/game.rs` is not part of this model. It declares session and hand structs, with no operations.
- `eins_server/src/main.rs` is not part of this model. It is an HTTP server: network I/O that calls code not shown.
- Legal-move rules, shuffling, dealing, drawing and the turn state machine are not in the modelled source, so they are not modelled.
