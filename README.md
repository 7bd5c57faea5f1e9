# Texas Hold'em table: cards, deck, hands

A Dafny model of the early part of a Texas Hold'em program. It covers three things:

- **Cards** (`cards.dfy`, module `Cards`). A card is built from an integer value. Value 14 is an ace, which reads 1 low and 14 high. Any other value reads itself both ways. Each suit subclass of the program only fixes a suit name, so here the suit is an enumeration field of one `Card` datatype. The module also models the card's printed form, `"A - <suit>"` or `"<high> - <suit>"`.
- **The deck** (`texas.dfy`, class `Texas.Deck`). It is built as 13 values for each of 4 suits and then shuffled in place. Cards are dealt by popping from its end: two for a player's hole cards, three for the flop.
- **Hands and the game** (`texas.dfy`, classes `Texas.Hand` and `Texas.Game`). A hand keeps the first two cards it is given. Playing appends the game's community cards to the hand. The hand is then evaluated by its high card: the first card with the greatest high value, as Python's `max` with a key picks it. A game stores the community cards and the blinds as its pot.

The deck, hand and game are classes with `seq<Card>` fields. The deck's list is popped in place by its dealing methods, so `Deck`'s methods reassign its field. `Hand.play` replaces the hand's list with a new, longer one. A game is never changed after it is built. Building a card, printing it, building the unshuffled deck and choosing the high card are functions.

The shuffle follows the standard library's in-place swap loop. Position `i` runs from the last down to 1 and is swapped with a position drawn below `i + 1`. The random draws are a parameter `randbelow: nat -> nat`, reduced modulo `i + 1`. Each bound `i + 1` is drawn exactly once, so a function of the bound can stand for any sequence of draws. What is proved holds for every choice of draws: the deck is a permutation of the 52 unshuffled cards.

## Model

| member | source | states |
|---|---|---|
| `Cards.SuitName` | cards.py:19-32 | each suit subclass fixes its suit name ("Spade", "Heart", "Diamond", "Club") whatever the card's value; a name is a non-empty word with no blank and no digit, so the printed card splits back at " - " |
| `Cards.SuitNameInjective` | cards.py:19-32 | different suits have different names |
| `Cards.MakeCard` | cards.py:2-6 | the built card keeps the suit, its high reading is the value given, and its low reading equals the high one except for the ace (low 1, high 14) |
| `Cards.ValueReadings` | cards.py:2-6 | for values 2..14 the high reading is at least the low one, and they differ by 0, or by 13 exactly when the value was 14 |
| `Cards.IsAce` | cards.py:8-11 | a card is an ace exactly when its low reading is 1; for a card built from a value in 2..14, that holds exactly when the value is 14 |
| `Cards.IsAceOfValue` | cards.py:2-11 | `is_ace` holds of a built card exactly when the value was 14 or 1; for values 2..14, exactly when it was 14 |
| `Cards.DecimalDigits` | cards.py:16 | the decimal form of a natural number is a non-empty string of digits with no leading zero |
| `Cards.DecimalRoundTrip` | cards.py:16 | reading back the decimal digits of n gives n |
| `Cards.DecimalString` | cards.py:16 | an integer prints as digits; the first character is a minus sign exactly when the integer is negative, and no leading zero follows the sign or starts a number other than 0 |
| `Cards.DecimalStringRoundTrip` | cards.py:16 | reading back the printed form of any integer, negative or not, gives that integer |
| `Cards.CardString` | cards.py:13-16 | the printed card starts with 'A' exactly when the card is an ace, and ends in " - " followed by its suit name; for an ace the text before " - " is exactly "A" |
| `Cards.CardStringValue` | cards.py:13-16 | for any card that is not an ace, negative values included, the text before " - " reads back as its high value |
| `Cards.SplitAtSeparator` | cards.py:16 | helper for the printed form: "<digits> - <name>" splits back uniquely into the digits and the name |
| `Cards.CardStringInjective` | cards.py:13-32 | two cards of values 2..14 print alike only if they have the same suit and value |
| `Texas.SuitRow` | texas.py:8 | one suit's row holds the cards of values 2..14 in increasing order |
| `Texas.Rows` | texas.py:8 | rows for a list of suits, one after another: position i holds suit i / 13 and value i % 13 + 2 |
| `Texas.CanonicalDeck` | texas.py:8 | the unshuffled deck has 52 cards, Spade, Heart, Club, Diamond in turn, each suit with values 2..14 |
| `Texas.CanonicalPosition` | texas.py:8 | every (suit, value) with value 2..14 sits at some position of the unshuffled deck |
| `Texas.CanonicalDeckContents` | texas.py:8 | the unshuffled deck holds no card twice, and a card is in it exactly when it is a built card of value 2..14 |
| `Texas.DistinctCounts` | texas.py:8 | helper for the deck's distinctness: a sequence with no repeated card holds each card at most once |
| `Texas.RepeatCounts` | texas.py:8 | helper for the deck's distinctness: a card at two positions occurs at least twice in the sequence's multiset |
| `Texas.PermutationDistinct` | texas.py:9 | a reordering of a sequence with no repeated card has no repeated card |
| `Texas.ShuffledMembers` | texas.py:8-9 | after any shuffle, a card is in the deck exactly when it is a built card of value 2..14 |
| `Texas.ShuffledPairsDistinct` | texas.py:8-9 | after any shuffle, no two cards share both suit and high value |
| `Texas.ShuffledSuitHighs` | texas.py:8-9 | after any shuffle, each suit's set of high values is exactly {2, ..., 14} |
| `Texas.ShuffledDeckFacts` | texas.py:8-9 | after any shuffle: 52 cards, no duplicate (suit, high) pair, and per suit exactly 13 high values, the least 2 and the greatest 14 |
| `Texas.Deck.constructor` | texas.py:7-9 | the new deck is a permutation of the 52 unshuffled cards |
| `Texas.Deck.Shuffle` | texas.py:9 | shuffling changes only the order: same length, same multiset of cards |
| `Texas.Deck.Pop` | texas.py:15 | popping returns the last card; the deck before is the deck after followed by that card |
| `Texas.Deck.HoleCards` | texas.py:14-15 | needs two cards; returns the last, then the second to last; the deck keeps exactly its first n - 2 cards; dealt plus remaining cards equal the cards before |
| `Texas.Deck.Flop` | texas.py:17-19 | needs three cards; returns [last, second to last, third to last]; the deck keeps exactly its first n - 3 cards; dealt plus remaining cards equal the cards before |
| `Texas.TakenFromEnd` | texas.py:17-19 | helper for the flop's card conservation: cards taken off the end in any order, together with what is left, are the cards there were |
| `Texas.MaxHighIndex` | texas.py:31-32 | the position `max` picks: no card has a greater high value, and every card before it has a strictly smaller one |
| `Texas.Hand.constructor` | texas.py:23-26 | the hand keeps the first two cards of its argument as card one and card two, and its cards are exactly those two |
| `Texas.Hand.HighCard` | texas.py:31-32 | on a non-empty hand: the result is one of the cards, no card has a greater high value, and it is the first card with that greatest value |
| `Texas.Hand.GetBestHand` | texas.py:34-35 | the best hand is the high card |
| `Texas.Hand.Play` | texas.py:37-40 | the hand's cards become the old cards followed by the game's cards; the hole cards stay in front; the game is unchanged; the result is the high card of the combined cards |
| `Texas.PlayTwice` | texas.py:37-40 | a second play appends the community cards a second time, and its high card is at least as high as the first |
| `Texas.Game.constructor` | texas.py:43-45 | the game keeps the community cards unchanged and the blinds argument as its pot, absent when none was passed |
| `Texas.DealRound` | texas.py:51-60 | three hole-card deals and a flop leave 43 cards; the nine dealt cards and the rest of the deck are exactly the 52 cards of a fresh deck, none twice; the pot is 3; the first player's cards are its two hole cards followed by the flop, and the played card is their high card, the first of them with the greatest high value |
| `Texas.RoundDistinct` | texas.py:52-56 | cards dealt one deal after another from a shuffled deck, together with what is left, are the 52 cards of a fresh deck and hold no card twice |

## Left out

- The randomness of `random.shuffle` (texas.py:9): the draws are a parameter. Only the permutation property is stated, for every choice of draws.
- The ten-category hand ranking (pair, two pair, straight, flush, …) that tests.py:41-109 expect. No code in texas.py implements it: `Hand.play` returns a single card, not a (hand, rank) pair. Only the high card is modelled.
- The printing at texas.py:57-61 and the `__str__` methods of `Deck`, `Hand` and `Game` (texas.py:11-12, 28-29, 47-48). They only format Python list representations. `DealRound` models the rest of texas.py:51-60.
- `DealRound` builds the three hands after the last deal. The program builds each hand right after its deal. Building a hand does not touch the deck, so every hand receives the same cards either way.
- The `IndexError` that `pop` raises on a deck with too few cards. `HoleCards` and `Flop` require at least 2 and 3 cards instead. Every caller in the program deals from a full deck.
- `Texas.Hand.constructor`: requires at least two cards. Python raises `IndexError` at texas.py:24-25 when the argument has fewer than two elements, and that error path is not modelled. Every hand in the program is built from a two-card deal.
- `Texas.Hand.HighCard`: Python's `max` raises `ValueError` on an empty list. The model requires a non-empty hand instead. A hand built by its constructor always has at least two cards, and `Valid()` keeps that true.
- The `*args`/`**kwargs` handling of `Hand` and `Game`. Only the first positional argument and the `blinds` keyword are modelled. `blinds` is an `Option<int>`: Python's `kwargs.get` gives `None` when it is absent.
- Card identity. Python compares card objects by identity; the model compares card values. The 52 cards of a deck differ in (suit, high), so the two agree on every deck.
- `Cards.CardString`: the value is printed with `DecimalString`, which writes integers as Python's `format` does. No other conversions are modelled.
