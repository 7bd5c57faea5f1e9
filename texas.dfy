/** The table: a 52-card deck dealt from its end, a player's hand that is
    evaluated by its highest card, and a game holding the community cards and
    the pot. */
module Texas {
  import opened Cards

  datatype Option<T> = None | Some(value: T)

  // ---------------------------------------------------------------------------
  // The unshuffled deck

  /** The suits in the order the deck is built from them. */
  const SuitOrder: seq<Suit> := [Spade, Heart, Club, Diamond]

  /** One suit's cards, values 2 up to 14. */
  function SuitRow(suit: Suit): (row: seq<Card>)
    ensures |row| == 13
    ensures forall j :: 0 <= j < 13 ==> row[j] == MakeCard(suit, j + 2)
  {
    seq(13, j requires 0 <= j < 13 => MakeCard(suit, j + 2))
  }

  /** The rows of the given suits, one after another. */
  function Rows(suits: seq<Suit>): (r: seq<Card>)
    ensures |r| == 13 * |suits|
    ensures forall i :: 0 <= i < |r| ==> r[i] == MakeCard(suits[i / 13], i % 13 + 2)
  {
    if suits == [] then [] else SuitRow(suits[0]) + Rows(suits[1..])
  }

  /** The deck as built, before shuffling: every suit, and within it every value. */
  function CanonicalDeck(): (d: seq<Card>)
    ensures |d| == 52
    ensures forall i :: 0 <= i < 52 ==> d[i] == MakeCard(SuitOrder[i / 13], i % 13 + 2)
  {
    Rows(SuitOrder)
  }

  /** No card occurs twice. */
  ghost predicate Distinct<T>(s: seq<T>) {
    forall i, j :: 0 <= i < j < |s| ==> s[i] != s[j]
  }

  /** The set of high values the cards of one suit take in s. */
  ghost function SuitHighs(s: seq<Card>, suit: Suit): set<int> {
    set c | c in s && c.suit == suit :: c.high
  }

  /** A card of the deck is determined by its suit and its high value. */
  ghost predicate IsDeckCard(c: Card) {
    2 <= c.high <= 14 && c == MakeCard(c.suit, c.high)
  }

  /** Where each card of the unshuffled deck sits. */
  lemma CanonicalPosition(suit: Suit, value: int) returns (i: nat)
    requires 2 <= value <= 14
    ensures i < 52 && CanonicalDeck()[i] == MakeCard(suit, value)
  {
    var k := match suit case Spade => 0 case Heart => 1 case Club => 2 case Diamond => 3;
    i := 13 * k + value - 2;
    assert SuitOrder[i / 13] == suit;
  }

  /** The unshuffled deck holds every (suit, value) pair for values 2..14 and
      nothing else, each exactly once. */
  lemma {:induction false} CanonicalDeckContents()
    ensures Distinct(CanonicalDeck())
    ensures forall c :: c in CanonicalDeck() <==> IsDeckCard(c)
  {
    var d := CanonicalDeck();
    forall i, j | 0 <= i < j < 52
      ensures d[i] != d[j]
    {
    }
    forall c | IsDeckCard(c)
      ensures c in d
    {
      var i := CanonicalPosition(c.suit, c.high);
    }
  }

  /** A sequence whose cards are distinct holds each at most once. */
  lemma {:induction false} DistinctCounts<T>(s: seq<T>, x: T)
    requires Distinct(s)
    ensures multiset(s)[x] <= 1
  {
    if s != [] {
      var t := s[1..];
      assert s == [s[0]] + t;
      assert Distinct(t);
      DistinctCounts(t, x);
      if x == s[0] {
        assert x !in t;
      }
    }
  }

  /** A card present at two positions is counted at least twice. */
  lemma RepeatCounts<T>(s: seq<T>, i: nat, j: nat)
    requires i < j < |s| && s[i] == s[j]
    ensures multiset(s)[s[i]] >= 2
  {
    assert s == s[..j] + s[j..];
    assert s[i] in s[..j] && s[j] in s[j..];
  }

  /** Reordering preserves distinctness. */
  lemma PermutationDistinct<T>(s: seq<T>, t: seq<T>)
    requires Distinct(s) && multiset(t) == multiset(s)
    ensures Distinct(t)
  {
    forall i, j | 0 <= i < j < |t|
      ensures t[i] != t[j]
    {
      if t[i] == t[j] {
        RepeatCounts(t, i, j);
        DistinctCounts(s, t[i]);
      }
    }
  }

  /** Whatever order the shuffle leaves, the deck holds 52 cards, no two with
      the same suit and high value, and each suit's high values are exactly
      2..14: thirteen of them, the least 2 and the greatest 14. */
  lemma {:induction false} ShuffledDeckFacts(s: seq<Card>)
    requires multiset(s) == multiset(CanonicalDeck())
    ensures |s| == 52
    ensures forall c :: c in s <==> IsDeckCard(c)
    ensures forall i, j :: 0 <= i < j < |s| ==> (s[i].suit, s[i].high) != (s[j].suit, s[j].high)
    ensures forall suit :: SuitHighs(s, suit) == {2, 3, 4, 5, 6, 7, 8, 9, 10, 11, 12, 13, 14}
    ensures forall suit :: |SuitHighs(s, suit)| == 13
  {
    assert |multiset(s)| == |multiset(CanonicalDeck())|;
    ShuffledMembers(s);
    ShuffledPairsDistinct(s);
    forall suit
      ensures SuitHighs(s, suit) == {2, 3, 4, 5, 6, 7, 8, 9, 10, 11, 12, 13, 14}
    {
      ShuffledSuitHighs(s, suit);
    }
    DeckValuesCount();
  }

  lemma DeckValuesCount()
    ensures |{2, 3, 4, 5, 6, 7, 8, 9, 10, 11, 12, 13, 14}| == 13
  {
  }

  /** The shuffled deck holds exactly the deck cards. */
  lemma ShuffledMembers(s: seq<Card>)
    requires multiset(s) == multiset(CanonicalDeck())
    ensures forall c :: c in s <==> IsDeckCard(c)
  {
    CanonicalDeckContents();
    forall c
      ensures c in s <==> IsDeckCard(c)
    {
      assert c in s <==> c in multiset(s);
      assert c in CanonicalDeck() <==> c in multiset(CanonicalDeck());
    }
  }

  /** No two cards of the shuffled deck share a suit and a high value. */
  lemma ShuffledPairsDistinct(s: seq<Card>)
    requires multiset(s) == multiset(CanonicalDeck())
    ensures forall i, j :: 0 <= i < j < |s| ==> (s[i].suit, s[i].high) != (s[j].suit, s[j].high)
  {
    CanonicalDeckContents();
    ShuffledMembers(s);
    PermutationDistinct(CanonicalDeck(), s);
    forall i, j | 0 <= i < j < |s|
      ensures (s[i].suit, s[i].high) != (s[j].suit, s[j].high)
    {
      assert s[i] in s && s[j] in s;
    }
  }

  /** Each suit's high values in the shuffled deck are 2..14. */
  lemma ShuffledSuitHighs(s: seq<Card>, suit: Suit)
    requires multiset(s) == multiset(CanonicalDeck())
    ensures SuitHighs(s, suit) == {2, 3, 4, 5, 6, 7, 8, 9, 10, 11, 12, 13, 14}
  {
    ShuffledMembers(s);
    forall v | 2 <= v <= 14
      ensures v in SuitHighs(s, suit)
    {
      assert MakeCard(suit, v) in s;
    }
  }

  // ---------------------------------------------------------------------------
  // The highest card, as max with the high value as key

  /** The position max picks: the first card whose high value no card exceeds. */
  function MaxHighIndex(s: seq<Card>): (i: nat)
    requires |s| > 0
    ensures i < |s|
    ensures forall j :: 0 <= j < |s| ==> s[j].high <= s[i].high
    ensures forall j :: 0 <= j < i ==> s[j].high < s[i].high
  {
    if |s| == 1 then 0
    else
      var m := MaxHighIndex(s[..|s| - 1]);
      if s[|s| - 1].high > s[m].high then |s| - 1 else m
  }

  // ---------------------------------------------------------------------------
  // The deck

  class Deck {
    var deck: seq<Card>

    /** Builds the 52 cards and shuffles them. The shuffle's random draws are
        supplied by randbelow: the swap partner for position i is drawn from
        randbelow(i + 1), reduced below i + 1. */
    constructor (randbelow: nat -> nat)
      ensures multiset(deck) == multiset(CanonicalDeck())
      ensures |deck| == 52
    {
      deck := CanonicalDeck();
      new;
      Shuffle(randbelow);
    }

    /** Reorders the deck in place, walking from the last position down to the
        second and swapping each with a drawn position at or below it. */
    method Shuffle(randbelow: nat -> nat)
      modifies this
      ensures multiset(deck) == old(multiset(deck))
      ensures |deck| == old(|deck|)
    {
      var i := |deck| - 1;
      while i >= 1
        invariant i < |deck| == old(|deck|)
        invariant multiset(deck) == old(multiset(deck))
      {
        var j := randbelow(i + 1) % (i + 1);
        deck := deck[i := deck[j]][j := deck[i]];
        i := i - 1;
      }
    }

    /** Removes and returns the last card. */
    method Pop() returns (c: Card)
      requires |deck| > 0
      modifies this
      ensures old(deck) == deck + [c]
    {
      c := deck[|deck| - 1];
      deck := deck[..|deck| - 1];
    }

    /** Deals a player's two cards: the last card, then the one before it. */
    method HoleCards() returns (first: Card, second: Card)
      requires |deck| >= 2
      modifies this
      ensures first == old(deck)[|old(deck)| - 1] && second == old(deck)[|old(deck)| - 2]
      ensures deck == old(deck)[..|old(deck)| - 2]
      ensures multiset{first, second} + multiset(deck) == old(multiset(deck))
    {
      first := Pop();
      second := Pop();
      assert old(deck) == deck + [second, first];
    }

    /** Deals the three community cards: the last three, last first. */
    method Flop() returns (flop: seq<Card>)
      requires |deck| >= 3
      modifies this
      ensures flop == [old(deck)[|old(deck)| - 1], old(deck)[|old(deck)| - 2], old(deck)[|old(deck)| - 3]]
      ensures deck == old(deck)[..|old(deck)| - 3]
      ensures multiset(flop) + multiset(deck) == old(multiset(deck))
    {
      var a := Pop();
      var b := Pop();
      var c := Pop();
      flop := [a, b, c];
      assert old(deck) == deck + [c, b, a];
      assert multiset([c, b, a]) == multiset{a, b, c} == multiset(flop);
      TakenFromEnd(old(deck), deck, [c, b, a], flop);
    }
  }

  /** Cards taken off the end of s, in whatever order they are handed out,
      together with what is left, are the cards of s. */
  lemma TakenFromEnd(s: seq<Card>, rest: seq<Card>, taken: seq<Card>, dealt: seq<Card>)
    requires s == rest + taken && multiset(taken) == multiset(dealt)
    ensures multiset(dealt) + multiset(rest) == multiset(s)
  {
    assert multiset(s) == multiset(rest) + multiset(taken);
  }

  // ---------------------------------------------------------------------------
  // A player's hand

  class Hand {
    var cardOne: Card
    var cardTwo: Card
    var cards: seq<Card>

    /** The hole cards stay at the front of the cards the hand plays with. */
    ghost predicate Valid()
      reads this
    {
      |cards| >= 2 && cards[0] == cardOne && cards[1] == cardTwo
    }

    /** Takes the first two cards of its argument. */
    constructor (hole: seq<Card>)
      requires |hole| >= 2
      ensures Valid()
      ensures cardOne == hole[0] && cardTwo == hole[1] && cards == [hole[0], hole[1]]
    {
      cardOne, cardTwo := hole[0], hole[1];
      cards := [hole[0], hole[1]];
    }

    /** The card with the greatest high value, the first of them on a tie. */
    function HighCard(): (c: Card)
      requires |cards| > 0
      reads this
      ensures c in cards
      ensures forall x :: x in cards ==> x.high <= c.high
      ensures exists i :: 0 <= i < |cards| && cards[i] == c && forall j :: 0 <= j < i ==> cards[j].high < c.high
    {
      cards[MaxHighIndex(cards)]
    }

    /** The best hand is, so far, the high card. */
    function GetBestHand(): (c: Card)
      requires |cards| > 0
      reads this
      ensures c == HighCard()
      ensures c in cards && forall x :: x in cards ==> x.high <= c.high
    {
      HighCard()
    }

    /** Adds the game's community cards to the hand's cards and returns the
        best hand of the result. */
    method Play(game: Game) returns (best: Card)
      requires Valid()
      modifies this
      ensures Valid()
      ensures cards == old(cards) + game.cards
      ensures cardOne == old(cardOne) && cardTwo == old(cardTwo)
      ensures game.cards == old(game.cards) && game.pot == old(game.pot)
      ensures best == GetBestHand()
      ensures best in cards && forall x :: x in cards ==> x.high <= best.high
    {
      cards := cards + game.cards;
      best := GetBestHand();
    }
  }

  // ---------------------------------------------------------------------------
  // The game

  class Game {
    var cards: seq<Card>
    var pot: Option<int>

    /** Keeps the community cards as given; the pot is the blinds argument,
        absent when it was not passed. */
    constructor (cards: seq<Card>, blinds: Option<int>)
      ensures this.cards == cards && pot == blinds
    {
      this.cards := cards;
      pot := blinds;
    }
  }

  // ---------------------------------------------------------------------------
  // A round as the module sets one up: three players, the flop, one play

  /** Deals three hands and the flop from a fresh deck, opens a game with three
      blinds in the pot, and lets the first player play. No card is dealt twice.
      The hands are built after the last deal: building a hand does not touch
      the deck, so the cards each one receives are the same. */
  method DealRound(randbelow: nat -> nat) returns (d: Deck, h1: Hand, h2: Hand, h3: Hand, g: Game, best: Card)
    ensures |d.deck| == 43
    ensures multiset([h1.cardOne, h1.cardTwo, h2.cardOne, h2.cardTwo, h3.cardOne, h3.cardTwo] + g.cards + d.deck)
            == multiset(CanonicalDeck())
    ensures Distinct([h1.cardOne, h1.cardTwo, h2.cardOne, h2.cardTwo, h3.cardOne, h3.cardTwo] + g.cards + d.deck)
    ensures |g.cards| == 3 && g.pot == Some(3)
    ensures h1.cards == [h1.cardOne, h1.cardTwo] + g.cards
    ensures h2.cards == [h2.cardOne, h2.cardTwo] && h3.cards == [h3.cardOne, h3.cardTwo]
    ensures best == h1.HighCard()
    ensures best in h1.cards && forall x :: x in h1.cards ==> x.high <= best.high
  {
    var blind := 1;
    d := new Deck(randbelow);
    ghost var full := d.deck;
    var a1, b1 := d.HoleCards();
    ghost var rest1 := d.deck;
    var a2, b2 := d.HoleCards();
    ghost var rest2 := d.deck;
    var a3, b3 := d.HoleCards();
    ghost var rest3 := d.deck;
    var flop := d.Flop();
    h1 := new Hand([a1, b1]);
    h2 := new Hand([a2, b2]);
    h3 := new Hand([a3, b3]);
    g := new Game(flop, Some(blind * 3));
    best := h1.Play(g);
    RoundDistinct(a1, b1, a2, b2, a3, b3, flop, full, rest1, rest2, rest3, d.deck);
  }

  /** Three hole-card deals and a flop from a shuffled deck hand out nine
      different cards, none of them still in the deck; together with the rest
      of the deck they are exactly the 52 cards of a fresh deck. */
  lemma RoundDistinct(a1: Card, b1: Card, a2: Card, b2: Card, a3: Card, b3: Card, flop: seq<Card>,
                      full: seq<Card>, rest1: seq<Card>, rest2: seq<Card>, rest3: seq<Card>, rest: seq<Card>)
    requires multiset(full) == multiset(CanonicalDeck())
    requires multiset{a1, b1} + multiset(rest1) == multiset(full)
    requires multiset{a2, b2} + multiset(rest2) == multiset(rest1)
    requires multiset{a3, b3} + multiset(rest3) == multiset(rest2)
    requires multiset(flop) + multiset(rest) == multiset(rest3)
    ensures multiset([a1, b1, a2, b2, a3, b3] + flop + rest) == multiset(CanonicalDeck())
    ensures Distinct([a1, b1, a2, b2, a3, b3] + flop + rest)
  {
    var p1, p2, p3 := [a1, b1], [a2, b2], [a3, b3];
    assert multiset(p1) == multiset{a1, b1} && multiset(p2) == multiset{a2, b2} && multiset(p3) == multiset{a3, b3};
    var dealt := p1 + (p2 + (p3 + (flop + rest)));
    assert [a1, b1, a2, b2, a3, b3] + flop + rest == dealt;
    calc {
      multiset(dealt);
      multiset(p1) + (multiset(p2) + (multiset(p3) + (multiset(flop) + multiset(rest))));
      multiset(p1) + (multiset(p2) + (multiset(p3) + multiset(rest3)));
      multiset(p1) + (multiset(p2) + multiset(rest2));
      multiset(p1) + multiset(rest1);
      multiset(CanonicalDeck());
    }
    CanonicalDeckContents();
    PermutationDistinct(CanonicalDeck(), dealt);
  }

  /** Playing a second time appends the community cards a second time. */
  method PlayTwice(h: Hand, g: Game) returns (first: Card, second: Card)
    requires h.Valid()
    modifies h
    ensures h.cards == old(h.cards) + g.cards + g.cards
    ensures second.high >= first.high
  {
    first := h.Play(g);
    second := h.Play(g);
  }
}
