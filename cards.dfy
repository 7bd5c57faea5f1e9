/** Playing cards: a value with a low and a high reading, tagged with a suit.
    In the program each suit is a subclass that only fixes the suit name; here
    the suit is an enumeration field of a single card type. */
module Cards {

  /** The four suit subclasses, as a tag. */
  datatype Suit = Spade | Heart | Diamond | Club

  /** The class-level suit name each subclass fixes, whatever the card's value.
      A name is a word with no blank and no digit, so the printed form of a
      card, "<value> - <name>", splits back into its value and its name. */
  function SuitName(suit: Suit): (name: string)
    ensures |name| > 0
    ensures forall k :: 0 <= k < |name| ==> name[k] != ' ' && !IsDigit(name[k])
  {
    match suit
    case Spade => "Spade"
    case Heart => "Heart"
    case Diamond => "Diamond"
    case Club => "Club"
  }

  /** Different suits print different names. */
  lemma SuitNameInjective(a: Suit, b: Suit)
    requires SuitName(a) == SuitName(b)
    ensures a == b
  {
  }

  /** A card: its suit and its two readings of the value (they differ only for an ace). */
  datatype Card = Card(suit: Suit, low: int, high: int)

  /** The card constructor: value 14 is an ace, worth 1 low and 14 high; every
      other value is worth itself both ways. */
  function MakeCard(suit: Suit, value: int): (c: Card)
    ensures c.suit == suit && c.high == value
    ensures c.low == c.high || (c.low == 1 && c.high == 14)
  {
    if value == 14 then Card(suit, 1, 14) else Card(suit, value, value)
  }

  /** A card is an ace when its low reading is 1; for a card the constructor
      built from a deck value, that is exactly the card of value 14. */
  predicate IsAce(c: Card): (ace: bool)
    ensures c == MakeCard(c.suit, c.high) && 2 <= c.high <= 14 ==> (ace <==> c.high == 14)
  {
    c.low == 1
  }

  /** For the values a deck uses, the high reading never falls below the low
      one, and they differ by 13 exactly for the ace. */
  lemma ValueReadings(suit: Suit, value: int)
    requires 2 <= value <= 14
    ensures MakeCard(suit, value).high >= MakeCard(suit, value).low
    ensures MakeCard(suit, value).high - MakeCard(suit, value).low in {0, 13}
    ensures MakeCard(suit, value).high - MakeCard(suit, value).low == 13 <==> value == 14
  {
  }

  /** is_ace holds for a constructed card exactly when its value was 14, or was
      1 (which also gives a low reading of 1); for deck values only 14 qualifies. */
  lemma IsAceOfValue(suit: Suit, value: int)
    ensures IsAce(MakeCard(suit, value)) <==> value == 14 || value == 1
    ensures 2 <= value <= 14 ==> (IsAce(MakeCard(suit, value)) <==> value == 14)
  {
  }

  // Decimal rendering of integers, as string formatting prints them.

  predicate IsDigit(ch: char) {
    '0' <= ch <= '9'
  }

  predicate IsDigits(s: string) {
    forall k :: 0 <= k < |s| ==> IsDigit(s[k])
  }

  function DigitChar(d: nat): (ch: char)
    requires d < 10
    ensures IsDigit(ch) && ch as int - '0' as int == d
  {
    (d + '0' as int) as char
  }

  /** The decimal digits of a natural number, most significant first. */
  function DecimalDigits(n: nat): (s: string)
    ensures |s| > 0 && IsDigits(s)
    ensures s[0] == '0' ==> n == 0
  {
    if n < 10 then [DigitChar(n)] else DecimalDigits(n / 10) + [DigitChar(n % 10)]
  }

  /** The number a string of decimal digits denotes. */
  function DigitsValue(s: string): nat
    requires IsDigits(s)
  {
    if s == [] then 0 else DigitsValue(s[..|s| - 1]) * 10 + (s[|s| - 1] as int - '0' as int)
  }

  /** Reading back the digits of n gives n. */
  lemma {:induction false} DecimalRoundTrip(n: nat)
    ensures DigitsValue(DecimalDigits(n)) == n
  {
    var s := DecimalDigits(n);
    if n >= 10 {
      DecimalRoundTrip(n / 10);
      assert s[..|s| - 1] == DecimalDigits(n / 10);
    } else {
      assert s[..|s| - 1] == [];
    }
  }

  /** How an integer is formatted: a minus sign before the digits when negative. */
  function DecimalString(n: int): (s: string)
    ensures |s| > 0 && (s[0] == '-' <==> n < 0)
    ensures IsDecimal(s)
    ensures n >= 0 ==> IsDigits(s)
    ensures |s| > 1 && s[0] != '-' ==> s[0] != '0'
    ensures n < 0 ==> |s| > 1 && s[1] != '0'
  {
    if n < 0 then "-" + DecimalDigits(-n) else DecimalDigits(n)
  }

  /** Digits, possibly after a minus sign. */
  predicate IsDecimal(s: string) {
    IsDigits(s) || (|s| > 0 && s[0] == '-' && IsDigits(s[1..]))
  }

  /** The integer a decimal string denotes. */
  function DecimalValue(s: string): int
    requires IsDecimal(s)
  {
    if |s| > 0 && s[0] == '-' then -(DigitsValue(s[1..]) as int) else DigitsValue(s)
  }

  /** Reading back the formatted form of any integer, negative or not, gives it back. */
  lemma DecimalStringRoundTrip(n: int)
    ensures DecimalValue(DecimalString(n)) == n
  {
    if n < 0 {
      assert DecimalString(n)[1..] == DecimalDigits(-n);
      DecimalRoundTrip(-n);
    } else {
      DecimalRoundTrip(n);
    }
  }

  /** The printed form of a card: "A - <suit>" for an ace, "<high> - <suit>"
      otherwise. */
  function CardString(c: Card): (s: string)
    ensures |s| > 0 && (s[0] == 'A' <==> IsAce(c))
    ensures |s| > |SuitName(c.suit)| + 3
    ensures s[|s| - |SuitName(c.suit)| - 3..] == " - " + SuitName(c.suit)
    ensures IsAce(c) ==> s[..|s| - |SuitName(c.suit)| - 3] == "A"
  {
    var value := if IsAce(c) then "A" else DecimalString(c.high);
    value + " - " + SuitName(c.suit)
  }

  /** The printed form of a card that is not an ace starts with its high value:
      reading the number in front of the separator gives that value back, a
      negative one included. */
  lemma CardStringValue(c: Card)
    requires !IsAce(c)
    ensures var s := CardString(c);
      IsDecimal(s[..|s| - |SuitName(c.suit)| - 3]) && DecimalValue(s[..|s| - |SuitName(c.suit)| - 3]) == c.high
  {
    var s := CardString(c);
    assert s == DecimalString(c.high) + " - " + SuitName(c.suit);
    assert s[..|s| - |SuitName(c.suit)| - 3] == DecimalString(c.high);
    DecimalStringRoundTrip(c.high);
  }

  /** In digits followed by " - ", the first blank comes right after the digits. */
  lemma FirstBlank(d: string, rest: string)
    requires IsDigits(d)
    ensures forall k :: 0 <= k < |d| ==> (d + " - " + rest)[k] != ' '
    ensures (d + " - " + rest)[|d|] == ' '
  {
  }

  /** A string of digits followed by " - " and a name splits back into the
      digits and the name. */
  lemma SplitAtSeparator(d1: string, n1: string, d2: string, n2: string)
    requires IsDigits(d1) && IsDigits(d2)
    requires d1 + " - " + n1 == d2 + " - " + n2
    ensures d1 == d2 && n1 == n2
  {
    var s := d1 + " - " + n1;
    FirstBlank(d1, n1);
    FirstBlank(d2, n2);
    assert |d1| == |d2|;
    assert d1 == s[..|d1|] == d2;
    assert n1 == s[|d1| + 3..] == n2;
  }

  /** Two deck cards print alike only when they are the same card: the printed
      form determines both the suit and the value. */
  lemma {:induction false} CardStringInjective(suit1: Suit, value1: int, suit2: Suit, value2: int)
    requires 2 <= value1 <= 14 && 2 <= value2 <= 14
    requires CardString(MakeCard(suit1, value1)) == CardString(MakeCard(suit2, value2))
    ensures suit1 == suit2 && value1 == value2
  {
    var c1, c2 := MakeCard(suit1, value1), MakeCard(suit2, value2);
    var s := CardString(c1);
    IsAceOfValue(suit1, value1);
    IsAceOfValue(suit2, value2);
    var n1, n2 := SuitName(suit1), SuitName(suit2);
    if IsAce(c1) && IsAce(c2) {
      assert s == "A - " + n1 && s == "A - " + n2;
      assert n1 == s[4..] == n2;
      SuitNameInjective(suit1, suit2);
    } else if !IsAce(c1) && !IsAce(c2) {
      var d1, d2 := DecimalDigits(value1), DecimalDigits(value2);
      assert s == d1 + " - " + n1 && s == d2 + " - " + n2;
      SplitAtSeparator(d1, n1, d2, n2);
      DecimalRoundTrip(value1);
      DecimalRoundTrip(value2);
      SuitNameInjective(suit1, suit2);
    }
  }
}
