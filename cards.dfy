/** Playing cards: the four suits, the thirteen ranks, and the base point
    value of a card (the `Card` class and the `suits`/`values` lists of
    `Deck` in main.py). */
module Cards {

  datatype Suit = Spades | Clubs | Hearts | Diamonds

  datatype Rank =
    | Two | Three | Four | Five | Six | Seven | Eight | Nine | Ten
    | Jack | Queen | King | Ace

  datatype Card = Card(suit: Suit, rank: Rank)

  /** The suits in the order `Deck.suits` lists them. */
  const Suits: seq<Suit> := [Spades, Clubs, Hearts, Diamonds]

  /** The ranks in the order `Deck.values` lists them. */
  const Ranks: seq<Rank> :=
    [Two, Three, Four, Five, Six, Seven, Eight, Nine, Ten, Jack, Queen, King, Ace]

  /** The text the source stores as a card's `value`. */
  function Label(r: Rank): string
  {
    match r
    case Two => "2"
    case Three => "3"
    case Four => "4"
    case Five => "5"
    case Six => "6"
    case Seven => "7"
    case Eight => "8"
    case Nine => "9"
    case Ten => "10"
    case Jack => "J"
    case Queen => "Q"
    case King => "K"
    case Ace => "A"
  }

  predicate IsDigits(s: string)
  {
    forall i :: 0 <= i < |s| ==> '0' <= s[i] <= '9'
  }

  /** The number a non-empty string of decimal digits denotes (Python's
      `int` on such a string; `int` raises on the empty string). */
  function DecimalValue(s: string): (n: nat)
    requires s != [] && IsDigits(s)
  {
    var digit := s[|s| - 1] as int - '0' as int;
    if |s| == 1 then digit
    else DecimalValue(s[..|s| - 1]) * 10 + digit
  }

  /** `Card.cards_value`: face cards count 10, number cards their face
      value, and an Ace 1 (an Ace's 11 is decided at the hand level). */
  function CardValue(c: Card): (v: nat)
    ensures 1 <= v <= 10
    ensures v == 1 <==> c.rank == Ace
    ensures v == 10 <==> c.rank in {Ten, Jack, Queen, King}
  {
    var face := Label(c.rank);
    if face in ["J", "Q", "K"] then 10
    else if face in ["2", "3", "4", "5", "6", "7", "8", "9", "10"] then
      assert DecimalValue("10") == DecimalValue("1") * 10;
      DecimalValue(face)
    else 1  // the only label left is "A"
  }

  /** Read along `Deck.values`: the i-th rank is worth i + 2 for the nine
      number cards, 10 for J, Q and K, and 1 for the final A. */
  lemma RankValues(s: Suit, i: nat)
    requires i < |Ranks|
    ensures CardValue(Card(s, Ranks[i])) == if i < 9 then i + 2 else if i < 12 then 10 else 1
  {
  }

  /** The nine number labels "2" .. "10", read as decimal numerals, give
      i + 2 for the i-th rank of `Deck.values`. */
  lemma NumberLabelValues(i: nat)
    requires i < 9
    ensures Label(Ranks[i]) != [] && IsDigits(Label(Ranks[i]))
    ensures DecimalValue(Label(Ranks[i])) == i + 2
  {
    assert DecimalValue("10") == DecimalValue("1") * 10;
  }

  /** The label the source tests for in `Player.ace` is "A" exactly for the Ace. */
  lemma AceLabel(r: Rank)
    ensures Label(r) == "A" <==> r == Ace
  {
  }
}
