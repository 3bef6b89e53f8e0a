/** The shoe: `Deck` in main.py, a list of cards filled with six standard
    52-card decks, cleared, shuffled, and drawn from its tail. */
module Shoe {
  import opened Cards

  /** How many 52-card decks `fill_deck` appends. */
  const DeckCount: nat := 6

  /** One standard deck in the order `itertools.product(suits, values)`
      enumerates it: suit by suit, and within a suit rank by rank. */
  function OneDeck(): (d: seq<Card>)
    ensures |d| == |Suits| * |Ranks| == 52
  {
    seq(52, k requires 0 <= k < 52 => Card(Suits[k / 13], Ranks[k % 13]))
  }

  /** `n` copies of `d` one after the other. */
  function Copies(d: seq<Card>, n: nat): (r: seq<Card>)
    ensures |r| == n * |d|
  {
    if n == 0 then [] else Copies(d, n - 1) + d
  }

  /** What one call of `fill_deck` appends: six decks. */
  function FullShoe(): seq<Card>
  {
    Copies(OneDeck(), DeckCount)
  }

  function SuitIndex(s: Suit): (i: nat)
    ensures i < |Suits| && Suits[i] == s
  {
    match s
    case Spades => 0
    case Clubs => 1
    case Hearts => 2
    case Diamonds => 3
  }

  function RankIndex(r: Rank): (i: nat)
    ensures i < |Ranks| && Ranks[i] == r
  {
    match r
    case Two => 0
    case Three => 1
    case Four => 2
    case Five => 3
    case Six => 4
    case Seven => 5
    case Eight => 6
    case Nine => 7
    case Ten => 8
    case Jack => 9
    case Queen => 10
    case King => 11
    case Ace => 12
  }

  /** The card the product enumeration yields for suit `s` and rank `v`. */
  lemma OneDeckAt(s: nat, v: nat)
    requires s < |Suits| && v < |Ranks|
    ensures 13 * s + v < 52 && OneDeck()[13 * s + v] == Card(Suits[s], Ranks[v])
  {
    var k := 13 * s + v;
    assert k / 13 == s && k % 13 == v;
  }

  /** The product enumeration, one pair further. */
  lemma OneDeckStep(k: nat)
    requires k < 52
    ensures OneDeck()[..k + 1] == OneDeck()[..k] + [Card(Suits[k / 13], Ranks[k % 13])]
  {
    assert OneDeck()[..k + 1] == OneDeck()[..k] + [OneDeck()[k]];
  }

  /** After a whole enumeration, one more deck has been appended. */
  lemma OneDeckWhole(before: seq<Card>, i: nat)
    ensures before + OneDeck()[..52] == before + OneDeck()
    ensures Copies(OneDeck(), i + 1) == Copies(OneDeck(), i) + OneDeck()
  {
    assert OneDeck()[..52] == OneDeck();
  }

  /** Where a card sits in the product enumeration. */
  function CardIndex(c: Card): (k: nat)
    ensures k < 52
  {
    13 * SuitIndex(c.suit) + RankIndex(c.rank)
  }

  /** The k-th card of a deck is the one whose position is k. */
  lemma OneDeckIndex(k: nat)
    requires k < 52
    ensures CardIndex(OneDeck()[k]) == k
  {
    assert k == 13 * (k / 13) + k % 13;
    assert SuitIndex(Suits[k / 13]) == k / 13;
    assert RankIndex(Ranks[k % 13]) == k % 13;
  }

  /** Every (suit, rank) pair appears in one deck, and only once. */
  lemma OneDeckDistinct()
    ensures forall i, j :: 0 <= i < j < |OneDeck()| ==> OneDeck()[i] != OneDeck()[j]
    ensures forall c: Card :: c in OneDeck()
  {
    forall i, j | 0 <= i < j < |OneDeck()|
      ensures OneDeck()[i] != OneDeck()[j]
    {
      OneDeckIndex(i);
      OneDeckIndex(j);
    }
    forall c: Card
      ensures c in OneDeck()
    {
      OneDeckAt(SuitIndex(c.suit), RankIndex(c.rank));
    }
  }

  /** In a sequence without repetitions an element occurs once or not at all. */
  lemma {:induction false} DistinctCount(s: seq<Card>, x: Card)
    requires forall i, j :: 0 <= i < j < |s| ==> s[i] != s[j]
    ensures multiset(s)[x] == if x in s then 1 else 0
  {
    if s != [] {
      assert s == [s[0]] + s[1..];
      DistinctCount(s[1..], x);
      if x == s[0] {
        assert x !in s[1..] by {
          forall k | 0 <= k < |s[1..]| ensures s[1..][k] != x {
            assert s[1..][k] == s[k + 1];
          }
        }
      }
    }
  }

  /** Copying a sequence `n` times multiplies every count by `n`. */
  lemma {:induction false} CopiesCount(d: seq<Card>, n: nat, x: Card)
    ensures multiset(Copies(d, n))[x] == n * multiset(d)[x]
  {
    if n > 0 {
      CopiesCount(d, n - 1, x);
      var m := multiset(d)[x];
      assert multiset(Copies(d, n))[x] == (n - 1) * m + m;
      assert (n - 1) * m + m == n * m;
    }
  }

  /** A full fill holds 312 cards. */
  lemma FullShoeSize()
    ensures |FullShoe()| == 312
  {
  }

  /** A full fill holds 312 cards, each (suit, rank) pair exactly six times. */
  lemma FullShoeContents()
    ensures |FullShoe()| == 312
    ensures forall c: Card :: multiset(FullShoe())[c] == DeckCount
  {
    OneDeckDistinct();
    forall c: Card
      ensures multiset(FullShoe())[c] == DeckCount
    {
      DistinctCount(OneDeck(), c);
      CopiesCount(OneDeck(), DeckCount, c);
    }
  }

  /** An order of the cards of a fresh fill: every (suit, rank) pair exactly
      six times, which is what `shuffle` can make of a full fill. */
  ghost predicate IsShuffledFill(s: seq<Card>)
  {
    forall c: Card :: multiset(s)[c] == DeckCount
  }

  /** The orders `IsShuffledFill` accepts are exactly the permutations of a full fill. */
  lemma ShuffledFillIsPermutation(s: seq<Card>)
    ensures IsShuffledFill(s) <==> multiset(s) == multiset(FullShoe())
    ensures IsShuffledFill(s) ==> |s| == 312
  {
    FullShoeContents();
    if IsShuffledFill(s) {
      assert multiset(s) == multiset(FullShoe());
      assert |s| == |multiset(s)| == |multiset(FullShoe())| == |FullShoe()|;
    }
  }

  class Deck {
    /** The cards in the shoe; the last one is drawn first. */
    var cards: seq<Card>

    constructor ()
      ensures cards == []
    {
      cards := [];
    }

    /** `fill_deck`: appends six decks to whatever the shoe already holds. */
    method FillDeck()
      modifies this
      ensures cards == old(cards) + FullShoe()
      ensures |cards| == |old(cards)| + 312 && cards[..|old(cards)|] == old(cards)
    {
      ghost var deck := OneDeck();
      for i := 0 to DeckCount
        invariant cards == old(cards) + Copies(deck, i)
      {
        ghost var before := cards;
        // itertools.product(suits, values): the k-th pair is suit k / 13, rank k % 13
        for k := 0 to |Suits| * |Ranks|
          invariant cards == before + deck[..k]
        {
          var c := Card(Suits[k / |Ranks|], Ranks[k % |Ranks|]);
          OneDeckStep(k);
          cards := cards + [c];
        }
        OneDeckWhole(before, i);
      }
      FullShoeSize();
    }

    /** `clear_deck`: empties the shoe. */
    method ClearDeck()
      modifies this
      ensures cards == []
    {
      cards := [];
    }

    /** `shuffle`: puts the cards in a new order. The randomness is not
        modelled: the order is whatever permutation `shuffled` gives. */
    method Shuffle(shuffled: seq<Card>)
      requires multiset(shuffled) == multiset(cards)
      modifies this
      ensures cards == shuffled
      ensures |cards| == |old(cards)| && multiset(cards) == multiset(old(cards))
    {
      assert |shuffled| == |multiset(shuffled)| == |cards|;
      cards := shuffled;
    }

    /** The reshuffle lines of `Game.deal`: `clear_deck`, `fill_deck`, `shuffle`. */
    method Reshuffle(shuffled: seq<Card>)
      requires IsShuffledFill(shuffled)
      modifies this
      ensures cards == shuffled && |cards| == 312
    {
      ShuffledFillIsPermutation(shuffled);
      ClearDeck();
      FillDeck();
      assert cards == FullShoe();
      Shuffle(shuffled);
    }

    /** `cards.pop()`: removes and returns the last card. */
    method Pop() returns (c: Card)
      requires cards != []
      modifies this
      ensures old(cards) == cards + [c]
    {
      c := cards[|cards| - 1];
      cards := cards[..|cards| - 1];
    }
  }
}
