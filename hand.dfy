/** Hand scoring: the `ace`, `score`, `ace_score` and `is_busted`
    properties of `Player` in main.py, as functions of the cards held. */
module Hands {
  import opened Cards

  /** `Player.score`: the sum of the base values of the cards. */
  function Score(hand: seq<Card>): (r: nat)
    ensures |hand| <= r <= 10 * |hand|
  {
    if hand == [] then 0
    else Score(hand[..|hand| - 1]) + CardValue(hand[|hand| - 1])
  }

  /** `Player.ace`: how many of the cards are Aces. */
  function AceCount(hand: seq<Card>): (n: nat)
    ensures n <= |hand|
    ensures n == 0 <==> forall i :: 0 <= i < |hand| ==> hand[i].rank != Ace
  {
    if hand == [] then 0
    else AceCount(hand[..|hand| - 1]) + (if hand[|hand| - 1].rank == Ace then 1 else 0)
  }

  /** What the per-Ace loop of `Player.ace_score` leaves in its running total
      when it starts from `total` with `aces` iterations to go: each
      iteration adds 10 (an Ace raised from 1 to 11) if the total is below 12. */
  function Promote(total: int, aces: nat): int
    decreases aces
  {
    if aces == 0 then total
    else Promote(if total < 12 then total + 10 else total, aces - 1)
  }

  /** The soft total of a hand, the value `Player.ace_score` computes. */
  function SoftScore(hand: seq<Card>): int
  {
    Promote(Score(hand), AceCount(hand))
  }

  /** `Player.is_busted`: the soft total is over 21. */
  predicate Busted(hand: seq<Card>)
  {
    SoftScore(hand) > 21
  }

  /** `Player.ace_score`, computed as the source does: start from the raw
      score and run one iteration per Ace, adding 10 while the running total
      is below 12. The source adds to `self.score`, a read-only property, so
      the evident intent, a local running total, is what is modelled here
      (`AceScoreAsWritten` below models the line as it stands). */
  method AceScore(hand: seq<Card>) returns (total: int)
    ensures total == SoftScore(hand)
  {
    total := Score(hand);
    var aces := AceCount(hand);
    for i := 0 to aces
      invariant Promote(total, aces - i) == SoftScore(hand)
    {
      if total < 12 {
        total := total + 10;
      }
    }
  }

  /** `Player.is_busted`, computed through `ace_score`. */
  method IsBusted(hand: seq<Card>) returns (busted: bool)
    ensures busted == Busted(hand)
  {
    var soft := AceScore(hand);
    busted := soft > 21;
  }

  /** Appending a card adds its value to the score and counts it if it is an Ace. */
  lemma AppendCard(hand: seq<Card>, c: Card)
    ensures Score(hand + [c]) == Score(hand) + CardValue(c)
    ensures AceCount(hand + [c]) == AceCount(hand) + (if c.rank == Ace then 1 else 0)
  {
    assert (hand + [c])[..|hand|] == hand;
  }

  /** There are never more Aces than points: every card is worth at least 1. */
  lemma AcesAtMostScore(hand: seq<Card>)
    ensures AceCount(hand) <= Score(hand)
  {
  }

  /** The per-Ace loop promotes at most once: after one promotion from a total
      of at least 2 the running total is 12 or more. */
  lemma {:induction false} PromoteClosedForm(total: int, aces: nat)
    requires aces <= total
    ensures Promote(total, aces) == if aces > 0 && total < 12 then total + 10 else total
    decreases aces
  {
    if aces > 0 {
      var next := if total < 12 then total + 10 else total;
      if aces - 1 > 0 {
        PromoteClosedForm(next, aces - 1);
      }
    }
  }

  /** The soft total is the raw total, plus 10 when the hand holds an Ace and
      the raw total is below 12. */
  lemma SoftScoreClosedForm(hand: seq<Card>)
    ensures SoftScore(hand) == if AceCount(hand) > 0 && Score(hand) < 12 then Score(hand) + 10 else Score(hand)
  {
    AcesAtMostScore(hand);
    PromoteClosedForm(Score(hand), AceCount(hand));
  }

  /** The soft bonus is 0 or 10, it is 0 without Aces, and it is 10 exactly
      when there is an Ace and the raw total is below 12. */
  lemma SoftBonus(hand: seq<Card>)
    ensures SoftScore(hand) >= Score(hand)
    ensures SoftScore(hand) - Score(hand) == 0 || SoftScore(hand) - Score(hand) == 10
    ensures SoftScore(hand) - Score(hand) == 10 <==> AceCount(hand) > 0 && Score(hand) < 12
    ensures AceCount(hand) == 0 ==> SoftScore(hand) == Score(hand)
  {
    SoftScoreClosedForm(hand);
  }

  /** Promotion never causes a bust: it only happens from a raw total below
      12, so a hand is busted exactly when its raw total is over 21. */
  lemma BustedIffRawOver21(hand: seq<Card>)
    ensures Busted(hand) <==> Score(hand) > 21
    ensures !Busted(hand) ==> Score(hand) <= SoftScore(hand) <= 21
  {
    SoftScoreClosedForm(hand);
  }

  /** A hand that is not busted holds at most 21 cards. */
  lemma NotBustedSize(hand: seq<Card>)
    ensures !Busted(hand) ==> |hand| <= 21
  {
    BustedIffRawOver21(hand);
  }

  /** The empty hand scores 0, soft and raw, and is not busted. */
  lemma EmptyHand()
    ensures Score([]) == 0 && AceCount([]) == 0 && SoftScore([]) == 0 && !Busted([])
  {
  }

  /** Two cards can never bust: their raw total is at most 20, and a
      promotion from below 12 reaches at most 21. */
  lemma TwoCardsNotBusted(hand: seq<Card>)
    requires |hand| == 2
    ensures !Busted(hand)
  {
    BustedIffRawOver21(hand);
  }

  /** A and K: raw 11, the Ace is raised, soft 21, not busted. */
  lemma AceKing(s: Suit, t: Suit)
    ensures Score([Card(s, Ace), Card(t, King)]) == 11
    ensures SoftScore([Card(s, Ace), Card(t, King)]) == 21
    ensures !Busted([Card(s, Ace), Card(t, King)])
  {
    var hand := [Card(s, Ace), Card(t, King)];
    AppendCard([Card(s, Ace)], Card(t, King));
    assert [Card(s, Ace)] + [Card(t, King)] == hand;
  }

  /** A and A: raw 2, the first Ace is raised to reach 12, the second stays at 1. */
  lemma AceAce(s: Suit, t: Suit)
    ensures Score([Card(s, Ace), Card(t, Ace)]) == 2
    ensures SoftScore([Card(s, Ace), Card(t, Ace)]) == 12
  {
    var hand := [Card(s, Ace), Card(t, Ace)];
    AppendCard([Card(s, Ace)], Card(t, Ace));
    assert [Card(s, Ace)] + [Card(t, Ace)] == hand;
  }

  /** 10, 9 and 5: raw and soft 24, busted. */
  lemma TenNineFive(s: Suit, t: Suit, u: Suit)
    ensures Score([Card(s, Ten), Card(t, Nine), Card(u, Five)]) == 24
    ensures SoftScore([Card(s, Ten), Card(t, Nine), Card(u, Five)]) == 24
    ensures Busted([Card(s, Ten), Card(t, Nine), Card(u, Five)])
  {
    var hand := [Card(s, Ten), Card(t, Nine), Card(u, Five)];
    AppendCard([Card(s, Ten)], Card(t, Nine));
    assert [Card(s, Ten)] + [Card(t, Nine)] == hand[..2];
    AppendCard(hand[..2], Card(u, Five));
    assert hand[..2] + [Card(u, Five)] == hand;
  }

  /** The error the source's `self.score += 10` raises: `score` is a
      property without a setter. */
  datatype ScoreError = CannotSetScore

  datatype ScoreResult<T> = Ok(value: T) | Raised(error: ScoreError)

  /** The per-Ace loop of `Player.ace_score` exactly as written: the first
      iteration that finds the total below 12 assigns to the read-only
      `score` property and raises instead of promoting. */
  function AceScoreLoopAsWritten(score: int, aces: nat): (r: ScoreResult<int>)
    ensures r.Ok? ==> r.value == score
  {
    if aces == 0 then Ok(score)
    else if score < 12 then Raised(CannotSetScore)
    else AceScoreLoopAsWritten(score, aces - 1)
  }

  function AceScoreAsWritten(hand: seq<Card>): ScoreResult<int>
  {
    AceScoreLoopAsWritten(Score(hand), AceCount(hand))
  }

  /** As written, `ace_score` raises on exactly the hands where a promotion is
      due, and otherwise agrees with the intended soft total. */
  lemma {:induction false} AceScoreAsWrittenRaises(hand: seq<Card>)
    ensures AceScoreAsWritten(hand).Raised? <==> AceCount(hand) > 0 && Score(hand) < 12
    ensures AceScoreAsWritten(hand).Ok? ==> AceScoreAsWritten(hand).value == SoftScore(hand)
  {
    SoftScoreClosedForm(hand);
    AsWrittenLoop(Score(hand), AceCount(hand));
  }

  lemma {:induction false} AsWrittenLoop(score: int, aces: nat)
    ensures AceScoreLoopAsWritten(score, aces).Raised? <==> aces > 0 && score < 12
    decreases aces
  {
    if aces > 0 && score >= 12 {
      AsWrittenLoop(score, aces - 1);
    }
  }

  /** The hand A, K: as written, scoring it raises. */
  lemma AceKingRaisesAsWritten(s: Suit, t: Suit)
    ensures AceScoreAsWritten([Card(s, Ace), Card(t, King)]) == Raised(CannotSetScore)
  {
    AceKing(s, t);
    var hand := [Card(s, Ace), Card(t, King)];
    AppendCard([Card(s, Ace)], Card(t, King));
    assert [Card(s, Ace)] + [Card(t, King)] == hand;
  }
}
