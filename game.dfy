/** The round engine: `Human`, `Dealer` and `Game` in main.py. A round is
    driven from outside in four steps, as `Game.play` sequences them: the bet
    and the deal (`StartRound`), the player's hit-or-stick answers
    (`PlayerChoice`, once per answer while it is the player's turn), the
    dealer's turn and the payout (`ResolveRound`), and the reset
    (`EndRound`). */
module Blackjack {
  import opened Cards
  import opened Hands
  import opened Shoe

  /** The chips `Game.play` gives the human at the start of a session. */
  const StartingChips: int := 1000

  /** Below this many cards `deal` refills and reshuffles the shoe. */
  const ReshuffleThreshold: nat := 104

  /** The two kinds of participant: `Human` and `Dealer`, both `Player`s. */
  datatype Role = PlayerRole | DealerRole

  /** `hand` and `shuffled`-or-current `shoe` after `deal`'s four pops from the
      tail: player, dealer, player, dealer. */
  predicate DealtFrom(shoe: seq<Card>, human0: seq<Card>, dealer0: seq<Card>,
                      human1: seq<Card>, dealer1: seq<Card>, rest: seq<Card>)
  {
    var n := |shoe|;
    && n >= 4
    && human1 == human0 + [shoe[n - 1], shoe[n - 3]]
    && dealer1 == dealer0 + [shoe[n - 2], shoe[n - 4]]
    && rest == shoe[..n - 4]
  }

  /** The shoe `deal` draws from: a fresh shuffled fill when fewer than 104
      cards remain, the current cards otherwise. */
  function ShoeToDeal(cards: seq<Card>, shuffled: seq<Card>): seq<Card>
  {
    if |cards| < ReshuffleThreshold then shuffled else cards
  }

  /** `hand1` and `shoe1` are `hand0` and `shoe0` after some number of cards
      were popped from the tail of the shoe and appended to the hand, one by one. */
  predicate DrawnFromTail(hand0: seq<Card>, shoe0: seq<Card>, hand1: seq<Card>, shoe1: seq<Card>)
  {
    && |shoe1| <= |shoe0|
    && shoe1 == shoe0[..|shoe1|]
    && |hand1| == |hand0| + (|shoe0| - |shoe1|)
    && hand1[..|hand0|] == hand0
    && forall k :: |hand0| <= k < |hand1| ==> hand1[k] == shoe0[|shoe0| - 1 - (k - |hand0|)]
  }

  /** Drawing one card and then some more is drawing from the tail. */
  lemma DrawnFromTailStep(hand0: seq<Card>, shoe0: seq<Card>, hand1: seq<Card>, shoe1: seq<Card>)
    requires shoe0 != []
    requires DrawnFromTail(hand0 + [shoe0[|shoe0| - 1]], shoe0[..|shoe0| - 1], hand1, shoe1)
    ensures DrawnFromTail(hand0, shoe0, hand1, shoe1)
  {
    var n := |shoe0|;
    var c := shoe0[n - 1];
    assert shoe1 == shoe0[..n - 1][..|shoe1|] == shoe0[..|shoe1|];
    assert hand1[..|hand0| + 1] == hand0 + [c];
    assert hand1[..|hand0|] == (hand0 + [c])[..|hand0|] == hand0;
    forall k | |hand0| <= k < |hand1|
      ensures hand1[k] == shoe0[n - 1 - (k - |hand0|)]
    {
      if k == |hand0| {
        assert hand1[k] == (hand0 + [c])[k];
      } else {
        assert hand1[k] == shoe0[..n - 1][n - 1 - 1 - (k - (|hand0| + 1))];
      }
    }
  }

  /** The dealer's turn in `Game.play`: hit while the soft total is below 17,
      stand on any 17 or more. The result is the dealer's hand and the shoe
      afterwards. */
  function DealerDraws(hand: seq<Card>, shoe: seq<Card>): (seq<Card>, seq<Card>)
    requires |shoe| + Score(hand) >= 17
    decreases |shoe|
  {
    if SoftScore(hand) < 17 then
      // The raw total is below 17 too, so the shoe is not empty, and the
      // card drawn adds at least 1 to the raw total.
      SoftBonus(hand);
      AppendCard(hand, shoe[|shoe| - 1]);
      DealerDraws(hand + [shoe[|shoe| - 1]], shoe[..|shoe| - 1])
    else
      (hand, shoe)
  }

  /** Below 17 the dealer's turn is one hit followed by the rest of the turn. */
  lemma DealerDrawsHit(hand: seq<Card>, shoe: seq<Card>)
    requires |shoe| + Score(hand) >= 17 && SoftScore(hand) < 17
    ensures shoe != [] && |shoe| - 1 + Score(hand + [shoe[|shoe| - 1]]) >= 17
    ensures DealerDraws(hand, shoe) == DealerDraws(hand + [shoe[|shoe| - 1]], shoe[..|shoe| - 1])
  {
    SoftBonus(hand);
    AppendCard(hand, shoe[|shoe| - 1]);
  }

  /** On 17 or more the dealer's turn draws nothing. */
  lemma DealerDrawsStand(hand: seq<Card>, shoe: seq<Card>)
    requires |shoe| + Score(hand) >= 17 && SoftScore(hand) >= 17
    ensures DealerDraws(hand, shoe) == (hand, shoe)
  {
  }

  /** The dealer's turn pops cards from the tail of the shoe one by one.
      The shoe never runs out: every card adds at least 1 to the raw total,
      and the raw total is below 17 whenever the dealer hits. */
  lemma {:induction false} DealerDrawsFromTail(hand: seq<Card>, shoe: seq<Card>)
    requires |shoe| + Score(hand) >= 17
    ensures DrawnFromTail(hand, shoe, DealerDraws(hand, shoe).0, DealerDraws(hand, shoe).1)
    decreases |shoe|
  {
    if SoftScore(hand) < 17 {
      DealerDrawsHit(hand, shoe);
      DealerDrawsFromTail(hand + [shoe[|shoe| - 1]], shoe[..|shoe| - 1]);
      var r := DealerDraws(hand, shoe);
      DrawnFromTailStep(hand, shoe, r.0, r.1);
    }
  }

  /** The dealer ends its turn on a soft total of 17 or more. */
  lemma {:induction false} DealerDrawsStops(hand: seq<Card>, shoe: seq<Card>)
    requires |shoe| + Score(hand) >= 17
    ensures SoftScore(DealerDraws(hand, shoe).0) >= 17
    decreases |shoe|
  {
    if SoftScore(hand) < 17 {
      DealerDrawsHit(hand, shoe);
      DealerDrawsStops(hand + [shoe[|shoe| - 1]], shoe[..|shoe| - 1]);
    }
  }

  /** The dealer hits only on a soft total below 17: every hand it held
      before its last card scored below 17. */
  lemma {:induction false} DealerDrawsOnlyBelow17(hand: seq<Card>, shoe: seq<Card>)
    requires |shoe| + Score(hand) >= 17
    ensures var h := DealerDraws(hand, shoe).0;
      forall k :: |hand| <= k < |h| ==> SoftScore(h[..k]) < 17
    decreases |shoe|
  {
    if SoftScore(hand) < 17 {
      DealerDrawsHit(hand, shoe);
      var next, rest := hand + [shoe[|shoe| - 1]], shoe[..|shoe| - 1];
      DealerDrawsOnlyBelow17(next, rest);
      DealerDrawsFromTail(next, rest);
      var h := DealerDraws(hand, shoe).0;
      assert h == DealerDraws(next, rest).0;
      assert h[..|hand|] == next[..|hand|] == hand;
    }
  }

  /** A card drawn from a soft total below 17 leaves a soft total of at most
      26: the raw total was at most 16 and the card adds at most 10. */
  lemma DrawFromBelow17(hand: seq<Card>)
    requires hand != [] && SoftScore(hand[..|hand| - 1]) < 17
    ensures SoftScore(hand) <= 26
  {
    var before, c := hand[..|hand| - 1], hand[|hand| - 1];
    assert before + [c] == hand;
    SoftBonus(before);
    AppendCard(before, c);
    SoftScoreClosedForm(hand);
  }

  /** The dealer ends the turn on a soft total of at least 17, and on at most
      26 when it drew at all. */
  lemma DealerFinalRange(hand: seq<Card>, shoe: seq<Card>)
    requires |shoe| + Score(hand) >= 17
    ensures 17 <= SoftScore(DealerDraws(hand, shoe).0)
    ensures |DealerDraws(hand, shoe).0| > |hand| ==> SoftScore(DealerDraws(hand, shoe).0) <= 26
  {
    DealerDrawsStops(hand, shoe);
    DealerDrawsOnlyBelow17(hand, shoe);
    var h := DealerDraws(hand, shoe).0;
    if |h| > |hand| {
      assert SoftScore(h[..|h| - 1]) < 17;
      DrawFromBelow17(h);
    }
  }

  /** A participant: `Human` (role PlayerRole, with chips) or `Dealer`. */
  class Player {
    const role: Role
    var hand: seq<Card>
    var chips: int

    /** `Human(chips)`. */
    constructor Human(initialChips: int)
      ensures role == PlayerRole && hand == [] && chips == initialChips
    {
      role := PlayerRole;
      hand := [];
      chips := initialChips;
    }

    /** `Dealer()`: the dealer holds no chips. */
    constructor Dealer()
      ensures role == DealerRole && hand == [] && chips == 0
    {
      role := DealerRole;
      hand := [];
      chips := 0;
    }

    /** `reset`: empties the hand. */
    method Reset()
      modifies this
      ensures hand == [] && chips == old(chips)
    {
      hand := [];
    }

    /** The deduction rule of `Human.place_bet`, for an already parsed
        amount: a bet above the chips is refused, any other (zero and
        negative ones included) is taken from the chips. */
    method PlaceBet(bet: int) returns (accepted: bool)
      requires role == PlayerRole
      modifies this
      ensures accepted <==> bet <= old(chips)
      ensures chips == if accepted then old(chips) - bet else old(chips)
      ensures hand == old(hand)
      ensures old(chips) >= 0 ==> chips >= 0
    {
      if bet > chips {
        accepted := false;
      } else {
        chips := chips - bet;
        accepted := true;
      }
    }
  }

  /** What `place_bet` hands back to `play`: an amount, or Python's `None`. */
  datatype Returned = NoneReturned | Amount(n: int)

  /** The outcome of `place_bet` on the amounts the player types, in order:
      still waiting for an affordable amount, or done with the chips left
      and the value returned. */
  datatype BetOutcome = Waiting | Done(chips: int, returned: Returned)

  /** `place_bet` as written: a refused amount asks again by calling itself,
      but drops what the inner call returns, so the method returns `None`
      even though the inner call has taken the new amount from the chips. */
  function PromptBetAsWritten(chips: int, typed: seq<int>): (r: BetOutcome)
    ensures r.Done? ==> typed != [] && (typed[0] > chips ==> r.returned == NoneReturned)
    decreases |typed|
  {
    if typed == [] then Waiting
    else if typed[0] > chips then
      match PromptBetAsWritten(chips, typed[1..])
      case Waiting => Waiting
      case Done(left, _) => Done(left, NoneReturned)
    else Done(chips - typed[0], Amount(typed[0]))
  }

  /** `place_bet` as intended: the amount the inner call accepts is returned. */
  function PromptBet(chips: int, typed: seq<int>): (r: BetOutcome)
    ensures r.Done? ==> r.returned.Amount? && r.chips == chips - r.returned.n
    decreases |typed|
  {
    if typed == [] then Waiting
    else if typed[0] > chips then PromptBet(chips, typed[1..])
    else Done(chips - typed[0], Amount(typed[0]))
  }

  /** The first affordable amount typed is the stake, and it is taken from the chips. */
  lemma {:induction false} PromptBetFirstAffordable(chips: int, typed: seq<int>, j: nat)
    requires j < |typed| && typed[j] <= chips
    requires forall k :: 0 <= k < j ==> typed[k] > chips
    ensures PromptBet(chips, typed) == Done(chips - typed[j], Amount(typed[j]))
    decreases j
  {
    if j > 0 {
      assert typed[0] > chips;
      PromptBetFirstAffordable(chips, typed[1..], j - 1);
    }
  }

  /** While every amount typed is above the chips, nothing is taken and no bet is placed. */
  lemma {:induction false} PromptBetNoneAffordable(chips: int, typed: seq<int>)
    requires forall k :: 0 <= k < |typed| ==> typed[k] > chips
    ensures PromptBet(chips, typed) == Waiting
    decreases |typed|
  {
    if typed != [] {
      PromptBetNoneAffordable(chips, typed[1..]);
    }
  }

  /** As written, the chips are the same as intended, but after any refusal
      the stake `play` records is `None`, not the amount taken from the chips. */
  lemma {:induction false} PromptBetAsWrittenLosesStake(chips: int, typed: seq<int>)
    ensures PromptBetAsWritten(chips, typed).Waiting? <==> PromptBet(chips, typed).Waiting?
    ensures PromptBetAsWritten(chips, typed).Done? ==>
      PromptBetAsWritten(chips, typed).chips == PromptBet(chips, typed).chips
    ensures typed != [] && typed[0] > chips && PromptBet(chips, typed).Done? ==>
      PromptBetAsWritten(chips, typed).returned == NoneReturned != PromptBet(chips, typed).returned
    ensures typed != [] && typed[0] <= chips ==> PromptBetAsWritten(chips, typed) == PromptBet(chips, typed)
    decreases |typed|
  {
    if typed != [] && typed[0] > chips {
      PromptBetAsWrittenLosesStake(chips, typed[1..]);
    }
  }

  /** With 1000 chips, typing 2000 and then 10 takes 10 chips, yet returns `None`. */
  lemma RetriedBetAsWritten()
    ensures PromptBetAsWritten(1000, [2000, 10]) == Done(990, NoneReturned)
    ensures PromptBet(1000, [2000, 10]) == Done(990, Amount(10))
  {
    assert [2000, 10][1..] == [10];
  }

  class Game {
    const deck: Deck
    const human: Player
    const dealer: Player
    var playerBet: int
    var playersTurn: bool

    /** The human and the dealer are the two `players`, in that order. */
    ghost predicate Valid()
    {
      human.role == PlayerRole && dealer.role == DealerRole
    }

    /** Between rounds: empty hands, no stake, the player to move. */
    ghost predicate Idle()
      reads this, human, dealer
    {
      Valid() && human.hand == [] && dealer.hand == [] && playerBet == 0 && playersTurn
    }

    /** During a round: the dealer holds the two dealt cards, the human at most
        22, and the shoe held at least 104 cards at the deal; while it is
        the player's turn the player is not busted. */
    ghost predicate InRound()
      reads this, human, dealer, deck
    {
      && Valid()
      && |dealer.hand| == 2
      && 2 <= |human.hand| <= 22
      && |deck.cards| + |human.hand| >= 102
      && (playersTurn ==> !Busted(human.hand))
    }

    /** `Game()` followed by the set-up lines of `play`: a fresh shoe filled
        with six decks and shuffled, a human with 1000 chips, a dealer. */
    constructor (shuffled: seq<Card>)
      requires IsShuffledFill(shuffled)
      ensures Idle() && fresh(deck) && fresh(human) && fresh(dealer)
      ensures deck.cards == shuffled && |deck.cards| == 312
      ensures human.chips == StartingChips
    {
      deck := new Deck();
      human := new Player.Human(StartingChips);
      dealer := new Player.Dealer();
      playerBet := 0;
      playersTurn := true;
      new;
      deck.FillDeck();
      assert deck.cards == FullShoe();
      ShuffledFillIsPermutation(shuffled);
      deck.Shuffle(shuffled);
    }

    /** `deal`: below 104 cards the shoe is cleared, refilled and shuffled;
        then four cards are popped from its tail, to the player, the dealer,
        the player, the dealer. */
    method Deal(shuffled: seq<Card>)
      requires Valid()
      requires |deck.cards| < ReshuffleThreshold ==> IsShuffledFill(shuffled)
      modifies deck, human, dealer
      ensures DealtFrom(ShoeToDeal(old(deck.cards), shuffled), old(human.hand), old(dealer.hand),
                        human.hand, dealer.hand, deck.cards)
      ensures |deck.cards| == if |old(deck.cards)| < ReshuffleThreshold then 308 else |old(deck.cards)| - 4
      ensures human.chips == old(human.chips)
    {
      if |deck.cards| < ReshuffleThreshold {
        deck.Reshuffle(shuffled);
      }
      ghost var shoe := deck.cards;
      ghost var n := |shoe|;
      ghost var human0, dealer0 := human.hand, dealer.hand;
      assert shoe == ShoeToDeal(old(deck.cards), shuffled) && n >= 104;
      for i := 0 to 2
        invariant deck.cards == shoe[..n - 2 * i]
        invariant i == 0 ==> human.hand == human0 && dealer.hand == dealer0
        invariant i == 1 ==> human.hand == human0 + [shoe[n - 1]] && dealer.hand == dealer0 + [shoe[n - 2]]
        invariant i == 2 ==>
          human.hand == human0 + [shoe[n - 1], shoe[n - 3]] && dealer.hand == dealer0 + [shoe[n - 2], shoe[n - 4]]
        invariant human.chips == old(human.chips)
      {
        var card := deck.Pop();
        human.hand := human.hand + [card];
        card := deck.Pop();
        dealer.hand := dealer.hand + [card];
      }
    }

    /** `check_bust`: a busted human ends the player's turn (and loses, which
        `player_lose` only announces); a busted dealer is only announced. */
    method CheckBust(p: Player)
      modifies this
      ensures playersTurn == (old(playersTurn) && !(p.role == PlayerRole && Busted(p.hand)))
      ensures playerBet == old(playerBet)
    {
      var busted := IsBusted(p.hand);
      if busted {
        if p.role == PlayerRole {
          playersTurn := false;
        }
      }
    }

    /** `hit`: moves the last card of the shoe to the participant's hand,
        then applies `check_bust`. */
    method Hit(p: Player)
      requires Valid() && (p == human || p == dealer)
      requires deck.cards != []
      modifies deck, p, this
      ensures p.hand == old(p.hand) + [old(deck.cards)[|old(deck.cards)| - 1]]
      ensures deck.cards == old(deck.cards)[..|old(deck.cards)| - 1]
      ensures p.chips == old(p.chips) && playerBet == old(playerBet)
      ensures p == human ==> dealer.hand == old(dealer.hand)
      ensures p == dealer ==> human.hand == old(human.hand) && human.chips == old(human.chips)
      ensures playersTurn == (old(playersTurn) && !(p.role == PlayerRole && Busted(p.hand)))
    {
      var card := deck.Pop();
      p.hand := p.hand + [card];
      CheckBust(p);
    }

    /** `player_choice` for an answer already read: "h" hits, "s" sticks
        and ends the player's turn, anything else changes nothing (the
        prompt is simply asked again). */
    method PlayerChoice(answer: string)
      requires InRound() && playersTurn
      modifies this, human, deck
      ensures InRound()
      ensures answer == "h" ==>
        && human.hand == old(human.hand) + [old(deck.cards)[|old(deck.cards)| - 1]]
        && deck.cards == old(deck.cards)[..|old(deck.cards)| - 1]
        && playersTurn == !Busted(human.hand)
      ensures answer == "s" ==> !playersTurn && human.hand == old(human.hand) && deck.cards == old(deck.cards)
      ensures answer != "h" && answer != "s" ==>
        playersTurn && human.hand == old(human.hand) && deck.cards == old(deck.cards)
      ensures human.chips == old(human.chips) && playerBet == old(playerBet)
    {
      NotBustedSize(human.hand);
      if answer == "h" {
        Hit(human);
      }
      if answer == "s" {
        playersTurn := false;
      }
    }

    /** `player_win`: the human receives twice the stake and the stake is cleared. */
    method PlayerWin()
      modifies human, this
      ensures human.chips == old(human.chips) + 2 * old(playerBet) && playerBet == 0
      ensures human.hand == old(human.hand) && playersTurn == old(playersTurn)
    {
      human.chips := human.chips + 2 * playerBet;
      playerBet := 0;
    }

    /** `draw`: the stake goes back to the human. */
    method Draw()
      modifies human
      ensures human.chips == old(human.chips) + playerBet
      ensures human.hand == old(human.hand)
    {
      human.chips := human.chips + playerBet;
    }

    /** `compare_scores`: a higher soft total wins twice the stake, an equal
        one gets the stake back, a lower one gets nothing. The three tests
        are made one after the other, on totals that do not change, so
        exactly one of them applies. */
    method CompareScores()
      modifies human, this
      ensures SoftScore(human.hand) > SoftScore(dealer.hand) ==>
        human.chips == old(human.chips) + 2 * old(playerBet) && playerBet == 0
      ensures SoftScore(human.hand) == SoftScore(dealer.hand) ==>
        human.chips == old(human.chips) + old(playerBet) && playerBet == old(playerBet)
      ensures SoftScore(human.hand) < SoftScore(dealer.hand) ==>
        human.chips == old(human.chips) && playerBet == old(playerBet)
      ensures human.hand == old(human.hand) && playersTurn == old(playersTurn)
    {
      var mine := AceScore(human.hand);
      var theirs := AceScore(dealer.hand);
      if mine > theirs {
        PlayerWin();
      }
      mine := AceScore(human.hand);
      theirs := AceScore(dealer.hand);
      if mine == theirs {
        Draw();
      }
      // A lower total calls `player_lose`, which only announces the loss.
    }

    /** `reset_players`: both hands emptied and the stake cleared. */
    method ResetPlayers()
      modifies human, dealer, this
      ensures human.hand == [] && dealer.hand == [] && playerBet == 0
      ensures human.chips == old(human.chips) && playersTurn == old(playersTurn)
    {
      human.Reset();
      dealer.Reset();
      playerBet := 0;
    }

    /** The start of a round in `play`: the bet, then the deal. A refused
        bet leaves everything as it was (the prompt asks again). */
    method StartRound(bet: int, shuffled: seq<Card>) returns (accepted: bool)
      requires Idle()
      requires |deck.cards| < ReshuffleThreshold ==> IsShuffledFill(shuffled)
      modifies this, human, dealer, deck
      ensures accepted <==> bet <= old(human.chips)
      ensures !accepted ==> Idle() && human.chips == old(human.chips) && deck.cards == old(deck.cards)
      ensures accepted ==>
        && InRound() && playersTurn && playerBet == bet
        && human.chips == old(human.chips) - bet
        && DealtFrom(ShoeToDeal(old(deck.cards), shuffled), [], [], human.hand, dealer.hand, deck.cards)
    {
      accepted := human.PlaceBet(bet);
      if accepted {
        playerBet := bet;
        Deal(shuffled);
        TwoCardsNotBusted(human.hand);
      }
    }

    /** The dealer's loop in `play`: while below 17 the dealer hits; on 17
        or more it stands, and a busted dealer pays the player twice the
        stake. The loop ends at the latest when the shoe would run out, which
        the precondition rules out. */
    method DealerTurn()
      requires Valid() && !playersTurn
      requires |deck.cards| + Score(dealer.hand) >= 17
      modifies this, human, dealer, deck
      ensures (dealer.hand, deck.cards) == DealerDraws(old(dealer.hand), old(deck.cards))
      ensures human.hand == old(human.hand) && !playersTurn
      ensures Busted(dealer.hand) ==> human.chips == old(human.chips) + 2 * old(playerBet) && playerBet == 0
      ensures !Busted(dealer.hand) ==> human.chips == old(human.chips) && playerBet == old(playerBet)
    {
      while !playersTurn
        invariant Valid() && !playersTurn
        invariant |deck.cards| + Score(dealer.hand) >= 17
        invariant DealerDraws(dealer.hand, deck.cards) == DealerDraws(old(dealer.hand), old(deck.cards))
        invariant human.hand == old(human.hand) && human.chips == old(human.chips)
        invariant playerBet == old(playerBet)
        decreases |deck.cards|
      {
        var soft := AceScore(dealer.hand);
        if soft < 17 {
          ghost var hand, shoe := dealer.hand, deck.cards;
          DealerDrawsHit(hand, shoe);
          Hit(dealer);
          assert dealer.hand == hand + [shoe[|shoe| - 1]] && deck.cards == shoe[..|shoe| - 1];
        }
        soft := AceScore(dealer.hand);
        var dealerBusted := soft > 21;  // `is_busted`
        if soft >= 17 && !dealerBusted {
          DealerDrawsStand(dealer.hand, deck.cards);
          break;
        }
        if dealerBusted {
          DealerDrawsStand(dealer.hand, deck.cards);
          PlayerWin();
          break;
        }
      }
    }

    /** The end of a round in `play` once the player's turn is over: unless
        the player busted, the dealer plays, and unless the dealer busted,
        `compare_scores` settles. */
    method ResolveRound()
      requires InRound() && !playersTurn
      modifies this, human, dealer, deck
      ensures human.hand == old(human.hand) && !playersTurn
      ensures Busted(human.hand) ==>
        && dealer.hand == old(dealer.hand) && deck.cards == old(deck.cards)
        && human.chips == old(human.chips) && playerBet == old(playerBet)
      ensures !Busted(human.hand) ==>
        && (dealer.hand, deck.cards) == DealerDraws(old(dealer.hand), old(deck.cards))
        && SoftScore(dealer.hand) >= 17
      ensures !Busted(human.hand) && Busted(dealer.hand) ==>
        human.chips == old(human.chips) + 2 * old(playerBet) && playerBet == 0
      ensures !Busted(human.hand) && !Busted(dealer.hand) && SoftScore(human.hand) > SoftScore(dealer.hand) ==>
        human.chips == old(human.chips) + 2 * old(playerBet) && playerBet == 0
      ensures !Busted(human.hand) && !Busted(dealer.hand) && SoftScore(human.hand) == SoftScore(dealer.hand) ==>
        human.chips == old(human.chips) + old(playerBet) && playerBet == old(playerBet)
      ensures !Busted(human.hand) && !Busted(dealer.hand) && SoftScore(human.hand) < SoftScore(dealer.hand) ==>
        human.chips == old(human.chips) && playerBet == old(playerBet)
    {
      var playerBusted := IsBusted(human.hand);
      if !playerBusted {
        ghost var hand0, shoe0 := dealer.hand, deck.cards;
        DealerTurn();
        DealerDrawsStops(hand0, shoe0);
        var dealerBusted := IsBusted(dealer.hand);
        if !dealerBusted {
          CompareScores();
        }
      }
    }

    /** The last lines of a round in `play`: the player moves first again,
        and `reset_players` empties both hands and clears the stake. */
    method EndRound()
      requires Valid()
      modifies this, human, dealer
      ensures Idle() && human.chips == old(human.chips)
    {
      playersTurn := true;
      ResetPlayers();
    }
  }
}
