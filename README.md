# Blackjack round engine, modelled in Dafny

This project models the game engine of a console Blackjack game written in
Python (`main.py`). The player plays against a dealer from a shoe of six
standard decks. The parts modelled:

- **Cards** (`cards.dfy`, module `Cards`): suits, ranks and the base value of
  a card (`Card.cards_value`). J, Q and K are worth 10, a number card its face
  value, and an Ace 1.
- **Hand scoring** (`hand.dfy`, module `Hands`):
  - the raw total (`score`) and the Ace count (`ace`), as recursive functions;
  - the soft total (`ace_score`), a method with the source's per-Ace loop,
    proved equal to a specification function;
  - bust detection (`is_busted`).
- **The shoe** (`deck.dfy`, module `Shoe`): class `Deck`, which owns a sequence
  of cards.
  - `fill_deck` is the nested loop over six decks and the product of suits and
    ranks. It is proved to append six copies of one deck, so every (suit, rank)
    pair is added exactly six times.
  - `clear_deck` empties the shoe.
  - `shuffle`: the random order is a parameter, and any permutation of the
    current cards is accepted.
  - `cards.pop()` takes the last card.
- **The round** (`game.dfy`, module `Blackjack`):
  - class `Player` stands for `Human` and `Dealer`. Its `role` tells the two
    apart, playing the part of the source's `isinstance` tests.
  - class `Game` holds the shoe, the two participants, the stake
    (`player_bet`) and the turn flag (`players_turn`).
  - `Game.play` drives a round through its steps, which the model exposes as
    separate methods:
    - `StartRound`: the bet and the deal;
    - `PlayerChoice`: one call per hit/stick answer;
    - `ResolveRound`: the dealer's turn and the payout;
    - `EndRound`: the reset.
  - The dealer's turn is proved against the function `DealerDraws`:
    - the dealer hits while its soft total is below 17 and stands on 17 or more;
    - it draws from the tail of the shoe;
    - it never draws from an empty shoe.
  - The payout table is stated outright in `ResolveRound`:

    | outcome | chips |
    |---|---|
    | player busted | unchanged |
    | dealer busted | + twice the stake |
    | player higher | + twice the stake |
    | equal | + the stake |
    | player lower | unchanged |

The invariant `Game.InRound` keeps a round well formed. It says the shoe
still held at least 104 cards at the deal, the player holds at most 22 cards,
and the player is not busted while it is the player's turn. This is enough to
show that no `pop` in a round ever meets an empty shoe.

The model follows the code where it departs from the usual rules of the game:

- A bet of zero or a negative bet is accepted, because `place_bet` refuses
  only an amount above the chips.
- `ace_score` assigns to the read-only `score` property (see Findings).
  Everywhere else the model uses the evident intent, a local running total.

## Model

| member | source | states |
|---|---|---|
| Cards.NumberLabelValues | main.py:48-49 | the nine number labels are non-empty digit strings, and `int` on the i-th of them gives i + 2 |
| Cards.CardValue | main.py:44-51 | a card's value lies in 1..10; it is 1 exactly for the Ace and 10 exactly for 10, J, Q and K |
| Cards.RankValues | main.py:16 | along the rank list, the i-th rank is worth i + 2 for the nine number cards, 10 for J, Q, K and 1 for the Ace |
| Cards.AceLabel | main.py:69 | the label tested for by `ace` is "A" exactly for the Ace rank |
| Hands.Score | main.py:71-73 | the raw total of a hand lies between its size and ten times its size |
| Hands.AceCount | main.py:67-69 | the Ace count is at most the hand size, and it is 0 exactly when no card is an Ace |
| Hands.AppendCard | main.py:67-73 | appending a card adds its value to the raw total and adds one to the Ace count when it is an Ace |
| Hands.AcesAtMostScore | main.py:67-73 | a hand never holds more Aces than raw points |
| Hands.AceScore | main.py:75-80 | the per-Ace loop returns the soft total of the hand |
| Hands.PromoteClosedForm | main.py:77-79 | with no more iterations than the starting total, the per-Ace loop adds 10 once if the total starts below 12 and there is at least one Ace, and otherwise adds nothing |
| Hands.SoftScoreClosedForm | main.py:75-80 | soft total = raw total + 10 when an Ace is held and the raw total is below 12, and the raw total otherwise |
| Hands.SoftBonus | main.py:75-80 | soft total ≥ raw total; the difference is 0 or 10; it is 10 exactly when an Ace is held and the raw total is below 12; it is 0 without Aces |
| Hands.IsBusted | main.py:82-85 | the result is true exactly when the soft total exceeds 21 |
| Hands.BustedIffRawOver21 | main.py:77-85 | promotion never causes a bust: busted exactly when the raw total exceeds 21, and an unbusted hand has raw ≤ soft ≤ 21 |
| Hands.NotBustedSize | main.py:82-85 | a hand that is not busted holds at most 21 cards |
| Hands.EmptyHand | main.py:67-85 | the empty hand has raw total 0, no Aces, soft total 0, and is not busted |
| Hands.TwoCardsNotBusted | main.py:82-85 | no two-card hand is busted |
| Hands.AceKing | main.py:75-80 | A with K: raw 11, soft 21, not busted |
| Hands.AceAce | main.py:75-80 | A with A: raw 2, soft 12 (the second Ace stays at 1) |
| Hands.TenNineFive | main.py:82-85 | 10, 9 and 5: raw and soft 24, busted |
| Hands.AceScoreLoopAsWritten | main.py:77-80 | as written, the loop can only return the raw total it started from |
| Hands.AsWrittenLoop | main.py:77-80 | as written, the loop raises exactly when some iteration finds the total below 12 |
| Hands.AceScoreAsWrittenRaises | main.py:77-80 | as written, `ace_score` raises exactly when the hand holds an Ace and its raw total is below 12; when it does not raise, it returns the intended soft total |
| Hands.AceKingRaisesAsWritten | main.py:79 | as written, scoring A with K raises `AttributeError` |
| Shoe.OneDeck | main.py:26 | the product of suits and ranks yields 52 cards |
| Shoe.Copies | main.py:25 | n copies of a sequence have n times its length |
| Shoe.OneDeckAt | main.py:26 | the product yields suit s with rank v at position 13·s + v |
| Shoe.OneDeckStep | main.py:26-27 | enumerating one more pair of the product appends exactly that pair |
| Shoe.OneDeckWhole | main.py:25-27 | after a full pass over the product, one more deck has been appended |
| Shoe.OneDeckIndex | main.py:26 | the card at position k of a deck is the card whose product position is k |
| Shoe.OneDeckDistinct | main.py:15-16 | one deck holds every (suit, rank) pair, and no pair twice |
| Shoe.CopiesCount | main.py:25 | repeating a sequence n times multiplies the count of every card by n |
| Shoe.FullShoeSize | main.py:24-27 | one fill appends 312 cards |
| Shoe.FullShoeContents | main.py:24-27 | one fill appends 312 cards, each (suit, rank) pair exactly six times |
| Shoe.ShuffledFillIsPermutation | main.py:32-33 | the orders a reshuffle may produce are exactly the permutations of a full fill, and each has 312 cards |
| Shoe.Deck.constructor | main.py:18-19 | a new shoe is empty |
| Shoe.Deck.FillDeck | main.py:24-27 | `fill_deck` keeps the existing cards as a prefix and appends exactly six decks in product order, 312 cards |
| Shoe.Deck.ClearDeck | main.py:29-30 | the shoe becomes empty |
| Shoe.Deck.Shuffle | main.py:32-33 | the new order is the given permutation: same size, same multiset of cards |
| Shoe.Deck.Reshuffle | main.py:132-136 | clearing, refilling and shuffling leaves the given permutation of a full fill, 312 cards |
| Shoe.Deck.Pop | main.py:140 | the card returned was the last one, and the shoe becomes the rest |
| Blackjack.DrawnFromTailStep | main.py:144-145 | popping one card to the hand and then drawing more is drawing from the tail |
| Blackjack.DealerDrawsHit | main.py:233-236 | below a soft 17 the shoe still has a card, and the dealer's turn is one hit followed by the rest of the turn |
| Blackjack.DealerDrawsStand | main.py:238-240 | on a soft 17 or more the dealer draws nothing |
| Blackjack.DealerDrawsFromTail | main.py:232-243 | the dealer's cards come from the tail of the shoe, last card first, and the shoe shrinks by exactly the cards drawn |
| Blackjack.DealerDrawsStops | main.py:232-243 | the dealer's turn ends on a soft total of 17 or more |
| Blackjack.DealerDrawsOnlyBelow17 | main.py:233-236 | every hand the dealer hit from scored a soft total below 17 |
| Blackjack.DrawFromBelow17 | main.py:233-236 | one card drawn from a soft total below 17 gives a soft total of at most 26 |
| Blackjack.DealerFinalRange | main.py:232-243 | the dealer finishes with a soft total of at least 17, and of at most 26 when it drew at all |
| Blackjack.Player.Human | main.py:89-91 | a human starts with an empty hand and the chips given |
| Blackjack.Player.Dealer | main.py:108-110 | a dealer starts with an empty hand |
| Blackjack.Player.Reset | main.py:64-65 | the hand becomes empty and the chips are unchanged |
| Blackjack.Player.PlaceBet | main.py:96-101 | a bet is accepted exactly when it does not exceed the chips; an accepted bet is taken from the chips, a refused one changes nothing; non-negative chips stay non-negative |
| Blackjack.PromptBetAsWritten | main.py:93-104 | as written, after a refused amount the method returns `None` |
| Blackjack.PromptBet | main.py:93-104 | as intended, a finished prompt returns an amount, and the chips drop by exactly that amount |
| Blackjack.PromptBetFirstAffordable | main.py:93-104 | as intended, the first affordable amount typed becomes the stake and is taken from the chips |
| Blackjack.PromptBetNoneAffordable | main.py:93-104 | while every amount typed exceeds the chips, no bet is placed |
| Blackjack.PromptBetAsWrittenLosesStake | main.py:93-104 | as written, the chips end up as intended, but after a first refusal the value returned is `None` instead of the stake |
| Blackjack.RetriedBetAsWritten | main.py:98 | with 1000 chips, typing 2000 then 10 takes 10 chips; as written it returns `None`, as intended it returns 10 |
| Blackjack.Game.constructor | main.py:212-217 | a new game holds a shuffled full fill of 312 cards, a human with 1000 chips and a dealer, both with empty hands, no stake, and the player to move |
| Blackjack.Game.Deal | main.py:130-141 | below 104 cards the shoe is first replaced by a shuffled full fill; then four cards are popped from the tail to the player, the dealer, the player and the dealer; the shoe ends with 308 cards after a reshuffle and 4 fewer otherwise; chips are unchanged |
| Blackjack.Game.CheckBust | main.py:161-168 | the player's turn ends exactly when the participant checked is the human and is busted; the stake is unchanged |
| Blackjack.Game.Hit | main.py:143-150 | the shoe's last card moves to that participant's hand; a busted human ends the player's turn; chips, stake and the other hand are unchanged |
| Blackjack.Game.PlayerChoice | main.py:153-159 | "h" hits the player and the turn continues only if the player is not busted; "s" ends the turn and changes no cards; any other answer changes nothing; the round invariant is kept |
| Blackjack.Game.PlayerWin | main.py:170-173 | the human receives twice the stake and the stake is cleared |
| Blackjack.Game.Draw | main.py:178-180 | the human gets the stake back |
| Blackjack.Game.CompareScores | main.py:182-188 | a higher soft total wins twice the stake, an equal one returns the stake, a lower one pays nothing; exactly one branch applies |
| Blackjack.Game.ResetPlayers | main.py:190-193 | both hands become empty and the stake is cleared; chips are unchanged |
| Blackjack.Game.StartRound | main.py:224-225 | a bet is accepted exactly when it does not exceed the chips; a refused one changes nothing; an accepted one is taken from the chips and recorded as the stake, and the four cards are dealt into a valid round |
| Blackjack.Game.DealerTurn | main.py:232-243 | the dealer's hand and the shoe end as `DealerDraws` prescribes; a busted dealer pays the player twice the stake; otherwise chips and stake are unchanged |
| Blackjack.Game.ResolveRound | main.py:230-245 | the payout table: a busted player changes nothing; otherwise the dealer plays to a soft 17 or more, and the player gains twice the stake with the stake cleared if the dealer busts or if the player is higher, the stake back with the stake kept if equal, and nothing with the stake kept if lower |
| Blackjack.Game.EndRound | main.py:249-250 | the game is back between rounds with empty hands, no stake and the player to move; chips are unchanged |

## Left out

- Console I/O: every `print` and `input`, the welcome banner, `show_hand` for both participants (including the hidden dealer card), and `play_again`. These only read answers or display text; the answers become parameters (`PlayerChoice`'s `answer`, `StartRound`'s `bet`).
- `time.sleep`: timing only.
- The randomness of `random.shuffle`. The order is a parameter, constrained to a permutation of the cards.
- The `int()` conversion in `place_bet` and its `ValueError` branch. Amounts are taken as integers already parsed.
- Suit glyph strings and `Card.__str__`: suits and ranks are enumerations.
- The session loop of `play` beyond one round: the exit when the chips reach 0, and the `running` flag. A session is a sequence of `StartRound`, `PlayerChoice`, `ResolveRound` and `EndRound` calls chosen by the caller.
- `player_lose` only prints, so its payout is "nothing changes".
- `Game.players` is the list `[player, dealer]`. The loops over it are written out for the human and then the dealer, in that order.
- Blackjack.Game.StartRound: models one typed amount per call. A refused amount returns `false` and changes nothing, and the caller asks again. That is the intended behaviour; the recursion as written is captured separately by `PromptBetAsWritten`.

## Findings

| source | as written | input that shows it | evidently intended | confidence | as-written member | corrected member |
|---|---|---|---|---|---|---|
| main.py:79 | `self.score += 10` assigns to `score`, a property without a setter, so `ace_score` raises `AttributeError` whenever an Ace should be raised to 11 | a hand of A and K (raw 11) | add 10 to a local running total that starts at `score` and return it | high, not executed | Hands.AceScoreAsWrittenRaises | Hands.AceScore |
| main.py:98 | the retry `self.place_bet()` drops the value the inner call returns, so `place_bet` returns `None` although the inner call took the new amount from the chips; `play` stores that `None` as `player_bet` (main.py:224), so a later win raises `TypeError` at `2 * self.player_bet` (main.py:171) and a draw raises at `player.chips += self.player_bet` (main.py:180) | 1000 chips, type 2000 and then 10: chips become 990 and the returned stake is `None` | `return self.place_bet()` | high, not executed | Blackjack.RetriedBetAsWritten | Blackjack.PromptBet |
