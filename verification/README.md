# Texas hold'em engine: a Dafny model

This project models the game engine of a small Texas hold'em program. The
program is written in Python. The model covers four parts:

- **Cards** (`cards.dfy`, module `Cards`): the `Suit` and `Rank`
  enumerations of `deck.py`, `Rank.value_int`, and the pure parts of
  `Card`: `value`, `get_color` and `__str__`.
- **Deck** (`deck.dfy`, module `Decks`): the `Deck` class. `reset` builds
  the 52 cards and shuffles them, `draw` pops from the end and turns the
  card face up, and `__len__` counts what is left. A ghost `drawn` list
  records every card drawn since the last `reset`. This is what lets the
  model prove that no card comes out twice.
- **Player** (`player.py` → `player.dfy`, module `Players`): the `Player`
  class. Its fields are updated in place: `reset_hand`, `add_card`,
  `can_bet`, `make_bet`, `fold`, `call` and `raise_bet`.
- **Hand evaluation and the table** (`game_logic.py`):
  - `hands.dfy` (module `Hands`) holds `HandRank`, `PokerHand.evaluate_hand`,
    `_find_straight` and `compare` as pure functions. Lemmas state what each
    category's tie-break list means in terms of the cards.
  - `game.dfy` (module `Games`) holds the `PokerGame` class: blinds, the
    round-complete test, phase changes, player actions, turn order,
    starting a hand and the showdown payout.

The model keeps these behaviours of the program as written:

- `_post_blinds` sets the pot to 30 whether or not the blinds were paid.
- The minimum-raise test compares the raise itself with the current bet.
- A player is recorded as having acted before a refused check.
- In `player_action`, a `call` from a player already at or above the
  current bet succeeds without paying. `Player.call` on its own refuses a
  player above the bet.
- With nobody left in the hand, each seat gets `pot // n` and the
  remainder is lost.
- `determine_winner` does not reset the pot.
- The wheel A-2-3-4-5 is reported even when a six is present as well, and
  the wheel within one suit is a royal flush.
- With two values held three times and none held twice, the lower one is
  kept and the hand is three of a kind, not a full house.

The shuffle is the only randomness. `random.shuffle` is modelled as the
Fisher-Yates pass it performs, and the random positions it would pick are
a parameter `picks`.

## Model

| member | source | states |
|---|---|---|
| Cards.RankValue | deck.py:27-36 | `value_int` lies in 2..14 and is 14 exactly for the ace |
| Cards.RankAt | deck.py:12-25 | the k-th rank in declaration order has value k + 2 |
| Cards.SuitAt | deck.py:5-9 | the k-th suit in declaration order has index k |
| Cards.RankValueBijective | deck.py:27-36 | `value_int` is injective on ranks and `RankAt` inverts it |
| Cards.SuitIndexBijective | deck.py:5-9 | suit positions are injective and `SuitAt` inverts them |
| Cards.Value | deck.py:60-63 | `Card.value` is the rank's `value_int`, within 2..14 |
| Cards.GetColor | deck.py:65-69 | red (200, 0, 0) exactly for hearts and diamonds, black (0, 0, 0) otherwise |
| Cards.Show | deck.py:52-55 | a face-down card prints "XX"; a face-up card ends with its suit symbol |
| Cards.ShowIdentifiesCard | deck.py:52-55 | two face-up cards print alike exactly when they have the same rank and suit, and never as "XX" |
| Decks.FreshDeckIsComplete | deck.py:77-82 | the 52 cards `reset` appends are pairwise different and include every rank and suit, face down |
| Decks.SwapKeepsDistinct | deck.py:85-87 | a shuffle step (swapping two positions) keeps the cards pairwise different |
| Decks.Deck.constructor | deck.py:73-75 | a new deck is a valid full deck: a permutation of the 52 fresh cards, nothing drawn |
| Decks.Deck.Reset | deck.py:77-83 | after `reset` the deck holds 52 cards, a permutation of the fresh deck with every card present, and nothing counts as drawn |
| Decks.Deck.Shuffle | deck.py:85-87 | shuffling permutes the cards: same multiset, same length, still pairwise different and face down |
| Decks.Deck.Draw | deck.py:89-95 | empty deck: None and no change; otherwise the last card is removed and returned face up, and it was never drawn before since the last `reset` |
| Decks.Deck.Length | deck.py:97-98 | `len` is 52 minus the cards drawn since `reset` |
| Players.Player.constructor | player.py:2-13 | a new player holds `chips`, no cards, no bets, and is active and not folded |
| Players.Player.ResetHand | player.py:15-23 | empty hand, zero bets, flags cleared, active, chips unchanged |
| Players.Player.AddCard | player.py:25-30 | accepts the card exactly when fewer than two are held, so a hand never exceeds two cards |
| Players.Player.MakeBet | player.py:32-53 | succeeds exactly when `can_bet`; moves `amount` from chips to the bets, sets `bet`, sets `all_in` once the chips reach 0, else changes nothing; chips plus total bet is constant and chips stay non-negative |
| Players.Player.Fold | player.py:55-59 | folded, inactive, cards hidden; chips and bets untouched |
| Players.Player.Call | player.py:61-68 | short of the current bet: bets the difference if it can, the round's bet becoming that difference and the player all-in once the stack is empty; level: succeeds without betting; above: fails; whenever nothing is paid, chips, bets and the all-in flag are unchanged; chips plus total bet is constant |
| Players.Player.RaiseBet | player.py:70-75 | succeeds exactly when the target is above what is in and affordable, and then the total bet is `currentBet + amount`, the round's bet is what was added and the player is all-in once the stack is empty; on refusal chips, bets and the all-in flag are unchanged |
| Hands.Strength | game_logic.py:7-17 | the `HandRank` values lie in 1..10 |
| Hands.StrengthInjective | game_logic.py:7-17 | distinct categories have distinct values |
| Hands.SortDesc | game_logic.py:41 | `sorted(..., reverse=True)` returns a permutation in non-increasing order |
| Hands.SortDescOfSorted | game_logic.py:57 | sorting an already sorted list returns it unchanged (`pairs.sort`) |
| Hands.Distinct | game_logic.py:99 | `sorted(set(values), reverse=True)` is strictly decreasing and holds exactly the values present |
| Hands.Without | game_logic.py:70 | `[v for v in s if v != x]` removes every `x` and keeps every other value as often as before |
| Hands.MaxOf | game_logic.py:70 | `max` returns a member that no member exceeds |
| Hands.TopOfSortDesc | game_logic.py:84 | the first `n` of a list sorted descending are its `n` largest values |
| Hands.FindStraightMeaning | game_logic.py:98-107 | the wheel `[5, 4, 3, 2, 14]` whenever A, 2, 3, 4, 5 are present; otherwise a straight exactly when five consecutive values are present, and then the highest such run, highest first |
| Hands.WindowMeaning | game_logic.py:104-107 | the scan over strictly decreasing distinct values finds a window exactly when a run of five exists, and it finds the highest one |
| Hands.WheelShadowsSix | game_logic.py:101-102 | with A, 2-6 present the wheel is returned although a six-high run exists |
| Hands.FindStraightSameValues | game_logic.py:98-107 | `_find_straight` depends only on which values are present |
| Hands.SortCards | game_logic.py:22 | the stable sort by value is a permutation of the cards, strongest first |
| Hands.SortCardsValues | game_logic.py:22 | sorting the cards permutes their values |
| Hands.SuitValuesPermutation | game_logic.py:61-62 | the values of one suit are the same multiset whatever the card order |
| Hands.FlushSuitMeaning | game_logic.py:33-38 | the flush suit is held by at least five cards, and there is none only when every suit is held by fewer |
| Hands.LastWithCount | game_logic.py:49-55 | the value left in `three_of_a_kind` / `four_of_a_kind` has that count and is the lowest such value |
| Hands.WithCount | game_logic.py:49-51 | `pairs` holds exactly the values counted twice, descending |
| Hands.StraightFlushHand | game_logic.py:64-67 | royal flush exactly when the flush straight's maximum is 14, else straight flush, keyed by that straight |
| Hands.QuadsHand | game_logic.py:69-71 | `[q, q, q, q, k]` with `k` the largest value other than `q` |
| Hands.FullHouseHand | game_logic.py:73-74 | `[t, t, t, p, p]` with `p` the largest pair |
| Hands.FlushHandTop | game_logic.py:76-78 | the flush key is the suit's five largest values |
| Hands.TripsHandTop | game_logic.py:83-85 | the trips kickers are the two largest other values |
| Hands.TwoPairHandTop | game_logic.py:87-90 | the two-pair kicker is the largest value outside both pairs |
| Hands.PairHandTop | game_logic.py:92-94 | the pair kickers are the three largest other values |
| Hands.HighCardHandTop | game_logic.py:96 | the high-card key is the five largest values |
| Hands.Analyze | game_logic.py:30-57 | the analysis is well formed and holds the cards sorted strongest first with their values |
| Hands.AnalyzeDescribes | game_logic.py:30-57 | the analysis describes the cards: `AnalyzeCounts` and `AnalyzeStraights` together |
| Hands.AnalyzeCounts | game_logic.py:40-57 | pairs, trips and quads of the analysis are exactly the values counted 2, 3 and 4 times (trips and quads the lowest such) |
| Hands.AnalyzeStraights | game_logic.py:33-43 | the analysis holds `_find_straight` of all values and, with a flush suit and a straight, of the suit's values |
| Hands.Classify | game_logic.py:59-96 | every branch of the cascade yields a five-entry tie-break list |
| Hands.ClassifyRank | game_logic.py:59-96 | the category `Classify` returns is the first branch of the cascade that applies |
| Hands.RankFloor | game_logic.py:59-96 | each ingredient the cascade tests puts a floor under the category |
| Hands.MaxIsTop | game_logic.py:70 | `max(s)` is the single largest value of `s` |
| Hands.Take | game_logic.py:84 | the slice `s[:n]`: a prefix of length `min(n, len(s))` |
| Hands.TakeSortedIsTop | game_logic.py:96 | the first `n` of a list sorted descending are its `n` largest values |
| Hands.FindStraight | game_logic.py:98-107 | a straight, when found, has five values |
| Hands.WindowShape | game_logic.py:104-106 | a window the loop returns is five consecutive values, all present |
| Hands.WindowFindsFirst | game_logic.py:104-106 | the loop returns a window at or above any window that exists further on |
| Hands.StraightShape | game_logic.py:98-107 | a straight is the wheel or five consecutive values from a present top value |
| Hands.StraightTopIsAce | game_logic.py:64-66 | for card values, a straight's maximum is 14 exactly when it contains 14 |
| Hands.SuitValuesMembers | game_logic.py:61-62 | a value is among a suit's values exactly when a card of that suit has it |
| Hands.SuitValuesSorted | game_logic.py:61-62 | from cards sorted strongest first, a suit's values come out sorted |
| Hands.FlushSuitFrom | game_logic.py:33-38 | the first suit in card order counted five times, or none when no suit in that order is |
| Hands.CountsOfSorted | game_logic.py:40-47 | the value counts of the sorted cards are those of the cards as given |
| Hands.FlushHand | game_logic.py:76-78 | the flush hand has five entries |
| Hands.TripsHand | game_logic.py:83-85 | `[t, t, t]` followed by two kickers |
| Hands.TwoPairHand | game_logic.py:87-90 | `[p0, p1, p0, p1]` followed by a kicker |
| Hands.TopPairs | game_logic.py:88-89 | with `pairs` descending, `sorted(pairs, reverse=True)[:2]` is its first two, and removing both leaves all but four cards |
| Hands.PairHand | game_logic.py:92-94 | `[p, p]` followed by three kickers |
| Hands.HighCardHand | game_logic.py:96 | high card with five entries |
| Hands.TopTwoPairs | game_logic.py:87-89 | the first two entries of `pairs` are the two highest values held twice |
| Hands.OnlyPair | game_logic.py:92-93 | with one entry in `pairs`, it is the only value held twice |
| Hands.PairsCounted | game_logic.py:49-51 | two values held twice give at least two pairs, one gives at least one |
| Hands.ClassifyStraightFlush | game_logic.py:60-67 | straight or royal flush exactly when a flush-suit straight was found |
| Hands.ClassifyQuads | game_logic.py:69-71 | four of a kind only without a straight flush and with `four_of_a_kind` set |
| Hands.ClassifyFullHouse | game_logic.py:73-74 | full house only with trips and a pair and nothing stronger |
| Hands.ClassifyFlush | game_logic.py:76-78 | flush only with a flush suit and nothing stronger |
| Hands.ClassifyStraight | game_logic.py:80-81 | straight only with a straight, no flush suit and nothing stronger |
| Hands.ClassifyTrips | game_logic.py:83-85 | three of a kind only with trips, no pair, and nothing stronger |
| Hands.ClassifyTwoPair | game_logic.py:87-90 | two pair only with two pairs and nothing stronger |
| Hands.ClassifyPair | game_logic.py:92-94 | one pair only with exactly one pair and nothing stronger |
| Hands.ClassifyHighCard | game_logic.py:96 | high card only when nothing else applies |
| Hands.Evaluate | game_logic.py:25-28 | fewer than five cards: high card with all values; five or more: a five-entry list |
| Hands.EvaluateFewCards | game_logic.py:27-28 | with fewer than five cards the key is all card values in descending order |
| Hands.EvaluateAtLeast | game_logic.py:59-96 | a hand is never rated below a combination it holds (quads, full house, flush, straight, trips, two pair, pair) |
| Hands.EvaluateStraightFlush | game_logic.py:60-67 | straight or royal flush exactly when there is a flush suit, a straight and a straight in that suit; royal exactly when that straight contains 14 |
| Hands.WheelFlushIsRoyal | game_logic.py:64-66 | the wheel in the flush suit is reported as a royal flush `[5, 4, 3, 2, 14]` |
| Hands.EvaluateQuads | game_logic.py:69-71 | four of a kind: four cards of `q` (the lowest such) and the largest other value as kicker |
| Hands.EvaluateFullHouse | game_logic.py:73-74 | full house: the lowest value held three times and the highest held twice; none without a value held twice |
| Hands.EvaluateFlush | game_logic.py:76-78 | flush: the five largest values of a suit held five times, with no quads and no full house |
| Hands.EvaluateStraight | game_logic.py:80-81 | straight: the straight found among all values, with no flush suit, no quads and no full house |
| Hands.EvaluateTrips | game_logic.py:83-85 | three of a kind: the lowest value held three times and the two largest others; no value held twice or four times, no flush, no straight |
| Hands.EvaluateTwoPair | game_logic.py:87-90 | two pair: the two highest pairs, higher first, and the largest card outside both; no set, no flush, no straight |
| Hands.EvaluatePair | game_logic.py:92-94 | pair: the only value held twice and the three largest others; no set, no flush, no straight |
| Hands.EvaluateHighCard | game_logic.py:96 | high card: the five largest values, with no repeated value, no flush and no straight |
| Hands.CompareKeys | game_logic.py:118-123 | the `zip` loop returns -1, 0 or 1 |
| Hands.CompareKeysMeaning | game_logic.py:118-123 | 1 exactly when the first list wins lexicographically, -1 when the second does, 0 when they agree over their common length |
| Hands.CompareKeysAntisymmetric | game_logic.py:118-123 | swapping the lists negates the result |
| Hands.CompareKeysTransitive | game_logic.py:118-123 | lexicographic "greater" is transitive |
| Hands.CompareKeysZero | game_logic.py:118-123 | lists of equal length tie exactly when equal |
| Hands.Compare | game_logic.py:109-123 | `compare` returns -1, 0 or 1 |
| Hands.CompareMeaning | game_logic.py:109-123 | the category decides first, then the tie-break lists lexicographically |
| Hands.CompareReflexive | game_logic.py:109-123 | `compare(h, h) == 0` |
| Hands.CompareAntisymmetric | game_logic.py:109-123 | `compare(a, b) == -compare(b, a)` |
| Hands.CompareTransitive | game_logic.py:109-123 | beating is transitive |
| Hands.CompareZero | game_logic.py:109-123 | hands with lists of equal length tie exactly when equal |
| Hands.CompareNotAboveBeaten | game_logic.py:378-383 | a hand not above `b` is not above a hand that beats `b`, so dropping earlier ties is safe |
| Games.PhaseIndex | game_logic.py:229 | the phase position lies in 0..4 |
| Games.Advance | game_logic.py:236-238 | the next phase is exactly one step further |
| Games.AdvanceInjective | game_logic.py:236-238 | each later phase is entered from exactly one phase |
| Games.BoardSizes | game_logic.py:246-256 | cards are dealt exactly on entering flop, turn and river, five in all |
| Games.Unfolded | game_logic.py:354 | the survivors are exactly the listed players who have not folded, without repetition |
| Games.ActiveOnes | game_logic.py:182 | `[p for p in players if p.is_active]` keeps exactly the active players |
| Games.ActiveOnesDistinct | game_logic.py:182 | filtering a list without repeats gives a list without repeats |
| Games.ActiveOnesAll | game_logic.py:182 | when every player is active, the filter keeps the whole list in order |
| Games.Remove | game_logic.py:286-287 | `list.remove` drops the player and keeps everyone else |
| Games.RemoveAbsent | game_logic.py:286 | the `if player in self.active_players` guard: removing a player who is not listed changes nothing |
| Games.HandsOfAt | game_logic.py:370-372 | a survivor's hand is its hole cards with the board, evaluated |
| Games.HandsOfKeys | game_logic.py:370-372 | with two hole cards and at least three board cards every tie-break list has five entries |
| Games.Scan | game_logic.py:367-383 | the loop's best hand is one of the hands, and the kept positions are increasing and within range |
| Games.ScanStep | game_logic.py:378-383 | one step of the loop: a better hand restarts the winners, a tie joins them, a worse hand is dropped |
| Games.ScanBestIsMax | game_logic.py:367-383 | no hand beats the best one the loop ends with |
| Games.ScanTiedAreBest | game_logic.py:367-383 | with equal-length lists the kept hands are exactly those equal to the best |
| Games.PickDistinct | game_logic.py:367-383 | distinct survivors picked at increasing positions are distinct winners |
| Games.BestHands | game_logic.py:367-383 | the comparison loop returns the survivors at the positions `Scan` keeps, at least one, all distinct |
| Games.SharesSumToPot | game_logic.py:385-392 | the winners' shares add up to exactly the pot |
| Games.EvenSplitShortfall | game_logic.py:360-365 | with nobody left the seats get the pot less `pot % n` in total, strictly less when `n` does not divide it |
| Games.SeatAfter | game_logic.py:183 | the seat `j` places on, within the table |
| Games.Steps | game_logic.py:339-340 | the steps from seat `a` to seat `b`, 1 to `n`, landing on `b` |
| Games.SmallBlindSeat | game_logic.py:198 | the small blind sits within the table and apart from the big blind |
| Games.BigBlindSeat | game_logic.py:199 | the big blind sits within the table |
| Games.Settle | game_logic.py:284-331 | the betting rules: the refusals and what each accepted move pays and does to the current bet, including the minimum-raise test and the all-in reopening only above the bet |
| Games.PokerGame.constructor | game_logic.py:127-147 | `n` seats of 1000 chips, no cards, no bets, not folded, not all-in, cards hidden, all active; empty board, zero pot and bet, preflop |
| Games.PokerGame.RoundComplete | game_logic.py:212-226 | true exactly when at most one player is still in, or all still in have acted and either nobody bet or all match the current bet |
| Games.PokerGame.NextPlayer | game_logic.py:333-347 | None exactly when nobody may act; otherwise the first seat after the current one whose player may act |
| Games.PokerGame.PlayerAction | game_logic.py:278-331 | a folded or inactive player is refused with no change; otherwise the player is marked as acted and the move settles as `Settle` says (`Settled`: chips, bets, pot and current bet; folded and cards hidden exactly on a fold; all-in once a bet empties the stack; hole cards untouched); pot plus all stacks is constant |
| Games.PokerGame.Move | game_logic.py:282-331 | the accepted branch of `player_action`: settles as `Settled` says, including the fold, all-in and shown-cards flags, and a fold leaves the active list |
| Games.PokerGame.CallBet | game_logic.py:296-303 | the call branch settles as `Settle(Call)`, with the all-in flag set once the stack is empty |
| Games.PokerGame.RaiseBet | game_logic.py:305-320 | the raise branch settles as `Settle(Raise)`, with the all-in flag set once the stack is empty |
| Games.PokerGame.GoAllIn | game_logic.py:322-329 | the all-in branch settles as `Settle(AllIn)`: the whole stack goes in and the player is all-in |
| Games.PokerGame.PostBlind | game_logic.py:201-207 | one blind: the seat bets the amount if it can (its chips, total bet and round bet move by it, and it is all-in once the stack is empty) and is marked as acted either way |
| Games.PokerGame.PostBlinds | game_logic.py:194-210 | below two seats nothing changes; otherwise the two seats after the dealer post what they can (`PaidIn`: chips, total bet, round bet and all-in flag), the bet becomes 20 and the pot 30, and nobody else changes |
| Games.PokerGame.ClearBets | game_logic.py:243-244 | every active player's round bet is zeroed |
| Games.PokerGame.DealBoard | game_logic.py:246-256 | the board gains the next `k` cards drawn from the deck's end, face up |
| Games.PokerGame.RevealHands | game_logic.py:258-262 | at the showdown every active player still in shows their cards and the others keep theirs as they were (`Revealed`) |
| Games.PokerGame.OpenRound | game_logic.py:265-272 | the round starts at the first seat after the dealer whose player may act, or nothing changes |
| Games.PokerGame.BeginPhase | game_logic.py:236-256 | the next phase begins with no bet, nobody acted, round bets zeroed and its cards dealt |
| Games.PokerGame.NextPhase | game_logic.py:228-276 | at the showdown nothing changes and the result is false; otherwise one step forward, betting cleared, cards dealt, then the hands shown or the next round opened |
| Games.PokerGame.ResetSeats | game_logic.py:170-171 | `reset_hand` for every seat |
| Games.PokerGame.DealSeat | game_logic.py:174-178 | an active seat draws the last card of the deck, face up, and keeps it when holding fewer than two; an inactive seat or an empty deck changes nothing |
| Games.PokerGame.DealRound | game_logic.py:174-178 | one deal round: seat `i` receives the `i`-th card drawn in the round |
| Games.PokerGame.DealHoleCards | game_logic.py:173-178 | seat `i` receives the `i`-th and the `(n + i)`-th card drawn |
| Games.PokerGame.SkipUnseated | game_logic.py:186-192 | the turn moves past folded or inactive seats to the first seated one, or stays at the start after a full lap |
| Games.PokerGame.ClearTable | game_logic.py:150-171 | board, pot, bet, phase and acted set reset, a full reshuffled deck, every seat reset with its chips |
| Games.PokerGame.OpenFirstRound | game_logic.py:182-192 | everyone is listed active, the round starts three seats after the dealer, and the turn goes to the first seated player from there |
| Games.PokerGame.ResetAndDeal | game_logic.py:150-178 | a cleared table with every seat reset (no bets, not folded, not all-in, cards hidden, active, chips kept) and dealt two cards |
| Games.PokerGame.PostAndOpen | game_logic.py:180-192 | blinds posted as `PostBlinds` (`PaidIn` for every seat), then the round opened as `OpenFirstRound` |
| Games.PokerGame.StartNewHand | game_logic.py:149-192 | fresh board, pot and phase; seats reset and dealt; blinds posted from the fresh stacks, each seat's chips, bets and all-in flag as `PaidIn` from zero bets; everyone active; the turn at the third seat after the dealer |
| Games.PokerGame.ShowHands | game_logic.py:350-352 | the same reveal as `RevealHands` (`Revealed`), and nothing but `showCards` changes |
| Games.PokerGame.SplitEvenly | game_logic.py:360-365 | with nobody left every seat gets `pot // n` |
| Games.PokerGame.Credit | game_logic.py:357 | one seat's chips grow by the amount |
| Games.PokerGame.DetermineWinner | game_logic.py:349-394 | the cards are shown; a lone survivor takes the pot; with none every seat gets `pot // n`; otherwise the survivors `Scan` keeps split the pot, the first also taking the remainder; nobody else's chips change |
| Games.PokerGame.Award | game_logic.py:354-392 | the three payout cases of `determine_winner` for given survivors; with one or more, nobody outside the winners gains or loses chips (`ChipsKept`) |
| Games.PokerGame.AwardSurvivors | game_logic.py:355-392 | with at least one survivor: a lone one takes the pot, otherwise `SplitPot`; survivors who do not win keep their chips |
| Games.PokerGame.SplitPot | game_logic.py:367-392 | the winners are those `Scan` keeps and each takes its `Share`; other survivors are unchanged |
| Games.PokerGame.Payout | game_logic.py:385-392 | each winner gains `pot // k`, the first also `pot % k` |

## Left out

- The dealer object and its keys are not part of this model. `game_logic.py` imports a `Dealer` from `deck.py`, which does not define one, and calls `player.decrypt_card`, which `player.py` does not define. The model deals with `Deck.Draw` followed by `Player.AddCard`, and `initial_shuffle` is `Deck.Reset`.
- The public-key exchange and all `print` output of `start_new_hand` are left out. They do not change the game state.
- encryption_protocol.py is not part of this model. It wraps a cryptography library.
- The user interface (ui.py, main.py, styles.py) is not part of this model.
- `random.shuffle` is a Fisher-Yates pass driven by the parameter `picks` instead of a random source.
- A card's screen position (`x`, `y`) and `Card.__repr__` are left out. A card is a value: the program never shares one card between two places.
- A player's `name`, `position` and `is_turn` are left out. The engine never reads them.
- `Player.get_hand_string` and `Player.__str__` are left out; they only format text.
- `next_phase`'s fallback for an unknown phase name is left out, because the phase is an enumeration here and cannot be unknown.
- Games.PokerGame.constructor: requires at least one seat. With none, `start_new_hand` divides by the seat count.
- Games.PokerGame.DetermineWinner: pays out before marking the cards shown. The source shows first. The two steps write different fields and neither reads what the other writes, so the final state is the same.
- Games.BestHands: evaluates every survivor's hand before the comparison loop. The source evaluates each one inside the loop; the hands and the comparisons are the same.
- Games.PokerGame.PlayerAction: states conservation of the pot plus all stacks for a single action. It is not stated for a whole hand, because the blinds (pot set to 30) and the no-survivor split (remainder lost) do not conserve chips.
- Cards.Show: states "XX" for a face-down card and the suit symbol at the end of a face-up card's text. The rank part is given by the definition; ShowIdentifiesCard states that the text identifies the card.

## Findings

None of the source's oddities is treated as a bug here; the program's behaviour is kept and proved as written. The points worth knowing are listed at the top (pot set to 30, minimum raise against the current bet, remainder lost with no survivors, wheel before higher straights, lower of two trips kept).
