/**
 * `Player` of player.py: a seat's chips, its bets in the current hand, its
 * hole cards and its status flags, all updated in place by the game.
 *
 * Every successful bet moves chips from `chips` to `totalBet` (so their sum
 * is constant between two `ResetHand`s), chips never go negative, and a
 * hand never holds more than two cards.
 */
module Players {
  import opened Cards

  class Player {
    var hand: seq<Card>
    var chips: int
    /** The chips put in by the last bet of the current betting round. */
    var bet: int
    /** The chips put in during the whole hand. */
    var totalBet: int
    var folded: bool
    var allIn: bool
    var isActive: bool
    var showCards: bool

    ghost predicate Valid()
      reads this
    {
      chips >= 0 && |hand| <= 2
    }

    /** `Player.__init__` with `chips` chips: no cards, no bets, active. */
    constructor (chips: int)
      requires chips >= 0
      ensures Valid()
      ensures this.chips == chips && hand == [] && bet == 0 && totalBet == 0
      ensures !folded && !allIn && isActive && !showCards
    {
      this.chips := chips;
      hand := [];
      bet := 0;
      totalBet := 0;
      folded := false;
      allIn := false;
      isActive := true;
      showCards := false;
    }

    /** `reset_hand`: a fresh hand for the same chips. */
    method ResetHand()
      requires Valid()
      modifies this
      ensures Valid()
      ensures hand == [] && bet == 0 && totalBet == 0
      ensures !folded && !allIn && isActive && !showCards
      ensures chips == old(chips)
    {
      hand := [];
      bet := 0;
      totalBet := 0;
      folded := false;
      allIn := false;
      isActive := true;
      showCards := false;
    }

    /** `add_card`: accepted only while fewer than two cards are held. */
    method AddCard(c: Card) returns (ok: bool)
      requires Valid()
      modifies this`hand
      ensures Valid()
      ensures ok <==> old(|hand|) < 2
      ensures hand == if ok then old(hand) + [c] else old(hand)
    {
      if |hand| < 2 {
        hand := hand + [c];
        ok := true;
      } else {
        ok := false;
      }
    }

    /** `can_bet`: a player who has not folded may bet up to all of their chips. */
    predicate CanBet(amount: int)
      reads this
    {
      !folded && amount <= chips
    }

    /**
     * `make_bet`: when `CanBet(amount)`, move `amount` chips (which is then
     * `min(amount, chips)`) to the bet, and set `allIn` once the stack is
     * empty (it is never cleared here); otherwise change nothing.
     */
    method MakeBet(amount: int) returns (ok: bool)
      requires Valid()
      modifies this`chips, this`bet, this`totalBet, this`allIn
      ensures Valid()
      ensures ok == old(CanBet(amount))
      ensures ok ==>
        && chips == old(chips) - amount && bet == amount && totalBet == old(totalBet) + amount
        && allIn == (old(allIn) || chips == 0)
      ensures !ok ==> chips == old(chips) && bet == old(bet) && totalBet == old(totalBet) && allIn == old(allIn)
      ensures chips + totalBet == old(chips + totalBet)
    {
      if !CanBet(amount) {
        return false;
      }
      var actual := if amount < chips then amount else chips;
      chips := chips - actual;
      bet := actual;
      totalBet := totalBet + actual;
      if chips == 0 {
        allIn := true;
      }
      ok := true;
    }

    /** `fold`: out of the hand; chips and bets are untouched. */
    method Fold()
      modifies this`folded, this`isActive, this`showCards
      ensures folded && !isActive && !showCards
    {
      folded := true;
      isActive := false;
      showCards := false;
    }

    /**
     * `call`: bring `totalBet` up to `currentBet`. Already level is a
     * success that bets nothing; above it is a failure.
     */
    method Call(currentBet: int) returns (ok: bool)
      requires Valid()
      modifies this`chips, this`bet, this`totalBet, this`allIn
      ensures Valid()
      ensures var needed := currentBet - old(totalBet);
        && (needed > 0 ==> ok == old(CanBet(needed)))
        && (needed == 0 ==> ok)
        && (needed < 0 ==> !ok)
      ensures ok && old(totalBet) < currentBet ==>
        && totalBet == currentBet && chips == old(chips) - (currentBet - old(totalBet))
        && bet == currentBet - old(totalBet) && allIn == (old(allIn) || chips == 0)
      ensures !(ok && old(totalBet) < currentBet) ==>
        chips == old(chips) && totalBet == old(totalBet) && bet == old(bet) && allIn == old(allIn)
      ensures chips + totalBet == old(chips + totalBet)
    {
      var needed := currentBet - totalBet;
      if needed > 0 {
        ok := MakeBet(needed);
      } else if needed == 0 {
        ok := true;
      } else {
        ok := false;
      }
    }

    /**
     * `raise_bet`: bring `totalBet` up to `currentBet + amount`; a target not
     * above what is already in is a failure.
     */
    method RaiseBet(amount: int, currentBet: int) returns (ok: bool)
      requires Valid()
      modifies this`chips, this`bet, this`totalBet, this`allIn
      ensures Valid()
      ensures var needed := currentBet + amount - old(totalBet);
        ok == (needed > 0 && old(CanBet(needed)))
      ensures ok ==>
        && totalBet == currentBet + amount && bet == currentBet + amount - old(totalBet)
        && allIn == (old(allIn) || chips == 0)
      ensures !ok ==> chips == old(chips) && totalBet == old(totalBet) && bet == old(bet) && allIn == old(allIn)
      ensures chips + totalBet == old(chips + totalBet)
    {
      var needed := currentBet + amount - totalBet;
      if needed > 0 {
        ok := MakeBet(needed);
      } else {
        ok := false;
      }
    }
  }
}
