/**
 * `PokerGame` of game_logic.py: one table's betting state (pot, current
 * bet, phase, who is still in, who has acted, whose turn it is) and the
 * operations that move a hand from the blinds to the showdown.
 *
 * The dealer object the source uses is not part of this model: its deck is
 * a `Deck`, its shuffle is `Deck.Reset` and every card it hands out is a
 * `Deck.Draw`. Three behaviours of the source are kept as written:
 * `_post_blinds` sets the pot to 30 whether or not the blinds could be
 * paid, the minimum raise compares the raise against the current bet, and
 * when nobody is left at the showdown the pot is split over all seats and
 * the remainder disappears.
 */
module Games {
  import opened Cards
  import opened Wrappers
  import opened Hands
  import opened Decks
  import opened Players

  const SmallBlind := 10
  const BigBlind := 20
  const StartingChips := 1000

  // ---------------------------------------------------------------------
  // Phases
  // ---------------------------------------------------------------------

  datatype Phase = Preflop | Flop | Turn | River | Showdown

  /** The position of a phase in `["preflop", "flop", "turn", "river", "showdown"]`. */
  function PhaseIndex(p: Phase): (i: nat)
    ensures i <= 4
  {
    match p
    case Preflop => 0
    case Flop => 1
    case Turn => 2
    case River => 3
    case Showdown => 4
  }

  /** The phase after `p`. */
  function Advance(p: Phase): (q: Phase)
    requires p != Showdown
    ensures PhaseIndex(q) == PhaseIndex(p) + 1
  {
    match p
    case Preflop => Flop
    case Flop => Turn
    case Turn => River
    case River => Showdown
  }

  /** Each phase after the first is entered from exactly one phase. */
  lemma AdvanceInjective(p: Phase, q: Phase)
    requires p != Showdown && q != Showdown
    ensures Advance(p) == Advance(q) <==> p == q
  {
  }

  /** How many community cards are drawn on entering a phase. */
  function CardsOn(p: Phase): nat
  {
    match p
    case Flop => 3
    case Turn => 1
    case River => 1
    case _ => 0
  }

  /** Advancing from the start, the board holds 0, 3, 4, 5 and 5 cards in the five phases. */
  lemma BoardSizes(p: Phase)
    ensures PhaseIndex(p) >= 3 ==> CardsOn(Flop) + CardsOn(Turn) + CardsOn(River) == 5
    ensures CardsOn(p) > 0 <==> p in {Flop, Turn, River}
  {
  }

  // ---------------------------------------------------------------------
  // Player lists
  // ---------------------------------------------------------------------

  ghost predicate AllDifferent<T>(s: seq<T>)
  {
    forall i, j :: 0 <= i < j < |s| ==> s[i] != s[j]
  }

  /** `[p for p in ps if not p.folded]`. */
  function Unfolded(ps: seq<Player>): (r: seq<Player>)
    reads ps`folded
    ensures forall i :: 0 <= i < |r| ==> r[i] in ps && !r[i].folded
    ensures forall i :: 0 <= i < |ps| && !ps[i].folded ==> ps[i] in r
    ensures AllDifferent(ps) ==> AllDifferent(r)
    ensures |r| <= |ps|
  {
    if ps == [] then []
    else
      var rest := Unfolded(ps[1..]);
      assert forall p :: p in ps[1..] ==> p in ps;
      if ps[0].folded then rest else [ps[0]] + rest
  }

  /** Every player in `ps` is active. */
  ghost predicate AllActive(ps: seq<Player>)
    reads ps`isActive
  {
    forall i :: 0 <= i < |ps| ==> ps[i].isActive
  }

  /** `[p for p in ps if p.is_active]`. */
  function ActiveOnes(ps: seq<Player>): (r: seq<Player>)
    reads ps`isActive
    ensures forall i :: 0 <= i < |r| ==> r[i] in ps && r[i].isActive
    ensures forall i :: 0 <= i < |ps| && ps[i].isActive ==> ps[i] in r
  {
    if ps == [] then []
    else
      var rest := ActiveOnes(ps[1..]);
      assert forall p :: p in ps[1..] ==> p in ps;
      if ps[0].isActive then [ps[0]] + rest else rest
  }

  /** Filtering for the active keeps a list free of repeats. */
  lemma {:induction false} ActiveOnesDistinct(ps: seq<Player>)
    requires AllDifferent(ps)
    ensures AllDifferent(ActiveOnes(ps))
  {
    if ps != [] {
      var tail := ps[1..];
      assert AllDifferent(tail) by {
        forall i, j | 0 <= i < j < |tail| ensures tail[i] != tail[j] {
          assert tail[i] == ps[i + 1] && tail[j] == ps[j + 1];
        }
      }
      ActiveOnesDistinct(tail);
      assert ps[0] !in tail by {
        forall i | 0 <= i < |tail| ensures tail[i] != ps[0] {
          assert tail[i] == ps[i + 1];
        }
      }
    }
  }

  /** When everybody is active, filtering for the active keeps the whole list. */
  lemma {:induction false} ActiveOnesAll(ps: seq<Player>)
    requires AllActive(ps)
    ensures ActiveOnes(ps) == ps
  {
    if ps != [] {
      var tail := ps[1..];
      assert AllActive(tail) by {
        forall i | 0 <= i < |tail| ensures tail[i].isActive {
          assert tail[i] == ps[i + 1];
        }
      }
      ActiveOnesAll(tail);
      assert ps == [ps[0]] + tail;
    }
  }


  /** `ps` with its first occurrence of `p` removed, as `list.remove` does. */
  function Remove(ps: seq<Player>, p: Player): (r: seq<Player>)
    ensures forall i :: 0 <= i < |r| ==> r[i] in ps
    ensures AllDifferent(ps) ==> AllDifferent(r) && p !in r
    ensures forall i :: 0 <= i < |ps| && ps[i] != p ==> ps[i] in r
    ensures p in ps ==> |r| == |ps| - 1
  {
    if ps == [] then []
    else
      assert forall i :: 0 <= i < |ps[1..]| ==> ps[1..][i] == ps[i + 1];
      assert AllDifferent(ps) ==> AllDifferent(ps[1..]) && ps[0] !in ps[1..];
      if ps[0] == p then ps[1..]
      else [ps[0]] + Remove(ps[1..], p)
  }

  /** Removing a player who is not in the list leaves it as it was. */
  lemma {:induction false} RemoveAbsent(ps: seq<Player>, p: Player)
    requires p !in ps
    ensures Remove(ps, p) == ps
  {
    if ps != [] {
      assert p !in ps[1..] by {
        forall i | 0 <= i < |ps[1..]| ensures ps[1..][i] != p {
          assert ps[1..][i] == ps[i + 1];
        }
      }
      RemoveAbsent(ps[1..], p);
      assert ps == [ps[0]] + ps[1..];
    }
  }

  /** The chips of each seat, in seat order. */
  function Stacks(ps: seq<Player>): (s: seq<int>)
    reads ps`chips
    ensures |s| == |ps| && forall i :: 0 <= i < |ps| ==> s[i] == ps[i].chips
  {
    if ps == [] then [] else [ps[0].chips] + Stacks(ps[1..])
  }

  function Sum(s: seq<int>): int
  {
    if s == [] then 0 else s[0] + Sum(s[1..])
  }

  /** Changing one entry changes the sum by the difference. */
  lemma {:induction false} SumUpdate(s: seq<int>, k: nat, v: int)
    requires k < |s|
    ensures Sum(s[k := v]) == Sum(s) - s[k] + v
  {
    if k > 0 {
      SumUpdate(s[1..], k - 1, v);
      assert s[k := v][1..] == s[1..][k - 1 := v];
    }
  }

  /** Adding `d` to every entry adds `|s| * d` to the sum. */
  lemma {:induction false} SumShift(s: seq<int>, t: seq<int>, d: int)
    requires |t| == |s| && forall i :: 0 <= i < |s| ==> t[i] == s[i] + d
    ensures Sum(t) == Sum(s) + |s| * d
  {
    if s != [] {
      SumShift(s[1..], t[1..], d);
    }
  }

  /** The survivors' hands at the showdown: each one's hole cards with the board, evaluated. */
  function HandsOf(ps: seq<Player>, board: seq<Card>): (hs: seq<Hand>)
    reads ps`hand
    ensures |hs| == |ps|
  {
    if ps == [] then [] else [Evaluate(ps[0].hand + board)] + HandsOf(ps[1..], board)
  }

  /** Position `i` of `HandsOf` is the evaluation of the `i`-th player's cards with the board. */
  lemma {:induction false} HandsOfAt(ps: seq<Player>, board: seq<Card>, i: nat)
    requires i < |ps|
    ensures HandsOf(ps, board)[i] == Evaluate(ps[i].hand + board)
  {
    if i > 0 {
      HandsOfAt(ps[1..], board, i - 1);
    }
  }

  /** With `board` of at least three cards and two hole cards each, every tie-break list has five entries. */
  lemma HandsOfKeys(ps: seq<Player>, board: seq<Card>)
    requires |board| >= 3 && forall i :: 0 <= i < |ps| ==> |ps[i].hand| == 2
    ensures forall i :: 0 <= i < |ps| ==> |HandsOf(ps, board)[i].key| == 5
  {
    forall i | 0 <= i < |ps| ensures |HandsOf(ps, board)[i].key| == 5 {
      HandsOfAt(ps, board, i);
    }
  }

  // ---------------------------------------------------------------------
  // The showdown: the comparison loop of `determine_winner`
  // ---------------------------------------------------------------------

  /** The best hand seen so far and the positions of the hands kept with it. */
  datatype Standing = Standing(best: Hand, tied: seq<nat>)

  ghost predicate Increasing(s: seq<nat>)
  {
    forall i, j :: 0 <= i < j < |s| ==> s[i] < s[j]
  }

  /**
   * The loop over the survivors: the first hand starts the standing; a hand
   * that beats the best replaces the standing, one that ties joins it, one
   * that loses is dropped.
   */
  function Scan(hands: seq<Hand>): (s: Standing)
    requires |hands| > 0
    ensures s.best in hands
    ensures |s.tied| > 0 && Increasing(s.tied)
    ensures forall k :: 0 <= k < |s.tied| ==> s.tied[k] < |hands|
    decreases |hands|
  {
    var n := |hands|;
    if n == 1 then Standing(hands[0], [0])
    else
      var prev := Scan(hands[..n - 1]);
      var c := Compare(hands[n - 1], prev.best);
      if c > 0 then Standing(hands[n - 1], [n - 1])
      else if c == 0 then Standing(prev.best, prev.tied + [n - 1])
      else prev
  }

  /** No hand beats the best one the loop ends with. */
  lemma {:induction false} ScanBestIsMax(hands: seq<Hand>)
    requires |hands| > 0
    ensures forall j :: 0 <= j < |hands| ==> Compare(hands[j], Scan(hands).best) <= 0
  {
    var n := |hands|;
    var s := Scan(hands);
    if n == 1 {
      CompareReflexive(hands[0]);
    } else {
      var pre := hands[..n - 1];
      var prev := Scan(pre);
      ScanBestIsMax(pre);
      var h := hands[n - 1];
      var c := Compare(h, prev.best);
      forall j | 0 <= j < n ensures Compare(hands[j], s.best) <= 0 {
        if j == n - 1 {
          if c > 0 {
            CompareReflexive(h);
          }
        } else {
          assert hands[j] == pre[j];
          if c > 0 {
            CompareNotAboveBeaten(hands[j], prev.best, h);
          }
        }
      }
    }
  }

  /**
   * When all tie-break lists have the same length (every survivor holds
   * the same number of cards), the hands kept are exactly those equal to
   * the best one.
   */
  lemma {:induction false} ScanTiedAreBest(hands: seq<Hand>, len: nat)
    requires |hands| > 0
    requires forall j :: 0 <= j < |hands| ==> |hands[j].key| == len
    ensures forall j :: 0 <= j < |hands| ==> (j in Scan(hands).tied <==> hands[j] == Scan(hands).best)
  {
    var n := |hands|;
    var s := Scan(hands);
    if n > 1 {
      var pre := hands[..n - 1];
      var prev := Scan(pre);
      ScanTiedAreBest(pre, len);
      ScanBestIsMax(pre);
      var h := hands[n - 1];
      var c := Compare(h, prev.best);
      assert prev.best in pre;
      CompareZero(h, prev.best);
      CompareReflexive(h);
      forall j | 0 <= j < n ensures j in s.tied <==> hands[j] == s.best {
        if j < n - 1 {
          assert hands[j] == pre[j];
        }
      }
    }
  }

  /** `[ps[i] for i in idx]`. */
  function Pick(ps: seq<Player>, idx: seq<nat>): (r: seq<Player>)
    requires forall k :: 0 <= k < |idx| ==> idx[k] < |ps|
    ensures |r| == |idx| && forall k :: 0 <= k < |idx| ==> r[k] == ps[idx[k]]
  {
    seq(|idx|, k requires 0 <= k < |idx| => ps[idx[k]])
  }

  lemma PickAppend(ps: seq<Player>, idx: seq<nat>, j: nat)
    requires forall k :: 0 <= k < |idx| ==> idx[k] < |ps|
    requires j < |ps|
    ensures Pick(ps, idx + [j]) == Pick(ps, idx) + [ps[j]]
  {
  }

  /** AllDifferent players picked at increasing positions are distinct. */
  lemma PickDistinct(ps: seq<Player>, idx: seq<nat>)
    requires forall k :: 0 <= k < |idx| ==> idx[k] < |ps|
    requires AllDifferent(ps) && Increasing(idx)
    ensures AllDifferent(Pick(ps, idx))
  {
    var r := Pick(ps, idx);
    forall i, j | 0 <= i < j < |r| ensures r[i] != r[j] {
      assert idx[i] < idx[j];
    }
  }

  /** `Scan` of one more hand: the step the loop body takes. */
  lemma ScanStep(hs: seq<Hand>, j: nat)
    requires 1 <= j < |hs|
    ensures var prev := Scan(hs[..j]);
      var c := Compare(hs[j], prev.best);
      Scan(hs[..j + 1]) ==
        if c > 0 then Standing(hs[j], [j])
        else if c == 0 then Standing(prev.best, prev.tied + [j])
        else prev
  {
    assert hs[..j + 1][..j] == hs[..j];
  }

  /**
   * The comparison loop of `determine_winner` over the survivors (at least
   * one), with `board` the community cards: the winners are the survivors
   * at the positions `Scan` keeps.
   */
  method BestHands(survivors: seq<Player>, board: seq<Card>) returns (winners: seq<Player>)
    requires |survivors| > 0
    ensures winners == Pick(survivors, Scan(HandsOf(survivors, board)).tied)
    ensures |winners| > 0 && forall q :: q in winners ==> q in survivors
    ensures AllDifferent(survivors) ==> AllDifferent(winners)
  {
    var hands := HandsOf(survivors, board);
    var best := hands[0];
    winners := [survivors[0]];
    ghost var tied: seq<nat> := [0];
    assert hands[..1] == [hands[0]];
    var j := 1;
    while j < |survivors|
      invariant 1 <= j <= |survivors|
      invariant Scan(hands[..j]) == Standing(best, tied)
      invariant forall k :: 0 <= k < |tied| ==> tied[k] < j
      invariant winners == Pick(survivors, tied)
    {
      var comparison := Compare(hands[j], best);
      ScanStep(hands, j);
      if comparison > 0 {
        best := hands[j];
        winners := [survivors[j]];
        tied := [j];
      } else if comparison == 0 {
        PickAppend(survivors, tied, j);
        winners := winners + [survivors[j]];
        tied := tied + [j];
      }
      j := j + 1;
    }
    assert hands[..j] == hands;
    if AllDifferent(survivors) {
      PickDistinct(survivors, tied);
    }
  }


  /** What the `i`-th of `k` winners takes from a pot of `pot`: an equal share, the first one also the remainder. */
  function Share(pot: int, k: nat, i: int): int
    requires k > 0
  {
    pot / k + (if i == 0 then pot % k else 0)
  }

  /** `k` copies of `c` add up to `k * c`. */
  lemma {:induction false} SumConst(c: int, k: nat)
    ensures Sum(seq(k, _ => c)) == k * c
  {
    if k > 0 {
      assert seq(k, _ => c)[1..] == seq(k - 1, _ => c);
      SumConst(c, k - 1);
    }
  }

  /** The shares of a split pot add up to the whole pot: no chip is lost or created. */
  lemma {:induction false} SharesSumToPot(pot: int, k: nat)
    requires k > 0
    ensures Sum(seq(k, i => Share(pot, k, i))) == pot
  {
    var s := seq(k, i => Share(pot, k, i));
    assert s[1..] == seq(k - 1, _ => pot / k);
    SumConst(pot / k, k - 1);
  }

  /**
   * When nobody is left in the hand, every one of the `n` seats gets
   * `pot / n`: together they get the pot less `pot % n`, which is lost
   * whenever `n` does not divide the pot.
   */
  lemma {:induction false} EvenSplitShortfall(pot: int, n: nat)
    requires n > 0
    ensures Sum(seq(n, _ => pot / n)) == pot - pot % n
    ensures pot >= 0 && pot % n != 0 ==> Sum(seq(n, _ => pot / n)) < pot
  {
    SumConst(pot / n, n);
  }

  /** Changing one entry of a sequence of stacks changes the sum by the difference. */
  lemma StacksAfter(s0: seq<int>, s1: seq<int>, m: nat)
    requires |s1| == |s0| && m < |s0|
    requires forall i :: 0 <= i < |s0| && i != m ==> s1[i] == s0[i]
    ensures Sum(s1) == Sum(s0) - s0[m] + s1[m]
  {
    assert s1 == s0[m := s1[m]];
    SumUpdate(s0, m, s1[m]);
  }

  /** Every seat other than `m` holds a different player from seat `m`. */
  lemma OthersDiffer(ps: seq<Player>, m: nat)
    requires m < |ps| && AllDifferent(ps)
    ensures forall i :: 0 <= i < |ps| && i != m ==> ps[i] != ps[m]
  {
  }

  function Min(a: int, b: int): int
  {
    if a < b then a else b
  }

  /** The cards `k` draws take from a deck holding `cs`: from the end, turned face up. */
  function Popped(cs: seq<Card>, k: nat): (r: seq<Card>)
    ensures |r| == Min(k, |cs|)
  {
    seq(Min(k, |cs|), i requires 0 <= i < Min(k, |cs|) => cs[|cs| - 1 - i].(visible := true))
  }

  /** One more draw from a non-exhausted deck appends the next card from the end. */
  lemma PoppedStep(cs: seq<Card>, k: nat)
    ensures k < |cs| ==> Popped(cs, k + 1) == Popped(cs, k) + [cs[|cs| - 1 - k].(visible := true)]
    ensures k >= |cs| ==> Popped(cs, k + 1) == Popped(cs, k)
  {
  }

  /** The seat `j` places after seat `from` at a table of `n`. */
  function SeatAfter(from: nat, j: nat, n: nat): (s: nat)
    requires n > 0
    ensures s < n
    ensures from < n && j <= n ==> s == if from + j < n then from + j else from + j - n
  {
    (from + j) % n
  }

  /** The number of steps from seat `a` forward to seat `b`, between 1 and `n` (a full lap when they coincide). */
  function Steps(a: nat, b: nat, n: nat): (k: nat)
    requires a < n && b < n
    ensures 1 <= k <= n && SeatAfter(a, k, n) == b
  {
    if a == b then n else Gap(a, b, n)
  }

  /** The chips a blind of `amount` takes from a seat: all of it when the seat can bet it, else none. */
  function Posted(canBet: bool, amount: int): int
  {
    if canBet then amount else 0
  }

  /** The small blind's seat at a table of `n` with the dealer at `dealer`: the next seat. */
  function SmallBlindSeat(dealer: nat, n: nat): (i: nat)
    requires 2 <= n && dealer < n
    ensures i < n && i != BigBlindSeat(dealer, n)
  {
    SeatAfter(dealer, 1, n)
  }

  /** The big blind's seat: two after the dealer (the dealer's own seat heads-up). */
  function BigBlindSeat(dealer: nat, n: nat): (i: nat)
    requires 2 <= n && dealer < n
    ensures i < n
  {
    SeatAfter(dealer, 2, n)
  }

  /** The forward distance from seat `a` to seat `b` at a table of `n`, 0 when they coincide. */
  function Gap(a: nat, b: nat, n: nat): (k: nat)
    requires a < n && b < n
    ensures k < n && SeatAfter(a, k, n) == b
  {
    var k := if b >= a then b - a else b - a + n;
    assert SeatAfter(a, k, n) == b;
    k
  }

  /**
   * The blind seat `i` posts when a hand starts at a table of `n` with the
   * dealer at `dealer`, its player having `folded` or not and holding
   * `chips`: the small or the big blind if it sits there and can bet it,
   * otherwise nothing.
   */
  function BlindPaid(dealer: nat, n: nat, i: nat, folded: bool, chips: int): int
    requires dealer < n
  {
    if n < 2 then 0
    else if i == SmallBlindSeat(dealer, n) then Posted(!folded && SmallBlind <= chips, SmallBlind)
    else if i == BigBlindSeat(dealer, n) then Posted(!folded && BigBlind <= chips, BigBlind)
    else 0
  }

  /**
   * `p` after putting in `paid` chips (nothing when `paid` is 0), having
   * held `chips`, with `totalBet`, `bet` and `allIn` before: the stack
   * drops by `paid`, the hand's total grows by it, the round's bet becomes
   * it, and `p` is all-in once a bet has emptied the stack.
   */
  ghost predicate PaidIn(p: Player, paid: int, chips: int, totalBet: int, bet: int, allIn: bool)
    reads p
  {
    && p.chips == chips - paid && p.totalBet == totalBet + paid
    && p.bet == (if paid > 0 then paid else bet)
    && p.allIn == (allIn || (paid > 0 && p.chips == 0))
  }

  /** The moves `player_action` accepts. */
  datatype Action = Fold | Check | Call | Raise(amount: int) | AllIn | Other

  /**
   * What a move by a player still in the hand does: whether it is accepted,
   * the chips it moves into the pot, the current bet afterwards, and whether
   * it reopens the round (only the mover then counts as having acted).
   */
  datatype Outcome = Outcome(ok: bool, paid: int, currentBet: int, reopened: bool)

  /**
   * The betting rules of `player_action` for a player holding `chips` who
   * has put `totalBet` into the hand, facing `currentBet`. A call that is
   * already level succeeds without paying (even from above the bet); the
   * minimum raise compares the raise with the current bet itself and is
   * waived for a player holding fewer chips than that bet.
   */
  function Settle(action: Action, chips: int, totalBet: int, currentBet: int): (o: Outcome)
    ensures chips >= 0 ==> 0 <= o.paid <= chips
    ensures o.currentBet >= currentBet
    ensures !o.ok ==> o.paid == 0 && o.currentBet == currentBet && !o.reopened
    ensures o.reopened <==> o.currentBet > currentBet
    ensures o.reopened ==> totalBet + o.paid == o.currentBet
    ensures action.Fold? ==> o.ok && o.paid == 0
    ensures action.Check? ==> (o.ok <==> totalBet >= currentBet) && o.paid == 0
    ensures action.Call? && chips >= 0 ==>
      && (o.ok <==> currentBet - totalBet <= chips)
      && (o.ok ==> totalBet + o.paid == if totalBet < currentBet then currentBet else totalBet)
    ensures action.Raise? ==>
      (o.ok <==>
        && action.amount > 0
        && !(action.amount < currentBet && chips >= currentBet)
        && 0 < currentBet + action.amount - totalBet <= chips)
    ensures action.Raise? && o.ok ==> o.reopened && o.currentBet == currentBet + action.amount
    ensures action.AllIn? ==> o.ok && o.paid == chips
    ensures action.Other? ==> !o.ok
  {
    var refused := Outcome(false, 0, currentBet, false);
    match action
    case Fold => Outcome(true, 0, currentBet, false)
    case Check => if totalBet < currentBet then refused else Outcome(true, 0, currentBet, false)
    case Call =>
      var needed := currentBet - totalBet;
      if needed <= 0 then Outcome(true, 0, currentBet, false)
      else if needed <= chips then Outcome(true, needed, currentBet, false)
      else refused
    case Raise(amount) =>
      var needed := currentBet + amount - totalBet;
      if amount <= 0 then refused
      else if amount < currentBet && chips >= currentBet then refused
      else if needed <= 0 || needed > chips then refused
      else Outcome(true, needed, totalBet + needed, true)
    case AllIn =>
      if totalBet + chips > currentBet then Outcome(true, chips, totalBet + chips, true)
      else Outcome(true, chips, currentBet, false)
    case Other => refused
  }

  /** `PokerGame`: the seats, the dealer's deck, the board and the betting state of one hand. */
  class PokerGame {
    var players: seq<Player>
    /** The dealer's deck. */
    var deck: Deck
    var communityCards: seq<Card>
    var pot: int
    var currentBet: int
    var dealerPosition: nat
    var phase: Phase
    /** The players still in the hand, in seat order; `player_action` removes a player who folds. */
    var activePlayers: seq<Player>
    var currentPlayerIndex: nat
    var roundStartIndex: nat
    /** `players_acted_in_round`. */
    var acted: set<Player>

    /**
     * The seats are distinct players in a consistent state, the active list
     * is drawn from them without repetition, the indices point at seats, and
     * neither the pot nor the current bet is negative.
     */
    ghost predicate Valid()
      reads this, players, deck
    {
      && |players| >= 1 && AllDifferent(players)
      && (forall q :: q in players ==> q.Valid())
      && AllDifferent(activePlayers)
      && (forall q :: q in activePlayers ==> q in players)
      && dealerPosition < |players| && currentPlayerIndex < |players| && roundStartIndex < |players|
      && pot >= 0 && currentBet >= 0
      && deck.Valid()
    }

    /** All chips at the table: the pot and every stack. */
    ghost function ChipsInPlay(): int
      reads this, players
    {
      pot + Sum(Stacks(players))
    }

    /** Seat `i` may act: its player is still listed as active and has not folded. */
    predicate CanAct(i: nat)
      reads this, players
      requires i < |players|
    {
      players[i] in activePlayers && !players[i].folded
    }

    /** None of the `k - 1` seats after seat `from` may act. */
    ghost predicate NoneCanActWithin(from: nat, k: nat)
      reads this, players
      requires |players| > 0
    {
      forall j :: 1 <= j < k ==> !CanAct(SeatAfter(from, j, |players|))
    }

    /** `PokerGame.__init__`: `numPlayers` seats of 1000 chips each, all active, and a fresh dealer. */
    constructor (numPlayers: nat, picks: seq<nat>)
      requires numPlayers >= 1
      ensures Valid()
      ensures |players| == numPlayers && activePlayers == players
      ensures forall i :: 0 <= i < numPlayers ==>
        && players[i].chips == StartingChips && players[i].hand == [] && players[i].bet == 0
        && players[i].totalBet == 0 && !players[i].folded && !players[i].allIn
        && players[i].isActive && !players[i].showCards
      ensures communityCards == [] && pot == 0 && currentBet == 0 && phase == Preflop && acted == {}
      ensures dealerPosition == 0 && currentPlayerIndex == 0 && roundStartIndex == 0
    {
      var ps: seq<Player> := [];
      var i := 0;
      while i < numPlayers
        invariant 0 <= i <= numPlayers && |ps| == i
        invariant AllDifferent(ps)
        invariant forall k :: 0 <= k < i ==>
          && ps[k].Valid() && ps[k].chips == StartingChips && ps[k].hand == [] && ps[k].bet == 0
          && ps[k].totalBet == 0 && !ps[k].folded && !ps[k].allIn && ps[k].isActive && !ps[k].showCards
      {
        var p := new Player(StartingChips);
        ps := ps + [p];
        i := i + 1;
      }
      players := ps;
      activePlayers := ps;
      deck := new Deck(picks);
      communityCards := [];
      pot := 0;
      currentBet := 0;
      dealerPosition := 0;
      phase := Preflop;
      currentPlayerIndex := 0;
      roundStartIndex := 0;
      acted := {};
    }

    /**
     * `check_round_complete`: the betting round is over when at most one
     * player is still in, or when everyone still in has acted and either
     * nobody has bet or all have put in exactly the current bet.
     */
    function RoundComplete(): (done: bool)
      reads this, activePlayers
      ensures done <==>
        || |Unfolded(activePlayers)| <= 1
        || (&& (forall p :: p in activePlayers && !p.folded ==> p in acted)
            && (currentBet == 0 || forall p :: p in activePlayers && !p.folded ==> p.totalBet == currentBet))
    {
      var live := Unfolded(activePlayers);
      if |live| <= 1 then true
      else
        var allActed := forall i :: 0 <= i < |live| ==> live[i] in acted;
        var betsEqual := forall i :: 0 <= i < |live| ==> live[i].totalBet == currentBet;
        if currentBet == 0 && allActed then true
        else allActed && betsEqual
    }

    /**
     * `next_player`: the first seat after the current one, going round the
     * table and coming back to the current seat last, whose player may act;
     * None, with the turn unchanged, when nobody may.
     */
    method NextPlayer() returns (r: Option<Player>)
      requires Valid()
      modifies this`currentPlayerIndex
      ensures Valid()
      ensures r.None? <==> forall i :: 0 <= i < |players| ==> !CanAct(i)
      ensures r.None? ==> currentPlayerIndex == old(currentPlayerIndex)
      ensures r.Some? ==>
        && r.value == players[currentPlayerIndex] && CanAct(currentPlayerIndex)
        && NoneCanActWithin(old(currentPlayerIndex), Steps(old(currentPlayerIndex), currentPlayerIndex, |players|))
    {
      if activePlayers == [] {
        return None;
      }
      var n := |players|;
      var start := currentPlayerIndex;
      var i := 1;
      while i <= n
        invariant 1 <= i <= n + 1
        invariant currentPlayerIndex == start
        invariant NoneCanActWithin(start, i)
      {
        var next := SeatAfter(start, i, n);
        var player := players[next];
        if player in activePlayers && !player.folded {
          currentPlayerIndex := next;
          assert Steps(start, next, n) == i;
          assert CanAct(next);
          return Some(player);
        }
        i := i + 1;
      }
      forall j | 0 <= j < n ensures !CanAct(j) {
        var k := Steps(start, j, n);
        assert !CanAct(SeatAfter(start, k, n));
      }
      r := None;
    }

    /**
     * Between the state before and after a move by `p`: the move settled as
     * `Settle` prescribes, the chips paid went from `p`'s stack into the
     * pot, `p` now counts as having acted (alone, when the move reopened
     * the round), `p` folded (and hid their cards) exactly when the move was
     * a fold, `p` is all-in once a bet has emptied the stack, and the hole
     * cards are untouched.
     */
    twostate predicate Settled(p: Player, action: Action, ok: bool)
      reads this, p
    {
      var o := Settle(action, old(p.chips), old(p.totalBet), old(currentBet));
      && ok == o.ok && pot == old(pot) + o.paid && currentBet == o.currentBet
      && acted == (if o.reopened then {p} else old(acted) + {p})
      && p.chips == old(p.chips) - o.paid && p.totalBet == old(p.totalBet) + o.paid
      && p.bet == (if o.paid > 0 || action.AllIn? then o.paid else old(p.bet))
      && p.allIn == (old(p.allIn) || ((o.paid > 0 || action.AllIn?) && p.chips == 0))
      && p.folded == action.Fold? && p.isActive == !action.Fold?
      && p.showCards == (if action.Fold? then false else old(p.showCards))
      && p.hand == old(p.hand)
    }

    /**
     * `player_action`. A folded or inactive player is refused and nothing
     * changes. Anyone else is first recorded as having acted in the round,
     * even when the move is then refused, and the move then settles as
     * `Settle` says; a fold also takes the player off the active list.
     * Chips only ever move between the player's stack and the pot.
     */
    method PlayerAction(p: Player, action: Action) returns (ok: bool)
      requires Valid() && p in players
      modifies this`pot, this`currentBet, this`acted, this`activePlayers, p
      ensures Valid()
      ensures ChipsInPlay() == old(ChipsInPlay())
      ensures old(p.folded || !p.isActive) ==>
        && !ok && pot == old(pot) && currentBet == old(currentBet) && acted == old(acted)
        && activePlayers == old(activePlayers) && unchanged(p)
      ensures old(!p.folded && p.isActive) ==>
        && Settled(p, action, ok)
        && activePlayers == (if action.Fold? then Remove(old(activePlayers), p) else old(activePlayers))
    {
      if p.folded || !p.isActive {
        return false;
      }
      ghost var m :| 0 <= m < |players| && players[m] == p;
      OthersDiffer(players, m);
      ghost var s0 := Stacks(players);
      ok := Move(p, action);
      StacksAfter(s0, Stacks(players), m);
    }

    /** `player_action` for a player still in the hand: record the player as having acted, then make the move. */
    method Move(p: Player, action: Action) returns (ok: bool)
      requires Valid() && p in players && !p.folded && p.isActive
      modifies this`pot, this`currentBet, this`acted, this`activePlayers, p
      ensures Valid()
      ensures Settled(p, action, ok)
      ensures activePlayers == (if action.Fold? then Remove(old(activePlayers), p) else old(activePlayers))
    {
      acted := acted + {p};
      match action {
        case Fold =>
          p.Fold();
          activePlayers := Remove(activePlayers, p);
          ok := true;
        case Check =>
          ok := p.totalBet >= currentBet;
        case Call =>
          ok := CallBet(p);
        case Raise(amount) =>
          ok := RaiseBet(p, amount);
        case AllIn =>
          ok := GoAllIn(p);
        case Other =>
          ok := false;
      }
    }

    /** The `call` branch of `player_action`: bring `p` level with the current bet. */
    method CallBet(p: Player) returns (ok: bool)
      requires Valid() && p in players && !p.folded && p.isActive && p in acted
      modifies this`pot, p
      ensures Valid()
      ensures Settled(p, Call, ok)
    {
      var needed := currentBet - p.totalBet;
      if needed > 0 {
        ok := p.MakeBet(needed);
        if ok {
          pot := pot + needed;
        }
      } else {
        ok := true;
      }
    }

    /** The `raise` branch of `player_action`: raise the current bet by `amount`. */
    method RaiseBet(p: Player, amount: int) returns (ok: bool)
      requires Valid() && p in players && !p.folded && p.isActive && p in acted
      modifies this`pot, this`currentBet, this`acted, p
      ensures Valid()
      ensures Settled(p, Raise(amount), ok)
    {
      if amount <= 0 {
        return false;
      }
      var minRaise := currentBet;
      if amount < minRaise && p.chips >= minRaise {
        return false;
      }
      var needed := currentBet + amount - p.totalBet;
      if needed > 0 {
        ok := p.MakeBet(needed);
        if ok {
          currentBet := p.totalBet;
          pot := pot + needed;
          acted := {p};
          return;
        }
      }
      ok := false;
    }

    /** The `all_in` branch of `player_action`: bet every chip. */
    method GoAllIn(p: Player) returns (ok: bool)
      requires Valid() && p in players && !p.folded && p.isActive && p in acted
      modifies this`pot, this`currentBet, this`acted, p
      ensures Valid()
      ensures Settled(p, AllIn, ok)
    {
      var amount := p.chips;
      ok := p.MakeBet(amount);
      if p.totalBet > currentBet {
        currentBet := p.totalBet;
        acted := {p};
      }
      pot := pot + amount;
    }

    /**
     * One blind of `_post_blinds`: seat `i` bets `amount` if it can, and
     * counts as having acted either way.
     */
    method PostBlind(i: nat, amount: int) returns (ok: bool)
      requires Valid() && i < |players|
      modifies this`acted, players[i]
      ensures Valid()
      ensures ok == old(players[i].CanBet(amount))
      ensures players[i].chips == old(players[i].chips) - (if ok then amount else 0)
      ensures players[i].totalBet == old(players[i].totalBet) + (if ok then amount else 0)
      ensures players[i].bet == (if ok then amount else old(players[i].bet))
      ensures players[i].allIn == (old(players[i].allIn) || (ok && players[i].chips == 0))
      ensures players[i].folded == old(players[i].folded) && players[i].isActive == old(players[i].isActive)
      ensures players[i].showCards == old(players[i].showCards) && players[i].hand == old(players[i].hand)
      ensures acted == old(acted) + {players[i]}
    {
      ok := players[i].MakeBet(amount);
      acted := acted + {players[i]};
    }

    /**
     * `_post_blinds`: at a table of two or more, the two seats after the
     * dealer post the small and the big blind (each only if it can), the
     * current bet becomes the big blind, and the pot is set to the sum of
     * both blinds whether or not they were paid.
     */
    method PostBlinds()
      requires Valid()
      modifies this`pot, this`currentBet, this`acted, players
      ensures Valid()
      ensures |players| < 2 ==>
        && pot == old(pot) && currentBet == old(currentBet) && acted == old(acted)
        && forall i :: 0 <= i < |players| ==> unchanged(players[i])
      ensures |players| >= 2 ==> pot == SmallBlind + BigBlind && currentBet == BigBlind
      ensures |players| >= 2 ==> acted == old(acted) + {players[SmallBlindSeat(dealerPosition, |players|)], players[BigBlindSeat(dealerPosition, |players|)]}
      ensures |players| >= 2 ==>
        forall i :: 0 <= i < |players| && i != SmallBlindSeat(dealerPosition, |players|) && i != BigBlindSeat(dealerPosition, |players|) ==> unchanged(players[i])
      ensures forall i :: 0 <= i < |players| ==>
        PaidIn(players[i], BlindPaid(dealerPosition, |players|, i, old(players[i].folded), old(players[i].chips)),
          old(players[i].chips), old(players[i].totalBet), old(players[i].bet), old(players[i].allIn))
      ensures forall i :: 0 <= i < |players| ==>
        && players[i].folded == old(players[i].folded) && players[i].isActive == old(players[i].isActive)
        && players[i].showCards == old(players[i].showCards) && players[i].hand == old(players[i].hand)
    {
      var n := |players|;
      if n < 2 {
        return;
      }
      var sb := SmallBlindSeat(dealerPosition, n);
      var bb := BigBlindSeat(dealerPosition, n);
      OthersDiffer(players, sb);
      OthersDiffer(players, bb);
      var paidSmall := PostBlind(sb, SmallBlind);
      var paidBig := PostBlind(bb, BigBlind);
      currentBet := BigBlind;
      pot := SmallBlind + BigBlind;
      forall i | 0 <= i < n
        ensures PaidIn(players[i], BlindPaid(dealerPosition, n, i, old(players[i].folded), old(players[i].chips)),
          old(players[i].chips), old(players[i].totalBet), old(players[i].bet), old(players[i].allIn))
        ensures && players[i].folded == old(players[i].folded) && players[i].isActive == old(players[i].isActive)
          && players[i].showCards == old(players[i].showCards) && players[i].hand == old(players[i].hand)
      {
        if i != sb && i != bb {
          assert unchanged(players[i]);
        }
      }
    }

    /** Seat `i` is the first, going round from the seat after `from`, whose player may act. */
    ghost predicate FirstToAct(from: nat, i: nat)
      reads this, players
      requires from < |players| && i < |players|
    {
      CanAct(i) && NoneCanActWithin(from, Steps(from, i, |players|))
    }

    /** The bets of the betting round just closed are cleared for everyone still listed as active. */
    method ClearBets()
      requires Valid()
      modifies activePlayers`bet
      ensures Valid()
      ensures forall q :: q in activePlayers ==> q.bet == 0
    {
      var i := 0;
      while i < |activePlayers|
        invariant 0 <= i <= |activePlayers|
        invariant Valid()
        invariant forall k :: 0 <= k < i ==> activePlayers[k].bet == 0
      {
        activePlayers[i].bet := 0;
        i := i + 1;
      }
    }

    /** `k` draws from the dealer's deck, each card drawn going face up onto the board. */
    method DealBoard(k: nat)
      requires deck.Valid()
      modifies this`communityCards, deck
      ensures deck.Valid()
      ensures communityCards == old(communityCards) + Popped(old(deck.cards), k)
      ensures deck.cards == old(deck.cards)[..|old(deck.cards)| - Min(k, |old(deck.cards)|)]
    {
      var j := 0;
      while j < k
        invariant 0 <= j <= k && deck.Valid()
        invariant communityCards == old(communityCards) + Popped(old(deck.cards), j)
        invariant deck.cards == old(deck.cards)[..|old(deck.cards)| - Min(j, |old(deck.cards)|)]
      {
        PoppedStep(old(deck.cards), j);
        var c := deck.Draw();
        if c.Some? {
          communityCards := communityCards + [c.value];
        }
        j := j + 1;
      }
    }

    /**
     * The showdown reveal between two states: the active list is the same,
     * and each player on it shows their cards if they did already or have
     * not folded.
     */
    twostate predicate Revealed()
      reads this, activePlayers
    {
      && activePlayers == old(activePlayers)
      && forall i :: 0 <= i < |activePlayers| ==>
           activePlayers[i].showCards == (old(activePlayers[i].showCards) || !activePlayers[i].folded)
    }

    /** At the showdown every player still in shows their cards. */
    method RevealHands()
      requires Valid()
      modifies activePlayers`showCards
      ensures Valid()
      ensures Revealed()
    {
      var i := 0;
      while i < |activePlayers|
        invariant 0 <= i <= |activePlayers|
        invariant Valid()
        invariant forall k :: 0 <= k < |activePlayers| ==>
          activePlayers[k].showCards == (old(activePlayers[k].showCards) || (k < i && !activePlayers[k].folded))
      {
        if !activePlayers[i].folded {
          activePlayers[i].showCards := true;
        }
        i := i + 1;
      }
    }

    /**
     * A new betting round starts with the first seat after the dealer whose
     * player may act; when nobody may, the turn is left where it was.
     */
    method OpenRound()
      requires Valid()
      modifies this`currentPlayerIndex, this`roundStartIndex
      ensures Valid()
      ensures (exists j :: 0 <= j < |players| && CanAct(j)) ==>
        FirstToAct(dealerPosition, currentPlayerIndex) && roundStartIndex == currentPlayerIndex
      ensures (forall j :: 0 <= j < |players| ==> !CanAct(j)) ==>
        currentPlayerIndex == old(currentPlayerIndex) && roundStartIndex == old(roundStartIndex)
    {
      var n := |players|;
      var i := 0;
      while i < n
        invariant 0 <= i <= n
        invariant currentPlayerIndex == old(currentPlayerIndex) && roundStartIndex == old(roundStartIndex)
        invariant NoneCanActWithin(dealerPosition, i + 1)
      {
        var idx := SeatAfter(dealerPosition, i + 1, n);
        var player := players[idx];
        if player in activePlayers && !player.folded {
          currentPlayerIndex := idx;
          roundStartIndex := idx;
          assert Steps(dealerPosition, idx, n) == i + 1;
          assert CanAct(idx);
          return;
        }
        i := i + 1;
      }
      forall j | 0 <= j < n ensures !CanAct(j) {
        var k := Steps(dealerPosition, j, n);
        assert !CanAct(SeatAfter(dealerPosition, k, n));
      }
    }

    /** The first half of `next_phase`: the next phase begins with no bets, nobody acted, and its cards dealt. */
    method BeginPhase()
      requires Valid() && phase != Showdown
      modifies this`phase, this`currentBet, this`acted, this`communityCards, deck, activePlayers`bet
      ensures Valid()
      ensures phase == Advance(old(phase)) && currentBet == 0 && acted == {}
      ensures forall q :: q in activePlayers ==> q.bet == 0
      ensures communityCards == old(communityCards) + Popped(old(deck.cards), CardsOn(phase))
      ensures deck.cards == old(deck.cards)[..|old(deck.cards)| - Min(CardsOn(phase), |old(deck.cards)|)]
    {
      phase := Advance(phase);
      currentBet := 0;
      acted := {};
      ClearBets();
      DealBoard(CardsOn(phase));
    }

    /**
     * `next_phase`: move to the next phase unless the showdown is reached.
     * The betting state is cleared, the board receives the phase's cards
     * from the dealer's deck, and then either the hands still in are shown
     * (showdown) or the next betting round opens after the dealer.
     */
    method NextPhase() returns (advanced: bool)
      requires Valid()
      modifies this`phase, this`currentBet, this`acted, this`communityCards
      modifies this`currentPlayerIndex, this`roundStartIndex, deck, activePlayers`bet, activePlayers`showCards
      ensures Valid()
      ensures advanced <==> old(phase) != Showdown
      ensures !advanced ==>
        && phase == old(phase) && currentBet == old(currentBet) && acted == old(acted)
        && communityCards == old(communityCards) && deck.cards == old(deck.cards)
        && currentPlayerIndex == old(currentPlayerIndex) && roundStartIndex == old(roundStartIndex)
        && forall q :: q in activePlayers ==> q.bet == old(q.bet) && q.showCards == old(q.showCards)
      ensures advanced ==> phase == Advance(old(phase)) && currentBet == 0 && acted == {}
      ensures advanced ==> forall q :: q in activePlayers ==> q.bet == 0
      ensures advanced ==> communityCards == old(communityCards) + Popped(old(deck.cards), CardsOn(phase))
      ensures advanced ==> deck.cards == old(deck.cards)[..|old(deck.cards)| - Min(CardsOn(phase), |old(deck.cards)|)]
      ensures advanced && phase == Showdown ==>
        && currentPlayerIndex == old(currentPlayerIndex) && roundStartIndex == old(roundStartIndex)
        && Revealed()
      ensures advanced && phase != Showdown ==>
        && (forall q :: q in activePlayers ==> q.showCards == old(q.showCards))
        && ((exists j :: 0 <= j < |players| && CanAct(j)) ==>
              FirstToAct(dealerPosition, currentPlayerIndex) && roundStartIndex == currentPlayerIndex)
        && ((forall j :: 0 <= j < |players| ==> !CanAct(j)) ==>
              currentPlayerIndex == old(currentPlayerIndex) && roundStartIndex == old(roundStartIndex))
    {
      if phase == Showdown {
        return false;
      }
      BeginPhase();
      if phase == Showdown {
        RevealHands();
        return true;
      }
      OpenRound();
      advanced := true;
    }

    /** Every seat's player is active. */
    ghost predicate EveryoneActive()
      reads this, players
    {
      forall i :: 0 <= i < |players| ==> players[i].isActive
    }

    /** Seat `i`'s player has neither folded nor been deactivated. */
    predicate Seated(i: nat)
      reads this, players
      requires i < |players|
    {
      !players[i].folded && players[i].isActive
    }

    /** `reset_hand` for every seat. */
    method ResetSeats()
      requires Valid()
      modifies players
      ensures Valid()
      ensures forall i :: 0 <= i < |players| ==>
        && players[i].hand == [] && players[i].bet == 0 && players[i].totalBet == 0
        && !players[i].folded && !players[i].allIn && players[i].isActive && !players[i].showCards
        && players[i].chips == old(players[i].chips)
    {
      var k := 0;
      while k < |players|
        invariant 0 <= k <= |players|
        invariant Valid()
        invariant forall i :: 0 <= i < k ==>
          && players[i].hand == [] && players[i].bet == 0 && players[i].totalBet == 0
          && !players[i].folded && !players[i].allIn && players[i].isActive && !players[i].showCards
        invariant forall i :: 0 <= i < |players| ==> players[i].chips == old(players[i].chips)
      {
        players[k].ResetHand();
        k := k + 1;
      }
    }

    /** The state a deal round expects: every seat active, holding fewer than two cards, and a card in the deck for each. */
    ghost predicate ReadyToDeal()
      reads this, players, deck
    {
      && EveryoneActive() && |deck.cards| >= |players|
      && forall i :: 0 <= i < |players| ==> |players[i].hand| < 2
    }

    /**
     * One step of the deal: `p`, if active, draws a card from the end of the
     * deck and takes it if it holds fewer than two (otherwise the card is
     * gone all the same); an inactive seat, or an empty deck, changes nothing.
     */
    method DealSeat(p: Player)
      requires Valid() && p in players
      modifies p`hand, deck
      ensures Valid()
      ensures old(deck.drawn) <= deck.drawn && |deck.drawn| <= |old(deck.drawn)| + 1
      ensures |deck.cards| + |deck.drawn| == |old(deck.cards)| + |old(deck.drawn)|
      ensures !p.isActive || |old(deck.cards)| == 0 ==>
        p.hand == old(p.hand) && deck.cards == old(deck.cards) && deck.drawn == old(deck.drawn)
      ensures p.isActive && |old(deck.cards)| > 0 ==>
        && deck.cards == old(deck.cards)[..|old(deck.cards)| - 1]
        && deck.drawn == old(deck.drawn) + [old(deck.cards)[|old(deck.cards)| - 1].(visible := true)]
        && p.hand == if |old(p.hand)| < 2 then old(p.hand) + [deck.drawn[|old(deck.drawn)|]] else old(p.hand)
    {
      if p.isActive {
        var c := deck.Draw();
        if c.Some? {
          var taken := p.AddCard(c.value);
        }
      }
    }

    /**
     * One round of the deal in `start_new_hand`: each seat in turn, as
     * `DealSeat`. From a state `ReadyToDeal`, seat `i` receives the `i`-th
     * card drawn in this round.
     */
    method DealRound()
      requires Valid()
      modifies players`hand, deck
      ensures Valid()
      ensures EveryoneActive() == old(EveryoneActive())
      ensures old(deck.drawn) <= deck.drawn
      ensures old(ReadyToDeal()) ==>
        && |deck.drawn| == |old(deck.drawn)| + |players|
        && forall i :: 0 <= i < |players| ==>
             players[i].hand == old(players[i].hand) + [deck.drawn[|old(deck.drawn)| + i]]
    {
      ghost var ready := ReadyToDeal();
      var k := 0;
      while k < |players|
        invariant 0 <= k <= |players|
        invariant Valid()
        invariant EveryoneActive() == old(EveryoneActive())
        invariant old(deck.drawn) <= deck.drawn
        invariant ready ==>
          && |deck.drawn| == |old(deck.drawn)| + k && |deck.cards| == |old(deck.cards)| - k
          && (forall i :: 0 <= i < k ==>
                players[i].hand == old(players[i].hand) + [deck.drawn[|old(deck.drawn)| + i]])
          && (forall i :: k <= i < |players| ==> players[i].hand == old(players[i].hand))
      {
        DealSeat(players[k]);
        k := k + 1;
      }
    }

    /** None of the `k` seats from seat `from` on has a player still seated. */
    ghost predicate NoneSeatedFrom(from: nat, k: nat)
      reads this, players
      requires |players| > 0
    {
      forall j :: 0 <= j < k ==> !Seated(SeatAfter(from, j, |players|))
    }

    /**
     * The loop closing `start_new_hand`: from the round's first seat, move
     * on past players who folded or are inactive, stopping after a full lap.
     */
    method SkipUnseated()
      requires Valid() && currentPlayerIndex == roundStartIndex
      modifies this`currentPlayerIndex
      ensures Valid()
      ensures Seated(currentPlayerIndex) ==>
        NoneSeatedFrom(roundStartIndex, Gap(roundStartIndex, currentPlayerIndex, |players|))
      ensures !Seated(currentPlayerIndex) ==>
        currentPlayerIndex == roundStartIndex && forall j :: 0 <= j < |players| ==> !Seated(j)
    {
      var n := |players|;
      var start := roundStartIndex;
      var current := players[currentPlayerIndex];
      ghost var steps := 0;
      while current.folded || !current.isActive
        invariant 0 <= steps < n
        invariant currentPlayerIndex == SeatAfter(start, steps, n)
        invariant current == players[currentPlayerIndex]
        invariant NoneSeatedFrom(start, steps)
        decreases n - steps
      {
        assert !Seated(SeatAfter(start, steps, n));
        currentPlayerIndex := SeatAfter(currentPlayerIndex, 1, n);
        steps := steps + 1;
        current := players[currentPlayerIndex];
        if currentPlayerIndex == start {
          assert steps == n;
          forall j | 0 <= j < n ensures !Seated(j) {
            assert !Seated(SeatAfter(start, Gap(start, j, n), n));
          }
          break;
        }
      }
    }

    /** The reset of `start_new_hand`: fresh board and betting state, a reshuffled deck, every seat reset. */
    method ClearTable(picks: seq<nat>)
      requires Valid()
      modifies this`communityCards, this`pot, this`currentBet, this`phase, this`acted, deck, players
      ensures Valid()
      ensures phase == Preflop && communityCards == [] && pot == 0 && currentBet == 0 && acted == {}
      ensures deck.drawn == [] && |deck.cards| == 52
      ensures forall i :: 0 <= i < |players| ==>
        && players[i].hand == [] && players[i].bet == 0 && players[i].totalBet == 0
        && players[i].chips == old(players[i].chips)
        && !players[i].folded && !players[i].allIn && players[i].isActive && !players[i].showCards
    {
      communityCards := [];
      pot := 0;
      currentBet := 0;
      phase := Preflop;
      acted := {};
      deck.Reset(picks);
      ResetSeats();
    }

    /** Nothing dealt yet: nothing drawn, empty hands, everyone active, and two cards in the deck per seat. */
    ghost predicate FreshDeal()
      reads this, players, deck
    {
      && deck.drawn == [] && EveryoneActive() && 2 * |players| <= |deck.cards|
      && forall i :: 0 <= i < |players| ==> players[i].hand == []
    }

    /**
     * The two rounds of the deal in `start_new_hand`. From a full deck and
     * empty hands, with everyone active, seat `i` receives the `i`-th and the
     * `(n + i)`-th card drawn.
     */
    method DealHoleCards()
      requires Valid()
      modifies players`hand, deck
      ensures Valid()
      ensures EveryoneActive() == old(EveryoneActive())
      ensures old(FreshDeal()) ==>
        && |deck.drawn| == 2 * |players|
        && forall i :: 0 <= i < |players| ==> players[i].hand == [deck.drawn[i], deck.drawn[|players| + i]]
    {
      DealRound();
      DealRound();
    }

    /**
     * The close of `start_new_hand`: the active list is rebuilt from the
     * seats, the round starts three seats after the dealer, and the turn
     * goes to the first seated player from there (or stays put when nobody
     * is seated).
     */
    method OpenFirstRound()
      requires Valid() && EveryoneActive()
      modifies this`activePlayers, this`currentPlayerIndex, this`roundStartIndex
      ensures Valid()
      ensures activePlayers == players
      ensures roundStartIndex == SeatAfter(dealerPosition, 3, |players|)
      ensures Seated(roundStartIndex) ==> currentPlayerIndex == roundStartIndex
      ensures Seated(currentPlayerIndex) ==>
        NoneSeatedFrom(roundStartIndex, Gap(roundStartIndex, currentPlayerIndex, |players|))
      ensures !Seated(currentPlayerIndex) ==>
        currentPlayerIndex == roundStartIndex && forall j :: 0 <= j < |players| ==> !Seated(j)
    {
      ActiveOnesAll(players);
      activePlayers := ActiveOnes(players);
      roundStartIndex := SeatAfter(dealerPosition, 3, |players|);
      currentPlayerIndex := roundStartIndex;
      if activePlayers != [] {
        SkipUnseated();
        assert Seated(currentPlayerIndex) && Gap(roundStartIndex, currentPlayerIndex, |players|) > 0 ==>
          !Seated(SeatAfter(roundStartIndex, 0, |players|));
      }
    }

    /**
     * The first half of `start_new_hand`: the table cleared, the deck
     * refilled, every seat reset and dealt two cards (seat `i` gets the
     * `i`-th and the `(n + i)`-th card drawn).
     */
    method ResetAndDeal(picks: seq<nat>)
      requires Valid()
      modifies this`communityCards, this`pot, this`currentBet, this`phase, this`acted, deck, players
      ensures Valid()
      ensures phase == Preflop && communityCards == [] && pot == 0 && currentBet == 0 && acted == {}
      ensures EveryoneActive()
      ensures forall i :: 0 <= i < |players| ==>
        && players[i].bet == 0 && players[i].totalBet == 0 && players[i].chips == old(players[i].chips)
        && !players[i].folded && !players[i].allIn && players[i].isActive && !players[i].showCards
      ensures 2 * |players| <= 52 ==>
        && |deck.drawn| == 2 * |players|
        && forall i :: 0 <= i < |players| ==> players[i].hand == [deck.drawn[i], deck.drawn[|players| + i]]
    {
      ClearTable(picks);
      DealHoleCards();
    }

    /**
     * The second half of `start_new_hand`: the blinds posted (as
     * `PostBlinds`), then the round opened (as `OpenFirstRound`).
     */
    method PostAndOpen()
      requires Valid() && EveryoneActive()
      modifies this`pot, this`currentBet, this`acted, this`activePlayers, this`currentPlayerIndex, this`roundStartIndex, players
      ensures Valid()
      ensures activePlayers == players
      ensures forall i :: 0 <= i < |players| ==>
        PaidIn(players[i], BlindPaid(dealerPosition, |players|, i, old(players[i].folded), old(players[i].chips)),
          old(players[i].chips), old(players[i].totalBet), old(players[i].bet), old(players[i].allIn))
      ensures forall i :: 0 <= i < |players| ==>
        && players[i].folded == old(players[i].folded) && players[i].isActive == old(players[i].isActive)
        && players[i].showCards == old(players[i].showCards) && players[i].hand == old(players[i].hand)
      ensures |players| < 2 ==> pot == old(pot) && currentBet == old(currentBet) && acted == old(acted)
      ensures |players| >= 2 ==>
        && pot == SmallBlind + BigBlind && currentBet == BigBlind
        && acted == old(acted) + {players[SmallBlindSeat(dealerPosition, |players|)], players[BigBlindSeat(dealerPosition, |players|)]}
      ensures roundStartIndex == SeatAfter(dealerPosition, 3, |players|)
      ensures Seated(roundStartIndex) ==> currentPlayerIndex == roundStartIndex
    {
      PostBlinds();
      OpenFirstRound();
    }

    /**
     * `start_new_hand`: a fresh board, pot and betting state; every seat
     * reset and dealt two cards (seat `i` gets the `i`-th and the
     * `(n + i)`-th card drawn); the blinds posted; every player listed as
     * active; and the turn given to the third seat after the dealer.
     */
    method StartNewHand(picks: seq<nat>)
      requires Valid()
      modifies this`communityCards, this`pot, this`currentBet, this`phase, this`acted, this`activePlayers
      modifies this`currentPlayerIndex, this`roundStartIndex, deck, players
      ensures Valid()
      ensures phase == Preflop && communityCards == [] && activePlayers == players
      ensures forall i :: 0 <= i < |players| ==> !players[i].folded && players[i].isActive && !players[i].showCards
      ensures 2 * |players| <= 52 ==>
        && |deck.drawn| == 2 * |players|
        && forall i :: 0 <= i < |players| ==> players[i].hand == [deck.drawn[i], deck.drawn[|players| + i]]
      ensures forall i :: 0 <= i < |players| ==>
        PaidIn(players[i], BlindPaid(dealerPosition, |players|, i, false, old(players[i].chips)), old(players[i].chips), 0, 0, false)
      ensures |players| < 2 ==> pot == 0 && currentBet == 0 && acted == {}
      ensures |players| >= 2 ==>
        && pot == SmallBlind + BigBlind && currentBet == BigBlind
        && acted == {players[SmallBlindSeat(dealerPosition, |players|)], players[BigBlindSeat(dealerPosition, |players|)]}
      ensures roundStartIndex == SeatAfter(dealerPosition, 3, |players|) && currentPlayerIndex == roundStartIndex
    {
      ResetAndDeal(picks);
      PostAndOpen();
    }

    /** The first loop of `determine_winner`: every active player still in the hand shows their cards. */
    method ShowHands()
      requires Valid()
      modifies activePlayers`showCards
      ensures Valid()
      ensures Revealed()
    {
      var k := 0;
      while k < |activePlayers|
        invariant 0 <= k <= |activePlayers|
        invariant Valid()
        invariant forall i :: 0 <= i < k ==>
          activePlayers[i].showCards == (old(activePlayers[i].showCards) || !activePlayers[i].folded)
        invariant forall i :: k <= i < |activePlayers| ==> activePlayers[i].showCards == old(activePlayers[i].showCards)
      {
        var p := activePlayers[k];
        if !p.folded {
          p.showCards := true;
        }
        k := k + 1;
      }
    }

    /** The no-survivor branch of `determine_winner`: every seat gets `pot / n` (the remainder goes to nobody). */
    method SplitEvenly()
      requires Valid()
      modifies players`chips
      ensures Valid()
      ensures forall i :: 0 <= i < |players| ==> players[i].chips == old(players[i].chips) + pot / |players|
    {
      var winAmount := pot / |players|;
      var k := 0;
      while k < |players|
        invariant 0 <= k <= |players|
        invariant Valid() && winAmount >= 0
        invariant forall i :: 0 <= i < k ==> players[i].chips == old(players[i].chips) + winAmount
        invariant forall i :: k <= i < |players| ==> players[i].chips == old(players[i].chips)
      {
        Credit(players[k], winAmount);
        k := k + 1;
      }
    }

    /** `p.chips += amount` for a seated player and a non-negative amount. */
    method Credit(p: Player, amount: int)
      requires Valid() && p in players && amount >= 0
      modifies p`chips
      ensures Valid()
      ensures p.chips == old(p.chips) + amount
    {
      p.chips := p.chips + amount;
    }

    /**
     * `determine_winner`: the survivors (active players who have not folded)
     * show their cards. A lone survivor takes the pot; with none, every seat
     * gets `pot / n`; otherwise the survivors whose hands `Scan` keeps split
     * the pot, the first of them also taking the remainder. The pot itself
     * is left as it was. The source shows the cards before paying out; the
     * two steps touch different fields (`showCards`, `chips`) and neither
     * reads what the other writes, so the model pays out first.
     */
    method DetermineWinner() returns (winners: seq<Player>)
      requires Valid()
      modifies players`chips, activePlayers`chips, activePlayers`showCards
      ensures Valid()
      ensures Revealed()
      ensures var survivors := old(Unfolded(activePlayers));
        |survivors| == 0 ==>
          winners == [] && forall i :: 0 <= i < |players| ==> players[i].chips == old(players[i].chips) + pot / |players|
      ensures var survivors := old(Unfolded(activePlayers));
        |survivors| == 1 ==> winners == survivors && winners[0].chips == old(winners[0].chips) + pot
      ensures var survivors := old(Unfolded(activePlayers));
        |survivors| >= 2 ==>
          && winners == Pick(survivors, Scan(old(HandsOf(survivors, communityCards))).tied)
          && forall i :: 0 <= i < |winners| ==> winners[i].chips == old(winners[i].chips) + Share(pot, |winners|, i)
      ensures |old(Unfolded(activePlayers))| >= 1 ==> ChipsKept(winners)
    {
      var survivors := Unfolded(activePlayers);
      winners := Award(survivors);
      ShowHands();
    }

    /** Between two states, the seats are the same and nobody outside `winners` gained or lost chips. */
    twostate predicate ChipsKept(new winners: seq<Player>)
      reads this, players
    {
      && players == old(players)
      && forall q :: q in old(players) && q !in winners ==> q.chips == old(q.chips)
    }

    /** The payout of `determine_winner`, given the survivors. */
    method Award(survivors: seq<Player>) returns (winners: seq<Player>)
      requires Valid() && AllDifferent(survivors)
      requires forall q :: q in survivors ==> q in players
      modifies players`chips, survivors`chips
      ensures Valid()
      ensures |survivors| == 0 ==>
        winners == [] && forall i :: 0 <= i < |players| ==> players[i].chips == old(players[i].chips) + pot / |players|
      ensures |survivors| == 1 ==> winners == survivors && winners[0].chips == old(winners[0].chips) + pot
      ensures |survivors| >= 2 ==>
        && winners == Pick(survivors, Scan(old(HandsOf(survivors, communityCards))).tied)
        && forall i :: 0 <= i < |winners| ==> winners[i].chips == old(winners[i].chips) + Share(pot, |winners|, i)
      ensures |survivors| >= 1 ==> ChipsKept(winners)
    {
      if survivors == [] {
        SplitEvenly();
        winners := [];
      } else {
        winners := AwardSurvivors(survivors);
      }
    }

    /** `determine_winner` with at least one survivor: only survivors are paid. */
    method AwardSurvivors(survivors: seq<Player>) returns (winners: seq<Player>)
      requires Valid() && AllDifferent(survivors) && |survivors| >= 1
      requires forall q :: q in survivors ==> q in players
      modifies survivors`chips
      ensures Valid()
      ensures |survivors| == 1 ==> winners == survivors && winners[0].chips == old(winners[0].chips) + pot
      ensures |survivors| >= 2 ==>
        && winners == Pick(survivors, Scan(old(HandsOf(survivors, communityCards))).tied)
        && forall i :: 0 <= i < |winners| ==> winners[i].chips == old(winners[i].chips) + Share(pot, |winners|, i)
      ensures forall q :: q in survivors && q !in winners ==> q.chips == old(q.chips)
    {
      if |survivors| == 1 {
        var winner := survivors[0];
        Credit(winner, pot);
        return [winner];
      }
      winners := SplitPot(survivors);
    }


    /**
     * The branch of `determine_winner` with two or more survivors: the
     * comparison loop picks the winners, who split the pot.
     */
    method SplitPot(survivors: seq<Player>) returns (winners: seq<Player>)
      requires Valid() && |survivors| >= 2 && AllDifferent(survivors)
      requires forall q :: q in survivors ==> q in players
      modifies survivors`chips
      ensures Valid()
      ensures winners == Pick(survivors, Scan(old(HandsOf(survivors, communityCards))).tied)
      ensures forall i :: 0 <= i < |winners| ==> winners[i].chips == old(winners[i].chips) + Share(pot, |winners|, i)
      ensures forall q :: q in survivors && q !in winners ==> q.chips == old(q.chips)
    {
      winners := BestHands(survivors, communityCards);
      Payout(winners);
    }

    /** The payout loop of `determine_winner`: each winner's chips grow by its `Share` of the pot. */
    method Payout(winners: seq<Player>)
      requires Valid() && |winners| > 0 && AllDifferent(winners)
      requires forall q :: q in winners ==> q in players
      modifies winners`chips
      ensures Valid()
      ensures forall i :: 0 <= i < |winners| ==> winners[i].chips == old(winners[i].chips) + Share(pot, |winners|, i)
    {
      var winAmount := pot / |winners|;
      var remainder := pot % |winners|;
      var i := 0;
      while i < |winners|
        invariant 0 <= i <= |winners|
        invariant Valid() && winAmount >= 0 && remainder >= 0
        invariant forall j :: 0 <= j < i ==>
          winners[j].chips == old(winners[j].chips) + winAmount + (if j == 0 then remainder else 0)
        invariant forall j :: i <= j < |winners| ==> winners[j].chips == old(winners[j].chips)
      {
        var w := winners[i];
        Credit(w, winAmount);
        if i == 0 {
          Credit(w, remainder);
        }
        i := i + 1;
      }
    }
  }
}
