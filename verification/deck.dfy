/**
 * `Deck` of deck.py: a list of cards that `reset` rebuilds (all 52 cards,
 * then shuffled) and `draw` pops from the end.
 *
 * `random.shuffle` is the only source of randomness. It is modelled as the
 * Fisher-Yates pass CPython performs, with the random indices it would draw
 * supplied by the caller as `picks`.
 */
module Decks {
  import opened Cards
  import opened Wrappers

  /** The 52 cards in the order `reset` appends them: suit by suit, each suit from TWO to ACE. */
  function FreshDeck(): seq<Card>
  {
    seq(52, i requires 0 <= i < 52 => Card(RankAt(i % 13), SuitAt(i / 13), false))
  }

  /** No two cards of `cs` are the same physical card. */
  ghost predicate DistinctFaces(cs: seq<Card>)
  {
    forall i, j :: 0 <= i < j < |cs| ==> Face(cs[i]) != Face(cs[j])
  }

  ghost function Faces(cs: seq<Card>): set<CardFace>
  {
    set i | 0 <= i < |cs| :: Face(cs[i])
  }

  /** The fresh deck holds every (rank, suit) pair exactly once, face down. */
  lemma FreshDeckIsComplete()
    ensures |FreshDeck()| == 52
    ensures DistinctFaces(FreshDeck())
    ensures forall r: Rank, s: Suit :: Card(r, s, false) in FreshDeck()
  {
    var d := FreshDeck();
    forall r: Rank, s: Suit ensures Card(r, s, false) in d {
      RankValueBijective(r, r);
      SuitIndexBijective(s, s);
      var k := 13 * SuitIndex(s) + RankValue(r) - 2;
      assert k % 13 == RankValue(r) - 2 && k / 13 == SuitIndex(s);
      assert d[k] == Card(r, s, false);
    }
  }

  /** Exchanging two positions keeps the cards pairwise distinct. */
  lemma SwapKeepsDistinct(cs: seq<Card>, a: nat, b: nat)
    requires a < |cs| && b < |cs| && DistinctFaces(cs)
    ensures DistinctFaces(cs[a := cs[b]][b := cs[a]])
  {
    var t := cs[a := cs[b]][b := cs[a]];
    forall i, j | 0 <= i < j < |t| ensures Face(t[i]) != Face(t[j]) {
      var i' := if i == a then b else if i == b then a else i;
      var j' := if j == a then b else if j == b then a else j;
      assert t[i] == cs[i'] && t[j] == cs[j'] && i' != j';
    }
  }

  lemma FacesOfAppend(cs: seq<Card>, c: Card)
    ensures Faces(cs + [c]) == Faces(cs) + {Face(c)}
  {
    var t := cs + [c];
    assert forall i :: 0 <= i < |cs| ==> t[i] == cs[i];
    assert t[|cs|] == c;
  }

  class Deck {
    var cards: seq<Card>
    /** The cards drawn since the last `reset`, in the order they were drawn. */
    ghost var drawn: seq<Card>

    /**
     * The deck and the cards already drawn from it together hold each of
     * the 52 cards at most once, and every card still in the deck is face down.
     */
    ghost predicate Valid()
      reads this
    {
      && DistinctFaces(cards)
      && DistinctFaces(drawn)
      && Faces(cards) !! Faces(drawn)
      && |cards| + |drawn| == 52
      && forall i :: 0 <= i < |cards| ==> !cards[i].visible
    }

    /** `Deck.__init__`: an empty list, then `reset`. */
    constructor (picks: seq<nat>)
      ensures Valid() && drawn == []
      ensures multiset(cards) == multiset(FreshDeck())
    {
      cards := [];
      drawn := [];
      new;
      Reset(picks);
    }

    /** `Deck.reset`: append one card per suit and rank, then shuffle. */
    method Reset(picks: seq<nat>)
      modifies this
      ensures Valid() && drawn == []
      ensures |cards| == 52
      ensures multiset(cards) == multiset(FreshDeck())
      ensures forall r: Rank, s: Suit :: Card(r, s, false) in cards
    {
      cards := [];
      var si := 0;
      while si < 4
        invariant 0 <= si <= 4
        invariant cards == FreshDeck()[..13 * si]
      {
        var ri := 0;
        while ri < 13
          invariant 0 <= ri <= 13
          invariant cards == FreshDeck()[..13 * si + ri]
        {
          var k := 13 * si + ri;
          assert k % 13 == ri && k / 13 == si;
          assert FreshDeck()[..k + 1] == FreshDeck()[..k] + [Card(RankAt(ri), SuitAt(si), false)];
          cards := cards + [Card(RankAt(ri), SuitAt(si), false)];
          ri := ri + 1;
        }
        si := si + 1;
      }
      assert cards == FreshDeck();
      FreshDeckIsComplete();
      drawn := [];
      Shuffle(picks);
      forall r: Rank, s: Suit ensures Card(r, s, false) in cards {
        assert Card(r, s, false) in multiset(FreshDeck());
      }
    }

    /**
     * `Deck.shuffle`, i.e. `random.shuffle(self.cards)`: for i from the last
     * position down to 1, swap position i with a position j in 0..i. The j of
     * each step is `picks[k] % (i + 1)`; steps beyond `picks` swap i with itself.
     */
    method Shuffle(picks: seq<nat>)
      requires DistinctFaces(cards)
      requires forall i :: 0 <= i < |cards| ==> !cards[i].visible
      modifies this`cards
      ensures multiset(cards) == multiset(old(cards)) && |cards| == |old(cards)|
      ensures DistinctFaces(cards)
      ensures forall i :: 0 <= i < |cards| ==> !cards[i].visible
    {
      var i := |cards| - 1;
      var k := 0;
      while i > 0
        invariant i < |cards|
        invariant multiset(cards) == multiset(old(cards)) && |cards| == |old(cards)|
        invariant DistinctFaces(cards)
        invariant forall n :: 0 <= n < |cards| ==> !cards[n].visible
      {
        var j := if k < |picks| then picks[k] % (i + 1) else i;
        SwapKeepsDistinct(cards, i, j);
        cards := cards[i := cards[j]][j := cards[i]];
        i := i - 1;
        k := k + 1;
      }
    }

    /**
     * `Deck.draw`: on a non-empty deck, remove the last card and return it
     * face up; on an empty deck return None and change nothing. A drawn card
     * is never one drawn before since the last `reset`.
     */
    method Draw() returns (c: Option<Card>)
      requires Valid()
      modifies this
      ensures Valid()
      ensures old(|cards|) == 0 ==> c == None && cards == old(cards) && drawn == old(drawn)
      ensures old(|cards|) > 0 ==>
        && c == Some(old(cards[|cards| - 1]).(visible := true))
        && cards == old(cards[..|cards| - 1])
        && drawn == old(drawn) + [c.value]
      ensures c.Some? ==> Face(c.value) !in Faces(old(drawn)) && Face(c.value) !in Faces(cards)
    {
      if |cards| > 0 {
        var n := |cards|;
        var card := cards[n - 1];
        assert cards == cards[..n - 1] + [card];
        FacesOfAppend(cards[..n - 1], card);
        cards := cards[..n - 1];
        card := card.(visible := true);
        FacesOfAppend(drawn, card);
        drawn := drawn + [card];
        c := Some(card);
      } else {
        c := None;
      }
    }

    /** `Deck.__len__`: the cards left, which is 52 minus those drawn since `reset`. */
    function Length(): (n: nat)
      reads this
      requires Valid()
      ensures n == 52 - |drawn|
    {
      |cards|
    }
  }
}
