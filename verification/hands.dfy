/**
 * `HandRank` and `PokerHand` of game_logic.py: the classifier that turns 2..7
 * cards into a category and a tie-break list, and the order on its results.
 *
 * The classifier is reproduced as written, including three behaviours that
 * differ from the usual poker rules (each is exhibited by a lemma below):
 * the wheel A-2-3-4-5 is reported even when a higher straight is present, a
 * straight flush through the wheel counts as a royal flush (its list
 * contains 14), and of two three-of-a-kinds with no pair the lower one is
 * kept and no full house is reported.
 */
module Hands {
  import opened Cards
  import opened Wrappers

  /** `HandRank`, weakest first. */
  datatype HandRank =
    | HighCard | OnePair | TwoPair | ThreeOfAKind | Straight
    | Flush | FullHouse | FourOfAKind | StraightFlush | RoyalFlush

  /** `HandRank.value`. */
  function Strength(r: HandRank): (v: int)
    ensures 1 <= v <= 10
  {
    match r
    case HighCard => 1
    case OnePair => 2
    case TwoPair => 3
    case ThreeOfAKind => 4
    case Straight => 5
    case Flush => 6
    case FullHouse => 7
    case FourOfAKind => 8
    case StraightFlush => 9
    case RoyalFlush => 10
  }

  /** `PokerHand.rank`: a category and the list of rank values that breaks ties within it. */
  datatype Hand = Hand(rank: HandRank, key: seq<int>)

  // ---------------------------------------------------------------------
  // Lists of rank values
  // ---------------------------------------------------------------------

  ghost predicate NonIncreasing(s: seq<int>)
  {
    forall i, j :: 0 <= i < j < |s| ==> s[i] >= s[j]
  }

  ghost predicate Decreasing(s: seq<int>)
  {
    forall i, j :: 0 <= i < j < |s| ==> s[i] > s[j]
  }

  /** Every element of `s` is at most `m`. */
  ghost predicate AtMost(s: seq<int>, m: int)
  {
    forall i :: 0 <= i < |s| ==> s[i] <= m
  }

  lemma AtMostByMultiset(s: seq<int>, t: seq<int>, m: int)
    requires multiset(s) <= multiset(t) && AtMost(t, m)
    ensures AtMost(s, m)
  {
    forall i | 0 <= i < |s| ensures s[i] <= m {
      assert s[i] in multiset(s);
      assert s[i] in t;
    }
  }

  function Insert(x: int, s: seq<int>): (r: seq<int>)
    ensures multiset(r) == multiset(s) + multiset{x}
  {
    if s == [] || x >= s[0] then [x] + s
    else
      assert s == [s[0]] + s[1..];
      [s[0]] + Insert(x, s[1..])
  }

  /** Inserting into a list sorted strongest first keeps it sorted. */
  lemma {:induction false} InsertSorted(x: int, s: seq<int>)
    requires NonIncreasing(s)
    ensures NonIncreasing(Insert(x, s))
  {
    if s != [] && x < s[0] {
      var rest := Insert(x, s[1..]);
      InsertSorted(x, s[1..]);
      assert AtMost(s[1..] + [x], s[0]);
      assert multiset(s[1..] + [x]) == multiset(s[1..]) + multiset{x};
      AtMostByMultiset(rest, s[1..] + [x], s[0]);
      ConsNonIncreasing(s[0], rest);
    }
  }

  /** `sorted(s, reverse=True)` on a list of rank values. */
  function SortDesc(s: seq<int>): (r: seq<int>)
    ensures multiset(r) == multiset(s) && |r| == |s|
    ensures NonIncreasing(r)
  {
    if s == [] then []
    else
      assert s == [s[0]] + s[1..];
      InsertSorted(s[0], SortDesc(s[1..]));
      Insert(s[0], SortDesc(s[1..]))
  }

  /** A list sorted strongest first stays sorted under a head no smaller than any element. */
  lemma ConsNonIncreasing(h: int, s: seq<int>)
    requires AtMost(s, h) && NonIncreasing(s)
    ensures NonIncreasing([h] + s)
  {
    var r := [h] + s;
    forall i, j | 0 <= i < j < |r| ensures r[i] >= r[j] {
      if i > 0 {
        assert r[i] == s[i - 1] && r[j] == s[j - 1];
      } else {
        assert r[j] == s[j - 1];
      }
    }
  }

  /** Sorting a list that is already in descending order gives it back. */
  lemma {:induction false} SortDescOfSorted(s: seq<int>)
    requires NonIncreasing(s)
    ensures SortDesc(s) == s
  {
    if s != [] {
      SortDescOfSorted(s[1..]);
      assert s == [s[0]] + s[1..];
    }
  }

  /** Drops adjacent repetitions. */
  function Dedup(s: seq<int>): (r: seq<int>)
    ensures forall x :: x in r <==> x in s
    ensures NonIncreasing(s) ==> Decreasing(r)
  {
    if |s| <= 1 then s
    else if s[0] == s[1] then Dedup(s[1..])
    else
      var rest := Dedup(s[1..]);
      assert NonIncreasing(s) ==> AtMost(rest, s[1]) by {
        if NonIncreasing(s) {
          forall i | 0 <= i < |rest| ensures rest[i] <= s[1] {
            assert rest[i] in s[1..];
          }
        }
      }
      [s[0]] + rest
  }

  /** `sorted(set(values), reverse=True)`. */
  function Distinct(values: seq<int>): (u: seq<int>)
    ensures Decreasing(u)
    ensures forall x :: x in u <==> x in values
  {
    var sorted := SortDesc(values);
    assert forall x :: x in sorted <==> x in values by {
      forall x ensures x in sorted <==> x in values {
        assert x in sorted <==> x in multiset(sorted);
        assert x in values <==> x in multiset(values);
      }
    }
    Dedup(sorted)
  }

  /** `[v for v in s if v != x]`. */
  function Without(s: seq<int>, x: int): (r: seq<int>)
    ensures forall y :: multiset(r)[y] == if y == x then 0 else multiset(s)[y]
    ensures |r| == |s| - multiset(s)[x]
  {
    if s == [] then []
    else
      var rest := Without(s[1..], x);
      assert s == [s[0]] + s[1..];
      assert multiset(s) == multiset{s[0]} + multiset(s[1..]);
      if s[0] == x then rest else [s[0]] + rest
  }

  lemma WithoutRemoves(s: seq<int>, x: int)
    ensures multiset(Without(s, x)) == multiset(s)[x := 0]
  {
  }

  /** `max(s)`, defined only where Python's `max` does not raise. */
  function MaxOf(s: seq<int>): (m: int)
    requires |s| > 0
    ensures m in s
    ensures forall x :: x in s ==> x <= m
  {
    if |s| == 1 then s[0]
    else
      var rest := MaxOf(s[1..]);
      assert s == [s[0]] + s[1..];
      if s[0] >= rest then s[0] else rest
  }

  /** `max(s)` is the one largest value of `s`. */
  lemma MaxIsTop(s: seq<int>)
    requires |s| > 0
    ensures TopOf([MaxOf(s)], multiset(s), 1)
  {
    var m := MaxOf(s);
    forall x | x in multiset(s) - multiset([m]) ensures x <= m {
      assert x in s;
    }
  }

  /** Python's slice `s[:n]`, which takes fewer than `n` elements from a shorter list. */
  function Take(s: seq<int>, n: nat): (r: seq<int>)
    ensures |r| == if |s| < n then |s| else n
    ensures r == s[..|r|]
  {
    if |s| <= n then s else s[..n]
  }

  /** `r` holds the `n` largest values of `pool` (all of them if there are fewer), strongest first. */
  ghost predicate TopOf(r: seq<int>, pool: multiset<int>, n: nat)
  {
    && |r| == (if |pool| < n then |pool| else n)
    && NonIncreasing(r)
    && multiset(r) <= pool
    && forall x, i :: x in pool - multiset(r) && 0 <= i < |r| ==> x <= r[i]
  }

  /** The first `n` entries of a list sorted strongest first are its `n` largest values. */
  lemma TakeSortedIsTop(s: seq<int>, n: nat)
    requires NonIncreasing(s)
    ensures TopOf(Take(s, n), multiset(s), n)
  {
    var r := Take(s, n);
    var tail := s[|r|..];
    assert s == r + tail;
    assert multiset(s) - multiset(r) == multiset(tail) by {
      assert multiset(s) == multiset(r) + multiset(tail);
    }
    TailBelowHead(s, |r|);
  }

  /** In a list sorted strongest first, nothing after position `k` beats anything before it. */
  lemma TailBelowHead(s: seq<int>, k: nat)
    requires NonIncreasing(s) && k <= |s|
    ensures forall x, i :: x in multiset(s[k..]) && 0 <= i < k ==> x <= s[..k][i]
  {
    forall x, i | x in multiset(s[k..]) && 0 <= i < k ensures x <= s[..k][i] {
      var j :| 0 <= j < |s[k..]| && s[k..][j] == x;
      assert s[k + j] == x;
    }
  }

  /** `sorted(s, reverse=True)[:n]` is the `n` largest values of `s`. */
  lemma TopOfSortDesc(s: seq<int>, n: nat)
    ensures TopOf(Take(SortDesc(s), n), multiset(s), n)
  {
    TakeSortedIsTop(SortDesc(s), n);
  }

  // ---------------------------------------------------------------------
  // Straights: `PokerHand._find_straight`
  // ---------------------------------------------------------------------

  /** All of A, 2, 3, 4, 5 are among the values. */
  predicate HasWheel(values: seq<int>)
  {
    14 in values && 2 in values && 3 in values && 4 in values && 5 in values
  }

  /** Five consecutive values with top `t` are among the values. */
  ghost predicate HasRun(values: seq<int>, t: int)
  {
    t in values && t - 1 in values && t - 2 in values && t - 3 in values && t - 4 in values
  }

  /** The loop over `range(len(u) - 4)` from index `i` on: the first window of five whose ends differ by 4. */
  function Window(u: seq<int>, i: nat): (r: Option<seq<int>>)
    ensures r.Some? ==> |r.value| == 5
    decreases |u| - i
  {
    if i + 4 < |u| then
      if u[i] - u[i + 4] == 4 then Some(u[i..i + 5]) else Window(u, i + 1)
    else None
  }

  /**
   * `_find_straight`: the wheel `[5, 4, 3, 2, 14]` when A-2-3-4-5 are all
   * present (checked first), otherwise the highest five consecutive distinct
   * values, highest first, otherwise None.
   */
  function FindStraight(values: seq<int>): (r: Option<seq<int>>)
    ensures r.Some? ==> |r.value| == 5
  {
    var unique := Distinct(values);
    if HasWheel(values) then Some([5, 4, 3, 2, 14])
    else Window(unique, 0)
  }

  /** A window found in a strictly decreasing list is five consecutive values, all from the list. */
  lemma {:induction false} WindowShape(u: seq<int>, i: nat)
    requires Decreasing(u)
    ensures Window(u, i).Some? ==>
      var w := Window(u, i).value;
      && w == [w[0], w[0] - 1, w[0] - 2, w[0] - 3, w[0] - 4]
      && forall k :: 0 <= k < 5 ==> w[k] in u
    decreases |u| - i
  {
    if i + 4 < |u| {
      if u[i] - u[i + 4] == 4 {
        assert u[i] > u[i + 1] > u[i + 2] > u[i + 3] > u[i + 4];
      } else {
        WindowShape(u, i + 1);
      }
    }
  }

  /** The scan returns a window at or before any position `p` where a window starts. */
  lemma {:induction false} WindowFindsFirst(u: seq<int>, i: nat, p: nat)
    requires Decreasing(u) && i <= p && p + 4 < |u| && u[p] - u[p + 4] == 4
    ensures Window(u, i).Some? && Window(u, i).value[0] >= u[p]
    decreases p - i
  {
    if u[i] - u[i + 4] != 4 {
      WindowFindsFirst(u, i + 1, p);
    } else {
      assert Window(u, i).value[0] == u[i];
    }
  }

  /** In a strictly decreasing list holding `u[p] - 1`, that value comes right after `u[p]`. */
  lemma StepDown(u: seq<int>, p: nat)
    requires Decreasing(u) && p < |u| && u[p] - 1 in u
    ensures p + 1 < |u| && u[p + 1] == u[p] - 1
  {
    var q :| 0 <= q < |u| && u[q] == u[p] - 1;
    assert q > p;
  }

  /** Five consecutive values in a strictly decreasing list sit side by side. */
  lemma RunIsWindow(u: seq<int>, t: int) returns (p: nat)
    requires Decreasing(u)
    requires t in u && t - 1 in u && t - 2 in u && t - 3 in u && t - 4 in u
    ensures p + 4 < |u| && u[p] == t && u[p] - u[p + 4] == 4
  {
    p :| 0 <= p < |u| && u[p] == t;
    StepDown(u, p);
    StepDown(u, p + 1);
    StepDown(u, p + 2);
    StepDown(u, p + 3);
  }

  /** The scan over a strictly decreasing list finds the highest run of five, if there is one. */
  lemma WindowMeaning(u: seq<int>)
    requires Decreasing(u)
    ensures Window(u, 0).Some? <==> exists t :: HasRun(u, t)
    ensures Window(u, 0).Some? ==>
      var t := Window(u, 0).value[0];
      && Window(u, 0).value == [t, t - 1, t - 2, t - 3, t - 4]
      && HasRun(u, t)
      && forall t' :: HasRun(u, t') ==> t' <= t
  {
    WindowShape(u, 0);
    if Window(u, 0).Some? {
      var w := Window(u, 0).value;
      assert w[0] in u && w[1] in u && w[2] in u && w[3] in u && w[4] in u;
      assert HasRun(u, w[0]);
      forall t' | HasRun(u, t') ensures t' <= w[0] {
        var p := RunIsWindow(u, t');
        WindowFindsFirst(u, 0, p);
      }
    }
    if exists t :: HasRun(u, t) {
      var t :| HasRun(u, t);
      var p := RunIsWindow(u, t);
      WindowFindsFirst(u, 0, p);
    }
  }

  /** Whether a run is present depends only on which values are present. */
  lemma HasRunSameValues(a: seq<int>, b: seq<int>)
    requires forall x :: x in a <==> x in b
    ensures forall t :: HasRun(a, t) <==> HasRun(b, t)
  {
  }

  /**
   * What `_find_straight` returns: the wheel whenever A, 2, 3, 4, 5 are all
   * present; otherwise a straight exactly when five consecutive values are
   * present, and then the highest such run, highest value first.
   */
  lemma FindStraightMeaning(values: seq<int>)
    ensures HasWheel(values) ==> FindStraight(values) == Some([5, 4, 3, 2, 14])
    ensures !HasWheel(values) ==> (FindStraight(values).Some? <==> exists t :: HasRun(values, t))
    ensures !HasWheel(values) && FindStraight(values).Some? ==>
      var t := FindStraight(values).value[0];
      && FindStraight(values).value == [t, t - 1, t - 2, t - 3, t - 4]
      && HasRun(values, t)
      && forall t' :: HasRun(values, t') ==> t' <= t
  {
    if !HasWheel(values) {
      NoWheelStraight(values);
    }
  }

  /** Without the wheel, `_find_straight` is the scan over the distinct values. */
  lemma NoWheelStraight(values: seq<int>)
    requires !HasWheel(values)
    ensures var r := FindStraight(values);
      && (r.Some? <==> exists t :: HasRun(values, t))
      && (r.Some? ==>
            var t := r.value[0];
            && r.value == [t, t - 1, t - 2, t - 3, t - 4]
            && HasRun(values, t)
            && forall t' :: HasRun(values, t') ==> t' <= t)
  {
    StraightOfWindow(values, Distinct(values), FindStraight(values));
  }

  /** The scan's meaning carried over to any list holding the same values. */
  lemma StraightOfWindow(values: seq<int>, u: seq<int>, r: Option<seq<int>>)
    requires Decreasing(u) && (forall x :: x in u <==> x in values) && r == Window(u, 0)
    ensures
      && (r.Some? <==> exists t :: HasRun(values, t))
      && (r.Some? ==>
            var t := r.value[0];
            && r.value == [t, t - 1, t - 2, t - 3, t - 4]
            && HasRun(values, t)
            && forall t' :: HasRun(values, t') ==> t' <= t)
  {
    WindowMeaning(u);
    HasRunSameValues(u, values);
  }

  // ---------------------------------------------------------------------
  // Cards in descending rank order: `PokerHand.__init__`
  // ---------------------------------------------------------------------

  ghost predicate SortedByValue(cs: seq<Card>)
  {
    forall i, j :: 0 <= i < j < |cs| ==> Value(cs[i]) >= Value(cs[j])
  }

  /** `[card.rank.value_int for card in cs]`. */
  function Values(cs: seq<Card>): (vs: seq<int>)
    ensures |vs| == |cs|
    ensures forall i :: 0 <= i < |cs| ==> vs[i] == Value(cs[i])
  {
    if cs == [] then [] else [Value(cs[0])] + Values(cs[1..])
  }

  lemma ValuesAppend(a: seq<Card>, b: seq<Card>)
    ensures Values(a + b) == Values(a) + Values(b)
  {
  }

  /** Puts `c` before the first card that is not stronger, so equal cards keep their order. */
  function InsertCard(c: Card, s: seq<Card>): (r: seq<Card>)
    ensures multiset(r) == multiset(s) + multiset{c}
  {
    if s == [] || Value(c) >= Value(s[0]) then [c] + s
    else
      assert s == [s[0]] + s[1..];
      [s[0]] + InsertCard(c, s[1..])
  }

  lemma {:induction false} InsertCardValues(c: Card, s: seq<Card>)
    ensures multiset(Values(InsertCard(c, s))) == multiset(Values(s)) + multiset{Value(c)}
  {
    if s == [] || Value(c) >= Value(s[0]) {
      assert Values([c] + s) == [Value(c)] + Values(s);
    } else {
      InsertCardValues(c, s[1..]);
      assert Values([s[0]] + InsertCard(c, s[1..])) == [Value(s[0])] + Values(InsertCard(c, s[1..]));
      assert Values(s) == [Value(s[0])] + Values(s[1..]);
    }
  }

  lemma {:induction false} InsertCardSorted(c: Card, s: seq<Card>)
    requires SortedByValue(s)
    ensures SortedByValue(InsertCard(c, s))
  {
    if s != [] && Value(c) < Value(s[0]) {
      InsertCardSorted(c, s[1..]);
      var rest := InsertCard(c, s[1..]);
      forall i | 0 <= i < |rest| ensures Value(rest[i]) <= Value(s[0]) {
        assert rest[i] in multiset(rest);
        assert rest[i] == c || rest[i] in s[1..];
      }
    }
  }

  /** `sorted(cards, key=lambda x: x.rank.value_int, reverse=True)`: a stable sort, strongest first. */
  function SortCards(cs: seq<Card>): (r: seq<Card>)
    ensures multiset(r) == multiset(cs) && |r| == |cs|
    ensures SortedByValue(r)
  {
    if cs == [] then []
    else
      var rest := SortCards(cs[1..]);
      assert cs == [cs[0]] + cs[1..];
      InsertCardSorted(cs[0], rest);
      InsertCard(cs[0], rest)
  }

  /** Sorting the cards permutes their values. */
  lemma {:induction false} SortCardsValues(cs: seq<Card>)
    ensures multiset(Values(SortCards(cs))) == multiset(Values(cs))
  {
    if cs != [] {
      SortCardsValues(cs[1..]);
      InsertCardValues(cs[0], SortCards(cs[1..]));
      assert Values(cs) == [Value(cs[0])] + Values(cs[1..]);
      assert multiset(Values(cs)) == multiset{Value(cs[0])} + multiset(Values(cs[1..]));
    }
  }

  /** `[card.rank.value_int for card in cs if card.suit == suit]`. */
  function SuitValues(cs: seq<Card>, suit: Suit): (r: seq<int>)
    ensures |r| <= |cs|
  {
    if cs == [] then []
    else if cs[0].suit == suit then [Value(cs[0])] + SuitValues(cs[1..], suit)
    else SuitValues(cs[1..], suit)
  }

  lemma {:induction false} SuitValuesMembers(cs: seq<Card>, suit: Suit, x: int)
    ensures x in SuitValues(cs, suit) <==> exists c :: c in cs && c.suit == suit && Value(c) == x
  {
    if cs != [] {
      var rest := SuitValues(cs[1..], suit);
      assert SuitValues(cs, suit) == if cs[0].suit == suit then [Value(cs[0])] + rest else rest;
      SuitValuesMembers(cs[1..], suit, x);
      if x in SuitValues(cs, suit) {
        if cs[0].suit == suit && x == Value(cs[0]) {
          assert cs[0] in cs;
        } else {
          assert x in rest;
          var c :| c in cs[1..] && c.suit == suit && Value(c) == x;
          assert c in cs;
        }
      }
      if exists c :: c in cs && c.suit == suit && Value(c) == x {
        var c :| c in cs && c.suit == suit && Value(c) == x;
        if c != cs[0] {
          assert c in cs[1..];
        }
      }
    }
  }

  /** Taken from cards sorted strongest first, a suit's values are sorted too. */
  lemma {:induction false} SuitValuesSorted(cs: seq<Card>, suit: Suit)
    requires SortedByValue(cs)
    ensures NonIncreasing(SuitValues(cs, suit))
  {
    if cs != [] {
      var rest := SuitValues(cs[1..], suit);
      SuitValuesSorted(cs[1..], suit);
      forall i | 0 <= i < |rest| ensures rest[i] <= Value(cs[0]) {
        SuitValuesMembers(cs[1..], suit, rest[i]);
        var c :| c in cs[1..] && c.suit == suit && Value(c) == rest[i];
        var j :| 0 <= j < |cs[1..]| && cs[1..][j] == c;
        assert cs[j + 1] == c;
      }
    }
  }


  /**
   * The flush suit of `evaluate_hand`: `Counter(suits)` lists suits in the
   * order they first occur in `order`, and the first one counted at least
   * five times in `all` is taken.
   */
  lemma {:induction false} SuitValuesAppend(a: seq<Card>, b: seq<Card>, suit: Suit)
    ensures SuitValues(a + b, suit) == SuitValues(a, suit) + SuitValues(b, suit)
  {
    if a != [] {
      var head := if a[0].suit == suit then [Value(a[0])] else [];
      assert (a + b)[0] == a[0] && (a + b)[1..] == a[1..] + b;
      assert SuitValues(a + b, suit) == head + SuitValues(a[1..] + b, suit);
      assert SuitValues(a, suit) == head + SuitValues(a[1..], suit);
      SuitValuesAppend(a[1..], b, suit);
    } else {
      assert a + b == b;
    }
  }

  lemma SuitValuesSplit(b: seq<Card>, i: nat, suit: Suit)
    requires i < |b|
    ensures multiset(SuitValues(b, suit)) ==
      multiset(SuitValues([b[i]], suit)) + multiset(SuitValues(b[..i] + b[i + 1..], suit))
  {
    assert b == b[..i] + ([b[i]] + b[i + 1..]);
    SuitValuesAppend(b[..i], [b[i]] + b[i + 1..], suit);
    SuitValuesAppend([b[i]], b[i + 1..], suit);
    SuitValuesAppend(b[..i], b[i + 1..], suit);
  }

  /** Reordering the cards does not change the multiset of values a suit holds. */
  lemma {:induction false} SuitValuesPermutation(a: seq<Card>, b: seq<Card>, suit: Suit)
    requires multiset(a) == multiset(b)
    ensures multiset(SuitValues(a, suit)) == multiset(SuitValues(b, suit))
    decreases |a|
  {
    if a == [] {
      assert |multiset(b)| == 0;
    } else {
      var c := a[0];
      assert c in multiset(b);
      var i :| 0 <= i < |b| && b[i] == c;
      var b' := b[..i] + b[i + 1..];
      assert b == b[..i] + [c] + b[i + 1..];
      assert multiset(b') == multiset(b) - multiset{c};
      assert a == [c] + a[1..];
      assert multiset(a[1..]) == multiset(a) - multiset{c};
      SuitValuesPermutation(a[1..], b', suit);
      SuitValuesSplit(b, i, suit);
      SuitValuesAppend([c], a[1..], suit);
    }
  }


  function FlushSuitFrom(order: seq<Card>, all: seq<Card>): (r: Option<Suit>)
    ensures r.Some? ==> |SuitValues(all, r.value)| >= 5
    ensures r.None? ==> forall i :: 0 <= i < |order| ==> |SuitValues(all, order[i].suit)| < 5
  {
    if order == [] then None
    else if |SuitValues(all, order[0].suit)| >= 5 then Some(order[0].suit)
    else FlushSuitFrom(order[1..], all)
  }

  /** The values of `u`, in order, that occur exactly `k` times: the `pairs` list for k = 2. */
  function WithCount(u: seq<int>, m: multiset<int>, k: nat): (r: seq<int>)
    ensures forall x :: x in r <==> x in u && m[x] == k
    ensures Decreasing(u) ==> Decreasing(r)
  {
    if u == [] then []
    else
      var rest := WithCount(u[1..], m, k);
      assert Decreasing(u) ==> AtMost(rest, u[0] - 1) by {
        if Decreasing(u) {
          forall i | 0 <= i < |rest| ensures rest[i] <= u[0] - 1 {
            assert rest[i] in u[1..];
          }
        }
      }
      if m[u[0]] == k then [u[0]] + rest else rest
  }

  /**
   * The value the loop over `value_counts` leaves in `three_of_a_kind`
   * (k = 3) or `four_of_a_kind` (k = 4): each match overwrites the previous
   * one, so it is the last value of `u` counted `k` times.
   */
  function LastWithCount(u: seq<int>, m: multiset<int>, k: nat): (r: Option<int>)
    ensures r.Some? ==> r.value in u && m[r.value] == k
    ensures r.None? ==> forall x :: x in u ==> m[x] != k
    ensures Decreasing(u) && r.Some? ==> forall x :: x in u && m[x] == k ==> r.value <= x
  {
    if u == [] then None
    else if m[u[|u| - 1]] == k then Some(u[|u| - 1])
    else
      assert u == u[..|u| - 1] + [u[|u| - 1]];
      LastWithCount(u[..|u| - 1], m, k)
  }

  // ---------------------------------------------------------------------
  // The branches of `evaluate_hand`
  // ---------------------------------------------------------------------

  /** `ROYAL_FLUSH` when the flush straight's largest value is 14, else `STRAIGHT_FLUSH`. */
  function StraightFlushHand(sf: seq<int>): (h: Hand)
    requires |sf| == 5
    ensures h.key == sf
    ensures h.rank == RoyalFlush || h.rank == StraightFlush
    ensures h.rank == RoyalFlush <==> MaxOf(sf) == 14
  {
    if MaxOf(sf) == 14 then Hand(RoyalFlush, sf) else Hand(StraightFlush, sf)
  }

  /** `[q] * 4 + [kicker]` with the largest value other than `q` as kicker. */
  function QuadsHand(vs: seq<int>, q: int): (h: Hand)
    requires multiset(vs)[q] == 4 && |vs| >= 5
    ensures h.rank == FourOfAKind && |h.key| == 5
    ensures var k := h.key[4];
      && h.key == [q, q, q, q, k] && k != q && k in vs
      && forall v :: v in vs && v != q ==> v <= k
  {
    var others := Without(vs, q);
    var kicker := MaxOf(others);
    assert multiset(others)[kicker] > 0;
    assert kicker != q && multiset(vs)[kicker] > 0;
    assert forall v :: v in vs && v != q ==> v <= kicker by {
      forall v | v in vs && v != q ensures v <= kicker {
        assert multiset(vs)[v] > 0;
        assert multiset(others)[v] > 0;
        assert v in others;
      }
    }
    Hand(FourOfAKind, [q, q, q, q, kicker])
  }

  /** `[three_of_a_kind] * 3 + [max(pairs)] * 2`. */
  function FullHouseHand(t: int, pairs: seq<int>): (h: Hand)
    requires |pairs| > 0
    ensures h.rank == FullHouse && |h.key| == 5
    ensures var p := h.key[3];
      && h.key == [t, t, t, p, p] && p in pairs
      && forall x :: x in pairs ==> x <= p
  {
    var p := MaxOf(pairs);
    Hand(FullHouse, [t, t, t, p, p])
  }

  /** `sorted(flush_values[:5], reverse=True)`: the first five flush values of the sorted cards. */
  function FlushHand(sorted: seq<Card>, suit: Suit): (h: Hand)
    requires |SuitValues(sorted, suit)| >= 5
    ensures h.rank == Flush && |h.key| == 5
  {
    var fv := SuitValues(sorted, suit);
    Hand(Flush, SortDesc(fv[..5]))
  }

  /** Taken from cards sorted strongest first, these are the suit's five largest values. */
  lemma FlushHandTop(sorted: seq<Card>, suit: Suit)
    requires |SuitValues(sorted, suit)| >= 5 && SortedByValue(sorted)
    ensures TopOf(FlushHand(sorted, suit).key, multiset(SuitValues(sorted, suit)), 5)
  {
    var fv := SuitValues(sorted, suit);
    SuitValuesSorted(sorted, suit);
    assert NonIncreasing(fv[..5]);
    SortDescOfSorted(fv[..5]);
    TakeSortedIsTop(fv, 5);
  }

  /** `[three_of_a_kind] * 3` and the two largest other values. */
  function TripsHand(vs: seq<int>, t: int): (h: Hand)
    requires multiset(vs)[t] == 3 && |vs| >= 5
    ensures h.rank == ThreeOfAKind && |h.key| == 5
    ensures h.key[..3] == [t, t, t]
  {
    var others := Without(vs, t);
    assert multiset(others) == multiset(vs)[t := 0];
    TopOfSortDesc(others, 2);
    Hand(ThreeOfAKind, [t, t, t] + Take(SortDesc(others), 2))
  }

  /** The two kickers are the two largest values other than `t`. */
  lemma TripsHandTop(vs: seq<int>, t: int)
    requires multiset(vs)[t] == 3 && |vs| >= 5
    ensures TopOf(TripsHand(vs, t).key[3..], multiset(vs)[t := 0], 2)
  {
    var others := Without(vs, t);
    assert multiset(others) == multiset(vs)[t := 0];
    TopOfSortDesc(others, 2);
    assert TripsHand(vs, t).key[3..] == Take(SortDesc(others), 2);
  }

  /**
   * `top_pairs * 2 + [kicker]`: the two largest pairs (as `[a, b, a, b]`)
   * and the largest value outside both. `v not in top_pairs` is taken as
   * removing the first pair value, then the second.
   */
  function TwoPairHand(vs: seq<int>, pairs: seq<int>): (h: Hand)
    requires |pairs| >= 2 && |vs| >= 5 && Decreasing(pairs)
    requires forall x :: x in pairs ==> multiset(vs)[x] == 2
    ensures h.rank == TwoPair && |h.key| == 5
    ensures h.key[..4] == [pairs[0], pairs[1], pairs[0], pairs[1]]
  {
    var top := SortDesc(pairs)[..2];
    TopPairs(vs, pairs);
    var rest := Without(Without(vs, top[0]), top[1]);
    Hand(TwoPair, top + top + [MaxOf(rest)])
  }

  /** With `pairs` already descending, the two top pairs are its first two, and four cards are left out. */
  lemma TopPairs(vs: seq<int>, pairs: seq<int>)
    requires |pairs| >= 2 && |vs| >= 5 && Decreasing(pairs)
    requires forall x :: x in pairs ==> multiset(vs)[x] == 2
    ensures SortDesc(pairs)[..2] == [pairs[0], pairs[1]]
    ensures |Without(Without(vs, pairs[0]), pairs[1])| == |vs| - 4
  {
    assert NonIncreasing(pairs);
    SortDescOfSorted(pairs);
    var p0, p1 := pairs[0], pairs[1];
    assert p0 in pairs && p1 in pairs;
    var once := Without(vs, p0);
    assert |once| == |vs| - 2;
    assert multiset(once)[p1] == 2;
  }

  /** The kicker is the largest value outside both pairs. */
  lemma TwoPairHandTop(vs: seq<int>, pairs: seq<int>)
    requires |pairs| >= 2 && |vs| >= 5 && Decreasing(pairs)
    requires forall x :: x in pairs ==> multiset(vs)[x] == 2
    ensures TopOf(TwoPairHand(vs, pairs).key[4..], multiset(vs)[pairs[0] := 0][pairs[1] := 0], 1)
  {
    SortDescOfSorted(pairs);
    var top := SortDesc(pairs)[..2];
    assert top == [pairs[0], pairs[1]];
    assert pairs[0] in pairs && pairs[1] in pairs;
    var rest := Without(Without(vs, top[0]), top[1]);
    WithoutRemoves(vs, top[0]);
    WithoutRemoves(Without(vs, top[0]), top[1]);
    MaxIsTop(rest);
    assert TwoPairHand(vs, pairs).key[4..] == [MaxOf(rest)];
  }

  /** `[pairs[0]] * 2` and the three largest other values. */
  function PairHand(vs: seq<int>, p: int): (h: Hand)
    requires multiset(vs)[p] == 2 && |vs| >= 5
    ensures h.rank == OnePair && |h.key| == 5
    ensures h.key[..2] == [p, p]
  {
    var others := Without(vs, p);
    assert multiset(others) == multiset(vs)[p := 0];
    TopOfSortDesc(others, 3);
    Hand(OnePair, [p, p] + Take(SortDesc(others), 3))
  }

  /** The three kickers are the three largest values other than `p`. */
  lemma PairHandTop(vs: seq<int>, p: int)
    requires multiset(vs)[p] == 2 && |vs| >= 5
    ensures TopOf(PairHand(vs, p).key[2..], multiset(vs)[p := 0], 3)
  {
    var others := Without(vs, p);
    assert multiset(others) == multiset(vs)[p := 0];
    TopOfSortDesc(others, 3);
    assert PairHand(vs, p).key[2..] == Take(SortDesc(others), 3);
  }

  /** `sorted_values[:5]`. */
  function HighCardHand(vs: seq<int>): (h: Hand)
    requires |vs| >= 5
    ensures h.rank == HighCard && |h.key| == 5
  {
    TopOfSortDesc(vs, 5);
    Hand(HighCard, Take(SortDesc(vs), 5))
  }

  /** They are the five largest values. */
  lemma HighCardHandTop(vs: seq<int>)
    requires |vs| >= 5
    ensures TopOf(HighCardHand(vs).key, multiset(vs), 5)
  {
    TopOfSortDesc(vs, 5);
  }

  /**
   * The local variables `evaluate_hand` computes before choosing a branch:
   * the cards and their values strongest first, the flush suit, the
   * straight, the values counted twice (largest first), the value left in
   * `three_of_a_kind` and `four_of_a_kind`, and the straight among the
   * flush suit's values.
   */
  datatype Analysis = Analysis(
    sorted: seq<Card>,
    vs: seq<int>,
    flushSuit: Option<Suit>,
    straight: Option<seq<int>>,
    pairs: seq<int>,
    trips: Option<int>,
    quads: Option<int>,
    straightFlush: Option<seq<int>>)

  /** What each branch of the cascade needs of the analysis. */
  ghost predicate WellFormed(a: Analysis)
  {
    && |a.vs| >= 5
    && SortedByValue(a.sorted)
    && (a.quads.Some? ==> multiset(a.vs)[a.quads.value] == 4)
    && (a.trips.Some? ==> multiset(a.vs)[a.trips.value] == 3)
    && (a.flushSuit.Some? ==> |SuitValues(a.sorted, a.flushSuit.value)| >= 5)
    && (a.straight.Some? ==> |a.straight.value| == 5)
    && (a.straightFlush.Some? ==> |a.straightFlush.value| == 5)
    && Decreasing(a.pairs)
    && (forall x :: x in a.pairs ==> multiset(a.vs)[x] == 2)
  }

  /** The first half of `evaluate_hand` on five or more cards. */
  function Analyze(cards: seq<Card>): (a: Analysis)
    requires |cards| >= 5
    ensures WellFormed(a)
    ensures a.sorted == SortCards(cards) && a.vs == Values(a.sorted)
  {
    var sorted := SortCards(cards);
    var vs := Values(sorted);
    var flushSuit := FlushSuitFrom(sorted, sorted);
    var counts := multiset(vs);
    var straight := FindStraight(vs);
    // `Counter(values)` lists values in first-occurrence order; `values` is sorted, so that is descending.
    var unique := Distinct(vs);
    var found := WithCount(unique, counts, 2);
    assert NonIncreasing(found);
    SortDescOfSorted(found);
    var pairs := SortDesc(found);
    var trips := LastWithCount(unique, counts, 3);
    var quads := LastWithCount(unique, counts, 4);
    var straightFlush :=
      if flushSuit.Some? && straight.Some? then FindStraight(SuitValues(sorted, flushSuit.value)) else None;
    Analysis(sorted, vs, flushSuit, straight, pairs, trips, quads, straightFlush)
  }

  /** The second half of `evaluate_hand`: the branches, strongest first. */
  function Classify(a: Analysis): (h: Hand)
    requires WellFormed(a)
    ensures |h.key| == 5
  {
    if a.straightFlush.Some? then StraightFlushHand(a.straightFlush.value)
    else if a.quads.Some? then QuadsHand(a.vs, a.quads.value)
    else if a.trips.Some? && |a.pairs| > 0 then FullHouseHand(a.trips.value, a.pairs)
    else if a.flushSuit.Some? then FlushHand(a.sorted, a.flushSuit.value)
    else if a.straight.Some? then Hand(Straight, a.straight.value)
    else if a.trips.Some? then TripsHand(a.vs, a.trips.value)
    else if |a.pairs| >= 2 then TwoPairHand(a.vs, a.pairs)
    else if |a.pairs| == 1 then
      assert a.pairs[0] in a.pairs;
      PairHand(a.vs, a.pairs[0])
    else HighCardHand(a.vs)
  }

  /**
   * `PokerHand(cards).rank`, i.e. `evaluate_hand` on the cards sorted
   * strongest first. Fewer than five cards give `HIGH_CARD` with all their
   * values; from five cards on every tie-break list has five entries.
   */
  function Evaluate(cards: seq<Card>): (h: Hand)
    ensures |cards| < 5 ==> h.rank == HighCard && |h.key| == |cards|
    ensures |cards| >= 5 ==> |h.key| == 5
  {
    if |cards| < 5 then Hand(HighCard, Take(Values(SortCards(cards)), 5))
    else Classify(Analyze(cards))
  }

  // ---------------------------------------------------------------------
  // What `evaluate_hand` returns
  // ---------------------------------------------------------------------

  /** The suit `evaluate_hand` treats as the flush suit, if any. */
  function FlushSuitOf(cards: seq<Card>): Option<Suit>
  {
    var sorted := SortCards(cards);
    FlushSuitFrom(sorted, sorted)
  }

  /**
   * The flush suit is held by at least five of the cards, and there is none
   * only when every suit is held by fewer than five.
   */
  lemma FlushSuitMeaning(cards: seq<Card>)
    ensures FlushSuitOf(cards).Some? ==> |SuitValues(cards, FlushSuitOf(cards).value)| >= 5
    ensures FlushSuitOf(cards).None? ==> forall suit :: |SuitValues(cards, suit)| < 5
  {
    var sorted := SortCards(cards);
    forall suit ensures |SuitValues(sorted, suit)| == |SuitValues(cards, suit)| {
      SuitValuesPermutation(sorted, cards, suit);
      assert |multiset(SuitValues(sorted, suit))| == |multiset(SuitValues(cards, suit))|;
    }
    if FlushSuitOf(cards).None? {
      forall suit ensures |SuitValues(cards, suit)| < 5 {
        var sv := SuitValues(sorted, suit);
        if |sv| >= 5 {
          SuitValuesMembers(sorted, suit, sv[0]);
        }
      }
    }
  }

  /** How many of the cards have value `x`. */
  ghost function Count(cards: seq<Card>, x: int): nat
  {
    multiset(Values(cards))[x]
  }

  /** The value counts `evaluate_hand` works from are those of the unsorted cards. */
  lemma CountsOfSorted(cards: seq<Card>)
    ensures forall x :: multiset(Values(SortCards(cards)))[x] == Count(cards, x)
    ensures forall x :: x in Values(SortCards(cards)) <==> Count(cards, x) > 0
  {
    SortCardsValues(cards);
    var vs := Values(SortCards(cards));
    forall x ensures x in vs <==> Count(cards, x) > 0 {
      assert x in vs <==> x in multiset(vs);
    }
  }

  lemma HeadIsMember(w: seq<int>)
    ensures w != [] ==> w[0] in w
  {
  }

  /** A strictly decreasing list is determined by its members. */
  lemma {:induction false} DecreasingUnique(u: seq<int>, w: seq<int>)
    requires Decreasing(u) && Decreasing(w)
    requires forall x :: x in u <==> x in w
    ensures u == w
  {
    if u == [] {
      if w != [] {
        HeadIsMember(w);
        assert false;
      }
    } else {
      assert u[0] in u;
      assert u[0] in w;
      assert w[0] in w;
      assert w[0] in u;
      var i :| 0 <= i < |w| && w[i] == u[0];
      var j :| 0 <= j < |u| && u[j] == w[0];
      assert u[0] == w[0];
      forall x ensures x in u[1..] <==> x in w[1..] {
        if x in u[1..] {
          var k :| 1 <= k < |u| && u[k] == x;
          assert x in w && x != w[0];
        }
        if x in w[1..] {
          var k :| 1 <= k < |w| && w[k] == x;
          assert x in u && x != u[0];
        }
      }
      DecreasingUnique(u[1..], w[1..]);
      assert u == [u[0]] + u[1..] && w == [w[0]] + w[1..];
    }
  }

  /** A straight found in one list is found in any list holding the same values. */
  lemma FindStraightSameValues(a: seq<int>, b: seq<int>)
    requires forall x :: x in a <==> x in b
    ensures FindStraight(a) == FindStraight(b)
  {
    DecreasingUnique(Distinct(a), Distinct(b));
    assert HasWheel(a) == HasWheel(b);
  }

  /** A straight is the wheel or a run of five whose top value is present. */
  lemma StraightShape(values: seq<int>)
    requires FindStraight(values).Some?
    ensures var sf := FindStraight(values).value;
      || sf == [5, 4, 3, 2, 14]
      || (sf == [sf[0], sf[0] - 1, sf[0] - 2, sf[0] - 3, sf[0] - 4] && sf[0] in values)
  {
    FindStraightMeaning(values);
  }

  lemma MaxOfIs(s: seq<int>, m: int)
    requires m in s && forall x :: x in s ==> x <= m
    ensures MaxOf(s) == m
  {
  }

  /** For card values, a straight's largest value is 14 exactly when it contains 14. */
  lemma StraightTopIsAce(values: seq<int>)
    requires forall x :: x in values ==> x <= 14
    requires FindStraight(values).Some?
    ensures MaxOf(FindStraight(values).value) == 14 <==> 14 in FindStraight(values).value
  {
    var sf := FindStraight(values).value;
    StraightShape(values);
    if sf == [5, 4, 3, 2, 14] {
      MaxOfIs(sf, 14);
    } else {
      var t := sf[0];
      MaxOfIs(sf, t);
      assert 14 in sf <==> t == 14;
    }
  }

  /** The counting half of what the analysis holds. */
  ghost predicate DescribesCounts(a: Analysis, cards: seq<Card>)
  {
    && multiset(a.vs) == multiset(Values(cards))
    && (forall x :: x in a.vs <==> Count(cards, x) > 0)
    && (forall x :: x in a.pairs <==> Count(cards, x) == 2)
    && (a.trips.Some? <==> exists x :: Count(cards, x) == 3)
    && (a.trips.Some? ==> forall x :: Count(cards, x) == 3 ==> a.trips.value <= x)
    && (a.quads.Some? <==> exists x :: Count(cards, x) == 4)
    && (a.quads.Some? ==> forall x :: Count(cards, x) == 4 ==> a.quads.value <= x)
  }

  /** The straight half of what the analysis holds. */
  ghost predicate DescribesStraights(a: Analysis, cards: seq<Card>)
  {
    && a.flushSuit == FlushSuitOf(cards)
    && a.straight == FindStraight(Values(cards))
    && a.straightFlush ==
         (if a.flushSuit.Some? && a.straight.Some? then FindStraight(SuitValues(cards, a.flushSuit.value)) else None)
    && (a.straightFlush.Some? ==> (MaxOf(a.straightFlush.value) == 14 <==> 14 in a.straightFlush.value))
    && (a.flushSuit.Some? ==>
          multiset(SuitValues(a.sorted, a.flushSuit.value)) == multiset(SuitValues(cards, a.flushSuit.value)))
  }

  /**
   * The values counted twice are exactly the pairs, and `three_of_a_kind` /
   * `four_of_a_kind` are set exactly when some value is counted three /
   * four times, to the lowest such value.
   */
  lemma AnalyzeCounts(cards: seq<Card>)
    requires |cards| >= 5
    ensures DescribesCounts(Analyze(cards), cards)
  {
    CountsOfSorted(cards);
    SortCardsValues(cards);
    var a := Analyze(cards);
    var unique := Distinct(a.vs);
    var counts := multiset(a.vs);
    var found := WithCount(unique, counts, 2);
    assert a.pairs == SortDesc(found);
    assert forall x :: x in a.pairs <==> x in found by {
      forall x ensures x in a.pairs <==> x in found {
        assert x in a.pairs <==> x in multiset(a.pairs);
        assert x in found <==> x in multiset(found);
      }
    }
    assert a.trips == LastWithCount(unique, counts, 3);
    assert a.quads == LastWithCount(unique, counts, 4);
  }

  /**
   * The straight is `_find_straight` of all values, and the straight flush
   * is `_find_straight` of the flush suit's values, looked for only when
   * there is both a flush suit and a straight.
   */
  lemma AnalyzeStraights(cards: seq<Card>)
    requires |cards| >= 5
    ensures DescribesStraights(Analyze(cards), cards)
  {
    var a := Analyze(cards);
    var sorted := SortCards(cards);
    var vs := Values(sorted);
    SortCardsValues(cards);
    assert forall x :: x in vs <==> x in Values(cards) by {
      forall x ensures x in vs <==> x in Values(cards) {
        assert x in vs <==> x in multiset(vs);
        assert x in Values(cards) <==> x in multiset(Values(cards));
      }
    }
    FindStraightSameValues(vs, Values(cards));
    var f := FlushSuitOf(cards);
    if f.Some? {
      SuitValuesPermutation(sorted, cards, f.value);
      var fv := SuitValues(sorted, f.value);
      assert forall x :: x in fv <==> x in SuitValues(cards, f.value) by {
        forall x ensures x in fv <==> x in SuitValues(cards, f.value) {
          assert x in fv <==> x in multiset(fv);
          assert x in SuitValues(cards, f.value) <==> x in multiset(SuitValues(cards, f.value));
        }
      }
      FindStraightSameValues(fv, SuitValues(cards, f.value));
      if a.straightFlush.Some? {
        forall x | x in fv ensures x <= 14 {
          SuitValuesMembers(sorted, f.value, x);
        }
        StraightTopIsAce(fv);
      }
    }
  }

  /** What the analysis of `cards` holds, stated in terms of the cards themselves. */
  ghost predicate Describes(a: Analysis, cards: seq<Card>)
  {
    DescribesCounts(a, cards) && DescribesStraights(a, cards)
  }

  lemma AnalyzeDescribes(cards: seq<Card>)
    requires |cards| >= 5
    ensures Describes(Analyze(cards), cards)
  {
    AnalyzeCounts(cards);
    AnalyzeStraights(cards);
  }


  /** Among several values held twice, the pairs list starts with the two highest. */
  lemma TopTwoPairs(a: Analysis, cards: seq<Card>)
    requires WellFormed(a) && DescribesCounts(a, cards) && |a.pairs| >= 2
    ensures a.pairs[0] > a.pairs[1]
    ensures Count(cards, a.pairs[0]) == 2 && Count(cards, a.pairs[1]) == 2
    ensures forall x :: Count(cards, x) == 2 ==> x == a.pairs[0] || x <= a.pairs[1]
  {
    assert a.pairs[0] in a.pairs && a.pairs[1] in a.pairs;
    forall x | Count(cards, x) == 2 ensures x == a.pairs[0] || x <= a.pairs[1] {
      assert x in a.pairs;
      var i :| 0 <= i < |a.pairs| && a.pairs[i] == x;
    }
  }

  /** With a single value held twice, the pairs list is that value. */
  lemma OnlyPair(a: Analysis, cards: seq<Card>)
    requires WellFormed(a) && DescribesCounts(a, cards) && |a.pairs| == 1
    ensures Count(cards, a.pairs[0]) == 2
    ensures forall x :: Count(cards, x) == 2 ==> x == a.pairs[0]
  {
    assert a.pairs[0] in a.pairs;
    forall x | Count(cards, x) == 2 ensures x == a.pairs[0] {
      assert x in a.pairs;
    }
  }

  /** The number of values held twice bounds the length of `pairs` from below. */
  lemma PairsCounted(a: Analysis, cards: seq<Card>)
    requires DescribesCounts(a, cards)
    ensures (exists x, y :: x != y && Count(cards, x) == 2 && Count(cards, y) == 2) ==> |a.pairs| >= 2
    ensures (exists x :: Count(cards, x) == 2) ==> |a.pairs| >= 1
  {
    if exists x, y :: x != y && Count(cards, x) == 2 && Count(cards, y) == 2 {
      var x, y :| x != y && Count(cards, x) == 2 && Count(cards, y) == 2;
      assert x in a.pairs && y in a.pairs;
      if |a.pairs| < 2 {
        assert a.pairs == [a.pairs[0]];
      }
    }
    if exists x :: Count(cards, x) == 2 {
      var x :| Count(cards, x) == 2;
      assert x in a.pairs;
    }
  }

  // The branch `Classify` takes, one lemma per hand rank.

  lemma ClassifyStraightFlush(a: Analysis)
    requires WellFormed(a)
    ensures Classify(a).rank in {StraightFlush, RoyalFlush} <==> a.straightFlush.Some?
    ensures a.straightFlush.Some? ==> Classify(a) == StraightFlushHand(a.straightFlush.value)
  {
  }

  lemma ClassifyQuads(a: Analysis)
    requires WellFormed(a)
    ensures Classify(a).rank == FourOfAKind ==>
      a.straightFlush.None? && a.quads.Some? && Classify(a) == QuadsHand(a.vs, a.quads.value)
  {
  }

  lemma ClassifyFullHouse(a: Analysis)
    requires WellFormed(a)
    ensures Classify(a).rank == FullHouse ==>
      && a.straightFlush.None? && a.quads.None? && a.trips.Some? && |a.pairs| > 0
      && Classify(a) == FullHouseHand(a.trips.value, a.pairs)
  {
  }

  lemma ClassifyFlush(a: Analysis)
    requires WellFormed(a)
    ensures Classify(a).rank == Flush ==>
      && a.straightFlush.None? && a.quads.None? && !(a.trips.Some? && |a.pairs| > 0)
      && a.flushSuit.Some? && Classify(a) == FlushHand(a.sorted, a.flushSuit.value)
  {
  }

  lemma ClassifyStraight(a: Analysis)
    requires WellFormed(a)
    ensures Classify(a).rank == Straight ==>
      && a.straightFlush.None? && a.quads.None? && !(a.trips.Some? && |a.pairs| > 0)
      && a.flushSuit.None? && a.straight.Some? && Classify(a).key == a.straight.value
  {
  }

  lemma ClassifyTrips(a: Analysis)
    requires WellFormed(a)
    ensures Classify(a).rank == ThreeOfAKind ==>
      && a.straightFlush.None? && a.quads.None? && a.trips.Some? && |a.pairs| == 0
      && a.flushSuit.None? && a.straight.None? && Classify(a) == TripsHand(a.vs, a.trips.value)
  {
  }

  lemma ClassifyTwoPair(a: Analysis)
    requires WellFormed(a)
    ensures Classify(a).rank == TwoPair ==>
      && a.straightFlush.None? && a.quads.None? && a.trips.None?
      && a.flushSuit.None? && a.straight.None?
      && |a.pairs| >= 2 && Classify(a) == TwoPairHand(a.vs, a.pairs)
  {
  }

  lemma ClassifyPair(a: Analysis)
    requires WellFormed(a)
    ensures Classify(a).rank == OnePair ==>
      && a.straightFlush.None? && a.quads.None? && a.trips.None?
      && a.flushSuit.None? && a.straight.None?
      && |a.pairs| == 1 && a.pairs[0] in a.pairs && Classify(a) == PairHand(a.vs, a.pairs[0])
  {
  }

  lemma ClassifyHighCard(a: Analysis)
    requires WellFormed(a)
    ensures Classify(a).rank == HighCard ==>
      && a.straightFlush.None? && a.quads.None? && a.trips.None?
      && a.flushSuit.None? && a.straight.None?
      && |a.pairs| == 0 && Classify(a) == HighCardHand(a.vs)
  {
  }

  /** The category the cascade of `evaluate_hand` settles on, without building the list. */
  function RankOf(a: Analysis): HandRank
    requires WellFormed(a)
  {
    if a.straightFlush.Some? then
      (if MaxOf(a.straightFlush.value) == 14 then RoyalFlush else StraightFlush)
    else if a.quads.Some? then FourOfAKind
    else if a.trips.Some? && |a.pairs| > 0 then FullHouse
    else if a.flushSuit.Some? then Flush
    else if a.straight.Some? then Straight
    else if a.trips.Some? then ThreeOfAKind
    else if |a.pairs| >= 2 then TwoPair
    else if |a.pairs| == 1 then OnePair
    else HighCard
  }

  /** `Classify` reports the category `RankOf` names. */
  lemma ClassifyRank(a: Analysis)
    requires WellFormed(a)
    ensures Classify(a).rank == RankOf(a)
  {
  }

  /** Each ingredient the cascade tests puts a floor under the category. */
  lemma RankFloor(a: Analysis)
    requires WellFormed(a)
    ensures a.quads.Some? ==> Strength(RankOf(a)) >= Strength(FourOfAKind)
    ensures a.trips.Some? && |a.pairs| > 0 ==> Strength(RankOf(a)) >= Strength(FullHouse)
    ensures a.flushSuit.Some? ==> Strength(RankOf(a)) >= Strength(Flush)
    ensures a.straight.Some? ==> Strength(RankOf(a)) >= Strength(Straight)
    ensures a.trips.Some? ==> Strength(RankOf(a)) >= Strength(ThreeOfAKind)
    ensures |a.pairs| >= 2 ==> Strength(RankOf(a)) >= Strength(TwoPair)
    ensures |a.pairs| >= 1 ==> Strength(RankOf(a)) >= Strength(OnePair)
  {
    var r := RankOf(a);
    if a.straightFlush.Some? {
      assert r in {RoyalFlush, StraightFlush};
    } else if a.quads.Some? {
      assert r == FourOfAKind;
    } else if a.trips.Some? && |a.pairs| > 0 {
      assert r == FullHouse;
    } else if a.flushSuit.Some? {
      assert r == Flush;
    } else if a.straight.Some? {
      assert r == Straight;
    }
  }

  /** With fewer than five cards the hand is `HIGH_CARD` over all card values, strongest first. */
  lemma EvaluateFewCards(cards: seq<Card>)
    requires |cards| < 5
    ensures Evaluate(cards).rank == HighCard
    ensures NonIncreasing(Evaluate(cards).key)
    ensures multiset(Evaluate(cards).key) == multiset(Values(cards))
  {
    SortCardsValues(cards);
  }

  /**
   * A hand is never rated below a combination it holds: four of a kind, a
   * value held three times together with one held twice, a flush suit, a
   * straight, a value held three times, two values held twice, one value
   * held twice. (Two values held three times with none held twice
   * therefore guarantee only three of a kind.)
   */
  lemma EvaluateAtLeast(cards: seq<Card>)
    requires |cards| >= 5
    ensures var r := Strength(Evaluate(cards).rank);
      && ((exists x :: Count(cards, x) == 4) ==> r >= Strength(FourOfAKind))
      && ((exists x :: Count(cards, x) == 3) && (exists y :: Count(cards, y) == 2) ==> r >= Strength(FullHouse))
      && (FlushSuitOf(cards).Some? ==> r >= Strength(Flush))
      && (FindStraight(Values(cards)).Some? ==> r >= Strength(Straight))
      && ((exists x :: Count(cards, x) == 3) ==> r >= Strength(ThreeOfAKind))
      && ((exists x, y :: x != y && Count(cards, x) == 2 && Count(cards, y) == 2) ==> r >= Strength(TwoPair))
      && ((exists x :: Count(cards, x) == 2) ==> r >= Strength(OnePair))
  {
    var a := Analyze(cards);
    AnalyzeDescribes(cards);
    ClassifyRank(a);
    RankFloor(a);
    PairsCounted(a, cards);
  }

  /**
   * `ROYAL_FLUSH` and `STRAIGHT_FLUSH` are reported exactly when there is a
   * flush suit, a straight among all values and a straight among that
   * suit's values; the tie-break list is the flush-suit straight, and it is
   * `ROYAL_FLUSH` exactly when that straight contains 14 (so the wheel in
   * one suit is a royal flush).
   */
  lemma EvaluateStraightFlush(cards: seq<Card>)
    requires |cards| >= 5
    ensures var h := Evaluate(cards);
      var f := FlushSuitOf(cards);
      && (h.rank in {StraightFlush, RoyalFlush} <==>
            f.Some? && FindStraight(Values(cards)).Some? && FindStraight(SuitValues(cards, f.value)).Some?)
      && (h.rank in {StraightFlush, RoyalFlush} ==>
            h.key == FindStraight(SuitValues(cards, f.value)).value
            && (h.rank == RoyalFlush <==> 14 in h.key))
  {
    AnalyzeDescribes(cards);
    ClassifyStraightFlush(Analyze(cards));
  }

  /**
   * `FOUR_OF_A_KIND`: four cards of the tie-break value `q`, and as kicker
   * the largest other value; if `q` were not unique the lowest is taken.
   */
  lemma EvaluateQuads(cards: seq<Card>)
    requires |cards| >= 5
    ensures var h := Evaluate(cards);
      h.rank == FourOfAKind ==>
        var q, k := h.key[0], h.key[4];
        && h.key == [q, q, q, q, k]
        && Count(cards, q) == 4 && (forall x :: Count(cards, x) == 4 ==> q <= x)
        && k != q && Count(cards, k) > 0
        && (forall v :: Count(cards, v) > 0 && v != q ==> v <= k)
  {
    AnalyzeDescribes(cards);
    ClassifyQuads(Analyze(cards));
  }

  /**
   * `FULL_HOUSE`: three cards of `t` and two of `p`, where `t` is the
   * LOWEST value held three times (the loop keeps overwriting
   * `three_of_a_kind`) and `p` the highest value held twice. Two values
   * held three times with no value held twice is not a full house.
   */
  lemma EvaluateFullHouse(cards: seq<Card>)
    requires |cards| >= 5
    ensures var h := Evaluate(cards);
      h.rank == FullHouse ==>
        var t, p := h.key[0], h.key[3];
        && h.key == [t, t, t, p, p]
        && Count(cards, t) == 3 && (forall x :: Count(cards, x) == 3 ==> t <= x)
        && Count(cards, p) == 2 && (forall x :: Count(cards, x) == 2 ==> x <= p)
    ensures (forall y :: Count(cards, y) != 2) ==> Evaluate(cards).rank != FullHouse
  {
    var a := Analyze(cards);
    ClassifyFullHouse(a);
    if Classify(a).rank == FullHouse {
      AnalyzeDescribes(cards);
      assert a.pairs[0] in a.pairs;
    }
  }

  /**
   * `FLUSH`: the five largest values of a suit held by five cards or more,
   * reported only when there is no four of a kind and no full house.
   */
  lemma EvaluateFlush(cards: seq<Card>)
    requires |cards| >= 5
    ensures var h := Evaluate(cards);
      var f := FlushSuitOf(cards);
      h.rank == Flush ==>
        && f.Some?
        && TopOf(h.key, multiset(SuitValues(cards, f.value)), 5)
        && (forall x :: Count(cards, x) != 4)
        && !((exists x :: Count(cards, x) == 3) && (exists y :: Count(cards, y) == 2))
  {
    var a := Analyze(cards);
    ClassifyFlush(a);
    if Classify(a).rank == Flush {
      AnalyzeDescribes(cards);
      FlushHandTop(a.sorted, a.flushSuit.value);
      if exists y :: Count(cards, y) == 2 {
        var y :| Count(cards, y) == 2;
        assert y in a.pairs;
      }
    }
  }

  /**
   * `STRAIGHT`: the straight `_find_straight` finds among all values,
   * reported only when there is no flush suit, no four of a kind and no
   * full house.
   */
  lemma EvaluateStraight(cards: seq<Card>)
    requires |cards| >= 5
    ensures var h := Evaluate(cards);
      h.rank == Straight ==>
        && FindStraight(Values(cards)).Some?
        && h.key == FindStraight(Values(cards)).value
        && FlushSuitOf(cards).None?
        && (forall x :: Count(cards, x) != 4)
        && !((exists x :: Count(cards, x) == 3) && (exists y :: Count(cards, y) == 2))
  {
    var a := Analyze(cards);
    ClassifyStraight(a);
    if Classify(a).rank == Straight {
      AnalyzeDescribes(cards);
      if exists y :: Count(cards, y) == 2 {
        var y :| Count(cards, y) == 2;
        assert y in a.pairs;
      }
    }
  }

  /**
   * `THREE_OF_A_KIND`: three cards of the lowest value held three times
   * and the two largest of the other cards; no value is held twice, and
   * there is no flush and no straight.
   */
  lemma EvaluateTrips(cards: seq<Card>)
    requires |cards| >= 5
    ensures var h := Evaluate(cards);
      h.rank == ThreeOfAKind ==>
        var t := h.key[0];
        && h.key[..3] == [t, t, t]
        && Count(cards, t) == 3 && (forall x :: Count(cards, x) == 3 ==> t <= x)
        && TopOf(h.key[3..], multiset(Values(cards))[t := 0], 2)
        && (forall x :: Count(cards, x) != 2 && Count(cards, x) != 4)
        && FlushSuitOf(cards).None? && FindStraight(Values(cards)).None?
  {
    var a := Analyze(cards);
    ClassifyTrips(a);
    if Classify(a).rank == ThreeOfAKind {
      AnalyzeDescribes(cards);
      TripsFacts(a, cards);
    }
  }

  /** The facts behind `EvaluateTrips`, read off the analysis. */
  lemma TripsFacts(a: Analysis, cards: seq<Card>)
    requires WellFormed(a) && DescribesCounts(a, cards)
    requires a.quads.None? && a.trips.Some? && |a.pairs| == 0 && a.flushSuit.None? && a.straight.None?
    ensures var h := TripsHand(a.vs, a.trips.value);
      var t := h.key[0];
      && t == a.trips.value
      && Count(cards, t) == 3 && (forall x :: Count(cards, x) == 3 ==> t <= x)
      && TopOf(h.key[3..], multiset(Values(cards))[t := 0], 2)
      && (forall x :: Count(cards, x) != 2 && Count(cards, x) != 4)
  {
    TripsHandTop(a.vs, a.trips.value);
  }

  /**
   * `TWO_PAIR`: the two highest values held twice, higher first, then the
   * largest card outside both; nothing is held three or four times and
   * there is no flush and no straight.
   */
  lemma EvaluateTwoPair(cards: seq<Card>)
    requires |cards| >= 5
    ensures var h := Evaluate(cards);
      h.rank == TwoPair ==>
        var p0, p1 := h.key[0], h.key[1];
        && h.key[..4] == [p0, p1, p0, p1] && p0 > p1
        && Count(cards, p0) == 2 && Count(cards, p1) == 2
        && (forall x :: Count(cards, x) == 2 ==> x == p0 || x <= p1)
        && TopOf(h.key[4..], multiset(Values(cards))[p0 := 0][p1 := 0], 1)
        && (forall x :: Count(cards, x) != 3 && Count(cards, x) != 4)
        && FlushSuitOf(cards).None? && FindStraight(Values(cards)).None?
  {
    var a := Analyze(cards);
    AnalyzeDescribes(cards);
    TwoPairFacts(a, cards);
    assert Evaluate(cards) == Classify(a);
  }

  /** `EvaluateTwoPair` for the analysis. */
  lemma TwoPairFacts(a: Analysis, cards: seq<Card>)
    requires WellFormed(a) && Describes(a, cards)
    ensures var h := Classify(a);
      h.rank == TwoPair ==>
        var p0, p1 := h.key[0], h.key[1];
        && h.key[..4] == [p0, p1, p0, p1] && p0 > p1
        && Count(cards, p0) == 2 && Count(cards, p1) == 2
        && (forall x :: Count(cards, x) == 2 ==> x == p0 || x <= p1)
        && TopOf(h.key[4..], multiset(Values(cards))[p0 := 0][p1 := 0], 1)
        && (forall x :: Count(cards, x) != 3 && Count(cards, x) != 4)
        && FlushSuitOf(cards).None? && FindStraight(Values(cards)).None?
  {
    ClassifyTwoPair(a);
    if Classify(a).rank == TwoPair {
      TwoPairHandFacts(a, cards);
    }
  }

  /** The facts behind `EvaluateTwoPair`, for the two-pair hand built from the analysis. */
  lemma TwoPairHandFacts(a: Analysis, cards: seq<Card>)
    requires WellFormed(a) && DescribesCounts(a, cards)
    requires a.quads.None? && a.trips.None? && |a.pairs| >= 2
    ensures var h := TwoPairHand(a.vs, a.pairs);
      var p0, p1 := h.key[0], h.key[1];
      && h.key[..4] == [p0, p1, p0, p1] && p0 > p1
      && Count(cards, p0) == 2 && Count(cards, p1) == 2
      && (forall x :: Count(cards, x) == 2 ==> x == p0 || x <= p1)
      && TopOf(h.key[4..], multiset(Values(cards))[p0 := 0][p1 := 0], 1)
      && (forall x :: Count(cards, x) != 3 && Count(cards, x) != 4)
  {
    TwoPairHandTop(a.vs, a.pairs);
    TopTwoPairs(a, cards);
    NoSets(a, cards);
    TwoPairKey(TwoPairHand(a.vs, a.pairs).key, a.pairs[0], a.pairs[1]);
  }

  /** Without `three_of_a_kind` and `four_of_a_kind`, no value is held three or four times. */
  lemma NoSets(a: Analysis, cards: seq<Card>)
    requires DescribesCounts(a, cards) && a.quads.None? && a.trips.None?
    ensures forall x :: Count(cards, x) != 3 && Count(cards, x) != 4
  {
  }

  /** The two-pair facts, read off a key laid out as `[p0, p1, p0, p1, kicker]`. */
  lemma TwoPairKey(key: seq<int>, p0: int, p1: int)
    requires |key| == 5 && key[..4] == [p0, p1, p0, p1]
    ensures key[0] == p0 && key[1] == p1
  {
    assert key[..4][0] == key[0] && key[..4][1] == key[1];
  }

  /**
   * `PAIR`: two cards of the only value held twice, then the three largest
   * other cards; nothing is held three or four times and there is no flush
   * and no straight.
   */
  lemma EvaluatePair(cards: seq<Card>)
    requires |cards| >= 5
    ensures var h := Evaluate(cards);
      h.rank == OnePair ==>
        var p := h.key[0];
        && h.key[..2] == [p, p]
        && Count(cards, p) == 2 && (forall x :: Count(cards, x) == 2 ==> x == p)
        && TopOf(h.key[2..], multiset(Values(cards))[p := 0], 3)
        && (forall x :: Count(cards, x) != 3 && Count(cards, x) != 4)
        && FlushSuitOf(cards).None? && FindStraight(Values(cards)).None?
  {
    var a := Analyze(cards);
    ClassifyPair(a);
    if Classify(a).rank == OnePair {
      AnalyzeDescribes(cards);
      PairFacts(a, cards);
    }
  }

  /** The facts behind `EvaluatePair`, read off the analysis. */
  lemma PairFacts(a: Analysis, cards: seq<Card>)
    requires WellFormed(a) && DescribesCounts(a, cards)
    requires a.quads.None? && a.trips.None? && |a.pairs| == 1
    ensures var h := PairHand(a.vs, a.pairs[0]);
      var p := h.key[0];
      && p == a.pairs[0]
      && Count(cards, p) == 2 && (forall x :: Count(cards, x) == 2 ==> x == p)
      && TopOf(h.key[2..], multiset(Values(cards))[p := 0], 3)
      && (forall x :: Count(cards, x) != 3 && Count(cards, x) != 4)
  {
    assert a.pairs[0] in a.pairs;
    PairHandTop(a.vs, a.pairs[0]);
    OnlyPair(a, cards);
  }

  /**
   * `HIGH_CARD` from five cards on: the five largest values, when no value
   * is held two, three or four times and there is no flush and no straight.
   */
  lemma EvaluateHighCard(cards: seq<Card>)
    requires |cards| >= 5
    ensures var h := Evaluate(cards);
      h.rank == HighCard ==>
        && TopOf(h.key, multiset(Values(cards)), 5)
        && (forall x :: Count(cards, x) != 2 && Count(cards, x) != 3 && Count(cards, x) != 4)
        && FlushSuitOf(cards).None? && FindStraight(Values(cards)).None?
  {
    var a := Analyze(cards);
    ClassifyHighCard(a);
    if Classify(a).rank == HighCard {
      AnalyzeDescribes(cards);
      HighCardHandTop(a.vs);
    }
  }

  /** A value of one of the cards is among their values. */
  lemma ValueIn(cards: seq<Card>, c: Card)
    requires c in cards
    ensures Value(c) in Values(cards)
  {
    var i :| 0 <= i < |cards| && cards[i] == c;
    assert Values(cards)[i] == Value(c);
  }

  /**
   * The wheel in the flush suit is reported as a royal flush: its list is
   * `[5, 4, 3, 2, 14]`, which contains 14.
   */
  lemma WheelFlushIsRoyal(cards: seq<Card>)
    requires |cards| >= 5
    requires FlushSuitOf(cards).Some? && HasWheel(SuitValues(cards, FlushSuitOf(cards).value))
    ensures Evaluate(cards) == Hand(RoyalFlush, [5, 4, 3, 2, 14])
  {
    var f := FlushSuitOf(cards).value;
    var sv := SuitValues(cards, f);
    forall x | x in sv ensures x in Values(cards) {
      SuitValuesMembers(cards, f, x);
      var c :| c in cards && c.suit == f && Value(c) == x;
      ValueIn(cards, c);
    }
    assert HasWheel(Values(cards));
    assert FindStraight(sv) == Some([5, 4, 3, 2, 14]);
    EvaluateStraightFlush(cards);
  }

  /**
   * A higher straight does not displace the wheel: with 6 present as well,
   * `_find_straight` still returns `[5, 4, 3, 2, 14]`.
   */
  lemma WheelShadowsSix(values: seq<int>)
    requires HasWheel(values) && 6 in values
    ensures HasRun(values, 6) && FindStraight(values) == Some([5, 4, 3, 2, 14])
  {
    FindStraightMeaning(values);
  }

  // ---------------------------------------------------------------------
  // Ordering hands: `PokerHand.compare`
  // ---------------------------------------------------------------------

  /**
   * The `zip` loop of `compare`: the sign of the first difference over the
   * common length, 0 if there is none (so a list and its extension tie).
   */
  function CompareKeys(k1: seq<int>, k2: seq<int>): (r: int)
    ensures -1 <= r <= 1
  {
    if k1 == [] || k2 == [] then 0
    else if k1[0] > k2[0] then 1
    else if k1[0] < k2[0] then -1
    else CompareKeys(k1[1..], k2[1..])
  }

  /** `k1` is lexicographically greater than `k2`: they agree up to a position where `k1` is larger. */
  ghost predicate KeyBeats(k1: seq<int>, k2: seq<int>)
  {
    exists i :: 0 <= i < |k1| && i < |k2| && k1[..i] == k2[..i] && k1[i] > k2[i]
  }

  /** The lists agree on their common length. */
  ghost predicate KeysTie(k1: seq<int>, k2: seq<int>)
  {
    forall i :: 0 <= i < |k1| && i < |k2| ==> k1[i] == k2[i]
  }

  /** The first position of `k1` and `k2` (within both) where they differ moves one step when both lose their head. */
  lemma KeyBeatsTail(k1: seq<int>, k2: seq<int>)
    requires k1 != [] && k2 != [] && k1[0] == k2[0]
    ensures KeyBeats(k1, k2) <==> KeyBeats(k1[1..], k2[1..])
    ensures KeysTie(k1, k2) <==> KeysTie(k1[1..], k2[1..])
  {
    if KeyBeats(k1, k2) {
      var i :| 0 <= i < |k1| && i < |k2| && k1[..i] == k2[..i] && k1[i] > k2[i];
      assert i > 0;
      assert k1[1..][..i - 1] == k1[1..i] == k2[1..i] == k2[1..][..i - 1];
      assert k1[1..][i - 1] > k2[1..][i - 1];
    }
    if KeyBeats(k1[1..], k2[1..]) {
      var j :| 0 <= j < |k1[1..]| && j < |k2[1..]| && k1[1..][..j] == k2[1..][..j] && k1[1..][j] > k2[1..][j];
      assert k1[..j + 1] == [k1[0]] + k1[1..][..j];
      assert k2[..j + 1] == [k2[0]] + k2[1..][..j];
      assert k1[j + 1] > k2[j + 1];
    }
    if KeysTie(k1[1..], k2[1..]) {
      forall i | 0 <= i < |k1| && i < |k2| ensures k1[i] == k2[i] {
        if i > 0 {
          assert k1[i] == k1[1..][i - 1] && k2[i] == k2[1..][i - 1];
        }
      }
    }
    if KeysTie(k1, k2) {
      forall i | 0 <= i < |k1[1..]| && i < |k2[1..]| ensures k1[1..][i] == k2[1..][i] {
        assert k1[i + 1] == k2[i + 1];
      }
    }
  }

  /**
   * The loop returns 1 exactly when the first list beats the second
   * lexicographically, -1 exactly when it is beaten, and 0 exactly when
   * they agree over their common length.
   */
  lemma {:induction false} CompareKeysMeaning(k1: seq<int>, k2: seq<int>)
    ensures CompareKeys(k1, k2) == 1 <==> KeyBeats(k1, k2)
    ensures CompareKeys(k1, k2) == -1 <==> KeyBeats(k2, k1)
    ensures CompareKeys(k1, k2) == 0 <==> KeysTie(k1, k2)
  {
    if k1 == [] || k2 == [] {
    } else if k1[0] > k2[0] {
      assert k1[..0] == k2[..0];
      assert !KeysTie(k1, k2);
    } else if k1[0] < k2[0] {
      assert k1[..0] == k2[..0];
      assert !KeysTie(k1, k2);
    } else {
      CompareKeysMeaning(k1[1..], k2[1..]);
      KeyBeatsTail(k1, k2);
      KeyBeatsTail(k2, k1);
      assert KeysTie(k1, k2) <==> KeysTie(k2, k1);
      assert KeysTie(k1[1..], k2[1..]) <==> KeysTie(k2[1..], k1[1..]);
    }
  }

  /** Swapping the arguments negates the result. */
  lemma {:induction false} CompareKeysAntisymmetric(k1: seq<int>, k2: seq<int>)
    ensures CompareKeys(k1, k2) == -CompareKeys(k2, k1)
  {
    if k1 != [] && k2 != [] && k1[0] == k2[0] {
      CompareKeysAntisymmetric(k1[1..], k2[1..]);
    }
  }

  /** Lexicographic "greater" is transitive. */
  lemma {:induction false} CompareKeysTransitive(a: seq<int>, b: seq<int>, c: seq<int>)
    requires CompareKeys(a, b) == 1 && CompareKeys(b, c) == 1
    ensures CompareKeys(a, c) == 1
  {
    if a[0] == b[0] && b[0] == c[0] {
      CompareKeysTransitive(a[1..], b[1..], c[1..]);
    }
  }

  /** Lists of the same length tie only when they are equal. */
  lemma {:induction false} CompareKeysZero(k1: seq<int>, k2: seq<int>)
    requires |k1| == |k2|
    ensures CompareKeys(k1, k2) == 0 <==> k1 == k2
  {
    if k1 != [] && k1[0] == k2[0] {
      CompareKeysZero(k1[1..], k2[1..]);
      assert k1 == [k1[0]] + k1[1..] && k2 == [k2[0]] + k2[1..];
    }
  }

  /** `compare`: 1 if `h1` ranks above `h2`, -1 if below, the tie-break lists otherwise. */
  function Compare(h1: Hand, h2: Hand): (r: int)
    ensures -1 <= r <= 1
  {
    if Strength(h1.rank) > Strength(h2.rank) then 1
    else if Strength(h1.rank) < Strength(h2.rank) then -1
    else CompareKeys(h1.key, h2.key)
  }

  /**
   * The category decides first; within a category the tie-break lists
   * decide lexicographically.
   */
  lemma CompareMeaning(h1: Hand, h2: Hand)
    ensures Compare(h1, h2) == 1 <==>
      Strength(h1.rank) > Strength(h2.rank) || (h1.rank == h2.rank && KeyBeats(h1.key, h2.key))
    ensures Compare(h1, h2) == -1 <==>
      Strength(h1.rank) < Strength(h2.rank) || (h1.rank == h2.rank && KeyBeats(h2.key, h1.key))
    ensures Compare(h1, h2) == 0 <==> h1.rank == h2.rank && KeysTie(h1.key, h2.key)
  {
    CompareKeysMeaning(h1.key, h2.key);
    StrengthInjective(h1.rank, h2.rank);
  }

  /** Distinct categories have distinct values. */
  lemma StrengthInjective(r1: HandRank, r2: HandRank)
    ensures Strength(r1) == Strength(r2) <==> r1 == r2
  {
  }

  /** A hand ties with itself. */
  lemma CompareReflexive(h: Hand)
    ensures Compare(h, h) == 0
  {
    CompareKeysZero(h.key, h.key);
  }

  /** `compare(a, b) == -compare(b, a)`. */
  lemma CompareAntisymmetric(h1: Hand, h2: Hand)
    ensures Compare(h1, h2) == -Compare(h2, h1)
  {
    CompareKeysAntisymmetric(h1.key, h2.key);
  }

  /** Beating is transitive, so a best hand among several is well defined. */
  lemma CompareTransitive(h1: Hand, h2: Hand, h3: Hand)
    requires Compare(h1, h2) == 1 && Compare(h2, h3) == 1
    ensures Compare(h1, h3) == 1
  {
    if Strength(h1.rank) == Strength(h2.rank) == Strength(h3.rank) {
      CompareKeysTransitive(h1.key, h2.key, h3.key);
    }
  }

  /** Hands whose lists have the same length tie exactly when they are equal. */
  lemma CompareZero(h1: Hand, h2: Hand)
    requires |h1.key| == |h2.key|
    ensures Compare(h1, h2) == 0 <==> h1 == h2
  {
    CompareKeysZero(h1.key, h2.key);
    StrengthInjective(h1.rank, h2.rank);
  }

  /** A list tied with `b` does not beat a list that beats `b`. */
  lemma {:induction false} CompareKeysTieThenBeaten(a: seq<int>, b: seq<int>, c: seq<int>)
    requires CompareKeys(a, b) == 0 && CompareKeys(c, b) == 1
    ensures CompareKeys(a, c) <= 0
  {
    if a != [] && c[0] == b[0] {
      CompareKeysTieThenBeaten(a[1..], b[1..], c[1..]);
    }
  }

  /**
   * A hand that does not beat `b` does not beat a hand that beats `b`: the
   * step that lets `determine_winner` keep only the latest best hand.
   */
  lemma CompareNotAboveBeaten(a: Hand, b: Hand, c: Hand)
    requires Compare(a, b) <= 0 && Compare(c, b) == 1
    ensures Compare(a, c) <= 0
  {
    if Compare(a, b) == 0 {
      if Strength(a.rank) == Strength(c.rank) {
        CompareKeysTieThenBeaten(a.key, b.key, c.key);
      }
    } else {
      CompareAntisymmetric(a, b);
      CompareTransitive(c, b, a);
      CompareAntisymmetric(a, c);
    }
  }
}
