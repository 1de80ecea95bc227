/**
 * Card values of deck.py: the `Suit` and `Rank` enumerations, `Rank.value_int`,
 * and the pure parts of `Card` (`value`, `get_color`, `__str__`).
 *
 * A `Card` in the program is an object whose only mutable field that the game
 * uses is `visible` (the screen position fields `x`, `y` belong to the user
 * interface). A card is only ever referenced from one place at a time (the
 * deck, then a hand or the table), so it is modelled as a value.
 */
module Cards {

  /** `Suit`, in declaration order: HEARTS, DIAMONDS, CLUBS, SPADES. */
  datatype Suit = Hearts | Diamonds | Clubs | Spades

  /** `Rank`, in declaration order: TWO .. ACE. */
  datatype Rank = Two | Three | Four | Five | Six | Seven | Eight | Nine | Ten | Jack | Queen | King | Ace

  datatype Card = Card(rank: Rank, suit: Suit, visible: bool)

  /** What identifies a physical card: its rank and suit, not its visibility. */
  type CardFace = (Rank, Suit)

  function Face(c: Card): CardFace { (c.rank, c.suit) }

  /** `Rank.value_int`: the strength of a rank, 2 for TWO up to 14 for ACE. */
  function RankValue(r: Rank): (v: int)
    ensures 2 <= v <= 14
    ensures v == 14 <==> r == Ace
  {
    match r
    case Two => 2
    case Three => 3
    case Four => 4
    case Five => 5
    case Six => 6
    case Seven => 7
    case Eight => 8
    case Nine => 9
    case Ten => 10
    case Jack => 11
    case Queen => 12
    case King => 13
    case Ace => 14
  }

  /** The k-th rank in declaration order (the order `for rank in Rank` visits them). */
  function RankAt(k: int): (r: Rank)
    requires 0 <= k < 13
    ensures RankValue(r) == k + 2
  {
    if k == 0 then Two else if k == 1 then Three else if k == 2 then Four
    else if k == 3 then Five else if k == 4 then Six else if k == 5 then Seven
    else if k == 6 then Eight else if k == 7 then Nine else if k == 8 then Ten
    else if k == 9 then Jack else if k == 10 then Queen else if k == 11 then King
    else Ace
  }

  /** Position of a suit in declaration order. */
  function SuitIndex(s: Suit): (k: int)
    ensures 0 <= k < 4
  {
    match s
    case Hearts => 0
    case Diamonds => 1
    case Clubs => 2
    case Spades => 3
  }

  /** The k-th suit in declaration order (the order `for suit in Suit` visits them). */
  function SuitAt(k: int): (s: Suit)
    requires 0 <= k < 4
    ensures SuitIndex(s) == k
  {
    if k == 0 then Hearts else if k == 1 then Diamonds else if k == 2 then Clubs else Spades
  }

  /** `value_int` is a bijection between the 13 ranks and 2..14. */
  lemma RankValueBijective(a: Rank, b: Rank)
    ensures RankValue(a) == RankValue(b) ==> a == b
    ensures RankAt(RankValue(a) - 2) == a
  {
  }

  lemma SuitIndexBijective(a: Suit, b: Suit)
    ensures SuitIndex(a) == SuitIndex(b) ==> a == b
    ensures SuitAt(SuitIndex(a)) == a
  {
  }

  /** `Card.value`. */
  function Value(c: Card): (v: int)
    ensures 2 <= v <= 14
    ensures v == RankValue(c.rank)
  {
    RankValue(c.rank)
  }

  type Color = (int, int, int)

  const Red: Color := (200, 0, 0)
  const Black: Color := (0, 0, 0)

  /** `Card.get_color`: red for hearts and diamonds, black for clubs and spades. */
  function GetColor(c: Card): (color: Color)
    ensures color == Red || color == Black
    ensures color == Red <==> c.suit in {Hearts, Diamonds}
  {
    if c.suit == Hearts || c.suit == Diamonds then Red else Black
  }

  /** `Rank.value` (also `Rank.symbol`): the printed rank. */
  function RankSymbol(r: Rank): string
  {
    match r
    case Two => "2"
    case Three => "3"
    case Four => "4"
    case Five => "5"
    case Six => "6"
    case Seven => "7"
    case Eight => "8"
    case Nine => "9"
    case Ten => "10"
    case Jack => "J"
    case Queen => "Q"
    case King => "K"
    case Ace => "A"
  }

  /** `Suit.value`: the printed suit, one character. */
  function SuitSymbol(s: Suit): string
  {
    match s
    case Hearts => "♥"
    case Diamonds => "♦"
    case Clubs => "♣"
    case Spades => "♠"
  }

  /** `Card.__str__`: "XX" for a face-down card, rank symbol then suit symbol otherwise. */
  function Show(c: Card): (s: string)
    ensures !c.visible ==> s == "XX"
    ensures c.visible ==> |s| >= 2 && s[|s| - 1] == SuitSymbol(c.suit)[0]
  {
    if c.visible then RankSymbol(c.rank) + SuitSymbol(c.suit) else "XX"
  }

  /**
   * A face-up card's text determines the card: two visible cards print the
   * same exactly when they have the same rank and suit, and no visible card
   * prints as the face-down "XX".
   */
  lemma ShowIdentifiesCard(a: Card, b: Card)
    requires a.visible && b.visible
    ensures Show(a) == Show(b) <==> Face(a) == Face(b)
    ensures Show(a) != "XX"
  {
    if Show(a) == Show(b) {
      var n := |Show(a)|;
      assert SuitSymbol(a.suit) == Show(a)[n - 1..];
      assert SuitSymbol(b.suit) == Show(b)[n - 1..];
      assert RankSymbol(a.rank) == Show(a)[..n - 1];
      assert RankSymbol(b.rank) == Show(b)[..n - 1];
    }
  }
}
