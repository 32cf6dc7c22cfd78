/** A playing card packed into a 64-bit word (src/cards/card.rs).
 *
 *  The word is modelled as the set of its set-bit positions. A real card is
 *  the single bit `rank + 16 * suit`: every suit owns a 16-bit lane of which
 *  ranks Ace (0) .. King (12) use the low 13 bits; bits 13..15 of a lane are
 *  guard bits that the unconditional one-rank shifts may land on.
 */
module Cards {

  datatype Option<+T> = None | Some(value: T)

  /** A bit position of a 64-bit word. */
  type Bit = b: nat | b < 64

  /** A 64-bit word, as the set of its set bits. */
  type Word = set<Bit>

  /** Suit symbols in lane order (src/cards/mod.rs). */
  const SUITS: seq<char> := ['♥', '♣', '♦', '♠']

  /** Rank names in rank order, Ace low (src/cards/mod.rs). */
  const RANKS: seq<string> := ["A", "2", "3", "4", "5", "6", "7", "8", "9", "10", "J", "Q", "K"]

  /** The bit of the card of rank `rank` in suit `suit`. */
  function Pos(suit: nat, rank: nat): nat { rank + 16 * suit }

  /** Is `b` the position of one of the 52 real cards (not a guard bit)? */
  predicate IsRealBit(b: nat) { b < 64 && b % 16 < 13 }

  /** The positions of all 52 real cards. */
  const RealBits: Word := set b: Bit | 0 <= b < 64 && IsRealBit(b)

  /** Index of the first occurrence of `x` in `xs` (`Iterator::position`). */
  function Position<T(==)>(xs: seq<T>, x: T): (r: Option<nat>)
    ensures r.None? <==> x !in xs
    ensures r.Some? ==> r.value < |xs| && xs[r.value] == x
    ensures r.Some? ==> forall j :: 0 <= j < r.value ==> xs[j] != x
  {
    if xs == [] then None
    else if xs[0] == x then Some(0)
    else match Position(xs[1..], x)
      case None => None
      case Some(k) => Some(k + 1)
  }

  /** Number of trailing zero bits of a 64-bit word: 64 for the empty word,
      otherwise the lowest set bit. */
  function TrailingZeros(w: Word): (n: nat)
    ensures n <= 64
    ensures n == 64 <==> w == {}
    ensures n < 64 ==> n in w && forall b :: b in w ==> n <= b
  {
    LowestFrom(w, 0)
  }

  /** The lowest set bit of a non-empty word. */
  function Lowest(w: Word): (b: Bit)
    requires w != {}
    ensures b in w && forall x :: x in w ==> b <= x
  {
    TrailingZeros(w) as Bit
  }

  /** The lowest set bit at or above `i`, or 64 if there is none. */
  function LowestFrom(w: Word, i: nat): (n: nat)
    requires i <= 64
    ensures i <= n <= 64
    ensures n < 64 ==> n in w
    ensures forall b :: b in w && i <= b ==> n <= b
    decreases 64 - i
  {
    if i == 64 then 64
    else if i in w then i
    else LowestFrom(w, i + 1)
  }

  /** The word shifted left by one bit; bit 63 falls off. */
  function ShiftUp(w: Word): Word
  {
    set b | b in w && b < 63 :: (b + 1) as Bit
  }

  /** The word shifted right by one bit; bit 0 falls off. */
  function ShiftDown(w: Word): Word
  {
    set b | b in w && 1 <= b :: (b - 1) as Bit
  }

  /** `struct Card(u64)`: any word may be wrapped, but the real cards are the
      single bits at real positions. */
  datatype Card = Card(bits: Word)
  {
    /** `Card::new_from_elems`: the card of the given suit and rank indices. */
    static function NewFromElems(suit: nat, rank: nat): Card
      requires suit < 4 && rank < 13
    {
      Card({Pos(suit, rank) as Bit})
    }

    /** `Card::new`: look the suit symbol and rank name up; absent if either
        is unknown. */
    static function New(suit: char, rank: string): (r: Option<Card>)
      ensures r.Some? <==> suit in SUITS && rank in RANKS
      ensures r.Some? ==> exists s, k :: 0 <= s < 4 && 0 <= k < 13 &&
                                         SUITS[s] == suit && RANKS[k] == rank &&
                                         r.value == NewFromElems(s, k)
    {
      match Position(SUITS, suit)
      case None => None
      case Some(s) =>
        match Position(RANKS, rank)
        case None => None
        case Some(k) => Some(NewFromElems(s, k))
    }

    /** `Card::new_from_raw`: wrap a word as it is. */
    static function NewFromRaw(val: Word): (c: Card)
      ensures c.Raw() == val
    {
      Card(val)
    }

    /** `Card::raw`: the word of the card. */
    function Raw(): Word
    {
      bits
    }

    /** A real card: one bit, at a real rank position of some lane. */
    predicate IsReal()
    {
      exists b :: b in bits && bits == {b} && IsRealBit(b)
    }

    /** `suit_elem`: trailing zeros divided by the lane width (4 for the empty word). */
    function SuitElem(): (s: nat)
      ensures s <= 4
      ensures s < 4 <==> bits != {}
    {
      TrailingZeros(bits) / 16
    }

    /** `rank_elem`: trailing zeros modulo the lane width. */
    function RankElem(): (r: nat)
      ensures r < 16
      ensures bits == {} ==> r == 0
    {
      TrailingZeros(bits) % 16
    }

    /** `suit`: the suit symbol; indexing SUITS needs a non-empty word. */
    function Suit(): (c: char)
      requires bits != {}
      ensures c in SUITS
    {
      SUITS[SuitElem()]
    }

    /** `rank`: the rank name; indexing RANKS needs a rank below 13. */
    function Rank(): (s: string)
      requires RankElem() < 13
      ensures s in RANKS
    {
      RANKS[RankElem()]
    }

    /** `one_higher`: the word shifted up by one, without bounds checks. */
    function OneHigher(): Card
    {
      Card(ShiftUp(bits))
    }

    /** `one_lower`: the word shifted down by one, without bounds checks. */
    function OneLower(): Card
    {
      Card(ShiftDown(bits))
    }
  }

  /** The card whose only bit is `b`: its trailing-zero count is `b`, so it
      decodes to suit `b / 16` and rank `b % 16`. */
  function Single(b: Bit): (c: Card)
    ensures c.bits == {b}
    ensures TrailingZeros(c.bits) == b
    ensures c.SuitElem() == b / 16 && c.RankElem() == b % 16
  {
    assert TrailingZeros({b}) in {b};
    Card({b})
  }

  /** The 7 of hearts, the card every game opens with. */
  const SevenHearts: Card := Card({6})

  /** `Card::new('♥', "7")` and `new_from_elems(0, 6)` both name the 7 of
      hearts, and its name is the only one that does. */
  lemma SevenHeartsByName()
    ensures Card.New('♥', "7") == Some(SevenHearts)
    ensures Card.NewFromElems(0, 6) == SevenHearts
    ensures forall s: nat, r: nat :: s < 4 && r < 13 && Card.NewFromElems(s, r) == SevenHearts ==> s == 0 && r == 6
  {
    NewMatchesElems(0, 6);
    assert SUITS[0] == '♥' && RANKS[6] == "7";
    forall s: nat, r: nat | s < 4 && r < 13 && Card.NewFromElems(s, r) == SevenHearts
      ensures s == 0 && r == 6
    {
      NewFromElemsInjective(s, r, 0, 6);
    }
  }

  /** A bit is set after shifting up iff the bit below it was set before. */
  lemma ShiftUpMember(w: Word, b: Bit)
    ensures b in ShiftUp(w) <==> 1 <= b && (b - 1) as Bit in w
  {
    if 1 <= b && (b - 1) as Bit in w {
      var d: Bit := (b - 1) as Bit;
      assert (d + 1) as Bit in ShiftUp(w);
    }
  }

  /** A bit is set after shifting down iff the bit above it was set before. */
  lemma ShiftDownMember(w: Word, b: Bit)
    ensures b in ShiftDown(w) <==> b < 63 && (b + 1) as Bit in w
  {
    if b < 63 && (b + 1) as Bit in w {
      var u: Bit := (b + 1) as Bit;
      assert (u - 1) as Bit in ShiftDown(w);
    }
  }

  /** Shifting a single bit moves it by one position, or drops it off the word. */
  lemma ShiftSingle(b: Bit)
    ensures b < 63 ==> ShiftUp({b}) == {(b + 1) as Bit}
    ensures b == 63 ==> ShiftUp({b}) == {}
    ensures b >= 1 ==> ShiftDown({b}) == {(b - 1) as Bit}
    ensures b == 0 ==> ShiftDown({b}) == {}
  {
    if b < 63 {
      var u: Bit := (b + 1) as Bit;
      assert u in ShiftUp({b});
      assert forall x: Bit :: x in ShiftUp({b}) ==> x == u;
    }
    if b >= 1 {
      var d: Bit := (b - 1) as Bit;
      assert d in ShiftDown({b});
      assert forall x: Bit :: x in ShiftDown({b}) ==> x == d;
    }
  }

  /** `new_from_elems(s, r)` is a real card whose `suit_elem` is `s` and whose
      `rank_elem` is `r` (card.rs test1). */
  lemma ElemsRoundTrip(s: nat, r: nat)
    requires s < 4 && r < 13
    ensures Card.NewFromElems(s, r).IsReal()
    ensures Card.NewFromElems(s, r).SuitElem() == s && Card.NewFromElems(s, r).RankElem() == r
  {
    var b: Bit := Pos(s, r) as Bit;
    assert Card.NewFromElems(s, r) == Single(b);
  }

  /** Every real card is the card built from its own suit and rank indices,
      and those indices are in range. */
  lemma RealCardElems(c: Card)
    requires c.IsReal()
    ensures c.SuitElem() < 4 && c.RankElem() < 13
    ensures c == Card.NewFromElems(c.SuitElem(), c.RankElem())
  {
    var b :| b in c.bits && c.bits == {b} && IsRealBit(b);
    assert c == Single(b);
    assert Pos(b / 16, b % 16) == b;
  }

  /** Distinct suit/rank pairs give distinct cards. */
  lemma NewFromElemsInjective(s1: nat, r1: nat, s2: nat, r2: nat)
    requires s1 < 4 && r1 < 13 && s2 < 4 && r2 < 13
    ensures Card.NewFromElems(s1, r1) == Card.NewFromElems(s2, r2) <==> s1 == s2 && r1 == r2
  {
    if Card.NewFromElems(s1, r1) == Card.NewFromElems(s2, r2) {
      ElemsRoundTrip(s1, r1);
      ElemsRoundTrip(s2, r2);
    }
  }

  /** `new` succeeds for every listed suit and rank and then agrees with
      `new_from_elems` at their positions; `suit_elem`/`rank_elem` recover
      the indices (card.rs test1). */
  lemma {:induction false} NewMatchesElems(s: nat, r: nat)
    requires s < 4 && r < 13
    ensures Card.New(SUITS[s], RANKS[r]) == Some(Card.NewFromElems(s, r))
    ensures Card.New(SUITS[s], RANKS[r]).value.SuitElem() == s
    ensures Card.New(SUITS[s], RANKS[r]).value.RankElem() == r
  {
    SuitsDistinct();
    RanksDistinct();
    ElemsRoundTrip(s, r);
    var ps := Position(SUITS, SUITS[s]);
    var pr := Position(RANKS, RANKS[r]);
    assert ps.Some? && SUITS[ps.value] == SUITS[s];
    assert pr.Some? && RANKS[pr.value] == RANKS[r];
  }

  lemma SuitsDistinct()
    ensures forall i, j :: 0 <= i < j < 4 ==> SUITS[i] != SUITS[j]
  {
  }

  lemma RanksDistinct()
    ensures forall i, j :: 0 <= i < j < 13 ==> RANKS[i] != RANKS[j]
  {
  }

  /** Reading a real card's suit symbol and rank name back through `new`
      gives the same card. */
  lemma {:induction false} NameRoundTrip(c: Card)
    requires c.IsReal()
    ensures c.bits != {} && c.RankElem() < 13
    ensures Card.New(c.Suit(), c.Rank()) == Some(c)
  {
    RealCardElems(c);
    NewMatchesElems(c.SuitElem(), c.RankElem());
  }

  /** `new_from_raw(c.raw()) == c` (card.rs test1). */
  lemma RawRoundTrip(c: Card)
    ensures Card.NewFromRaw(c.Raw()) == c
  {
  }

  /** Below the King, `one_higher` is the same-suit card one rank up. */
  lemma HigherNeighbour(s: nat, r: nat)
    requires s < 4 && r < 12
    ensures Card.NewFromElems(s, r).OneHigher() == Card.NewFromElems(s, r + 1)
  {
    ShiftSingle(Pos(s, r) as Bit);
  }

  /** Above the Ace, `one_lower` is the same-suit card one rank down. */
  lemma LowerNeighbour(s: nat, r: nat)
    requires s < 4 && 1 <= r < 13
    ensures Card.NewFromElems(s, r).OneLower() == Card.NewFromElems(s, r - 1)
  {
    ShiftSingle(Pos(s, r) as Bit);
  }

  /** For interior ranks the shifts are the same-suit neighbours, and they
      undo each other (card.rs test2). */
  lemma {:induction false} InteriorNeighbours(s: nat, r: nat)
    requires s < 4 && 1 <= r < 12
    ensures Card.NewFromElems(s, r).OneHigher() == Card.NewFromElems(s, r + 1)
    ensures Card.NewFromElems(s, r).OneLower() == Card.NewFromElems(s, r - 1)
    ensures Card.NewFromElems(s, r).OneLower().OneHigher() == Card.NewFromElems(s, r)
    ensures Card.NewFromElems(s, r).OneHigher().OneLower() == Card.NewFromElems(s, r)
  {
    var c, up, down := Card.NewFromElems(s, r), Card.NewFromElems(s, r + 1), Card.NewFromElems(s, r - 1);
    HigherNeighbour(s, r);
    LowerNeighbour(s, r);
    HigherNeighbour(s, r - 1);
    LowerNeighbour(s, r + 1);
    assert c.OneHigher() == up && up.OneLower() == c;
    assert c.OneLower() == down && down.OneHigher() == c;
  }

  /** Shifts off the ends of a lane never produce a real card: a King goes up
      to guard bit 13 of its lane, an Ace of a later suit goes down to guard
      bit 15 of the previous lane, and the Ace of hearts goes down to the
      empty word. */
  lemma {:induction false} EdgeShifts(s: nat)
    requires s < 4
    ensures Card.NewFromElems(s, 12).OneHigher().bits == {(16 * s + 13) as Bit}
    ensures !Card.NewFromElems(s, 12).OneHigher().IsReal()
    ensures s > 0 ==> Card.NewFromElems(s, 0).OneLower().bits == {(16 * (s - 1) + 15) as Bit}
    ensures s > 0 ==> !Card.NewFromElems(s, 0).OneLower().IsReal()
    ensures s == 0 ==> Card.NewFromElems(s, 0).OneLower().bits == {}
  {
    ShiftSingle(Pos(s, 12) as Bit);
    ShiftSingle(Pos(s, 0) as Bit);
    var k: Bit := (16 * s + 13) as Bit;
    assert !IsRealBit(k);
    if s > 0 {
      var a: Bit := (16 * (s - 1) + 15) as Bit;
      assert !IsRealBit(a);
    }
  }
}
