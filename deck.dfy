/** An ordered deck of cards (src/cards/deck.rs). */
module Decks {
  import opened Cards

  /** One suit's fold of `Deck::new`: push ranks `rank..12` of `suit`. */
  function PushRanks(suit: nat, rank: nat, cards: seq<Card>): (r: seq<Card>)
    requires suit < |SUITS| && rank <= |RANKS|
    decreases |RANKS| - rank
  {
    if rank == |RANKS| then cards
    else PushRanks(suit, rank + 1, cards + [Card.NewFromElems(suit, rank)])
  }

  /** The outer fold of `Deck::new`: push every rank of suits `suit..3`. */
  function PushSuits(suit: nat, cards: seq<Card>): (r: seq<Card>)
    requires suit <= |SUITS|
    decreases |SUITS| - suit
  {
    if suit == |SUITS| then cards
    else PushSuits(suit + 1, PushRanks(suit, 0, cards))
  }

  /** The cards of a new deck, suit-major and rank-minor. */
  function SortedCards(): seq<Card>
  {
    PushSuits(0, [])
  }

  lemma {:induction false} PushRanksLength(suit: nat, rank: nat, cards: seq<Card>)
    requires suit < 4 && rank <= 13
    ensures |PushRanks(suit, rank, cards)| == |cards| + 13 - rank
    decreases 13 - rank
  {
    if rank < 13 {
      PushRanksLength(suit, rank + 1, cards + [Card.NewFromElems(suit, rank)]);
    }
  }

  /** Positions already in the accumulator are kept, and rank `i` lands at
      offset `i - rank` after them. */
  lemma {:induction false} PushRanksAt(suit: nat, rank: nat, cards: seq<Card>, i: nat)
    requires suit < 4 && rank <= 13 && i < |cards| + 13 - rank
    ensures |PushRanks(suit, rank, cards)| == |cards| + 13 - rank
    ensures i < |cards| ==> PushRanks(suit, rank, cards)[i] == cards[i]
    ensures |cards| <= i ==> PushRanks(suit, rank, cards)[i] == Card.NewFromElems(suit, rank + i - |cards|)
    decreases 13 - rank
  {
    PushRanksLength(suit, rank, cards);
    if rank < 13 {
      PushRanksAt(suit, rank + 1, cards + [Card.NewFromElems(suit, rank)], i);
    }
  }

  lemma {:induction false} PushSuitsLength(suit: nat, cards: seq<Card>)
    requires suit <= 4
    ensures |PushSuits(suit, cards)| == |cards| + 13 * (4 - suit)
    decreases 4 - suit
  {
    if suit < 4 {
      PushRanksLength(suit, 0, cards);
      PushSuitsLength(suit + 1, PushRanks(suit, 0, cards));
    }
  }

  /** The ranks of suit `suit` follow the accumulator. */
  lemma PushSuitsHere(suit: nat, cards: seq<Card>, r: nat)
    requires suit < 4 && r < 13
    ensures |PushSuits(suit, cards)| == |cards| + 13 * (4 - suit)
    ensures PushSuits(suit, cards)[|cards| + r] == Card.NewFromElems(suit, r)
  {
    PushSuitsLength(suit, cards);
    var next := PushRanks(suit, 0, cards);
    assert PushSuits(suit, cards) == PushSuits(suit + 1, next);
    PushRanksAt(suit, 0, cards, |cards| + r);
    PushSuitsPrefix(suit + 1, next, |cards| + r);
  }

  lemma {:induction false} PushSuitsAt(suit: nat, cards: seq<Card>, s: nat, r: nat)
    requires suit <= s < 4 && r < 13
    ensures |PushSuits(suit, cards)| == |cards| + 13 * (4 - suit)
    ensures PushSuits(suit, cards)[|cards| + 13 * (s - suit) + r] == Card.NewFromElems(s, r)
    decreases 4 - suit
  {
    if s == suit {
      PushSuitsHere(suit, cards, r);
    } else {
      PushSuitsLength(suit, cards);
      var next := PushRanks(suit, 0, cards);
      PushRanksLength(suit, 0, cards);
      assert PushSuits(suit, cards) == PushSuits(suit + 1, next);
      assert |next| + 13 * (s - (suit + 1)) + r == |cards| + 13 * (s - suit) + r;
      PushSuitsAt(suit + 1, next, s, r);
    }
  }

  lemma {:induction false} PushSuitsPrefix(suit: nat, cards: seq<Card>, i: nat)
    requires suit <= 4 && i < |cards|
    ensures |PushSuits(suit, cards)| == |cards| + 13 * (4 - suit)
    ensures PushSuits(suit, cards)[i] == cards[i]
    decreases 4 - suit
  {
    PushSuitsLength(suit, cards);
    if suit < 4 {
      var next := PushRanks(suit, 0, cards);
      PushRanksAt(suit, 0, cards, i);
      PushSuitsPrefix(suit + 1, next, i);
    }
  }

  lemma LayoutFrom(e: seq<Card>, s: nat, r: nat)
    requires s < 4 && r < 13 && |e| == 0
    ensures |PushSuits(0, e)| == 52
    ensures PushSuits(0, e)[13 * s + r] == Card.NewFromElems(s, r)
  {
    PushSuitsAt(0, e, s, r);
  }

  /** A new deck has 52 cards, and the card at `13 * s + r` is the card of
      suit `s` and rank `r`. */
  lemma NewDeckLayout(s: nat, r: nat)
    requires s < 4 && r < 13
    ensures |SortedCards()| == 52
    ensures SortedCards()[13 * s + r] == Card.NewFromElems(s, r)
  {
    LayoutFrom([], s, r);
  }

  lemma IndexFrom(e: seq<Card>, i: nat)
    requires i < 52 && |e| == 0
    ensures |PushSuits(0, e)| == 52
    ensures PushSuits(0, e)[i] == Card.NewFromElems(i / 13, i % 13)
  {
    PushSuitsAt(0, e, i / 13, i % 13);
  }

  /** The card at position `i` of a new deck is real and determines `i`. */
  lemma DeckCardAt(i: nat)
    requires i < 52
    ensures |SortedCards()| == 52
    ensures SortedCards()[i] == Card.NewFromElems(i / 13, i % 13)
    ensures SortedCards()[i].IsReal()
  {
    IndexFrom([], i);
    ElemsRoundTrip(i / 13, i % 13);
  }

  lemma DeckCardsDiffer(i: nat, j: nat)
    requires i < j < 52
    ensures |SortedCards()| == 52
    ensures SortedCards()[i] != SortedCards()[j]
  {
    DeckCardAt(i);
    DeckCardAt(j);
    NewFromElemsInjective(i / 13, i % 13, j / 13, j % 13);
  }

  /** Every card of a new deck is real, and no card appears twice. */
  lemma NewDeckDistinct()
    ensures |SortedCards()| == 52
    ensures forall i :: 0 <= i < 52 ==> SortedCards()[i].IsReal()
    ensures forall i, j :: 0 <= i < j < 52 ==> SortedCards()[i] != SortedCards()[j]
  {
    DeckCardAt(0);
    forall i | 0 <= i < 52 ensures SortedCards()[i].IsReal() {
      DeckCardAt(i);
    }
    forall i, j | 0 <= i < j < 52 ensures SortedCards()[i] != SortedCards()[j] {
      DeckCardsDiffer(i, j);
    }
  }

  /** A sequence without repeats holds each value at most once. */
  lemma {:induction false} DistinctMultiplicity(s: seq<Card>, x: Card)
    requires forall i, j :: 0 <= i < j < |s| ==> s[i] != s[j]
    ensures multiset(s)[x] <= 1
  {
    if s != [] {
      assert s == [s[0]] + s[1..];
      DistinctMultiplicity(s[1..], x);
      if s[0] == x {
        assert x !in s[1..];
      }
    }
  }

  /** A rearrangement of a sequence without repeats has no repeats. */
  lemma PermutedDistinct(cards: seq<Card>, ref: seq<Card>, i: nat, j: nat)
    requires multiset(cards) == multiset(ref) && i < j < |cards|
    requires forall a, b :: 0 <= a < b < |ref| ==> ref[a] != ref[b]
    ensures cards[i] != cards[j]
  {
    if cards[i] == cards[j] {
      assert cards == cards[..j] + cards[j..];
      assert cards[i] in cards[..j] && cards[j] in cards[j..];
      assert multiset(cards)[cards[j]] >= 2;
      DistinctMultiplicity(ref, cards[j]);
    }
  }

  /** Every real card is in a new deck. */
  lemma NewDeckComplete(x: Bit)
    requires IsRealBit(x)
    ensures Single(x) in SortedCards()
  {
    assert Single(x) == Card.NewFromElems(x / 16, x % 16);
    NewDeckHolds(x / 16, x % 16);
  }

  lemma NewDeckHolds(s: nat, r: nat)
    requires s < 4 && r < 13
    ensures Card.NewFromElems(s, r) in SortedCards()
  {
    NewDeckLayout(s, r);
  }

  /** A rearrangement keeps the length, the kind of every element, the
      absence of repeats and every member. */
  lemma {:induction false} Rearranged(cards: seq<Card>, ref: seq<Card>)
    requires multiset(cards) == multiset(ref)
    requires forall k :: 0 <= k < |ref| ==> ref[k].IsReal()
    requires forall i, j :: 0 <= i < j < |ref| ==> ref[i] != ref[j]
    requires forall x: Bit :: IsRealBit(x) ==> Single(x) in ref
    ensures |cards| == |ref|
    ensures forall k :: 0 <= k < |cards| ==> cards[k].IsReal()
    ensures forall i, j :: 0 <= i < j < |cards| ==> cards[i] != cards[j]
    ensures forall x: Bit :: IsRealBit(x) ==> Single(x) in cards
  {
    assert |cards| == |multiset(cards)| == |ref|;
    forall k | 0 <= k < |cards| ensures cards[k].IsReal() {
      assert cards[k] in multiset(ref);
    }
    forall i, j | 0 <= i < j < |cards| ensures cards[i] != cards[j] {
      PermutedDistinct(cards, ref, i, j);
    }
    forall x: Bit | IsRealBit(x) ensures Single(x) in cards {
      assert Single(x) in multiset(ref);
    }
  }

  /** Any rearrangement of a new deck, such as the one `shuffle` leaves,
      holds 52 real cards, no card twice, and every real card. */
  lemma PermutedDeck(cards: seq<Card>)
    requires multiset(cards) == multiset(SortedCards())
    ensures |cards| == 52
    ensures forall k :: 0 <= k < |cards| ==> cards[k].IsReal()
    ensures forall i, j :: 0 <= i < j < |cards| ==> cards[i] != cards[j]
    ensures forall x: Bit :: IsRealBit(x) ==> Single(x) in cards
  {
    NewDeckDistinct();
    forall x: Bit | IsRealBit(x) ensures Single(x) in SortedCards() {
      NewDeckComplete(x);
    }
    Rearranged(cards, SortedCards());
  }

  /** `struct Deck(VecDeque<Card>)`: front is index 0. */
  class Deck {
    var cards: seq<Card>

    /** `Deck::new`: the 52 cards in suit-major, rank-minor order. */
    constructor ()
      ensures cards == SortedCards()
    {
      cards := SortedCards();
    }

    /** `shuffle`: repeatedly move a randomly chosen remaining card to the back
        of a new deck. The random index is any in-range choice. */
    method Shuffle()
      modifies this
      ensures |cards| == |old(cards)|
      ensures multiset(cards) == multiset(old(cards))
    {
      var shuffled: seq<Card> := [];
      while |cards| > 0
        invariant multiset(shuffled) + multiset(cards) == multiset(old(cards))
        invariant |shuffled| + |cards| == |old(cards)|
        decreases |cards|
      {
        var elem :| 0 <= elem < |cards|;
        var card := cards[elem];
        assert cards == cards[..elem] + [card] + cards[elem + 1..];
        cards := cards[..elem] + cards[elem + 1..];
        shuffled := shuffled + [card];
      }
      cards := shuffled;
    }

    /** `pop`: take the front card, or `None` from an empty deck. */
    method Pop() returns (r: Option<Card>)
      modifies this
      ensures old(cards) == [] ==> r == None && cards == []
      ensures old(cards) != [] ==> r == Some(old(cards)[0]) && cards == old(cards)[1..]
    {
      if cards == [] {
        r := None;
      } else {
        r := Some(cards[0]);
        cards := cards[1..];
      }
    }
  }
}
