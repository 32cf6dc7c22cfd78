/** The invariants of a Sevens table that both search engines rely on:
 *  every real card is on the board or in exactly one hand, the board is
 *  built outwards from the 7s, and while cards remain someone can move.
 *  These are the facts behind the termination of `play` in src/play/play.rs
 *  and src/game/play.rs.
 */
module Rules {
  import opened Cards
  import opened CardCollections
  import opened PlayState
  import Decks

  /** The rule of `card_plays` read off the bit layout: a 7 (offset 6 in
      its nibble group) plays if it is the 7 of hearts or the 7 of hearts is
      down, a card below the 7 plays if the bit above is down, a card above
      the 7 if the bit below is down. */
  predicate PlaysBit(board: Word, b: Bit)
  {
    (b % 16 == 6 && (b == 6 || 6 in board)) ||
    (b % 16 < 6 && b + 1 in board) ||
    (6 < b % 16 && b - 1 in board)
  }

  /** `card_plays` for the single card at any bit is `PlaysBit`. */
  lemma CardPlaysBits(board: CardCollection, b: Bit)
    ensures CardPlays(board, Single(b)) <==> PlaysBit(board.bits, b)
  {
    var c := Single(b);
    assert c.RankElem() == b % 16 && c.SuitElem() == b / 16;
    ShiftSingle(b);
    SuitsDistinct();
    assert SUITS[0] == '♥';
    if b % 16 < 6 {
      var up: Bit := (b + 1) as Bit;
      assert Single(b).OneHigher().bits == {up};
      assert up in board.bits ==> up in board.bits * {up};
    } else if 6 < b % 16 {
      var down: Bit := (b - 1) as Bit;
      assert Single(b).OneLower().bits == {down};
      assert down in board.bits ==> down in board.bits * {down};
    } else {
      assert 6 in board.bits ==> 6 in board.bits * SevenHearts.bits;
    }
  }

  /** A card that plays on a board still plays once more cards are down. */
  lemma CardPlaysMonotone(board: CardCollection, bigger: CardCollection, card: Card)
    requires board.bits <= bigger.bits
    requires CardPlays(board, card)
    ensures CardPlays(bigger, card)
  {
    var down := if card.RankElem() < 6 then card.OneHigher() else card.OneLower();
    if card.RankElem() != 6 {
      assert board.bits * down.bits <= bigger.bits * down.bits;
    } else if card.Suit() != '♥' {
      assert board.bits * SevenHearts.bits <= bigger.bits * SevenHearts.bits;
    }
  }

  /** Bit `x` is on the board or in some hand. */
  ghost predicate Holds(t: Table, x: Bit)
  {
    x in t.board.bits || exists p :: 0 <= p < |t.hands| && x in t.hands[p].bits
  }

  /** No card is both on the board and in a hand, or in two hands. */
  ghost predicate Disjoint(t: Table)
  {
    (forall p :: 0 <= p < |t.hands| ==> t.board.bits !! t.hands[p].bits) &&
    (forall p, q :: 0 <= p < q < |t.hands| ==> t.hands[p].bits !! t.hands[q].bits)
  }

  /** The 52 real cards are split between the board and the hands. */
  ghost predicate Partition(t: Table)
  {
    Disjoint(t) && forall x: Bit :: Holds(t, x) <==> x in RealBits
  }

  /** Every card on the board was legal when it was laid. */
  ghost predicate Closed(board: CardCollection)
  {
    forall b :: b in board.bits ==> PlaysBit(board.bits, b)
  }

  /** The table invariant of both engines: at least one player, the turn
      with one of them, and the cards split between board and hands. */
  ghost predicate Valid(t: Table)
  {
    0 < |t.hands| && t.cur < |t.hands| && Partition(t)
  }

  /** Some real card is still off the board. */
  ghost predicate Unfinished(t: Table)
  {
    t.board.bits != RealBits
  }

  /** The number of real cards not yet on the board. */
  function Remaining(t: Table): nat
  {
    |RealBits - t.board.bits|
  }

  /** `hand` holds a card that plays on `board`. */
  ghost predicate HasMove(board: CardCollection, hand: CardCollection)
  {
    exists b :: b in hand.bits && PlaysBit(board.bits, b)
  }

  /** `play_card` of a card held by the current player conserves the cards:
      a bit is on the board or in a hand afterwards iff it was before, and
      the board stays disjoint from the hands. */
  lemma PlayCardConserves(t: Table, b: Bit)
    requires t.cur < |t.hands| && b in t.hands[t.cur].bits
    ensures forall x: Bit :: Holds(t.PlayCard(Single(b)), x) <==> Holds(t, x)
    ensures Disjoint(t) ==> Disjoint(t.PlayCard(Single(b)))
    ensures |t.PlayCard(Single(b)).hands| == |t.hands|
    ensures t.PlayCard(Single(b)).board.bits == t.board.bits + {b}
    ensures t.PlayCard(Single(b)).hands[t.cur].bits == t.hands[t.cur].bits - {b}
    ensures forall p :: 0 <= p < |t.hands| && p != t.cur ==> t.PlayCard(Single(b)).hands[p] == t.hands[p]
  {
    var u := t.PlayCard(Single(b));
    forall x: Bit ensures Holds(u, x) <==> Holds(t, x) {
      if Holds(t, x) && x !in t.board.bits {
        var p :| 0 <= p < |t.hands| && x in t.hands[p].bits;
        if x != b {
          assert x in u.hands[p].bits;
        }
      }
      if Holds(u, x) && x !in u.board.bits {
        var p :| 0 <= p < |u.hands| && x in u.hands[p].bits;
        assert x in t.hands[p].bits;
      }
    }
  }

  /** Laying a legal card from the current hand keeps the table valid and
      puts one more real card on the board. */
  lemma PlayKeepsValid(t: Table, b: Bit)
    requires Valid(t) && b in t.hands[t.cur].bits && PlaysBit(t.board.bits, b)
    ensures Valid(t.PlayCard(Single(b)))
    ensures Remaining(t.PlayCard(Single(b))) == Remaining(t) - 1
  {
    var u := t.PlayCard(Single(b));
    PlayCardConserves(t, b);
    assert Holds(t, b);
    assert RealBits - u.board.bits == (RealBits - t.board.bits) - {b};
  }

  /** Laying a legal card keeps every card on the board legal where it
      lies: the board only ever grows outwards from the 7s. */
  lemma PlayKeepsClosed(t: Table, b: Bit)
    requires t.cur < |t.hands| && Closed(t.board) && PlaysBit(t.board.bits, b)
    ensures Closed(t.PlayCard(Single(b)).board)
  {
  }

  /** Passing the turn keeps the table valid. */
  lemma NextKeepsValid(t: Table)
    requires Valid(t)
    ensures Valid(t.NextPlayer()) && Remaining(t.NextPlayer()) == Remaining(t)
  {
    assert forall x: Bit :: Holds(t.NextPlayer(), x) == Holds(t, x);
  }

  /** From a real card below the 7 and off the board, walk up towards the 7
      of its suit until a card that plays is found (the 7 of hearts being
      down). */
  lemma ClimbUp(board: CardCollection, x: Bit) returns (c: Bit)
    requires 6 in board.bits && IsRealBit(x) && x % 16 <= 6 && x !in board.bits
    ensures IsRealBit(c) && c !in board.bits && PlaysBit(board.bits, c)
    decreases 6 - x % 16
  {
    if x % 16 == 6 || x + 1 in board.bits {
      c := x;
    } else {
      c := ClimbUp(board, (x + 1) as Bit);
    }
  }

  /** The same walk downwards from a card above the 7. */
  lemma ClimbDown(board: CardCollection, x: Bit) returns (c: Bit)
    requires 6 in board.bits && IsRealBit(x) && 6 <= x % 16 && x !in board.bits
    ensures IsRealBit(c) && c !in board.bits && PlaysBit(board.bits, c)
    decreases x % 16
  {
    if x % 16 == 6 || x - 1 in board.bits {
      c := x;
    } else {
      c := ClimbDown(board, (x - 1) as Bit);
    }
  }

  /** While a real card is off the board, some player holds a card that
      plays: the 7 of hearts if it is still out, otherwise a card found by
      walking from any missing card towards its 7. */
  lemma SomeoneCanMove(t: Table) returns (p: nat)
    requires Valid(t) && Unfinished(t)
    ensures p < |t.hands| && HasMove(t.board, t.hands[p])
  {
    var c: Bit;
    if 6 !in t.board.bits {
      c := 6;
    } else {
      assert t.board.bits <= RealBits by {
        forall x | x in t.board.bits ensures x in RealBits {
          assert Holds(t, x);
        }
      }
      var x :| x in RealBits && x !in t.board.bits;
      if x % 16 <= 6 {
        c := ClimbUp(t.board, x);
      } else {
        c := ClimbDown(t.board, x);
      }
    }
    assert c in RealBits;
    assert Holds(t, c);
    p :| 0 <= p < |t.hands| && c in t.hands[p].bits;
  }

  /** Two players never hold the same card after dealing cards without
      repeats. */
  lemma DealtApart(cards: seq<Card>, n: nat, p: nat, q: nat, x: Bit)
    requires 0 < n && p < q < n
    requires forall k :: 0 <= k < |cards| ==> cards[k].IsReal()
    requires forall i, j :: 0 <= i < j < |cards| ==> cards[i] != cards[j]
    ensures !(x in Dealt(cards, n, p).bits && x in Dealt(cards, n, q).bits)
  {
    DealtBits(cards, n, p, x);
    DealtBits(cards, n, q, x);
  }

  /** A bit is in some hand after the deal exactly when it is a real card,
      when the dealt cards are the 52 real cards. */
  lemma DealtHolds(cards: seq<Card>, n: nat, x: Bit)
    requires 0 < n && FirstPlayer(cards, n).Some?
    requires forall k :: 0 <= k < |cards| ==> cards[k].IsReal()
    requires forall y: Bit :: IsRealBit(y) ==> Single(y) in cards
    ensures Holds(DealTable(cards, n), x) <==> x in RealBits
  {
    var t := DealTable(cards, n);
    if x in RealBits {
      var k :| 0 <= k < |cards| && cards[k] == Single(x);
      var p := k % n;
      DealtBits(cards, n, p, x);
      assert x in t.hands[p].bits;
    }
    if Holds(t, x) {
      var p :| 0 <= p < n && x in t.hands[p].bits;
      DealtBits(cards, n, p, x);
      var k :| 0 <= k < |cards| && k % n == p && x in cards[k].bits;
      assert cards[k].IsReal();
    }
  }

  /** Dealing the 52 real cards, none twice, splits them between the
      hands and leaves the board empty. */
  lemma DealPartition(cards: seq<Card>, n: nat)
    requires 0 < n && FirstPlayer(cards, n).Some?
    requires forall k :: 0 <= k < |cards| ==> cards[k].IsReal()
    requires forall i, j :: 0 <= i < j < |cards| ==> cards[i] != cards[j]
    requires forall y: Bit :: IsRealBit(y) ==> Single(y) in cards
    ensures Partition(DealTable(cards, n))
  {
    var t := DealTable(cards, n);
    forall x: Bit ensures Holds(t, x) <==> x in RealBits {
      DealtHolds(cards, n, x);
    }
    forall p, q | 0 <= p < q < n ensures t.hands[p].bits !! t.hands[q].bits {
      forall x: Bit ensures !(x in t.hands[p].bits && x in t.hands[q].bits) {
        DealtApart(cards, n, p, q, x);
      }
    }
  }

  /** The player to move after the deal holds the 7 of hearts. */
  lemma DealOpener(cards: seq<Card>, n: nat)
    requires 0 < n && FirstPlayer(cards, n).Some?
    ensures 6 in DealTable(cards, n).hands[DealTable(cards, n).cur].bits
  {
    FirstPlayerIsHolder(cards, n);
    var k :| 0 <= k < |cards| && cards[k] == SevenHearts && FirstPlayer(cards, n).value == k % n && SevenHearts !in cards[k + 1..];
    DealtBits(cards, n, k % n, 6);
  }

  /** Dealing any rearrangement of a new deck, as `main` does with
      `Deck::new` and an optional `shuffle`, to at least one player gives a
      table both searches accept: a 7 of hearts is dealt, every real card
      is in exactly one hand, nothing is on the board yet, and the player
      to move holds the 7 of hearts. */
  lemma DealValid(cards: seq<Card>, n: nat)
    requires 0 < n && multiset(cards) == multiset(Decks.SortedCards())
    ensures FirstPlayer(cards, n).Some?
    ensures Valid(DealTable(cards, n)) && Unfinished(DealTable(cards, n))
    ensures 6 in DealTable(cards, n).hands[DealTable(cards, n).cur].bits
  {
    Decks.PermutedDeck(cards);
    assert IsRealBit(6) && Single(6) == SevenHearts;
    FirstPlayerIsHolder(cards, n);
    DealPartition(cards, n);
    DealOpener(cards, n);
    assert 6 in RealBits;
  }

  /** The offset, from the current player, of the first player at or after
      offset `d` who can move; the player count if there is none. */
  ghost function GapFrom(t: Table, d: nat): nat
    requires 0 < |t.hands|
    decreases |t.hands| - d
  {
    if d >= |t.hands| then |t.hands|
    else if HasMove(t.board, t.hands[(t.cur + d) % |t.hands|]) then d
    else GapFrom(t, d + 1)
  }

  /** How many turns pass before someone can move. */
  ghost function Gap(t: Table): nat
    requires 0 < |t.hands|
  {
    GapFrom(t, 0)
  }

  lemma {:induction false} GapBelow(t: Table, d: nat, m: nat)
    requires 0 < |t.hands| && d <= m < |t.hands|
    requires HasMove(t.board, t.hands[(t.cur + m) % |t.hands|])
    ensures GapFrom(t, d) <= m
    decreases m - d
  {
    if d < m && !HasMove(t.board, t.hands[(t.cur + d) % |t.hands|]) {
      GapBelow(t, d + 1, m);
    }
  }

  lemma {:induction false} GapHit(t: Table, d: nat)
    requires 0 < |t.hands| && GapFrom(t, d) < |t.hands|
    ensures HasMove(t.board, t.hands[(t.cur + GapFrom(t, d)) % |t.hands|])
    decreases |t.hands| - d
  {
    if d < |t.hands| && !HasMove(t.board, t.hands[(t.cur + d) % |t.hands|]) {
      GapHit(t, d + 1);
    }
  }

  /** Fewer than a full round passes before someone moves. */
  lemma GapInRange(t: Table)
    requires Valid(t) && Unfinished(t)
    ensures Gap(t) < |t.hands|
  {
    var n := |t.hands|;
    var p := SomeoneCanMove(t);
    var m: nat := if t.cur <= p then p - t.cur else p + n - t.cur;
    if t.cur <= p {
      ModUnique(p, 0, p, n);
    } else {
      ModUnique(p + n, 1, p, n);
    }
    GapBelow(t, 0, m);
  }

  /** When the current player cannot move, passing the turn brings the next
      mover one turn closer. */
  lemma GapStep(t: Table)
    requires Valid(t) && Unfinished(t) && !HasMove(t.board, t.hands[t.cur])
    ensures Gap(t.NextPlayer()) < Gap(t)
  {
    var n := |t.hands|;
    GapInRange(t);
    var g := Gap(t);
    GapHit(t, 0);
    ModUnique(t.cur, 0, t.cur, n);
    assert g != 0;
    var u := t.NextPlayer();
    if t.cur + 1 < n {
      ModUnique(t.cur + 1, 0, t.cur + 1, n);
      assert u.cur + (g - 1) == t.cur + g;
    } else {
      ModUnique(t.cur + 1, 1, 0, n);
      ModUnique(g - 1, 0, g - 1, n);
      ModUnique(t.cur + g, 1, g - 1, n);
    }
    GapBelow(u, 0, g - 1);
  }
}
