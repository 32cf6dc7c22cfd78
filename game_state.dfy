/** The game state of the newer search engine (src/game/state.rs): besides
 *  the board, the hands, the current player and the depth it keeps
 *  `plays`, a mask of the cards that may be laid, grown every time a card
 *  is played instead of recomputed from the board.
 */
module GameState {
  import opened Cards
  import opened CardCollections
  import opened PlayState
  import opened Rules
  import Decks

  /** The other three 7s, which the 7 of hearts unlocks: clubs, diamonds
      and spades in lane order. */
  const OtherSevens: Word := {22, 38, 54}

  /** `Card::new(&'♣', "7")` is the 7 at bit 22. */
  lemma ClubsSeven()
    ensures Card.New('♣', "7") == Some(Single(22))
  {
    NewMatchesElems(1, 6);
    assert SUITS[1] == '♣' && RANKS[6] == "7";
  }

  /** `Card::new(&'♦', "7")` is the 7 at bit 38. */
  lemma DiamondsSeven()
    ensures Card.New('♦', "7") == Some(Single(38))
  {
    NewMatchesElems(2, 6);
    assert SUITS[2] == '♦' && RANKS[6] == "7";
  }

  /** `Card::new(&'♠', "7")` is the 7 at bit 54. */
  lemma SpadesSeven()
    ensures Card.New('♠', "7") == Some(Single(54))
  {
    NewMatchesElems(3, 6);
    assert SUITS[3] == '♠' && RANKS[6] == "7";
  }

  /** What laying `card` adds to the mask: the card one rank lower and the
      card one rank higher (raw shifts, so edge cards add guard bits or
      nothing), and the other 7s if it is the 7 of hearts. */
  function Unlocks(card: Card): Word
  {
    (if card == SevenHearts then OtherSevens else {}) + ShiftDown(card.bits) + ShiftUp(card.bits)
  }

  /** The mask a game reaches with `board` on the table, whatever the order
      the cards were laid in: the 7 of hearts, the other 7s once the 7 of
      hearts is down, and both raw neighbours of every card on the board. */
  function PlaysOf(board: Word): Word
  {
    {6} + (if 6 in board then OtherSevens else {}) + ShiftDown(board) + ShiftUp(board)
  }

  /** On an empty board the mask holds just the 7 of hearts. */
  lemma StartPlays()
    ensures PlaysOf({}) == {6}
  {
    assert ShiftDown({}) == {} && ShiftUp({}) == {};
  }

  /** Laying one more card grows the mask of the board by exactly what the
      card unlocks. */
  lemma PlaysOfStep(board: Word, b: Bit)
    ensures PlaysOf(board + {b}) == PlaysOf(board) + Unlocks(Single(b))
  {
    forall x: Bit
      ensures x in ShiftDown(board + {b}) <==> x in ShiftDown(board) || x in ShiftDown({b})
      ensures x in ShiftUp(board + {b}) <==> x in ShiftUp(board) || x in ShiftUp({b})
    {
      ShiftDownMember(board + {b}, x);
      ShiftDownMember(board, x);
      ShiftDownMember({b}, x);
      ShiftUpMember(board + {b}, x);
      ShiftUpMember(board, x);
      ShiftUpMember({b}, x);
    }
    assert Single(b) == SevenHearts <==> b == 6;
  }

  /** A real bit at offset 6 of its lane is one of the four 7s. */
  lemma SevenBits(x: Bit)
    requires x % 16 == 6
    ensures x == 6 || x in OtherSevens
  {
    var q := x / 16;
    assert x == 16 * q + 6;
    assert q < 4;
  }

  /** A board whose cards are real and were each legal when laid. */
  ghost predicate LegalBoard(board: Word)
  {
    board <= RealBits && Closed(CardCollection(board))
  }

  /** On a legal board, the card above a missing card from the 7 upwards
      is missing too: it would have needed this one down. */
  lemma AboveMissing(board: Word, x: Bit)
    requires LegalBoard(board) && x !in board && x < 63 && 6 <= x % 16 < 13
    ensures (x + 1) as Bit !in board
  {
    var u: Bit := (x + 1) as Bit;
    ModUnique(u, x / 16, x % 16 + 1, 16);
    assert u in board ==> PlaysBit(board, u);
  }

  /** On a legal board, the card below a missing card from the 7 downwards
      is missing too; below an Ace lies a guard bit, never on the board. */
  lemma BelowMissing(board: Word, x: Bit)
    requires LegalBoard(board) && x !in board && 1 <= x && x % 16 <= 6
    ensures (x - 1) as Bit !in board
  {
    var d: Bit := (x - 1) as Bit;
    if x % 16 == 0 {
      ModUnique(d, x / 16 - 1, 15, 16);
    } else {
      ModUnique(d, x / 16, x % 16 - 1, 16);
    }
    assert d in board ==> IsRealBit(d) && PlaysBit(board, d);
  }

  /** On a legal board the mask agrees with `card_plays` on every real
      card still off the board: such a card is in the mask exactly when it
      may be laid. */
  lemma MaskAgrees(board: Word, x: Bit)
    requires LegalBoard(board)
    requires IsRealBit(x) && x !in board
    ensures x in PlaysOf(board) <==> PlaysBit(board, x)
  {
    ShiftDownMember(board, x);
    ShiftUpMember(board, x);
    if x < 63 && 6 <= x % 16 {
      AboveMissing(board, x);
    }
    if 1 <= x && x % 16 <= 6 {
      BelowMissing(board, x);
    }
    if x % 16 == 6 {
      SevenBits(x);
    }
  }

  /** `struct State` of the newer engine. */
  class State {
    var board: CardCollection
    var plays: CardCollection
    var players: seq<CardCollection>
    var curPlayer: nat
    var depth: nat

    /** The snapshot of the fields the older engine also has. */
    function Snapshot(): Table
      reads this
    {
      Table(board, players, curPlayer)
    }

    constructor (board: CardCollection, plays: CardCollection, players: seq<CardCollection>, curPlayer: nat, depth: nat)
      ensures this.board == board && this.plays == plays && this.players == players
      ensures this.curPlayer == curPlayer && this.depth == depth
    {
      this.board := board;
      this.plays := plays;
      this.players := players;
      this.curPlayer := curPlayer;
      this.depth := depth;
    }

    /** `State::new`: deal round-robin from player 0; the player dealt the 7
        of hearts moves first and the mask holds just the 7 of hearts.
        Without a 7 of hearts the source panics; the model returns `None`. */
    static method New(playerCount: nat, deck: Decks.Deck) returns (r: Option<State>)
      requires 1 <= playerCount <= 255
      modifies deck
      ensures deck.cards == []
      ensures r.None? <==> SevenHearts !in old(deck.cards)
      ensures r.Some? ==> fresh(r.value) && r.value.board == CardCollection.New() && r.value.depth == 0
      ensures r.Some? ==> r.value.plays.bits == {6} && r.value.plays.bits == PlaysOf(r.value.board.bits)
      ensures r.Some? ==> |r.value.players| == playerCount &&
                          forall p :: 0 <= p < playerCount ==> r.value.players[p] == Dealt(old(deck.cards), playerCount, p)
      ensures r.Some? ==> FirstPlayer(old(deck.cards), playerCount) == Some(r.value.curPlayer)
      ensures r.Some? ==> r.value.Snapshot() == DealTable(old(deck.cards), playerCount)
    {
      var players := seq(playerCount, _ => CardCollection.New());
      var dealPlayer: nat := 0;
      var firstPlayer: Option<nat> := None;
      ghost var dealt: seq<Card> := [];
      while true
        invariant old(deck.cards) == dealt + deck.cards
        invariant |players| == playerCount && dealPlayer == |dealt| % playerCount
        invariant forall p :: 0 <= p < playerCount ==> players[p] == Dealt(dealt, playerCount, p)
        invariant firstPlayer == FirstPlayer(dealt, playerCount)
        invariant |dealt| <= |old(deck.cards)|
        decreases |deck.cards|
      {
        var card := deck.Pop();
        if card.None? {
          break;
        }
        if card.value == SevenHearts {
          firstPlayer := Some(dealPlayer);
        }
        players := players[dealPlayer := players[dealPlayer].Add(card.value)];
        ModNext(|dealt|, playerCount);
        dealPlayer := (dealPlayer + 1) % playerCount;
        assert (dealt + [card.value])[..|dealt|] == dealt;
        dealt := dealt + [card.value];
      }
      assert dealt == old(deck.cards);
      FirstPlayerIsHolder(dealt, playerCount);
      if firstPlayer.None? {
        r := None;
      } else {
        var state := new State(CardCollection.New(), CardCollection.NewSingle(SevenHearts), players, firstPlayer.value, 0);
        assert ShiftDown({}) == {} && ShiftUp({}) == {};
        r := Some(state);
      }
    }

    /** `next_player`: the turn passes to the next player, wrapping round. */
    method NextPlayer()
      requires 0 < |players|
      modifies this
      ensures Snapshot() == old(Snapshot()).NextPlayer()
      ensures curPlayer < |players|
      ensures plays == old(plays) && depth == old(depth)
    {
      curPlayer := (curPlayer + 1) % |players|;
    }

    /** `play_card`: the 7 of hearts unlocks the other 7s, every card
        unlocks its raw neighbours, and the card moves from the current
        hand to the board. The mask and the board only grow (and by
        `PlaysOfStep` the mask of the board stays the mask of the board). */
    method PlayCard(card: Card)
      requires curPlayer < |players|
      modifies this
      ensures Snapshot() == old(Snapshot()).PlayCard(card)
      ensures plays.bits == old(plays.bits) + Unlocks(card)
      ensures old(plays.bits) <= plays.bits && old(board.bits) <= board.bits
      ensures depth == old(depth)
    {
      if card == SevenHearts {
        UnlockSevens();
      }
      ghost var mid := plays.bits;
      plays := plays.Add(card.OneLower());
      plays := plays.Add(card.OneHigher());
      assert plays.bits == mid + ShiftDown(card.bits) + ShiftUp(card.bits);
      players := players[curPlayer := players[curPlayer].Remove(card)];
      board := board.Add(card);
    }

    /** The 7-of-hearts arm of `play_card`: the other three 7s join the
        mask, nothing else changes. The source names them with `Card::new`;
        `ClubsSeven`, `DiamondsSeven` and `SpadesSeven` show those are the
        single-bit cards laid here. */
    method UnlockSevens()
      modifies this
      ensures plays.bits == old(plays.bits) + OtherSevens
      ensures board == old(board) && players == old(players) && curPlayer == old(curPlayer) && depth == old(depth)
    {
      plays := plays.Add(Single(22));
      plays := plays.Add(Single(38));
      plays := plays.Add(Single(54));
    }

    /** `#[derive(Clone)]`: an independent copy. */
    method Clone() returns (s: State)
      ensures fresh(s)
      ensures s.Snapshot() == Snapshot() && s.plays == plays && s.depth == depth
    {
      s := new State(board, plays, players, curPlayer, depth);
    }
  }
}
