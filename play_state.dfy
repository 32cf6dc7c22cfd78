/** The game state of the older search engine (src/play/state.rs): a board
 *  of played cards, one hand per player, whose turn it is, and the search
 *  depth.
 */
module PlayState {
  import opened Cards
  import opened CardCollections
  import Decks

  /** `card_plays`: may `card` be laid on `board`? A 7 needs the 7 of hearts
      on the board unless it is the 7 of hearts itself; a card below the 7
      needs the card one rank higher on the board, a card above the 7 the
      card one rank lower. Only the board is consulted. */
  function CardPlays(board: CardCollection, card: Card): bool
  {
    var rank := card.RankElem();
    if rank == 6 then
      card.Suit() == '♥' || board.Contains(SevenHearts)
    else if rank < 6 then
      board.Contains(card.OneHigher())
    else
      board.Contains(card.OneLower())
  }

  /** The rule of `card_plays` in terms of suits and ranks: the 7 of hearts
      always plays, another 7 plays iff the 7 of hearts is down, and any
      other card plays iff its neighbour towards the 7 is down. */
  lemma CardPlaysRule(board: CardCollection, s: nat, r: nat)
    requires s < 4 && r < 13
    ensures CardPlays(board, Card.NewFromElems(s, r)) <==>
      (r == 6 && (s == 0 || board.Contains(Card.NewFromElems(0, 6)))) ||
      (r < 6 && board.Contains(Card.NewFromElems(s, r + 1))) ||
      (6 < r && board.Contains(Card.NewFromElems(s, r - 1)))
  {
    ElemsRoundTrip(s, r);
    SevenHeartsByName();
    SuitsDistinct();
    assert SUITS[0] == '♥';
    if r < 6 {
      HigherNeighbour(s, r);
    } else if 6 < r {
      LowerNeighbour(s, r);
    }
  }

  /** A value snapshot of `State` (without `depth`, which no decision
      reads): the board, the hands and the current player. */
  datatype Table = Table(board: CardCollection, hands: seq<CardCollection>, cur: nat)
  {
    /** `play_card` on a snapshot. */
    function PlayCard(card: Card): Table
      requires cur < |hands|
    {
      Table(board.Add(card), hands[cur := hands[cur].Remove(card)], cur)
    }

    /** `next_player` on a snapshot. */
    function NextPlayer(): Table
      requires 0 < |hands|
    {
      Table(board, hands, (cur + 1) % |hands|)
    }
  }

  /** The hand of player `p` after `cards` have been dealt one at a time,
      the k-th card to player `k % n`. */
  function Dealt(cards: seq<Card>, n: nat, p: nat): CardCollection
    requires 0 < n
  {
    if cards == [] then CardCollection.New()
    else
      var k := |cards| - 1;
      var hand := Dealt(cards[..k], n, p);
      if k % n == p then hand.Add(cards[k]) else hand
  }

  /** The player dealt the last copy of the 7 of hearts, if any was dealt:
      the dealer overwrites its note at every 7 of hearts. */
  function FirstPlayer(cards: seq<Card>, n: nat): (r: Option<nat>)
    requires 0 < n
    ensures r.Some? ==> r.value < n
  {
    if cards == [] then None
    else
      var k := |cards| - 1;
      if cards[k] == SevenHearts then Some(k % n) else FirstPlayer(cards[..k], n)
  }

  /** The table `State::new` sets up from the dealt `cards`: an empty
      board, the round-robin hands, and the holder of the 7 of hearts to
      move. */
  function DealTable(cards: seq<Card>, n: nat): Table
    requires 0 < n && FirstPlayer(cards, n).Some?
  {
    Table(CardCollection.New(), seq(n, p requires 0 <= p => Dealt(cards, n, p)), FirstPlayer(cards, n).value)
  }

  /** The first player is absent exactly when no 7 of hearts was dealt, and
      otherwise is the receiver of the last 7 of hearts dealt. */
  lemma {:induction false} FirstPlayerIsHolder(cards: seq<Card>, n: nat)
    requires 0 < n
    ensures FirstPlayer(cards, n).None? <==> SevenHearts !in cards
    ensures FirstPlayer(cards, n).Some? ==>
      exists k :: 0 <= k < |cards| && cards[k] == SevenHearts &&
                  FirstPlayer(cards, n).value == k % n && SevenHearts !in cards[k + 1..]
  {
    if cards != [] {
      var k := |cards| - 1;
      assert cards == cards[..k] + [cards[k]];
      FirstPlayerIsHolder(cards[..k], n);
      if cards[k] == SevenHearts {
        assert cards[k + 1..] == [];
      } else {
        var r := FirstPlayer(cards[..k], n);
        if r.Some? {
          var j :| 0 <= j < k && cards[..k][j] == SevenHearts && r.value == j % n && SevenHearts !in cards[..k][j + 1..];
          assert cards[j + 1..] == cards[..k][j + 1..] + [cards[k]];
        }
      }
    }
  }

  /** Player `p` holds a bit after the deal exactly when some card dealt to
      position `k` with `k % n == p` has that bit: every card lands in the
      hand of exactly one player. */
  lemma {:induction false} DealtBits(cards: seq<Card>, n: nat, p: nat, b: Bit)
    requires 0 < n
    ensures b in Dealt(cards, n, p).bits <==> exists k :: 0 <= k < |cards| && k % n == p && b in cards[k].bits
  {
    if cards != [] {
      var k := |cards| - 1;
      DealtBits(cards[..k], n, p, b);
      if b in Dealt(cards, n, p).bits && b !in Dealt(cards[..k], n, p).bits {
        assert k % n == p && b in cards[k].bits;
      }
      if exists j :: 0 <= j < |cards| && j % n == p && b in cards[j].bits {
        var j :| 0 <= j < |cards| && j % n == p && b in cards[j].bits;
        if j < k {
          assert cards[..k][j] == cards[j];
        }
      }
    }
  }

  lemma MulAtLeast(d: nat, n: nat)
    requires 1 <= d
    ensures n <= d * n
    decreases d
  {
    if d > 1 {
      MulAtLeast(d - 1, n);
      assert d * n == (d - 1) * n + n;
    }
  }

  /** Euclidean remainder is determined by any quotient/remainder split. */
  lemma ModUnique(x: nat, q: nat, r: nat, n: nat)
    requires 0 < n && r < n && x == q * n + r
    ensures x % n == r
  {
    var q', r' := x / n, x % n;
    assert x == q' * n + r';
    if q > q' {
      MulAtLeast(q - q', n);
    } else if q < q' {
      MulAtLeast(q' - q, n);
    }
  }

  /** Stepping round-robin: the next dealer index is the next position
      modulo the player count. */
  lemma ModNext(a: nat, n: nat)
    requires 0 < n
    ensures (a % n + 1) % n == (a + 1) % n
  {
    var q, r := a / n, a % n;
    assert a == q * n + r;
    if r + 1 < n {
      ModUnique(a + 1, q, r + 1, n);
      ModUnique(r + 1, 0, r + 1, n);
    } else {
      assert a + 1 == (q + 1) * n;
      ModUnique(a + 1, q + 1, 0, n);
      ModUnique(r + 1, 1, 0, n);
    }
  }

  /** `struct State`: the board, every player's hand (`Player.cards`), the
      current player and the search depth. */
  class State {
    var board: CardCollection
    var players: seq<CardCollection>
    var curPlayer: nat
    var depth: nat

    /** The snapshot of the decision-relevant fields. */
    function Snapshot(): Table
      reads this
    {
      Table(board, players, curPlayer)
    }

    constructor (board: CardCollection, players: seq<CardCollection>, curPlayer: nat, depth: nat)
      ensures this.board == board && this.players == players
      ensures this.curPlayer == curPlayer && this.depth == depth
    {
      this.board := board;
      this.players := players;
      this.curPlayer := curPlayer;
      this.depth := depth;
    }

    /** `State::new`: deal the whole deck round-robin starting with player
        0; the player dealt the 7 of hearts moves first. Without a 7 of
        hearts the source panics; the model returns `None`. */
    static method New(playerCount: nat, deck: Decks.Deck) returns (r: Option<State>)
      requires 1 <= playerCount <= 255
      modifies deck
      ensures deck.cards == []
      ensures r.None? <==> SevenHearts !in old(deck.cards)
      ensures r.Some? ==> fresh(r.value) && r.value.board == CardCollection.New() && r.value.depth == 0
      ensures r.Some? ==> |r.value.players| == playerCount &&
                          forall p :: 0 <= p < playerCount ==> r.value.players[p] == Dealt(old(deck.cards), playerCount, p)
      ensures r.Some? ==> FirstPlayer(old(deck.cards), playerCount) == Some(r.value.curPlayer)
      ensures r.Some? ==> r.value.Snapshot() == DealTable(old(deck.cards), playerCount)
    {
      var players := seq(playerCount, _ => CardCollection.New());
      var dealPlayer: nat := 0;
      var firstPlayer: Option<nat> := None;
      ghost var dealt: seq<Card> := [];
      while true
        invariant old(deck.cards) == dealt + deck.cards
        invariant |players| == playerCount && dealPlayer == |dealt| % playerCount
        invariant forall p :: 0 <= p < playerCount ==> players[p] == Dealt(dealt, playerCount, p)
        invariant firstPlayer == FirstPlayer(dealt, playerCount)
        invariant |dealt| <= |old(deck.cards)|
        decreases |deck.cards|
      {
        var card := deck.Pop();
        if card.None? {
          break;
        }
        if card.value == SevenHearts {
          firstPlayer := Some(dealPlayer);
        }
        players := players[dealPlayer := players[dealPlayer].Add(card.value)];
        ModNext(|dealt|, playerCount);
        dealPlayer := (dealPlayer + 1) % playerCount;
        assert (dealt + [card.value])[..|dealt|] == dealt;
        dealt := dealt + [card.value];
      }
      assert dealt == old(deck.cards);
      FirstPlayerIsHolder(dealt, playerCount);
      if firstPlayer.None? {
        r := None;
      } else {
        var state := new State(CardCollection.New(), players, firstPlayer.value, 0);
        r := Some(state);
      }
    }

    /** `next_player`: the turn passes to the next player, wrapping round. */
    method NextPlayer()
      requires 0 < |players|
      modifies this
      ensures Snapshot() == old(Snapshot()).NextPlayer()
      ensures curPlayer < |players|
      ensures depth == old(depth)
    {
      curPlayer := (curPlayer + 1) % |players|;
    }

    /** `play_card`: take the card out of the current player's hand and lay
        it on the board. */
    method PlayCard(card: Card)
      requires curPlayer < |players|
      modifies this
      ensures Snapshot() == old(Snapshot()).PlayCard(card)
      ensures depth == old(depth)
    {
      players := players[curPlayer := players[curPlayer].Remove(card)];
      board := board.Add(card);
    }

    /** `#[derive(Clone)]`: an independent copy. */
    method Clone() returns (s: State)
      ensures fresh(s)
      ensures s.Snapshot() == Snapshot() && s.depth == depth
    {
      s := new State(board, players, curPlayer, depth);
    }
  }
}
