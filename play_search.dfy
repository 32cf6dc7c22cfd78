/** The exhaustive search of the older engine (src/play/play.rs): from a
 *  table, every player in turn lays a legal card; when several are legal
 *  and none is free of consequence, every choice is explored on a copy of
 *  the table, and every game that ends with a player out of cards is
 *  counted as a win for that player.
 */
module PlaySearch {
  import opened Cards
  import opened CardCollections
  import opened PlayState
  import opened Rules
  import opened PlayResults

  /** The cards of `hand` that `card_plays` allows on `board`
      (`CardPlaysBits` shows `PlaysBit` is `card_plays`). */
  function Playable(board: CardCollection, hand: CardCollection): CardCollection
  {
    CardCollection(set b | b in hand.bits && PlaysBit(board.bits, b))
  }

  /** The test of the `find` in `play`: may `card` be laid without holding
      up the player's own next card? Aces and Kings always; below the 7 if
      the player also holds the card one lower, above the 7 if the player
      holds the card one higher, a 7 if the player holds both neighbours. */
  function NoConsequence(hand: CardCollection, card: Card): bool
  {
    var rank := card.RankElem();
    if rank == 0 || rank == 12 then true
    else if rank < 6 then hand.Contains(card.OneLower())
    else if rank > 6 then hand.Contains(card.OneHigher())
    else hand.Contains(card.OneLower()) && hand.Contains(card.OneHigher())
  }

  /** The no-consequence rule in terms of suits and ranks. */
  lemma NoConsequenceRule(hand: CardCollection, s: nat, r: nat)
    requires s < 4 && r < 13
    ensures NoConsequence(hand, Card.NewFromElems(s, r)) <==>
      r == 0 || r == 12 ||
      (0 < r <= 6 && hand.Contains(Card.NewFromElems(s, r - 1)) && (r == 6 ==> hand.Contains(Card.NewFromElems(s, 7)))) ||
      (6 < r < 12 && hand.Contains(Card.NewFromElems(s, r + 1)))
  {
    ElemsRoundTrip(s, r);
    if 0 < r {
      LowerNeighbour(s, r);
    }
    if r < 12 {
      HigherNeighbour(s, r);
    }
  }

  /** The no-consequence test read off the bit layout. */
  predicate NoConsequenceBit(hand: Word, b: Bit)
  {
    var r := b % 16;
    r == 0 || r == 12 ||
    (0 < r <= 6 && b - 1 in hand && (r == 6 ==> b + 1 in hand)) ||
    (6 < r && r != 12 && b + 1 in hand)
  }

  /** The no-consequence test of the single card at any bit is
      `NoConsequenceBit`. */
  lemma NoConsequenceBits(hand: CardCollection, b: Bit)
    ensures NoConsequence(hand, Single(b)) <==> NoConsequenceBit(hand.bits, b)
  {
    assert Single(b).RankElem() == b % 16;
    var r := b % 16;
    if r != 0 && r != 12 {
      ShiftSingle(b);
      if r <= 6 {
        NeighbourIn(hand, Single(b).OneLower(), (b - 1) as Bit);
      }
      if 6 <= r && b < 63 {
        NeighbourIn(hand, Single(b).OneHigher(), (b + 1) as Bit);
      }
    }
  }

  /** A collection contains a one-bit card iff it holds that bit. */
  lemma NeighbourIn(hand: CardCollection, c: Card, x: Bit)
    requires c.bits == {x}
    ensures hand.Contains(c) <==> x in hand.bits
  {
    assert x in hand.bits ==> x in hand.bits * {x};
  }

  /** The playable cards that are free of consequence. */
  function NoConsequenceCards(hand: CardCollection, playable: CardCollection): Word
  {
    set b | b in playable.bits && NoConsequenceBit(hand.bits, b)
  }

  /** The cards the older engine branches over: the lowest no-consequence
      card alone if there is one, otherwise every playable card. */
  function Chosen(board: CardCollection, hand: CardCollection): CardCollection
  {
    var playable := Playable(board, hand);
    var free := NoConsequenceCards(hand, playable);
    if playable.Len() > 0 && free != {} then CardCollection.NewSingle(Single(Lowest(free)))
    else playable
  }

  /** Only legal moves are ever made: every chosen card is in the hand and
      plays on the board, and nothing is chosen exactly when the player
      cannot move. A collapse keeps only the lowest no-consequence card. */
  lemma ChosenLegal(board: CardCollection, hand: CardCollection)
    ensures Chosen(board, hand).bits <= Playable(board, hand).bits <= hand.bits
    ensures forall b :: b in Chosen(board, hand).bits ==> PlaysBit(board.bits, b)
    ensures Chosen(board, hand).bits == {} <==> !HasMove(board, hand)
    ensures NoConsequenceCards(hand, Playable(board, hand)) != {} ==>
      Chosen(board, hand).bits == {Lowest(NoConsequenceCards(hand, Playable(board, hand)))}
  {
    var playable := Playable(board, hand);
    if HasMove(board, hand) {
      var b :| b in hand.bits && PlaysBit(board.bits, b);
      assert b in playable.bits;
    }
  }

  /** The fold of `play` over the current hand: collect the cards that
      `card_plays` allows, in iteration order. */
  method PlayableCards(board: CardCollection, hand: CardCollection) returns (playable: CardCollection)
    ensures playable == Playable(board, hand)
  {
    playable := CardCollection.New();
    var it := new CardCollectionIterator(hand);
    while true
      invariant it.rest <= hand.bits
      invariant playable.bits == set b | b in hand.bits - it.rest && PlaysBit(board.bits, b)
      decreases |it.rest|
    {
      ghost var before := it.rest;
      var card := it.Next();
      if card.None? {
        break;
      }
      CardPlaysBits(board, Lowest(before));
      if CardPlays(board, card.value) {
        playable := playable.Add(card.value);
      }
    }
  }

  /** The `find` of `play`: the first playable card, in ascending order,
      that is free of consequence. */
  method FindNoConsequence(hand: CardCollection, playable: CardCollection) returns (r: Option<Card>)
    ensures r.None? <==> NoConsequenceCards(hand, playable) == {}
    ensures r.Some? ==> r.value == Single(Lowest(NoConsequenceCards(hand, playable)))
  {
    var it := new CardCollectionIterator(playable);
    ghost var free := NoConsequenceCards(hand, playable);
    while true
      invariant it.rest <= playable.bits
      invariant free <= it.rest
      decreases |it.rest|
    {
      ghost var before := it.rest;
      var card := it.Next();
      if card.None? {
        r := None;
        return;
      }
      NoConsequenceBits(hand, Lowest(before));
      if NoConsequence(hand, card.value) {
        r := card;
        assert Lowest(before) in free;
        assert Lowest(free) == Lowest(before);
        return;
      }
    }
  }

  /** One branch of the search: lay card `b` on a copy, then pass the turn. */
  function Branch(t: Table, b: Bit): Table
    requires t.cur < |t.hands|
  {
    t.PlayCard(Single(b)).NextPlayer()
  }

  /** A player still holding cards means the game is not over. */
  lemma HandLeftUnfinished(t: Table, p: nat)
    requires Valid(t) && p < |t.hands| && t.hands[p].bits != {}
    ensures Unfinished(t)
  {
    var x :| x in t.hands[p].bits;
    assert Holds(t, x);
  }

  /** Laying a legal card from the current hand and passing the turn keeps
      the table valid, with one card fewer to play. */
  lemma BranchKeepsValid(t: Table, b: Bit)
    requires Valid(t) && b in t.hands[t.cur].bits && PlaysBit(t.board.bits, b)
    ensures Valid(t.PlayCard(Single(b))) && Valid(Branch(t, b))
    ensures Remaining(Branch(t, b)) == Remaining(t) - 1
  {
    PlayKeepsValid(t, b);
    NextKeepsValid(t.PlayCard(Single(b)));
  }

  /** If the hand held a second card, the game goes on after the first. */
  lemma BranchUnfinished(t: Table, b: Bit, other: Bit)
    requires Valid(t) && b in t.hands[t.cur].bits && PlaysBit(t.board.bits, b)
    requires other in t.hands[t.cur].bits && other != b
    ensures Unfinished(Branch(t, b))
  {
    BranchKeepsValid(t, b);
    PlayCardConserves(t, b);
    HandLeftUnfinished(Branch(t, b), t.cur);
  }

  lemma AnotherMember(s: Word, b: Bit) returns (o: Bit)
    requires |s| >= 2
    ensures o in s && o != b
  {
    if b in s {
      assert s == (s - {b}) + {b};
    } else {
      assert s - {b} == s;
    }
    assert |s - {b}| >= 1;
    o :| o in s - {b};
  }

  lemma OnlyMember(s: Word, b: Bit)
    requires |s| == 1 && b in s
    ensures s == {b}
  {
    assert s == (s - {b}) + {b};
    assert |s - {b}| == 0;
  }

  /** A chosen card is a legal move from the current hand; when two or more
      cards are chosen, the game goes on after laying either. */
  lemma ChosenBranch(t: Table, b: Bit)
    requires Valid(t) && b in Chosen(t.board, t.hands[t.cur]).bits
    ensures b in t.hands[t.cur].bits && PlaysBit(t.board.bits, b)
    ensures Valid(Branch(t, b)) && Remaining(Branch(t, b)) == Remaining(t) - 1
    ensures Chosen(t.board, t.hands[t.cur]).Len() >= 2 ==> Unfinished(Branch(t, b))
  {
    var chosen := Chosen(t.board, t.hands[t.cur]).bits;
    ChosenLegal(t.board, t.hands[t.cur]);
    BranchKeepsValid(t, b);
    if |chosen| >= 2 {
      var other := AnotherMember(chosen, b);
      BranchUnfinished(t, b, other);
    }
  }

  /** What `play` adds to the win counters from table `t`: one win per
      game the search finishes, for the player who went out. */
  ghost function Search(t: Table): (w: seq<nat>)
    requires Valid(t) && Unfinished(t)
    ensures |w| == |t.hands|
    decreases Remaining(t), 1, Gap(t)
  {
    var chosen := Chosen(t.board, t.hands[t.cur]);
    ChosenLegal(t.board, t.hands[t.cur]);
    if chosen.Len() == 0 then
      GapStep(t);
      NextKeepsValid(t);
      Search(t.NextPlayer())
    else if chosen.Len() == 1 then
      var b := Lowest(chosen.bits);
      ChosenBranch(t, b);
      var played := t.PlayCard(Single(b));
      if played.hands[t.cur].IsEmpty() then Unit(|t.hands|, t.cur)
      else
        HandLeftUnfinished(played.NextPlayer(), t.cur);
        Search(played.NextPlayer())
    else
      SumOver(t, chosen.bits)
  }

  /** The wins of the branches for the cards `cs`, taken lowest first. */
  ghost function SumOver(t: Table, cs: Word): (w: seq<nat>)
    requires Valid(t) && Unfinished(t)
    requires cs <= Chosen(t.board, t.hands[t.cur]).bits && Chosen(t.board, t.hands[t.cur]).Len() >= 2
    ensures |w| == |t.hands|
    decreases Remaining(t), 0, |cs|
  {
    if cs == {} then Zeros(|t.hands|)
    else
      var b := Lowest(cs);
      ChosenBranch(t, b);
      ZipAdd(Search(Branch(t, b)), SumOver(t, cs - {b}))
  }

  /** The choice `play` makes for the current player: the playable cards
      in ascending order, collapsed to the first no-consequence card if
      there is one. */
  method ChooseCards(board: CardCollection, cards: CardCollection) returns (playableCards: CardCollection)
    ensures playableCards == Chosen(board, cards)
  {
    playableCards := PlayableCards(board, cards);
    if playableCards.Len() > 0 {
      var noConsequenceCard := FindNoConsequence(cards, playableCards);
      if noConsequenceCard.Some? {
        playableCards := CardCollection.NewSingle(noConsequenceCard.value);
      }
    }
  }

  /** Every search from an unfinished table finishes at least one game. */
  lemma {:induction false} SearchFinishesAGame(t: Table)
    requires Valid(t) && Unfinished(t)
    ensures Total(Search(t)) >= 1
    decreases Remaining(t), 1, Gap(t)
  {
    var chosen := Chosen(t.board, t.hands[t.cur]);
    ChosenLegal(t.board, t.hands[t.cur]);
    if chosen.Len() == 0 {
      GapStep(t);
      NextKeepsValid(t);
      SearchFinishesAGame(t.NextPlayer());
    } else if chosen.Len() == 1 {
      var b := Lowest(chosen.bits);
      ChosenBranch(t, b);
      var played := t.PlayCard(Single(b));
      if played.hands[t.cur].IsEmpty() {
        ZipAddUnit(Zeros(|t.hands|), t.cur);
      } else {
        HandLeftUnfinished(played.NextPlayer(), t.cur);
        SearchFinishesAGame(played.NextPlayer());
      }
    } else {
      SumOverFinishesGames(t, chosen.bits);
    }
  }

  lemma {:induction false} SumOverFinishesGames(t: Table, cs: Word)
    requires Valid(t) && Unfinished(t)
    requires cs <= Chosen(t.board, t.hands[t.cur]).bits && Chosen(t.board, t.hands[t.cur]).Len() >= 2
    ensures Total(SumOver(t, cs)) >= |cs|
    decreases Remaining(t), 0, |cs|
  {
    if cs != {} {
      var b := Lowest(cs);
      ChosenBranch(t, b);
      SearchFinishesAGame(Branch(t, b));
      SumOverFinishesGames(t, cs - {b});
      TotalZipAdd(Search(Branch(t, b)), SumOver(t, cs - {b}));
    }
  }

  /** The three ways a turn of the search goes: nobody to play, so the
      turn passes and the next mover comes closer; one card, laid in place;
      several cards, each explored on its own branch. */
  /** `u` is where the loop of `play` goes on from `t`: still a valid,
      unfinished table with the same players and the same outcome, and
      closer to the end of the game. */
  ghost predicate Advances(t: Table, u: Table)
  {
    Valid(t) && Unfinished(t) && Valid(u) && Unfinished(u) && |u.hands| == |t.hands| && Search(u) == Search(t) &&
    (Remaining(u) < Remaining(t) || (Remaining(u) == Remaining(t) && Gap(u) < Gap(t)))
  }

  lemma SearchPass(t: Table)
    requires Valid(t) && Unfinished(t) && Chosen(t.board, t.hands[t.cur]).Len() == 0
    ensures Advances(t, t.NextPlayer())
  {
    ChosenLegal(t.board, t.hands[t.cur]);
    GapStep(t);
    NextKeepsValid(t);
  }

  lemma SearchSingle(t: Table, b: Bit)
    requires Valid(t) && Unfinished(t) && Chosen(t.board, t.hands[t.cur]).bits == {b}
    requires !t.PlayCard(Single(b)).hands[t.cur].IsEmpty()
    ensures Advances(t, Branch(t, b))
  {
    ChosenBranch(t, b);
    HandLeftUnfinished(Branch(t, b), t.cur);
  }

  /** A single card that empties the hand wins the game for its player. */
  lemma SearchWon(t: Table, b: Bit)
    requires Valid(t) && Unfinished(t) && Chosen(t.board, t.hands[t.cur]).bits == {b}
    requires t.PlayCard(Single(b)).hands[t.cur].IsEmpty()
    ensures Search(t) == Unit(|t.hands|, t.cur)
  {
    var chosen := Chosen(t.board, t.hands[t.cur]);
    assert chosen.Len() == 1;
    assert Lowest(chosen.bits) == b;
  }

  /** Counting that win adds one to the winner's counter and one game. */
  lemma SearchWin(t: Table, b: Bit, w: seq<nat>)
    requires Valid(t) && Unfinished(t) && Chosen(t.board, t.hands[t.cur]).bits == {b}
    requires t.PlayCard(Single(b)).hands[t.cur].IsEmpty() && |w| == |t.hands|
    ensures ZipAdd(w, Search(t)) == w[t.cur := w[t.cur] + 1]
    ensures Total(Search(t)) == 1
  {
    ZipAddUnit(w, t.cur);
    SearchWon(t, b);
  }

  /** An unfolding of `Search` at a branch point, for the callers that
      explore the choices one at a time: with two or more chosen cards the
      result is the sum over their branches. */
  lemma SearchMany(t: Table)
    requires Valid(t) && Unfinished(t) && Chosen(t.board, t.hands[t.cur]).Len() >= 2
    ensures Search(t) == SumOver(t, Chosen(t.board, t.hands[t.cur]).bits)
  {
  }

  lemma SumOverStep(t: Table, cs: Word)
    requires Valid(t) && Unfinished(t)
    requires cs <= Chosen(t.board, t.hands[t.cur]).bits && Chosen(t.board, t.hands[t.cur]).Len() >= 2
    requires cs != {}
    ensures Valid(Branch(t, Lowest(cs))) && Unfinished(Branch(t, Lowest(cs)))
    ensures Remaining(Branch(t, Lowest(cs))) < Remaining(t)
    ensures SumOver(t, cs) == ZipAdd(Search(Branch(t, Lowest(cs))), SumOver(t, cs - {Lowest(cs)}))
  {
    ChosenBranch(t, Lowest(cs));
  }

  lemma SumOverAccount(t: Table, rest: Word, before: seq<nat>, after: seq<nat>, games: nat, games': nat)
    requires Valid(t) && Unfinished(t)
    requires rest <= Chosen(t.board, t.hands[t.cur]).bits && Chosen(t.board, t.hands[t.cur]).Len() >= 2
    requires rest != {} && |before| == |t.hands|
    requires Valid(Branch(t, Lowest(rest))) && Unfinished(Branch(t, Lowest(rest)))
    requires after == ZipAdd(before, Search(Branch(t, Lowest(rest))))
    requires games' == games + Total(Search(Branch(t, Lowest(rest))))
    ensures ZipAdd(after, SumOver(t, rest - {Lowest(rest)})) == ZipAdd(before, SumOver(t, rest))
    ensures games' + Total(SumOver(t, rest - {Lowest(rest)})) == games + Total(SumOver(t, rest))
  {
    var b := Lowest(rest);
    SumOverStep(t, rest);
    ZipAddAssoc(before, Search(Branch(t, b)), SumOver(t, rest - {b}));
    TotalZipAdd(Search(Branch(t, b)), SumOver(t, rest - {b}));
  }

  /** `play`: run the game from `state` to every finish, adding each win to
      `results`. The source loops forever on a table where nobody can move;
      on a valid table that never happens, which is what the `requires`
      states. */
  method Play(state: State, results: Results)
    requires Valid(state.Snapshot()) && Unfinished(state.Snapshot())
    requires |results.wins| == |state.players|
    modifies state, results
    ensures results.wins == ZipAdd(old(results.wins), Search(old(state.Snapshot())))
    ensures results.games == old(results.games) + Total(Search(old(state.Snapshot())))
    decreases Remaining(state.Snapshot()), 3
  {
    ghost var t0 := state.Snapshot();
    while true
      invariant Valid(state.Snapshot()) && Unfinished(state.Snapshot())
      invariant |state.players| == |t0.hands|
      invariant Remaining(state.Snapshot()) <= Remaining(t0)
      invariant Search(state.Snapshot()) == Search(t0)
      invariant results.wins == old(results.wins) && results.games == old(results.games)
      decreases Remaining(state.Snapshot()), Gap(state.Snapshot())
    {
      var done := Turn(state, results, state.Snapshot());
      if done {
        break;
      }
    }
  }

  /** One pass of the loop of `play`: the current player lays the chosen
      card, passes, or branches. It reports whether the loop ends, and
      otherwise leaves a table with the same outcome that is closer to the
      end. */
  method Turn(state: State, results: Results, ghost t: Table) returns (done: bool)
    requires state.Snapshot() == t && Valid(t) && Unfinished(t)
    requires |results.wins| == |t.hands|
    modifies state, results
    ensures done ==> results.wins == ZipAdd(old(results.wins), Search(t))
    ensures done ==> results.games == old(results.games) + Total(Search(t))
    ensures !done ==> results.wins == old(results.wins) && results.games == old(results.games)
    ensures !done ==> Advances(t, state.Snapshot())
    decreases Remaining(t), 2
  {
    var playableCards := ChooseCards(state.board, state.players[state.curPlayer]);
    if playableCards.Len() == 0 {
      SearchPass(t);
      state.NextPlayer();
      assert state.Snapshot() == t.NextPlayer();
      done := false;
    } else {
      done := PlayChosen(state, playableCards, results, t);
    }
  }

  /** A turn with at least one chosen card: the only card is laid, or
      every choice is searched. */
  method PlayChosen(state: State, playableCards: CardCollection, results: Results, ghost t: Table) returns (done: bool)
    requires state.Snapshot() == t && Valid(t) && Unfinished(t)
    requires playableCards == Chosen(t.board, t.hands[t.cur]) && playableCards.Len() > 0
    requires |results.wins| == |t.hands|
    modifies state, results
    ensures done ==> results.wins == ZipAdd(old(results.wins), Search(t))
    ensures done ==> results.games == old(results.games) + Total(Search(t))
    ensures !done ==> results.wins == old(results.wins) && results.games == old(results.games)
    ensures !done ==> Advances(t, state.Snapshot())
    decreases Remaining(t), 1
  {
    ghost var w := results.wins;
    if playableCards.Len() == 1 {
      ghost var b := Lowest(playableCards.bits);
      OnlyMember(playableCards.bits, b);
      done := PlayOnly(state, playableCards, results, t, b);
      if done {
        SearchWin(t, b, w);
        assert results.wins == ZipAdd(w, Search(t));
      } else {
        SearchSingle(t, b);
      }
    } else {
      SearchMany(t);
      PlayBranches(state, playableCards, results, t);
      assert results.wins == ZipAdd(w, Search(t));
      done := true;
    }
  }

  /** The one chosen card of a turn: it is laid, and either the hand is
      empty and the player wins, or the turn passes. */
  method PlayOnly(state: State, playableCards: CardCollection, results: Results, ghost t: Table, ghost b: Bit)
      returns (done: bool)
    requires state.Snapshot() == t && t.cur < |t.hands| && playableCards.bits == {b}
    requires |results.wins| == |t.hands|
    modifies state, results
    ensures done <==> t.PlayCard(Single(b)).hands[t.cur].IsEmpty()
    ensures done ==> results.wins == old(results.wins)[t.cur := old(results.wins)[t.cur] + 1]
    ensures done ==> results.games == old(results.games) + 1
    ensures !done ==> results.wins == old(results.wins) && results.games == old(results.games)
    ensures !done ==> state.Snapshot() == Branch(t, b)
  {
    var it := new CardCollectionIterator(playableCards);
    var card := it.Next();
    state.PlayCard(card.value);
    if state.players[state.curPlayer].IsEmpty() {
      results.WinFor(state.curPlayer);
      done := true;
    } else {
      state.NextPlayer();
      done := false;
    }
  }

  /** One choice of the `for` loop of `play`: a copy of the table with
      the card laid, the turn passed and the depth one deeper, searched in
      turn. */
  method PlayBranch(state: State, card: Card, results: Results, ghost t: Table, ghost b: Bit)
    requires state.Snapshot() == t && card == Single(b)
    requires Valid(t) && b in t.hands[t.cur].bits && PlaysBit(t.board.bits, b)
    requires Valid(Branch(t, b)) && Unfinished(Branch(t, b)) && |results.wins| == |t.hands|
    modifies results
    ensures results.wins == ZipAdd(old(results.wins), Search(Branch(t, b)))
    ensures results.games == old(results.games) + Total(Search(Branch(t, b)))
    decreases Remaining(t), 0, 0
  {
    BranchKeepsValid(t, b);
    var nextState := state.Clone();
    nextState.PlayCard(card);
    nextState.NextPlayer();
    nextState.depth := nextState.depth + 1;
    assert nextState.Snapshot() == Branch(t, b);
    Play(nextState, results);
  }

  /** The `for` loop of `play` over several choices: each is played on its
      own copy of the table, the turn passes and the search recurses. */
  method PlayBranches(state: State, chosen: CardCollection, results: Results, ghost t: Table)
    requires state.Snapshot() == t && Valid(t) && Unfinished(t)
    requires chosen == Chosen(t.board, t.hands[t.cur]) && chosen.Len() >= 2
    requires |results.wins| == |t.hands|
    modifies results
    ensures results.wins == ZipAdd(old(results.wins), SumOver(t, chosen.bits))
    ensures results.games == old(results.games) + Total(SumOver(t, chosen.bits))
    decreases Remaining(t), 0, 1
  {
    ghost var w0 := results.wins;
    ghost var g0 := results.games;
    var it := new CardCollectionIterator(chosen);
    while true
      invariant it.rest <= chosen.bits
      invariant |results.wins| == |t.hands|
      invariant ZipAdd(results.wins, SumOver(t, it.rest)) == ZipAdd(w0, SumOver(t, chosen.bits))
      invariant results.games + Total(SumOver(t, it.rest)) == g0 + Total(SumOver(t, chosen.bits))
      decreases |it.rest|
    {
      ghost var rest := it.rest;
      var c := it.Next();
      if c.None? {
        assert SumOver(t, it.rest) == Zeros(|t.hands|);
        ZipAddZeros(results.wins, |t.hands|);
        TotalZeros(|t.hands|);
        break;
      }
      ghost var b := Lowest(rest);
      ChosenBranch(t, b);
      ghost var before := results.wins;
      ghost var games := results.games;
      PlayBranch(state, c.value, results, t, b);
      SumOverAccount(t, rest, before, results.wins, games, results.games);
    }
  }
}
