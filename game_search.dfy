/** The exhaustive search of the newer engine (src/game/play.rs). It plays
 *  the same game as the older engine but finds the playable cards by
 *  intersecting the hand with the mask `plays`, collapses to a
 *  no-consequence card only when more than one card is playable, and
 *  returns fresh results instead of adding to shared ones. Up to depth 8
 *  the branches run as concurrent tasks whose results are joined in
 *  whatever order they finish; deeper branches run in order.
 *
 *  The outcome is the older engine's: from a table `t`, `play` returns
 *  the wins `Search(t)` of src/play/play.rs.
 */
module GameSearch {
  import opened Cards
  import opened CardCollections
  import opened PlayState
  import opened Rules
  import opened PlayResults
  import opened PlaySearch
  import opened BranchSums
  import GameState
  import GameResults
  import Decks

  /** The invariant of the newer engine's state: a valid table whose board
      was built by legal moves, with the mask `plays` being what that board
      unlocks. */
  ghost predicate Masked(t: Table, plays: CardCollection)
  {
    Valid(t) && Closed(t.board) && plays.bits == GameState.PlaysOf(t.board.bits)
  }

  /** The table `State::new` deals from any rearrangement of a new deck,
      with its mask holding just the 7 of hearts, meets the newer engine's
      invariant, so `play` applies to every game `main` sets up. */
  lemma DealMasked(cards: seq<Card>, n: nat)
    requires 0 < n && multiset(cards) == multiset(Decks.SortedCards())
    ensures FirstPlayer(cards, n).Some?
    ensures Masked(DealTable(cards, n), CardCollection({6})) && Unfinished(DealTable(cards, n))
  {
    DealValid(cards, n);
    GameState.StartPlays();
    assert Closed(DealTable(cards, n).board);
  }

  /** The board of a valid table holds real cards only. */
  lemma ValidBoardReal(t: Table)
    requires Valid(t) && Closed(t.board)
    ensures GameState.LegalBoard(t.board.bits)
  {
    forall x | x in t.board.bits ensures x in RealBits {
      assert Holds(t, x);
    }
  }

  /** A card in a hand of a valid table is real and off the board. */
  lemma HeldCard(t: Table, p: nat, x: Bit)
    requires Valid(t) && p < |t.hands| && x in t.hands[p].bits
    ensures IsRealBit(x) && x !in t.board.bits
  {
    assert Holds(t, x);
  }

  /** Intersecting a hand with the mask gives exactly the cards of the
      hand that `card_plays` allows: the mask agrees with the rules. */
  lemma MaskPlayable(t: Table, plays: CardCollection, p: nat)
    requires Masked(t, plays) && p < |t.hands|
    ensures CardCollection(t.hands[p].bits * plays.bits) == Playable(t.board, t.hands[p])
  {
    ValidBoardReal(t);
    forall x: Bit | x in t.hands[p].bits
      ensures x in plays.bits <==> PlaysBit(t.board.bits, x)
    {
      HeldCard(t, p, x);
      GameState.MaskAgrees(t.board.bits, x);
    }
  }

  /** With at most one playable card the no-consequence collapse changes
      nothing, so collapsing only when several cards are playable chooses
      what the older engine chooses. */
  lemma CollapseOnlyWhenMany(board: CardCollection, hand: CardCollection)
    requires Playable(board, hand).Len() <= 1
    ensures Chosen(board, hand) == Playable(board, hand)
  {
    var playable := Playable(board, hand);
    var free := NoConsequenceCards(hand, playable);
    if playable.Len() > 0 && free != {} {
      var b := Lowest(free);
      OnlyMember(playable.bits, b);
    }
  }

  /** Laying a chosen card keeps the invariant, with the mask grown by what
      the card unlocks. */
  lemma BranchKeepsMask(t: Table, plays: CardCollection, b: Bit)
    requires Masked(t, plays) && b in t.hands[t.cur].bits && PlaysBit(t.board.bits, b)
    ensures Masked(t.PlayCard(Single(b)), CardCollection(plays.bits + GameState.Unlocks(Single(b))))
    ensures Masked(Branch(t, b), CardCollection(plays.bits + GameState.Unlocks(Single(b))))
  {
    BranchKeepsValid(t, b);
    PlayKeepsClosed(t, b);
    GameState.PlaysOfStep(t.board.bits, b);
  }

  /** A single chosen card that leaves the hand non-empty moves the game
      on, and the mask grows with the board. */
  lemma SingleKeepsMask(t: Table, plays: CardCollection, b: Bit)
    requires Masked(t, plays) && Unfinished(t) && Chosen(t.board, t.hands[t.cur]).bits == {b}
    requires !t.PlayCard(Single(b)).hands[t.cur].IsEmpty()
    ensures Advances(t, Branch(t, b))
    ensures Masked(Branch(t, b), CardCollection(plays.bits + GameState.Unlocks(Single(b))))
  {
    SearchSingle(t, b);
    ChosenBranch(t, b);
    BranchKeepsMask(t, plays, b);
  }

  /** Counters that start at zero end as the counters added. */
  lemma ZerosZipAdd(w: seq<nat>)
    ensures ZipAdd(Zeros(|w|), w) == w
  {
  }

  /** The start of a turn of `play`: the hand intersected with the mask,
      collapsed to the first no-consequence card when several cards are
      playable. It is the older engine's choice. */
  method ChooseMasked(cards: CardCollection, plays: CardCollection, ghost t: Table)
      returns (playableCards: CardCollection, playableLen: nat)
    requires Masked(t, plays) && cards == t.hands[t.cur]
    ensures playableCards == Chosen(t.board, cards) && playableLen == playableCards.Len()
  {
    MaskPlayable(t, plays, t.cur);
    playableCards := CardCollection.NewFromRaw(cards.Raw() * plays.Raw());
    playableLen := playableCards.Len();
    if playableLen > 1 {
      var noConsequenceCard := FindNoConsequence(cards, playableCards);
      if noConsequenceCard.Some? {
        playableCards := playableCards.Set(noConsequenceCard.value);
        playableLen := 1;
      }
    } else {
      CollapseOnlyWhenMany(t.board, cards);
    }
  }

  /** `play`: run the game from `state` to every finish and return the
      wins, one per finished game, for the player who went out. The
      results carry no play statistics, as this search records none. The
      player count is cast to `u8`, so it is required below 256. */
  method Play(state: GameState.State) returns (results: GameResults.Results)
    requires Masked(state.Snapshot(), state.plays) && Unfinished(state.Snapshot()) && |state.players| < 256
    modifies state
    ensures fresh(results) && Holding(results, Search(old(state.Snapshot())))
    decreases Remaining(state.Snapshot()), 3
  {
    ghost var t0 := state.Snapshot();
    results := new GameResults.Results(|state.players|);
    ghost var u := t0;
    while true
      invariant state.Snapshot() == u && Reached(t0, u, state.plays)
      invariant fresh(results) && results.Wins() == Zeros(|t0.hands|) && results.games == 0
      invariant GameResults.AllPlain(results.playerResults)
      decreases Remaining(u), Gap(u)
    {
      var done := Turn(state, results, u);
      if done {
        ZerosZipAdd(Search(t0));
        break;
      }
      ReachedStep(t0, u, state.Snapshot(), state.plays);
      u := state.Snapshot();
    }
  }

  /** The loop of `play`, started at `t0`, is at table `u` with mask
      `plays`: a masked, unfinished table with the same players, no further
      from the end, and the same outcome. */
  ghost predicate Reached(t0: Table, u: Table, plays: CardCollection)
  {
    Valid(t0) && Unfinished(t0) && Masked(u, plays) && Unfinished(u) &&
    |u.hands| == |t0.hands| && Remaining(u) <= Remaining(t0) && Search(u) == Search(t0)
  }

  /** A pass of the loop that advances the table keeps it reached, and
      brings it closer to the end. */
  lemma ReachedStep(t0: Table, u: Table, v: Table, plays: CardCollection)
    requires Valid(t0) && Unfinished(t0) && |u.hands| == |t0.hands| && Remaining(u) <= Remaining(t0)
    requires Advances(u, v) && Search(u) == Search(t0) && Masked(v, plays)
    ensures Reached(t0, v, plays)
    ensures Remaining(v) < Remaining(u) || (Remaining(v) == Remaining(u) && Gap(v) < Gap(u))
  {
  }

  /** One pass of the loop of `play`: the current player lays the chosen
      card, passes, or branches. It reports whether the loop ends, and
      otherwise leaves a table with the same outcome that is closer to the
      end. */
  method Turn(state: GameState.State, results: GameResults.Results, ghost t: Table) returns (done: bool)
    requires state.Snapshot() == t && Masked(t, state.plays) && Unfinished(t) && |t.hands| < 256
    requires |results.playerResults| == |t.hands| && GameResults.AllPlain(results.playerResults)
    modifies state, results
    ensures done ==> Added(results, old(results.Wins()), old(results.games), Search(t))
    ensures !done ==> results.playerResults == old(results.playerResults) && results.games == old(results.games)
    ensures !done ==> Advances(t, state.Snapshot()) && Masked(state.Snapshot(), state.plays)
    decreases Remaining(t), 2
  {
    var playableCards, playableLen := ChooseMasked(state.players[state.curPlayer], state.plays, t);
    if playableLen == 0 {
      SearchPass(t);
      state.NextPlayer();
      assert state.Snapshot() == t.NextPlayer();
      done := false;
    } else if playableLen == 1 {
      done := PlaySingle(state, playableCards, results, t);
    } else {
      PlayMany(state, playableCards, results, t);
      done := true;
    }
  }

  /** A turn with exactly one chosen card: it is laid, and the game ends
      with a win for the player or goes on from the next player. */
  method PlaySingle(state: GameState.State, playableCards: CardCollection, results: GameResults.Results, ghost t: Table)
      returns (done: bool)
    requires state.Snapshot() == t && Masked(t, state.plays) && Unfinished(t)
    requires playableCards == Chosen(t.board, t.hands[t.cur]) && playableCards.Len() == 1
    requires |results.playerResults| == |t.hands| && GameResults.AllPlain(results.playerResults)
    modifies state, results
    ensures done ==> Added(results, old(results.Wins()), old(results.games), Search(t))
    ensures !done ==> results.playerResults == old(results.playerResults) && results.games == old(results.games)
    ensures !done ==> Advances(t, state.Snapshot()) && Masked(state.Snapshot(), state.plays)
  {
    ghost var plays := state.plays;
    ghost var b := Lowest(playableCards.bits);
    OnlyMember(playableCards.bits, b);
    done := PlayOnly(state, playableCards, results, t, b);
    if done {
      SearchWon(t, b);
    } else {
      SingleKeepsMask(t, plays, b);
      assert state.plays == CardCollection(plays.bits + GameState.Unlocks(Single(b)));
    }
  }

  /** A turn with several chosen cards: every choice is searched, and the
      loop of `play` ends. */
  method PlayMany(state: GameState.State, playableCards: CardCollection, results: GameResults.Results, ghost t: Table)
    requires state.Snapshot() == t && Masked(t, state.plays) && Unfinished(t) && |t.hands| < 256
    requires playableCards == Chosen(t.board, t.hands[t.cur]) && playableCards.Len() >= 2
    requires |results.playerResults| == |t.hands| && GameResults.AllPlain(results.playerResults)
    modifies results
    ensures Added(results, old(results.Wins()), old(results.games), Search(t))
    decreases Remaining(t), 1
  {
    SearchMany(t);
    PlayBranches(state, playableCards, results, t);
  }

  /** The one chosen card of a turn: it is laid, and either the hand is
      empty and the player wins, or the turn passes. */
  method PlayOnly(state: GameState.State, playableCards: CardCollection, results: GameResults.Results,
                  ghost t: Table, ghost b: Bit) returns (done: bool)
    requires state.Snapshot() == t && t.cur < |t.hands| && playableCards.bits == {b}
    requires |results.playerResults| == |t.hands|
    modifies state, results
    ensures state.plays.bits == old(state.plays.bits) + GameState.Unlocks(Single(b))
    ensures done <==> t.PlayCard(Single(b)).hands[t.cur].IsEmpty()
    ensures done ==> results.Wins() == ZipAdd(old(results.Wins()), Unit(|t.hands|, t.cur))
    ensures done ==> results.games == old(results.games) + Total(Unit(|t.hands|, t.cur))
    ensures done ==> old(GameResults.AllPlain(results.playerResults)) ==> GameResults.AllPlain(results.playerResults)
    ensures !done ==> results.playerResults == old(results.playerResults) && results.games == old(results.games)
    ensures !done ==> state.Snapshot() == Branch(t, b)
  {
    var it := new CardCollectionIterator(playableCards);
    var card := it.Next();
    state.PlayCard(card.value);
    if state.players[state.curPlayer].IsEmpty() {
      ZipAddUnit(results.Wins(), state.curPlayer);
      results.WinFor(state.curPlayer);
      done := true;
    } else {
      state.NextPlayer();
      done := false;
    }
  }

  /** One choice of a multi-card turn: a copy of the state with the card
      laid, the turn passed and the depth one deeper, searched to the end
      for results of its own. */
  method Explore(state: GameState.State, card: Card, ghost t: Table, ghost all: Word, ghost b: Bit)
      returns (result: GameResults.Results)
    requires state.Snapshot() == t && card == Single(b) && Masked(t, state.plays) && |t.hands| < 256
    requires Fans(t, all) && b in all
    ensures fresh(result) && Holding(result, BranchParts(t, all)[b])
    decreases Remaining(t), 0, 0, 0
  {
    ChosenBranch(t, b);
    SumOverOne(t, all, b);
    BranchKeepsMask(t, state.plays, b);
    var nextState := Advance(state, card, t, b);
    result := Play(nextState);
  }

  /** The copy a choice is explored on: the card laid, the turn passed and
      the depth one deeper, with the mask grown by what the card unlocks. */
  method Advance(state: GameState.State, card: Card, ghost t: Table, ghost b: Bit) returns (nextState: GameState.State)
    requires state.Snapshot() == t && card == Single(b) && t.cur < |t.hands|
    ensures fresh(nextState)
    ensures nextState.Snapshot() == Branch(t, b)
    ensures nextState.plays.bits == state.plays.bits + GameState.Unlocks(Single(b))
    ensures nextState.depth == state.depth + 1
  {
    nextState := state.Clone();
    nextState.PlayCard(card);
    nextState.NextPlayer();
    nextState.depth := nextState.depth + 1;
  }

  /** The multi-card arm of `play`: near the root the choices run as
      concurrent tasks, deeper down one after the other; either way every
      choice's results are added. */
  method PlayBranches(state: GameState.State, chosen: CardCollection, results: GameResults.Results, ghost t: Table)
    requires state.Snapshot() == t && Masked(t, state.plays) && Unfinished(t) && |t.hands| < 256
    requires chosen == Chosen(t.board, t.hands[t.cur]) && chosen.Len() >= 2
    requires |results.playerResults| == |t.hands| && GameResults.AllPlain(results.playerResults)
    modifies results
    ensures Added(results, old(results.Wins()), old(results.games), SumOver(t, chosen.bits))
    decreases Remaining(t), 0, 2, 0
  {
    if state.depth < 8 {
      PlaySpawned(state, chosen, results, t);
    } else {
      PlayInOrder(state, chosen, results, t);
    }
  }

  /** The cards `rest` are among the two or more cards chosen at `t`. */
  ghost predicate Fans(t: Table, rest: Word)
  {
    Valid(t) && Unfinished(t) && rest <= Chosen(t.board, t.hands[t.cur]).bits &&
    Chosen(t.board, t.hands[t.cur]).Len() >= 2
  }

  /** `results` is the running results that started with the wins `w0`
      over `g0` games, with the wins `w` added, one game per win, and no
      statistics. */
  ghost predicate Added(results: GameResults.Results, w0: seq<nat>, g0: nat, w: seq<nat>)
    reads results
  {
    results.Wins() == ZipAdd(w0, w) && results.games == g0 + Total(w) && GameResults.AllPlain(results.playerResults)
  }

  /** `result` counts the wins `w`, one game per win, and no statistics. */
  ghost predicate Holding(result: GameResults.Results, w: seq<nat>)
    reads result
  {
    result.Wins() == w && result.games == Total(w) && GameResults.AllPlain(result.playerResults)
  }

  /** The sum over one chosen card is the search of its branch. */
  lemma SumOverOne(t: Table, all: Word, b: Bit)
    requires Fans(t, all) && b in all
    ensures Valid(Branch(t, b)) && Unfinished(Branch(t, b))
    ensures SumOver(t, {b}) == Search(Branch(t, b))
  {
    assert Lowest({b}) == b;
    ChosenBranch(t, b);
    assert {b} - {b} == {};
    ZipAddZeros(Search(Branch(t, b)), |t.hands|);
  }

  /** The wins of the branch of every card of `all`. */
  ghost function BranchParts(t: Table, all: Word): (parts: map<Bit, seq<nat>>)
    requires Fans(t, all)
    ensures parts.Keys == all && Sized(parts, |t.hands|)
  {
    map b | b in all :: SumOver(t, {b})
  }

  /** The search's sum over chosen cards is the sum of their branches'
      wins, taken one card at a time. */
  lemma {:induction false} SumOverParts(t: Table, all: Word, cs: Word)
    requires Fans(t, all) && cs <= all
    ensures SumOver(t, cs) == SumParts(BranchParts(t, all), cs, |t.hands|)
    decreases |cs|
  {
    if cs != {} {
      var l := Lowest(cs);
      SumOverStep(t, cs);
      SumOverOne(t, all, l);
      SumOverParts(t, all, cs - {l});
    }
  }

  /** The sum over all the chosen cards is the sum of all their parts. */
  lemma SumOverAll(t: Table, all: Word)
    requires Fans(t, all)
    ensures SumOver(t, all) == SumParts(BranchParts(t, all), BranchParts(t, all).Keys, |t.hands|)
  {
    SumOverParts(t, all, all);
  }

  /** The sequential arm: each choice is explored and its results added
      before the next choice is explored. */
  method PlayInOrder(state: GameState.State, chosen: CardCollection, results: GameResults.Results, ghost t: Table)
    requires state.Snapshot() == t && Masked(t, state.plays) && Unfinished(t) && |t.hands| < 256
    requires chosen == Chosen(t.board, t.hands[t.cur]) && chosen.Len() >= 2
    requires |results.playerResults| == |t.hands| && GameResults.AllPlain(results.playerResults)
    modifies results
    ensures Added(results, old(results.Wins()), old(results.games), SumOver(t, chosen.bits))
    decreases Remaining(t), 0, 1, 0
  {
    ghost var parts := BranchParts(t, chosen.bits);
    ghost var n := |t.hands|;
    ghost var w0 := results.Wins();
    ghost var g0 := results.games;
    TallyStart(parts, n, w0, g0);
    var it := new CardCollectionIterator(chosen);
    while true
      invariant |results.playerResults| == n && GameResults.AllPlain(results.playerResults)
      invariant Tally(parts, n, results.Wins(), results.games, it.rest, w0, g0)
      decreases |it.rest|
    {
      ghost var rest := it.rest;
      var c := it.Next();
      if c.None? {
        break;
      }
      ExploreAndAdd(state, c.value, results, t, chosen.bits, rest, Lowest(rest), w0, g0);
    }
    TallyDone(parts, n, results.Wins(), results.games, it.rest, w0, g0);
    SumOverAll(t, chosen.bits);
  }

  /** One pass of the sequential loop: the branch of card `b` explored on
      its own copy of the state, and its results added to the running
      results. */
  method ExploreAndAdd(state: GameState.State, card: Card, results: GameResults.Results, ghost t: Table,
                       ghost all: Word, ghost rest: Word, ghost b: Bit, ghost w0: seq<nat>, ghost g0: nat)
    requires state.Snapshot() == t && card == Single(b) && Masked(t, state.plays) && |t.hands| < 256
    requires Fans(t, all) && b in rest
    requires |results.playerResults| == |t.hands| && GameResults.AllPlain(results.playerResults)
    requires Tally(BranchParts(t, all), |t.hands|, results.Wins(), results.games, rest, w0, g0)
    modifies results
    ensures |results.playerResults| == |t.hands| && GameResults.AllPlain(results.playerResults)
    ensures Tally(BranchParts(t, all), |t.hands|, results.Wins(), results.games, rest - {b}, w0, g0)
    decreases Remaining(t), 0, 0, 1
  {
    var result := Explore(state, card, t, all, b);
    AddBranch(results, result, BranchParts(t, all), |t.hands|, rest, b, w0, g0);
  }

  /** `results.add(result)` for the results of the branch of card `b`,
      with the running total of the turn kept. */
  method AddBranch(results: GameResults.Results, result: GameResults.Results, ghost parts: map<Bit, seq<nat>>,
                   ghost n: nat, ghost rest: Word, ghost b: Bit, ghost w0: seq<nat>, ghost g0: nat)
    requires result != results && b in rest
    requires |results.playerResults| == n && GameResults.AllPlain(results.playerResults)
    requires Tally(parts, n, results.Wins(), results.games, rest, w0, g0) && Holding(result, parts[b])
    modifies results
    ensures |results.playerResults| == n && GameResults.AllPlain(results.playerResults)
    ensures Tally(parts, n, results.Wins(), results.games, rest - {b}, w0, g0)
  {
    GameResults.ZipPlusWins(results.playerResults, result.playerResults);
    TallyStep(parts, n, results.Wins(), results.games, rest, b, w0, g0);
    results.Add(result);
  }

  /** The concurrent arm: every choice is spawned as a task on its own
      copy of the state (a task is known by its card's bit), and the
      results are then added in whatever order spawned tasks finish (any
      order, as `SumPartsAny` shows it does not matter). */
  method PlaySpawned(state: GameState.State, chosen: CardCollection, results: GameResults.Results, ghost t: Table)
    requires state.Snapshot() == t && Masked(t, state.plays) && Unfinished(t) && |t.hands| < 256
    requires chosen == Chosen(t.board, t.hands[t.cur]) && chosen.Len() >= 2
    requires |results.playerResults| == |t.hands| && GameResults.AllPlain(results.playerResults)
    modifies results
    ensures Added(results, old(results.Wins()), old(results.games), SumOver(t, chosen.bits))
    decreases Remaining(t), 0, 1, 0
  {
    var joinSet := SpawnAll(state, chosen, t);
    JoinAll(joinSet, results, BranchParts(t, chosen.bits), |t.hands|);
    SumOverAll(t, chosen.bits);
  }

  /** The spawning loop: one task per chosen card, each exploring the
      branch of its card on its own copy of the state. */
  method SpawnAll(state: GameState.State, chosen: CardCollection, ghost t: Table)
      returns (joinSet: map<Bit, GameResults.Results>)
    requires state.Snapshot() == t && Masked(t, state.plays) && Unfinished(t) && |t.hands| < 256
    requires chosen == Chosen(t.board, t.hands[t.cur]) && chosen.Len() >= 2
    ensures joinSet.Keys == chosen.bits
    ensures forall b :: b in joinSet ==> fresh(joinSet[b]) && Holding(joinSet[b], BranchParts(t, chosen.bits)[b])
    decreases Remaining(t), 0, 0, 3
  {
    ghost var parts := BranchParts(t, chosen.bits);
    joinSet := map[];
    var it := new CardCollectionIterator(chosen);
    var more := true;
    while more
      invariant unchanged(state)
      invariant it.rest <= chosen.bits && forall x :: x in joinSet <==> x in chosen.bits && x !in it.rest
      invariant !more ==> it.rest == {}
      invariant forall b :: b in joinSet ==> fresh(joinSet[b]) && joinSet[b] as object != it
      invariant forall b :: b in joinSet ==> Holding(joinSet[b], parts[b])
      decreases |it.rest|, more
    {
      more, joinSet := SpawnNext(state, it, joinSet, t, chosen.bits);
    }
    KeysAll(joinSet, chosen.bits, it.rest);
  }

  /** One turn of the spawning loop: the iterator's next card, if any,
      spawned as a task exploring that card's branch. */
  method SpawnNext(state: GameState.State, it: CardCollectionIterator, joinSet: map<Bit, GameResults.Results>,
                   ghost t: Table, ghost all: Word)
      returns (more: bool, next: map<Bit, GameResults.Results>)
    requires state.Snapshot() == t && Masked(t, state.plays) && |t.hands| < 256 && Fans(t, all)
    requires it.rest <= all && forall x :: x in joinSet <==> x in all && x !in it.rest
    modifies it
    ensures it.rest <= all && forall x :: x in next <==> x in all && x !in it.rest
    ensures if more then |it.rest| < old(|it.rest|) else it.rest == {}
    ensures forall b :: b in joinSet ==> b in next && next[b] == joinSet[b]
    ensures forall b :: b in next && b !in joinSet ==> fresh(next[b]) && Holding(next[b], BranchParts(t, all)[b])
    decreases Remaining(t), 0, 0, 2
  {
    ghost var rest := it.rest;
    var c := it.Next();
    if c.None? {
      return false, joinSet;
    }
    ghost var b := Lowest(rest);
    assert it.rest == rest - {b} && b in all;
    next := Spawn(state, c.value, joinSet, t, all, b);
    KeysStep(joinSet, next, all, rest, b);
    more := true;
  }

  /** Taking `b` from what is left adds exactly `b` to the keys. */
  lemma KeysStep<V>(m: map<Bit, V>, m': map<Bit, V>, all: Word, rest: Word, b: Bit)
    requires b in rest && rest <= all && forall x :: x in m <==> x in all && x !in rest
    requires forall x :: x in m' <==> x in m || x == b
    ensures forall x :: x in m' <==> x in all && x !in rest - {b}
    ensures |rest - {b}| < |rest|
  {
  }

  /** `join_set.spawn`: a task exploring the branch of `card` on its own
      copy of the state, known in the join set by the card's bit. */
  method Spawn(state: GameState.State, card: Card, joinSet: map<Bit, GameResults.Results>,
               ghost t: Table, ghost all: Word, ghost b: Bit)
      returns (next: map<Bit, GameResults.Results>)
    requires state.Snapshot() == t && card == Single(b) && Masked(t, state.plays) && |t.hands| < 256
    requires Fans(t, all) && b in all
    ensures forall x :: x in next <==> x in joinSet || x == b
    ensures forall x :: x in joinSet && x != b ==> next[x] == joinSet[x]
    ensures fresh(next[b]) && Holding(next[b], BranchParts(t, all)[b])
    decreases Remaining(t), 0, 0, 1
  {
    var result := Explore(state, card, t, all, b);
    var task := Lowest(card.bits);
    next := joinSet[task := result];
  }

  /** Once nothing is left to take, the keys are all of `all`. */
  lemma KeysAll<V>(m: map<Bit, V>, all: Word, rest: Word)
    requires rest == {} && forall x :: x in m <==> x in all && x !in rest
    ensures m.Keys == all
  {
  }

  /** The `join_next` loop: take the finished tasks one by one, in any
      order, and add each task's results to the running results. */
  method JoinAll(joinSet: map<Bit, GameResults.Results>, results: GameResults.Results,
                 ghost parts: map<Bit, seq<nat>>, ghost n: nat)
    requires joinSet.Keys == parts.Keys && Sized(parts, n)
    requires forall b :: b in joinSet ==> joinSet[b] != results && Holding(joinSet[b], parts[b])
    requires |results.playerResults| == n && GameResults.AllPlain(results.playerResults)
    modifies results
    ensures Added(results, old(results.Wins()), old(results.games), SumParts(parts, parts.Keys, n))
  {
    ghost var w0 := results.Wins();
    ghost var g0 := results.games;
    TallyStart(parts, n, w0, g0);
    var pending := joinSet.Keys;
    while pending != {}
      invariant |results.playerResults| == n && GameResults.AllPlain(results.playerResults)
      invariant Tally(parts, n, results.Wins(), results.games, pending, w0, g0)
      decreases |pending|
    {
      var b :| b in pending;
      AddBranch(results, joinSet[b], parts, n, pending, b, w0, g0);
      pending := pending - {b};
    }
    TallyDone(parts, n, results.Wins(), results.games, pending, w0, g0);
  }
}
