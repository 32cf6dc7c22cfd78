# Sevens solver — a verified model

Sevens (also called Fan Tan or Domino) is a card game. The holder of the
seven of hearts opens. A seven may be played once 7♥ is down. A card
below a seven may be played when the card one rank higher of its suit is
on the board, and a card above a seven when the card one rank lower is.
A player who cannot play passes, and the first player to empty their
hand wins. The solver deals a deck and then explores every game that can
follow from the deal. When a player has no "no-consequence" card (an Ace
or a King, or a card whose further neighbour is also in the hand), it
branches on every playable card. It counts the wins of each player over
all the finished games.

The project models the Rust repository's core:

- **Cards** (`cards.dfy`, module `Cards`): a card is one set bit of a
  64-bit word, at position `rank + 16 * suit`. Each suit lane has three
  unused guard bits.
  - The word is modelled as the set of its bit positions (`Word =
    set<Bit>`), the trailing-zero count as the lowest member (64 for
    none), and the one-bit shifts with explicit loss of bit 63 and bit 0.
  - Suit and rank come back from the trailing-zero count. The names
    round-trip through the `SUITS` and `RANKS` tables.
- **Card collections** (`card_collection.dfy`): the bitwise union of
  cards, and an iterator class that yields the lowest bit first.
- **Deck** (`deck.dfy`): a class over a sequence. It holds the 52 cards
  sorted by suit then rank, supports front `pop`, and shuffles by moving
  a randomly chosen remaining card to the back of a new deck.
- **Older engine** (`play_state.dfy`, `rules.dfy`, `play_results.dfy`,
  `play_search.dfy`):
  - A class `State` deals round-robin and starts with the holder of 7♥.
  - Legality is decided by `card_plays`, which looks at the board.
  - `Results` counts wins per player and games.
  - `play` is a loop with clone-and-recurse branching. It is proved
    against a ghost specification `Search(t)`: the win vector of every
    game reachable from the table `t`.
  - Dealing the new deck, shuffled or not, is proved to give a table the
    search accepts: every real card lands in exactly one hand, and the
    opener holds 7♥.
  - Termination of the search is proved. Every card played leaves a
    hand, and while no card is played, the distance to the next player
    who can move shrinks. Someone can always move: while 7♥ is held it
    is playable, and once it is down every missing card has a playable
    missing card on its way to its suit's seven, which some hand holds.
- **Newer engine** (`game_state.dfy`, `game_results.dfy`,
  `game_strategy.dfy`, `game_search.dfy`, `branch_sums.dfy`):
  - The state keeps a mask `plays` of the cards the board unlocks, and
    it grows with every play.
  - The results add per-player statistics on how moves were chosen.
  - A strategy picks the move set.
  - `play` returns fresh results. With two or more choices it either
    spawns one task per card and joins them in completion order, or
    recurses in ascending card order.
  - Both arms are proved to yield `Search(t)` of the older engine. The
    two engines therefore count the same wins from the same table.
  - The join set is a map from each card's bit to the results of its spawned task,
    drained in an arbitrary order. Order independence follows from the
    commutativity of element-wise addition.

## Model

| member | source | states |
|---|---|---|
| Cards.Position | src/cards/card.rs:22-23 | finds the first index holding the value, or none exactly when the value is absent |
| Cards.TrailingZeros | src/cards/card_collection.rs:67-69 | is the lowest set bit of the word, and 64 exactly for the empty word |
| Cards.Lowest | src/cards/card_collection.rs:67-72 | the lowest member of a non-empty word is in it and below every other member |
| Cards.Card.New | src/cards/card.rs:21-29 | a card is built exactly when the suit is one of the four suit symbols and the rank one of the thirteen rank names, and it is then the card of those table positions |
| Cards.Card.NewFromRaw | src/cards/card.rs:47-49 | wraps any word unchanged |
| Cards.Card.SuitElem | src/cards/card.rs:63-66 | the suit index is below 4 exactly when the card has a set bit (4 for the empty word) |
| Cards.Card.RankElem | src/cards/card.rs:68-71 | the rank index is a lane position below 16, and 0 for the empty word |
| Cards.Card.Suit | src/cards/card.rs:51-53 | the suit of a non-empty card is one of the four suit symbols |
| Cards.Card.Rank | src/cards/card.rs:55-57 | the rank of a card with rank index below 13 is one of the thirteen rank names |
| Cards.Single | src/cards/card.rs:63-71 | the card of one bit has exactly that bit set, its trailing-zero count is that bit, and it decodes to suit = bit / 16 and rank = bit mod 16 |
| Cards.SevenHeartsByName | src/game/mod.rs:13 | 7♥ built by name equals the card of suit 0 and rank 6, and no other suit and rank give that card |
| Cards.ShiftUpMember | src/cards/card.rs:73-76 | bit b is set after the left shift exactly when bit b-1 was set |
| Cards.ShiftDownMember | src/cards/card.rs:78-81 | bit b is set after the right shift exactly when bit b+1 was set |
| Cards.ShiftSingle | src/cards/card.rs:73-81 | shifting one bit moves it by one place, and it falls off at bit 63 going up and at bit 0 going down |
| Cards.ElemsRoundTrip | src/cards/card.rs:31-34 | a card built from suit s < 4 and rank r < 13 is real and decodes back to s and r |
| Cards.RealCardElems | src/cards/card.rs:63-71 | every real card is the card built from its own suit and rank indices |
| Cards.NewFromElemsInjective | src/cards/card.rs:31-34 | two cards built from elements are equal exactly when their suits and ranks are |
| Cards.NewMatchesElems | src/cards/card.rs:113-114 | looking a card up by its suit symbol and rank name gives the card built from their positions |
| Cards.SuitsDistinct | src/cards/mod.rs:9 | the four suit symbols are pairwise different |
| Cards.RanksDistinct | src/cards/mod.rs:11-13 | the thirteen rank names are pairwise different |
| Cards.NameRoundTrip | src/cards/card.rs:103-109 | building a card from its own suit symbol and rank name gives the same real card back |
| Cards.RawRoundTrip | src/cards/card.rs:116-117 | wrapping a card's raw word gives the card back |
| Cards.HigherNeighbour | src/cards/card.rs:73-76 | below the King, the one-higher card is the same suit one rank up |
| Cards.LowerNeighbour | src/cards/card.rs:78-81 | above the Ace, the one-lower card is the same suit one rank down |
| Cards.InteriorNeighbours | src/cards/card.rs:122-134 | for ranks 2 to Queen, one-higher and one-lower reach the neighbouring ranks and undo each other |
| Cards.EdgeShifts | src/cards/card.rs:73-81 | a King shifted up lands on the guard bit 13 of its lane, and an Ace shifted down lands on guard bit 15 of the lane below (or nothing for hearts), so neither is a real card |
| CardCollections.CardCollection.New | src/cards/card_collection.rs:7-9 | the new collection is empty, has length 0 and contains no card |
| CardCollections.CardCollection.NewSingle | src/cards/card_collection.rs:11-13 | a single-card collection contains that card and no other real card |
| CardCollections.CardCollection.NewFromRaw | src/game/play.rs:24 | wraps a word unchanged |
| CardCollections.CardCollection.Add | src/cards/card_collection.rs:15-18 | the card is contained afterwards, every card contained before still is, and re-adding a present card changes neither the value nor the length |
| CardCollections.CardCollection.Remove | src/cards/card_collection.rs:20-23 | the card is not contained afterwards, nothing new becomes contained, and removing an absent card changes nothing |
| CardCollections.CardCollection.Set | src/game/play.rs:54 | the contents become exactly the card's word |
| CardCollections.CardCollection.Len | src/cards/card_collection.rs:39-42 | the number of set bits is zero exactly when the collection is empty |
| CardCollections.CardCollection.First | src/game/strategy.rs:38 | is empty for an empty collection, and otherwise exactly the lowest member |
| CardCollections.AscendingLength | src/cards/card_collection.rs:61-77 | the iterator yields as many cards as the word has set bits |
| CardCollections.AscendingMembers | src/cards/card_collection.rs:61-77 | the iterator yields exactly the set bits of the word |
| CardCollections.AscendingSorted | src/cards/card_collection.rs:61-77 | the iterator yields bits in strictly ascending order |
| CardCollections.AscendingYieldsAll | src/cards/card_collection.rs:111-117 | each set bit is yielded once, in ascending order, and their number is the collection's length |
| CardCollections.AddMembership | src/cards/card_collection.rs:94-108 | after adding, a single-bit card is contained exactly when it was already or it is part of the added card |
| CardCollections.RemoveMembership | src/cards/card_collection.rs:119-131 | after removing, a single-bit card is contained exactly when it was before and is not part of the removed card |
| CardCollections.CardCollectionIterator.constructor | src/cards/card_collection.rs:30-32 | the iterator starts with the whole word of the collection |
| CardCollections.CardCollectionIterator.Next | src/cards/card_collection.rs:66-76 | yields none exactly when the word is empty, and otherwise the lowest bit as a card while clearing exactly that bit, so the rest of the iteration follows |
| Decks.PushRanksLength | src/cards/deck.rs:13-16 | the inner fold appends one card per remaining rank |
| Decks.PushRanksAt | src/cards/deck.rs:13-16 | the inner fold keeps the earlier cards and appends the suit's cards in rank order |
| Decks.PushSuitsLength | src/cards/deck.rs:12-17 | the outer fold appends thirteen cards per remaining suit |
| Decks.PushSuitsHere | src/cards/deck.rs:12-17 | the first thirteen cards the outer fold appends are the current suit's, in rank order |
| Decks.PushSuitsAt | src/cards/deck.rs:12-17 | the card of suit s and rank r appended by the outer fold sits 13 * s + r places after the earlier cards |
| Decks.PushSuitsPrefix | src/cards/deck.rs:12-17 | the outer fold leaves the earlier cards in place |
| Decks.LayoutFrom | src/cards/deck.rs:11-18 | folding from an empty queue puts the card of suit s and rank r at index 13 * s + r of 52 |
| Decks.NewDeckLayout | src/cards/deck.rs:62-74 | the new deck has 52 cards, with suit s and rank r at index 13 * s + r |
| Decks.IndexFrom | src/cards/deck.rs:11-18 | index i of the folded deck is the card of suit i / 13 and rank i mod 13 |
| Decks.DeckCardAt | src/cards/deck.rs:11-18 | every card of the new deck is a real card, and index i holds suit i / 13 and rank i mod 13 |
| Decks.DeckCardsDiffer | src/cards/deck.rs:11-18 | two different indices of the new deck hold different cards |
| Decks.NewDeckDistinct | src/cards/deck.rs:11-18 | the new deck holds 52 real, pairwise distinct cards |
| Decks.DistinctMultiplicity | src/cards/deck.rs:11-18 | a card sequence without repeats holds each card at most once |
| Decks.NewDeckHolds | src/cards/deck.rs:11-18 | the new deck holds the card of every suit and rank |
| Decks.NewDeckComplete | src/cards/deck.rs:11-18 | the new deck holds every real card |
| Decks.PermutedDistinct | src/cards/deck.rs:20-32 | a rearrangement of a sequence without repeats has no repeats |
| Decks.Rearranged | src/cards/deck.rs:20-32 | a rearrangement keeps the length, the realness of every card, the absence of repeats and every real card |
| Decks.PermutedDeck | src/cards/deck.rs:11-32 | any rearrangement of the new deck, such as a shuffled one, has 52 real cards, none twice, and every real card |
| Decks.Deck.constructor | src/cards/deck.rs:11-18 | the new deck is the sorted 52-card layout |
| Decks.Deck.Shuffle | src/cards/deck.rs:20-32 | whatever in-range index each step picks, the result is a permutation of the old deck (same length and same multiset) |
| Decks.Deck.Pop | src/cards/deck.rs:34-36 | an empty deck gives none and stays empty; otherwise the front card is returned and removed |
| PlayResults.ZipAddZeros | src/play/results.rs:29-36 | adding the counters of a fresh result is the identity |
| PlayResults.ZipAddUnit | src/play/results.rs:15-18 | adding a one-win vector for a player bumps just that player's count, and it holds one game |
| PlayResults.ZipAddSwap | src/play/results.rs:29-36 | the order of two additions into the same counters does not matter |
| PlayResults.ZipAddAssoc | src/play/results.rs:29-36 | element-wise addition of equal-length counters is associative |
| PlayResults.ZipAddComm | src/play/results.rs:29-36 | element-wise addition of equal-length counters is commutative |
| PlayResults.TotalZeros | src/play/results.rs:8-13 | fresh zero counters sum to zero games |
| PlayResults.TotalUpdate | src/play/results.rs:15-18 | changing one counter changes the sum by exactly the difference |
| PlayResults.TotalZipAdd | src/play/results.rs:29-36 | the sum of the added counters is the sum of the two sums |
| PlayResults.Results.constructor | src/play/results.rs:8-13 | n zero win counters, no games, so games equals the sum of wins |
| PlayResults.Results.WinFor | src/play/results.rs:15-18 | bumps exactly the player's win count and the game count, and keeps games equal to the sum of wins |
| PlayResults.Results.Games | src/play/results.rs:20-23 | for valid results, the game count is the sum of the wins |
| PlayResults.Results.Add | src/play/results.rs:29-36 | adds the game counts and the win vectors element-wise, and keeps games equal to the sum of wins for equal lengths |
| PlayState.CardPlaysRule | src/play/state.rs:56-84 | 7♥ is always legal and another seven exactly when 7♥ is on the board; a lower rank needs the card above on the board, a higher rank the card below |
| PlayState.FirstPlayer | src/play/state.rs:22-33 | the opening player, when there is one, is a valid player index |
| PlayState.FirstPlayerIsHolder | src/play/state.rs:26-28 | there is no opener exactly when 7♥ is not dealt; otherwise the opener is k mod n for the last position k of 7♥ in the deck |
| PlayState.DealtBits | src/play/state.rs:25-33 | player p holds a card bit exactly when some deck position k with k mod n = p held it |
| PlayState.State.constructor | src/play/state.rs:36-41 | the state holds exactly the given board, hands, current player and depth |
| PlayState.State.New | src/play/state.rs:17-44 | drains the deck; fails exactly when 7♥ is not dealt; otherwise the board is empty, depth is 0, hand p is the deal for p, the opener holds 7♥, and the state is `DealTable` of the deck |
| PlayState.State.NextPlayer | src/play/state.rs:51-54 | the turn passes to the next player modulo the player count and stays in range |
| PlayState.State.PlayCard | src/play/state.rs:86-89 | the card leaves the current hand and joins the board, and nothing else changes |
| PlayState.State.Clone | src/play/play.rs:113 | a fresh state with the same table and depth |
| Rules.CardPlaysBits | src/play/state.rs:56-84 | the legality test on a single-bit card is the bit-level play rule |
| Rules.CardPlaysMonotone | src/play/state.rs:56-84 | a card legal on a board stays legal on any larger board |
| Rules.PlayCardConserves | src/play/state.rs:86-89 | playing a held card keeps the set of held cards and the board constant, keeps hands disjoint and changes only the current hand and the board |
| Rules.DealtApart | src/play/state.rs:25-33 | dealing cards without repeats never gives one card to two players |
| Rules.DealtHolds | src/play/state.rs:25-33 | dealing all 52 real cards puts a bit in some hand exactly when it is a real card |
| Rules.DealValid | src/play/state.rs:17-44 | dealing any rearrangement of the new deck to at least one player deals 7♥, and the table `new` builds is valid and unfinished with the opener holding 7♥: every real card is in exactly one hand, so the search applies to every game the program sets up |
| Rules.PlayKeepsValid | src/play/state.rs:86-89 | a legal play from the current hand keeps the table valid and leaves one card fewer in the hands |
| Rules.PlayKeepsClosed | src/play/state.rs:86-89 | a legal play keeps the board closed under the play rule |
| Rules.NextKeepsValid | src/play/state.rs:51-54 | passing the turn keeps the table valid and the cards left |
| Rules.ClimbUp | src/play/state.rs:71-76 | with 7♥ down, a missing card at or below seven has a playable missing card on its way up to the seven |
| Rules.ClimbDown | src/play/state.rs:77-83 | with 7♥ down, a missing card at or above seven has a playable missing card on its way down to the seven |
| Rules.SomeoneCanMove | src/play/play.rs:10-135 | on a valid unfinished table some player holds a legal card, so the search loop cannot pass forever |
| Rules.GapBelow | src/play/play.rs:133-134 | the distance to the next player who can move is at most the distance to any player who can |
| Rules.GapHit | src/play/play.rs:133-134 | the player at that distance can move |
| Rules.GapInRange | src/play/play.rs:133-134 | on a valid unfinished table that distance is below the player count |
| Rules.GapStep | src/play/play.rs:133-134 | passing from a player who cannot move brings the next mover one step closer |
| PlaySearch.NoConsequenceRule | src/play/play.rs:39-67 | a card is no-consequence exactly when it is an Ace or King, or below seven with the lower card in hand, or above seven with the higher card in hand, or a seven with both |
| PlaySearch.NoConsequenceBits | src/play/play.rs:39-67 | the no-consequence test on a single-bit card is the bit-level rule |
| PlaySearch.NeighbourIn | src/cards/card_collection.rs:25-28 | a hand contains a single-bit card exactly when it holds that bit |
| PlaySearch.ChosenLegal | src/play/play.rs:21-78 | the chosen cards are playable cards of the hand, all legal; there are none exactly when the player cannot move; with a no-consequence card the choice is the lowest one |
| PlaySearch.PlayableCards | src/play/play.rs:21-27 | the fold over the hand keeps exactly the cards the board lets the player play |
| PlaySearch.FindNoConsequence | src/play/play.rs:39-67 | finds none exactly when no playable card is no-consequence, and otherwise the lowest one |
| PlaySearch.ChooseCards | src/play/play.rs:21-78 | the move set is the playable cards, collapsed to the first no-consequence card when there is one |
| PlaySearch.HandLeftUnfinished | src/play/play.rs:95-108 | a table where someone still holds a card is unfinished |
| PlaySearch.BranchKeepsValid | src/play/play.rs:113-124 | the cloned branch (play, next player) stays valid with one card fewer |
| PlaySearch.BranchUnfinished | src/play/play.rs:110-127 | when the mover has another card, a branch does not end the game |
| PlaySearch.ChosenBranch | src/play/play.rs:112-124 | every chosen card is held and legal, its branch is valid with one card fewer, and with several choices the branch is unfinished |
| PlaySearch.Search | src/play/play.rs:5-140 | the specification of the search: one win vector entry per player |
| PlaySearch.SumOver | src/play/play.rs:112-127 | the wins of the branches for the given chosen cards, one entry per player |
| PlaySearch.SearchFinishesAGame | src/play/play.rs:81-130 | every search from an unfinished table finishes at least one game |
| PlaySearch.SumOverFinishesGames | src/play/play.rs:110-130 | branching on k cards finishes at least k games |
| PlaySearch.SearchPass | src/play/play.rs:133-134 | with no move, passing the turn keeps the search result and makes progress |
| PlaySearch.SearchSingle | src/play/play.rs:85-109 | a single move that does not empty the hand keeps the search result and makes progress |
| PlaySearch.SearchWon | src/play/play.rs:95-108 | a single move that empties the hand is exactly one win for the mover |
| PlaySearch.SearchWin | src/play/play.rs:95-108 | adding that outcome bumps the mover's wins and counts one game |
| PlaySearch.SearchMany | src/play/play.rs:110-130 | with several choices the search result is the sum over all their branches |
| PlaySearch.SumOverStep | src/play/play.rs:112-127 | the sum over the remaining cards is the lowest card's branch plus the sum over the rest |
| PlaySearch.SumOverAccount | src/play/play.rs:112-127 | after one branch's wins are added, the remaining branches account for the rest of the total |
| PlaySearch.Play | src/play/play.rs:5-140 | the shared results grow by exactly the search's win vector and the number of games it finishes |
| PlaySearch.Turn | src/play/play.rs:15-134 | one loop iteration either ends the search having added its wins, or leaves the results alone and advances to a table with the same search result |
| PlaySearch.PlayChosen | src/play/play.rs:80-131 | the one-card and many-card arms of the move match agree with the specification |
| PlaySearch.PlayOnly | src/play/play.rs:85-108 | plays the only card; records one win for the mover exactly when the hand empties, otherwise the table becomes the branch |
| PlaySearch.PlayBranch | src/play/play.rs:113-126 | the clone-play-advance-recurse of one choice adds exactly that branch's search result |
| PlaySearch.PlayBranches | src/play/play.rs:112-129 | the loop over the choices adds exactly the sum over all their branches |
| GameState.ClubsSeven | src/game/state.rs:58 | 7♣ by name is bit 22 |
| GameState.DiamondsSeven | src/game/state.rs:59 | 7♦ by name is bit 38 |
| GameState.SpadesSeven | src/game/state.rs:60 | 7♠ by name is bit 54 |
| GameState.PlaysOfStep | src/game/state.rs:56-64 | the mask of a board grown by one card is the old mask plus what that card unlocks |
| GameState.SevenBits | src/game/state.rs:57-61 | every seven is 7♥ or one of the three sevens it unlocks |
| GameState.AboveMissing | src/game/state.rs:63-64 | on a legally built board, no card sits above a missing card at or past seven |
| GameState.BelowMissing | src/game/state.rs:63-64 | on a legally built board, no card sits below a missing card at or before seven |
| GameState.MaskAgrees | src/game/state.rs:56-69 | on a legally built board a missing real card is in the mask exactly when the board lets it be played |
| GameState.State.constructor | src/game/state.rs:37-43 | the state holds exactly the given board, mask, hands, current player and depth |
| GameState.State.New | src/game/state.rs:16-44 | deals like the older engine, fails exactly when 7♥ is not dealt, and starts as `DealTable` of the deck with the mask {7♥} |
| GameState.StartPlays | src/game/state.rs:39 | the mask of the empty board is exactly {7♥}, the mask `new` starts with |
| GameState.State.NextPlayer | src/game/state.rs:51-54 | passes the turn modulo the player count, in range, and keeps the mask |
| GameState.State.PlayCard | src/game/state.rs:56-69 | moves the card from the current hand to the board and grows the mask by what the card unlocks; mask and board only grow |
| GameState.State.UnlockSevens | src/game/state.rs:57-61 | adds the three other sevens to the mask and nothing else |
| GameState.State.Clone | src/game/play.rs:102 | a fresh state with the same table, mask and depth |
| GameResults.Default | src/game/results.rs:7-16 | the default player results carry no wins and no statistics |
| GameResults.PlusComm | src/game/results.rs:18-39 | adding player results is commutative |
| GameResults.PlusAssoc | src/game/results.rs:18-39 | adding player results is associative |
| GameResults.PlusDefault | src/game/results.rs:18-39 | the default player results are the identity for addition |
| GameResults.PlusCounts | src/game/results.rs:18-39 | addition adds the wins and the statistics counts, and keeps results without statistics that way |
| GameResults.BumpCounts | src/game/results.rs:57-63 | a stats update counts one choice: a miss for no card, a single for one card, a multi for several, at the given preference rank, and leaves wins alone |
| GameResults.ZipPlusWins | src/game/results.rs:80-87 | adding per-player results adds their win vectors element-wise |
| GameResults.ZipPlusComm | src/game/results.rs:80-87 | adding equal-length per-player results is commutative |
| GameResults.ZipPlusAssoc | src/game/results.rs:80-87 | adding equal-length per-player results is associative |
| GameResults.ZipPlusDefaults | src/game/results.rs:80-87 | adding fresh per-player results is the identity |
| GameResults.Results.constructor | src/game/results.rs:48-53 | one default entry per player and no games, so games equals the sum of wins |
| GameResults.Results.UpdateStatsFor | src/game/results.rs:57-63 | bumps one statistic for the player and leaves wins and games unchanged |
| GameResults.Results.WinFor | src/game/results.rs:66-69 | bumps exactly the player's wins and the game count, keeping games equal to the sum of wins |
| GameResults.Results.Games | src/game/results.rs:72-74 | for valid results, the game count is the sum of the wins |
| GameResults.Results.Add | src/game/results.rs:80-87 | adds the game counts and the per-player results, keeping games equal to the sum of wins for equal lengths |
| GameStrategy.MaxPrefRank | src/game/strategy.rs:116-122 | the highest preference rank is below 4, and 0 exactly for the dumb strategy |
| GameStrategy.ChoiceCases | src/game/strategy.rs:34-102 | dumb plays any playable card; otherwise the lowest no-consequence card (plus the sequence cards for the preferred strategy), else the sequence cards, else any playable card |
| GameStrategy.ChoiceSubset | src/game/strategy.rs:34-102 | the chosen set lies within the three candidate sets, and is empty exactly when nothing is available to the strategy |
| GameStrategy.StatCases | src/game/strategy.rs:28-110 | the statistics see the whole no-consequence set (with the sequence cards for the preferred strategy), or else the chosen set, at preference rank 0, 1 or 2, never above the strategy's maximum |
| GameStrategy.ChooseCards | src/game/strategy.rs:20-113 | returns the strategy's choice and records exactly one statistic for the player, leaving games unchanged |
| GameSearch.DealMasked | src/game/state.rs:16-44 | the table `new` deals from any rearrangement of the new deck, with the mask {7♥}, meets the newer engine's invariant and is unfinished, so its `play` applies |
| GameSearch.MaskPlayable | src/game/play.rs:24 | on a legally reached table, hand and mask give exactly the cards the older engine finds playable |
| GameSearch.CollapseOnlyWhenMany | src/game/play.rs:35-63 | with at most one playable card the no-consequence collapse changes nothing, so skipping it then is harmless |
| GameSearch.BranchKeepsMask | src/game/play.rs:130-135 | a legal play grows the mask in step with the board, so the branch is still legally reached |
| GameSearch.SingleKeepsMask | src/game/play.rs:71-95 | playing the only card without winning keeps the mask in step and makes progress |
| GameSearch.ChooseMasked | src/game/play.rs:24-64 | the newer engine's move set equals the older engine's choice |
| GameSearch.Play | src/game/play.rs:8-157 | the returned fresh results hold exactly the older engine's search result, one game per win, and no statistics |
| GameSearch.ReachedStep | src/game/play.rs:15-149 | each pass of the loop keeps the search result of the start table and strictly lowers the termination measure |
| GameSearch.Turn | src/game/play.rs:19-148 | one loop iteration either ends with the search result added, or leaves the results alone and advances with the mask in step |
| GameSearch.PlaySingle | src/game/play.rs:71-95 | the one-card arm adds exactly the search result when it wins, otherwise advances |
| GameSearch.PlayMany | src/game/play.rs:96-143 | the many-card arm adds exactly the search result |
| GameSearch.PlayOnly | src/game/play.rs:73-94 | plays the only card, grows the mask, and records one win exactly when the hand empties |
| GameSearch.Explore | src/game/play.rs:130-137 | exploring one choice on a clone yields fresh results holding exactly that branch's search result |
| GameSearch.Advance | src/game/play.rs:125-135 | the clone plays the card, grows its mask, passes the turn and is one level deeper |
| GameSearch.PlayBranches | src/game/play.rs:98-141 | whichever arm the depth selects, the results grow by the sum over all branches |
| GameSearch.SumOverOne | src/game/play.rs:130-139 | the sum over one chosen card is the search of its branch |
| GameSearch.BranchParts | src/game/play.rs:99-117 | the per-branch search results are keyed by exactly the chosen cards, one entry per player each |
| GameSearch.SumOverParts | src/game/play.rs:119-122 | the ascending sum over branches equals the sum of the per-branch parts |
| GameSearch.SumOverAll | src/game/play.rs:119-122 | the sum over all chosen cards is the sum of all per-branch parts |
| GameSearch.PlayInOrder | src/game/play.rs:123-141 | the sequential arm adds exactly the sum over all branches |
| GameSearch.ExploreAndAdd | src/game/play.rs:124-139 | exploring one remaining card and adding its results removes that card from what is left to account for |
| GameSearch.AddBranch | src/game/play.rs:119-122 | adding one branch's results removes that card from what is left to account for |
| GameSearch.PlaySpawned | src/game/play.rs:98-122 | the concurrent arm adds exactly the sum over all branches |
| GameSearch.SpawnAll | src/game/play.rs:99-117 | one fresh task per chosen card, each holding its branch's search result |
| GameSearch.SpawnNext | src/game/play.rs:101-117 | one iterator step spawns a task for the next card, keeps the earlier tasks and shrinks the iterator, or reports the end |
| GameSearch.Spawn | src/game/play.rs:107-116 | the join set gains one fresh task for the card holding its branch's search result, and the other tasks are kept |
| GameSearch.JoinAll | src/game/play.rs:119-122 | draining the join set in any completion order adds exactly the sum of all branch results |
| BranchSums.SumPartsAny | src/game/play.rs:119-122 | the sum of the branch parts can take any member first, so the completion order of the join does not matter |
| BranchSums.TallyStart | src/game/play.rs:119-122 | before joining, nothing is accounted for |
| BranchSums.TallyStep | src/game/play.rs:119-122 | adding a joined branch moves its part from pending to accounted |
| BranchSums.TallyDone | src/game/play.rs:119-122 | when nothing is pending, the results hold the start plus the sum of all parts |

## Left out

- Printing: every `Display`/`Debug` impl, `Card::coloured`, the terminal
  output of src/cards/print.rs, the `trace` and `debug` output of both
  engines, and src/numformat/mod.rs. These are output only.
- src/main.rs: argument parsing and percentage output in floating point.
  It is the program's driver, not part of the solver.
- `Card::new_from_hash` and `Card::hash_val`: they index a `CARD_HASH`
  table that src/cards/mod.rs does not define.
- `Strategy::pref_rank_desc`: label strings for printing.
- The `nostats` build: the model is the build with statistics.
- Randomness: the index `shuffle` picks is any in-range choice, so
  `Deck.Shuffle` is proved for every choice but says nothing about the
  distribution.
- Concurrency in src/game/play.rs: the tokio `JoinSet` is a map from each
  card's bit to the spawned task's results, filled in ascending order and
  drained in an arbitrary order. Every task runs to completion on its own
  clone at spawn time, so interleavings and scheduling are not modelled.
- Machine integers: `usize` counters and the `u64` word are unbounded or
  set-valued, so counter overflow is not modelled.
- PlayState.State.New: requires between 1 and 255 players. The source
  takes a `u8`. With zero players it panics either way: a non-empty deck
  makes the first deal index an empty player vector
  (src/play/state.rs:30), and an empty deck leaves no holder of 7♥, so
  the `expect` fails (src/play/state.rs:39).
- GameState.State.New: requires between 1 and 255 players. With zero
  players the source panics the same two ways, at src/game/state.rs:31
  and src/game/state.rs:41.
- PlayState.State.New: the source panics when no player was dealt 7♥;
  the model returns none instead.
- GameState.State.New: likewise returns none where the source panics.
- PlaySearch.Play: requires a valid, unfinished table. Valid means at
  least one player, the turn with one of them, and every real card
  either on the board or in exactly one hand. Unfinished means some card
  is still off the board. The source would run on any state, but the win
  counts it promises are only meaningful for dealt games.
- GameSearch.Play: requires the same of the table. It also requires that
  every board card was legal when laid, that the mask matches the board,
  and that there are fewer than 256 players (`players.len() as u8`
  truncates beyond that).
- GameSearch.Play: the results it returns carry no statistics, because
  src/game/play.rs never calls `Strategy::choose_cards`.
  `GameStrategy.ChooseCards` is modelled on its own.
- The names `lower`/`higher` used by both engines are modelled as
  `Card::one_lower`/`Card::one_higher` of src/cards/card.rs.
- `CardCollection::new_from_raw`, `raw`, `set` and `first` are used by
  src/game/play.rs and src/game/strategy.rs but not defined in
  src/cards/card_collection.rs. They are modelled as wrapping a word,
  returning it, replacing the contents by one card, and isolating the
  lowest set bit.
- The player wrapper of src/play/player.rs is the hand itself.
