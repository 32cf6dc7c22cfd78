/** Move-set selection strategies of the newer engine
 *  (src/game/strategy.rs): from the no-consequence, in-sequence and
 *  playable cards of a turn, pick the cards to explore, and record one
 *  play-preference statistic for the player.
 */
module GameStrategy {
  import opened Cards
  import opened CardCollections
  import opened GameResults

  /** `enum Strategy`. */
  datatype Strategy = NoConsequence | Preferred | Dumb

  /** `max_pref_rank`: the highest preference rank the strategy records. */
  function MaxPrefRank(strategy: Strategy): (r: nat)
    ensures r < 4
    ensures r == 0 <==> strategy == Dumb
  {
    match strategy
    case NoConsequence => 2
    case Preferred => 2
    case Dumb => 0
  }

  /** The set `choose_cards` returns. */
  function Choice(strategy: Strategy, nc: CardCollection, sq: CardCollection, pl: CardCollection): CardCollection
  {
    match strategy
    case Dumb => pl
    case NoConsequence =>
      if !nc.IsEmpty() then CardCollection.NewFromRaw(nc.First())
      else if !sq.IsEmpty() then sq
      else pl
    case Preferred =>
      if !nc.IsEmpty() then CardCollection.NewFromRaw(nc.First() + sq.Raw())
      else if !sq.IsEmpty() then sq
      else pl
  }

  /** The set whose size `choose_cards` records: the no-consequence cards
      (with the sequence cards for `Preferred`) when there are any,
      otherwise the returned set. */
  function StatSet(strategy: Strategy, nc: CardCollection, sq: CardCollection, pl: CardCollection): CardCollection
  {
    if strategy == NoConsequence && !nc.IsEmpty() then nc
    else if strategy == Preferred && !nc.IsEmpty() then CardCollection.NewFromRaw(nc.Raw() + sq.Raw())
    else Choice(strategy, nc, sq, pl)
  }

  /** The preference rank `choose_cards` records: 0 for the first choice,
      1 for the sequence cards, 2 for any playable card. */
  function PrefRank(strategy: Strategy, nc: CardCollection, sq: CardCollection): nat
  {
    if strategy == Dumb || !nc.IsEmpty() then 0
    else if !sq.IsEmpty() then 1
    else 2
  }

  /** What each strategy picks. `Dumb` takes the playable cards as they
      are; the other two take the lowest no-consequence card (with the
      sequence cards for `Preferred`) when there is one, and otherwise the
      sequence cards if any, else the playable cards. */
  lemma ChoiceCases(strategy: Strategy, nc: CardCollection, sq: CardCollection, pl: CardCollection)
    ensures strategy == Dumb ==> Choice(strategy, nc, sq, pl) == pl
    ensures strategy == NoConsequence && !nc.IsEmpty() ==>
      Choice(strategy, nc, sq, pl).bits == {Lowest(nc.bits)}
    ensures strategy == Preferred && !nc.IsEmpty() ==>
      Choice(strategy, nc, sq, pl).bits == {Lowest(nc.bits)} + sq.bits
    ensures strategy != Dumb && nc.IsEmpty() ==>
      Choice(strategy, nc, sq, pl) == (if !sq.IsEmpty() then sq else pl)
  {
  }

  /** The chosen cards come from the three candidate sets, and are empty
      only when the sets the strategy draws on are empty. */
  lemma ChoiceSubset(strategy: Strategy, nc: CardCollection, sq: CardCollection, pl: CardCollection)
    ensures Choice(strategy, nc, sq, pl).bits <= nc.bits + sq.bits + pl.bits
    ensures Choice(strategy, nc, sq, pl).IsEmpty() <==>
      pl.IsEmpty() && (strategy == Dumb || (nc.IsEmpty() && sq.IsEmpty()))
  {
    if !nc.IsEmpty() {
      assert Lowest(nc.bits) in nc.bits;
    }
  }

  /** The statistic recorded: rank 0 with the whole first-choice set, or
      the returned set with rank 1 or 2; the rank never exceeds
      `max_pref_rank`. */
  lemma StatCases(strategy: Strategy, nc: CardCollection, sq: CardCollection, pl: CardCollection)
    ensures PrefRank(strategy, nc, sq) <= MaxPrefRank(strategy)
    ensures strategy == NoConsequence && !nc.IsEmpty() ==> StatSet(strategy, nc, sq, pl) == nc
    ensures strategy == Preferred && !nc.IsEmpty() ==> StatSet(strategy, nc, sq, pl).bits == nc.bits + sq.bits
    ensures strategy == Dumb || nc.IsEmpty() ==> StatSet(strategy, nc, sq, pl) == Choice(strategy, nc, sq, pl)
    ensures strategy != Dumb && nc.IsEmpty() && !sq.IsEmpty() ==> PrefRank(strategy, nc, sq) == 1
    ensures strategy != Dumb && nc.IsEmpty() && sq.IsEmpty() ==> PrefRank(strategy, nc, sq) == 2
  {
  }

  /** `choose_cards`: pick the cards to explore and record one statistic
      for `player`. */
  method ChooseCards(strategy: Strategy, noConsequenceCards: CardCollection, sequenceCards: CardCollection,
                     playableCards: CardCollection, player: nat, results: Results)
      returns (useCardSet: CardCollection)
    requires player < |results.playerResults|
    modifies results
    ensures useCardSet == Choice(strategy, noConsequenceCards, sequenceCards, playableCards)
    ensures results.playerResults == old(results.playerResults)[player :=
      Bump(old(results.playerResults)[player],
           StatSet(strategy, noConsequenceCards, sequenceCards, playableCards).Len(),
           PrefRank(strategy, noConsequenceCards, sequenceCards))]
    ensures results.games == old(results.games)
  {
    var statCardSet: Option<CardCollection> := None;
    var prefRank := 0;
    match strategy {
      case NoConsequence =>
        if !noConsequenceCards.IsEmpty() {
          useCardSet := CardCollection.NewFromRaw(noConsequenceCards.First());
          statCardSet := Some(noConsequenceCards);
        } else if !sequenceCards.IsEmpty() {
          prefRank := 1;
          useCardSet := sequenceCards;
        } else {
          prefRank := 2;
          useCardSet := playableCards;
        }
      case Preferred =>
        if !noConsequenceCards.IsEmpty() {
          useCardSet := CardCollection.NewFromRaw(noConsequenceCards.First() + sequenceCards.Raw());
          statCardSet := Some(CardCollection.NewFromRaw(noConsequenceCards.Raw() + sequenceCards.Raw()));
        } else if !sequenceCards.IsEmpty() {
          prefRank := 1;
          useCardSet := sequenceCards;
        } else {
          prefRank := 2;
          useCardSet := playableCards;
        }
      case Dumb =>
        useCardSet := playableCards;
    }
    var stats := if statCardSet.Some? then statCardSet.value else useCardSet;
    assert stats == StatSet(strategy, noConsequenceCards, sequenceCards, playableCards);
    assert prefRank == PrefRank(strategy, noConsequenceCards, sequenceCards);
    results.UpdateStatsFor(player, stats, prefRank);
  }
}
