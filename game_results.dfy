/** Results of the newer engine (src/game/results.rs): per player the wins
 *  and, for the play-preference statistics, the turns with no card to
 *  choose (`misses`) and the turns with one (`single`) or several
 *  (`multi`) cards to choose, by preference rank.
 */
module GameResults {
  import opened CardCollections
  import opened PlayResults

  /** A fixed array `[usize; 4]` of counters, one per preference rank. */
  type Counters = s: seq<nat> | |s| == 4 witness [0, 0, 0, 0]

  /** `struct PlayerResults`. */
  datatype PlayerResults = PlayerResults(wins: nat, misses: nat, single: Counters, multi: Counters)

  /** `PlayerResults::default()`: every counter zero. */
  function Default(): (r: PlayerResults)
    ensures Plain(r) && r.wins == 0
  {
    PlayerResults(0, 0, [0, 0, 0, 0], [0, 0, 0, 0])
  }

  /** Element-wise sum of two counter arrays. */
  function AddCounters(a: Counters, b: Counters): Counters
  {
    [a[0] + b[0], a[1] + b[1], a[2] + b[2], a[3] + b[3]]
  }

  /** `impl AddAssign<&PlayerResults>`: `self += other` sums every counter;
      the value `self` becomes is `Plus(self, other)`. */
  function Plus(a: PlayerResults, b: PlayerResults): PlayerResults
  {
    PlayerResults(a.wins + b.wins, a.misses + b.misses, AddCounters(a.single, b.single), AddCounters(a.multi, b.multi))
  }

  /** A record with wins only: every statistics counter is zero. */
  predicate Plain(r: PlayerResults)
  {
    r.misses == 0 && r.single == [0, 0, 0, 0] && r.multi == [0, 0, 0, 0]
  }

  /** The number of statistics records a player's counters hold. */
  function StatCount(r: PlayerResults): nat
  {
    r.misses + r.single[0] + r.single[1] + r.single[2] + r.single[3] +
    r.multi[0] + r.multi[1] + r.multi[2] + r.multi[3]
  }

  /** `+=` is commutative. */
  lemma PlusComm(a: PlayerResults, b: PlayerResults)
    ensures Plus(a, b) == Plus(b, a)
  {
  }

  /** `+=` is associative. */
  lemma PlusAssoc(a: PlayerResults, b: PlayerResults, c: PlayerResults)
    ensures Plus(Plus(a, b), c) == Plus(a, Plus(b, c))
  {
  }

  /** Adding a default record changes nothing. */
  lemma PlusDefault(a: PlayerResults)
    ensures Plus(a, Default()) == a && Plus(Default(), a) == a
  {
    assert AddCounters(a.single, [0, 0, 0, 0]) == a.single;
    assert AddCounters(a.multi, [0, 0, 0, 0]) == a.multi;
  }

  /** `+=` adds the wins, adds the statistics, and keeps records with wins
      only free of statistics. */
  lemma PlusCounts(a: PlayerResults, b: PlayerResults)
    ensures Plus(a, b).wins == a.wins + b.wins
    ensures StatCount(Plus(a, b)) == StatCount(a) + StatCount(b)
    ensures Plain(a) && Plain(b) ==> Plain(Plus(a, b))
  {
  }

  /** What `update_stats_for` adds to one record: a miss for no card, a
      `single` count at `prefRank` for one card, a `multi` count for more. */
  function Bump(r: PlayerResults, len: nat, prefRank: nat): PlayerResults
    requires prefRank < 4
  {
    if len < 1 then r.(misses := r.misses + 1)
    else if len == 1 then r.(single := r.single[prefRank := r.single[prefRank] + 1])
    else r.(multi := r.multi[prefRank := r.multi[prefRank] + 1])
  }

  /** A statistics update records exactly one more statistic, in the
      counter its case names, and leaves the wins alone. */
  lemma BumpCounts(r: PlayerResults, len: nat, prefRank: nat)
    requires prefRank < 4
    ensures Bump(r, len, prefRank).wins == r.wins
    ensures StatCount(Bump(r, len, prefRank)) == StatCount(r) + 1
    ensures len == 0 ==> Bump(r, len, prefRank).misses == r.misses + 1
    ensures len == 1 ==> Bump(r, len, prefRank).single[prefRank] == r.single[prefRank] + 1
    ensures len > 1 ==> Bump(r, len, prefRank).multi[prefRank] == r.multi[prefRank] + 1
  {
  }

  /** The win counters of a list of records. */
  function WinsOf(rs: seq<PlayerResults>): (w: seq<nat>)
    ensures |w| == |rs|
  {
    seq(|rs|, i requires 0 <= i < |rs| => rs[i].wins)
  }

  /** Every record of the list has wins only. */
  ghost predicate AllPlain(rs: seq<PlayerResults>)
  {
    forall i :: 0 <= i < |rs| ==> Plain(rs[i])
  }

  /** `iter_mut().zip(other.iter()).for_each(|(a, b)| *a += b)`: the list
      keeps its length, and the records both lists have are summed. */
  function ZipPlus(a: seq<PlayerResults>, b: seq<PlayerResults>): seq<PlayerResults>
  {
    seq(|a|, i requires 0 <= i < |a| => if i < |b| then Plus(a[i], b[i]) else a[i])
  }

  /** Summing lists of records sums their win counters the way the older
      engine's `add` does, and keeps lists with wins only free of
      statistics. */
  lemma ZipPlusWins(a: seq<PlayerResults>, b: seq<PlayerResults>)
    ensures WinsOf(ZipPlus(a, b)) == ZipAdd(WinsOf(a), WinsOf(b))
    ensures AllPlain(a) && AllPlain(b) ==> AllPlain(ZipPlus(a, b))
  {
    forall i | 0 <= i < |a| && i < |b| ensures Plus(a[i], b[i]).wins == a[i].wins + b[i].wins {
      PlusCounts(a[i], b[i]);
    }
    if AllPlain(a) && AllPlain(b) {
      forall i | 0 <= i < |a| && i < |b| ensures Plain(Plus(a[i], b[i])) {
        PlusCounts(a[i], b[i]);
      }
    }
  }

  /** `add` of equal-length results is commutative. */
  lemma ZipPlusComm(a: seq<PlayerResults>, b: seq<PlayerResults>)
    requires |a| == |b|
    ensures ZipPlus(a, b) == ZipPlus(b, a)
  {
    forall i | 0 <= i < |a| ensures Plus(a[i], b[i]) == Plus(b[i], a[i]) {
      PlusComm(a[i], b[i]);
    }
  }

  /** `add` of equal-length results is associative. */
  lemma ZipPlusAssoc(a: seq<PlayerResults>, b: seq<PlayerResults>, c: seq<PlayerResults>)
    requires |a| == |b| == |c|
    ensures ZipPlus(ZipPlus(a, b), c) == ZipPlus(a, ZipPlus(b, c))
  {
    forall i | 0 <= i < |a| ensures Plus(Plus(a[i], b[i]), c[i]) == Plus(a[i], Plus(b[i], c[i])) {
      PlusAssoc(a[i], b[i], c[i]);
    }
  }

  /** Adding the records of a fresh `Results::new(k)` changes nothing. */
  lemma ZipPlusDefaults(a: seq<PlayerResults>, k: nat)
    ensures ZipPlus(a, seq(k, _ => Default())) == a
  {
    forall i | 0 <= i < |a| && i < k ensures Plus(a[i], Default()) == a[i] {
      PlusDefault(a[i]);
    }
  }

  /** `struct Results`: a record per player and the number of games. */
  class Results {
    var playerResults: seq<PlayerResults>
    var games: nat

    /** The win counters. */
    function Wins(): seq<nat>
      reads this
    {
      WinsOf(playerResults)
    }

    /** Every finished game was a win for exactly one player. */
    predicate Valid()
      reads this
    {
      games == Total(Wins())
    }

    /** `Results::new(players)`: `players` default records and no games;
        the count is a `u8`. */
    constructor (players: nat)
      requires players < 256
      ensures playerResults == seq(players, _ => Default()) && games == 0
      ensures Wins() == Zeros(players) && AllPlain(playerResults) && Valid()
    {
      playerResults := seq(players, _ => Default());
      games := 0;
      new;
      assert Wins() == Zeros(players);
      TotalZeros(players);
    }

    /** `update_stats_for`: one statistics record for `player`, chosen by
        the size of `cards`; an index `prefRank` past the array panics in
        the source, so it is required in range. */
    method UpdateStatsFor(player: nat, cards: CardCollection, prefRank: nat)
      requires player < |playerResults| && prefRank < 4
      modifies this
      ensures playerResults == old(playerResults)[player := Bump(old(playerResults)[player], cards.Len(), prefRank)]
      ensures games == old(games) && Wins() == old(Wins())
      ensures old(Valid()) ==> Valid()
    {
      BumpCounts(playerResults[player], cards.Len(), prefRank);
      playerResults := playerResults[player := Bump(playerResults[player], cards.Len(), prefRank)];
      assert Wins() == old(Wins());
    }

    /** `win_for`: one more win for `player` and one more game. */
    method WinFor(player: nat)
      requires player < |playerResults|
      modifies this
      ensures playerResults == old(playerResults)[player := old(playerResults)[player].(wins := old(playerResults)[player].wins + 1)]
      ensures games == old(games) + 1
      ensures Wins() == old(Wins())[player := old(Wins())[player] + 1]
      ensures old(AllPlain(playerResults)) ==> AllPlain(playerResults)
      ensures old(Valid()) ==> Valid()
    {
      ghost var w := Wins();
      TotalUpdate(w, player, w[player] + 1);
      playerResults := playerResults[player := playerResults[player].(wins := playerResults[player].wins + 1)];
      games := games + 1;
      assert Wins() == w[player := w[player] + 1];
    }

    /** `games`: the number of games counted, which is the total of the win
        counters while the results are valid. */
    function Games(): (g: nat)
      reads this
      ensures Valid() ==> g == Total(Wins())
    {
      games
    }

    /** `add`: take over the other results, adding the game counts and the
        records of the players both have. */
    method Add(other: Results)
      requires other != this
      modifies this
      ensures playerResults == ZipPlus(old(playerResults), other.playerResults)
      ensures games == old(games) + other.games
      ensures old(Valid()) && other.Valid() && |old(playerResults)| == |other.playerResults| ==> Valid()
    {
      ghost var a := playerResults;
      games := games + other.games;
      var i := 0;
      while i < |playerResults| && i < |other.playerResults|
        invariant 0 <= i <= |playerResults| == |a| && games == old(games) + other.games
        invariant forall j :: 0 <= j < |a| ==> playerResults[j] == if j < i then ZipPlus(a, other.playerResults)[j] else a[j]
      {
        playerResults := playerResults[i := Plus(playerResults[i], other.playerResults[i])];
        i := i + 1;
      }
      assert playerResults == ZipPlus(a, other.playerResults);
      ZipPlusWins(a, other.playerResults);
      if |a| == |other.playerResults| {
        TotalZipAdd(WinsOf(a), other.Wins());
      }
    }
  }
}
