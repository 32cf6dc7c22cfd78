/** Win counters of the older engine (src/play/results.rs). */
module PlayResults {

  /** `a[i] += b[i]` for every index both have, as `iter_mut().zip(..)`
      does: the result keeps the length of `a`. */
  function ZipAdd(a: seq<nat>, b: seq<nat>): seq<nat>
  {
    seq(|a|, i requires 0 <= i < |a| => if i < |b| then a[i] + b[i] else a[i])
  }

  /** `vec![0; n]`. */
  function Zeros(n: nat): seq<nat>
  {
    seq(n, _ => 0)
  }

  /** The counters of a single win for player `p` among `n`. */
  function Unit(n: nat, p: nat): seq<nat>
    requires p < n
  {
    Zeros(n)[p := 1]
  }

  /** The sum of all counters. */
  function Total(w: seq<nat>): nat
  {
    if w == [] then 0 else w[0] + Total(w[1..])
  }

  /** Adding a fresh `Results::new(k)` leaves every counter as it was. */
  lemma ZipAddZeros(w: seq<nat>, k: nat)
    ensures ZipAdd(w, Zeros(k)) == w
  {
  }

  /** `win_for(p)` is the addition of one win for `p`. */
  lemma ZipAddUnit(w: seq<nat>, p: nat)
    requires p < |w|
    ensures ZipAdd(w, Unit(|w|, p)) == w[p := w[p] + 1]
    ensures Total(Unit(|w|, p)) == 1
  {
    TotalZeros(|w|);
    TotalUpdate(Zeros(|w|), p, 1);
  }

  /** Two additions may be done in either order. */
  lemma ZipAddSwap(a: seq<nat>, b: seq<nat>, c: seq<nat>)
    ensures ZipAdd(ZipAdd(a, b), c) == ZipAdd(ZipAdd(a, c), b)
  {
  }

  /** Adding a sum of two equal-length vectors is adding them one by one. */
  lemma ZipAddAssoc(a: seq<nat>, b: seq<nat>, c: seq<nat>)
    requires |b| == |c|
    ensures ZipAdd(ZipAdd(a, b), c) == ZipAdd(a, ZipAdd(b, c))
  {
  }

  /** Element-wise addition of equal-length vectors is commutative. */
  lemma ZipAddComm(a: seq<nat>, b: seq<nat>)
    requires |a| == |b|
    ensures ZipAdd(a, b) == ZipAdd(b, a)
  {
  }

  lemma {:induction false} TotalZeros(n: nat)
    ensures Total(Zeros(n)) == 0
  {
    if n > 0 {
      assert Zeros(n)[1..] == Zeros(n - 1);
      TotalZeros(n - 1);
    }
  }

  lemma {:induction false} TotalUpdate(w: seq<nat>, p: nat, v: nat)
    requires p < |w|
    ensures Total(w[p := v]) == Total(w) - w[p] + v
  {
    if p > 0 {
      assert w[p := v][1..] == w[1..][p - 1 := v];
      TotalUpdate(w[1..], p - 1, v);
    }
  }

  /** The total of an element-wise sum of equal-length vectors is the sum of
      their totals. */
  lemma {:induction false} TotalZipAdd(a: seq<nat>, b: seq<nat>)
    requires |a| == |b|
    ensures Total(ZipAdd(a, b)) == Total(a) + Total(b)
  {
    if a != [] {
      assert ZipAdd(a, b)[1..] == ZipAdd(a[1..], b[1..]);
      TotalZipAdd(a[1..], b[1..]);
    }
  }

  /** `struct Results`: a win counter per player and the number of games. */
  class Results {
    var wins: seq<nat>
    var games: nat

    /** Every finished game was a win for exactly one player. */
    predicate Valid()
      reads this
    {
      games == Total(wins)
    }

    /** `Results::new`: `players` zero counters and no games. */
    constructor (players: nat)
      ensures wins == Zeros(players) && games == 0
      ensures Valid()
    {
      wins := Zeros(players);
      games := 0;
      TotalZeros(players);
    }

    /** `win_for`: one more win for `player` and one more game. */
    method WinFor(player: nat)
      requires player < |wins|
      modifies this
      ensures wins == old(wins)[player := old(wins)[player] + 1]
      ensures games == old(games) + 1
      ensures old(Valid()) ==> Valid()
    {
      TotalUpdate(wins, player, wins[player] + 1);
      wins := wins[player := wins[player] + 1];
      games := games + 1;
    }

    /** `games`: the number of games counted, which is the total of the win
        counters while the counters are valid. */
    function Games(): (g: nat)
      reads this
      ensures Valid() ==> g == Total(wins)
    {
      games
    }

    /** `add`: add the other counters into these, index by index over the
        shorter list, and add the game counts. */
    method Add(other: Results)
      modifies this
      ensures wins == ZipAdd(old(wins), old(other.wins))
      ensures games == old(games) + old(other.games)
      ensures old(Valid()) && old(other.Valid()) && |old(wins)| == |old(other.wins)| ==> Valid()
    {
      if |wins| == |other.wins| {
        TotalZipAdd(wins, other.wins);
      }
      games := games + other.games;
      wins := ZipAdd(wins, other.wins);
    }
  }
}
