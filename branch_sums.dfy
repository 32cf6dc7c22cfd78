/** Sums of per-card win counters, the arithmetic behind adding up the
 *  results of the branches of a turn in whatever order they come in
 *  (src/game/play.rs joins its concurrent tasks as they finish).
 */
module BranchSums {
  import opened Cards
  import opened PlayResults

  /** Every card of the map carries counters for `n` players. */
  ghost predicate Sized(parts: map<Bit, seq<nat>>, n: nat)
  {
    forall b :: b in parts ==> |parts[b]| == n
  }

  /** The counters `parts[b]` summed over the cards `cs`, lowest card
      first. */
  ghost function SumParts(parts: map<Bit, seq<nat>>, cs: Word, n: nat): (w: seq<nat>)
    requires cs <= parts.Keys && Sized(parts, n)
    ensures |w| == n
    decreases |cs|
  {
    if cs == {} then Zeros(n)
    else
      var b := Lowest(cs);
      ZipAdd(parts[b], SumParts(parts, cs - {b}, n))
  }

  /** Taking a card other than the lowest out of a word leaves the
      lowest where it was. */
  lemma LowestWithout(cs: Word, b: Bit)
    requires b in cs && b != Lowest(cs)
    ensures cs - {b} != {} && Lowest(cs - {b}) == Lowest(cs)
    ensures (cs - {b}) - {Lowest(cs)} == (cs - {Lowest(cs)}) - {b}
  {
    assert Lowest(cs) in cs - {b};
  }

  /** Two additions of equal-length counters may be swapped. */
  lemma ZipAddRotate(x: seq<nat>, y: seq<nat>, r: seq<nat>)
    requires |x| == |y| == |r|
    ensures ZipAdd(x, ZipAdd(y, r)) == ZipAdd(y, ZipAdd(x, r))
  {
    ZipAddAssoc(x, y, r);
    ZipAddComm(x, y);
    ZipAddAssoc(y, x, r);
  }

  /** The order of the sum does not matter: any card's counters may be
      taken out first. */
  lemma {:induction false} SumPartsAny(parts: map<Bit, seq<nat>>, cs: Word, b: Bit, n: nat)
    requires cs <= parts.Keys && Sized(parts, n) && b in cs
    ensures SumParts(parts, cs, n) == ZipAdd(parts[b], SumParts(parts, cs - {b}, n))
    decreases |cs|
  {
    var l := Lowest(cs);
    if b != l {
      LowestWithout(cs, b);
      SumPartsAny(parts, cs - {l}, b, n);
      ZipAddRotate(parts[l], parts[b], SumParts(parts, (cs - {l}) - {b}, n));
    }
  }

  /** The running total of adding up every card's counters one card at a
      time: with the cards `rest` still to add, the counters `wins` and the
      count `games` come to `w0` and `g0` plus the sum of all the parts. */
  ghost predicate Tally(parts: map<Bit, seq<nat>>, n: nat, wins: seq<nat>, games: nat, rest: Word,
                        w0: seq<nat>, g0: nat)
  {
    rest <= parts.Keys && Sized(parts, n) && |wins| == n && |w0| == n &&
    ZipAdd(wins, SumParts(parts, rest, n)) == ZipAdd(w0, SumParts(parts, parts.Keys, n)) &&
    games + Total(SumParts(parts, rest, n)) == g0 + Total(SumParts(parts, parts.Keys, n))
  }

  /** Before anything is added, every card is still to come. */
  lemma TallyStart(parts: map<Bit, seq<nat>>, n: nat, w0: seq<nat>, g0: nat)
    requires Sized(parts, n) && |w0| == n
    ensures Tally(parts, n, w0, g0, parts.Keys, w0, g0)
  {
  }

  /** Adding the counters of any pending card, and their total to the
      count, keeps the running total. */
  lemma TallyStep(parts: map<Bit, seq<nat>>, n: nat, wins: seq<nat>, games: nat, rest: Word, b: Bit,
                  w0: seq<nat>, g0: nat)
    requires Tally(parts, n, wins, games, rest, w0, g0) && b in rest
    ensures Tally(parts, n, ZipAdd(wins, parts[b]), games + Total(parts[b]), rest - {b}, w0, g0)
  {
    SumPartsAny(parts, rest, b, n);
    ZipAddAssoc(wins, parts[b], SumParts(parts, rest - {b}, n));
    TotalZipAdd(parts[b], SumParts(parts, rest - {b}, n));
  }

  /** With nothing pending the running total is the final one. */
  lemma TallyDone(parts: map<Bit, seq<nat>>, n: nat, wins: seq<nat>, games: nat, rest: Word, w0: seq<nat>, g0: nat)
    requires Tally(parts, n, wins, games, rest, w0, g0) && rest == {}
    ensures wins == ZipAdd(w0, SumParts(parts, parts.Keys, n))
    ensures games == g0 + Total(SumParts(parts, parts.Keys, n))
  {
    ZipAddZeros(wins, n);
    TotalZeros(n);
  }
}
