/** A set of cards as the bitwise union of their words
 *  (src/cards/card_collection.rs).
 */
module CardCollections {
  import opened Cards

  /** `struct CardCollection(u64)`. The in-place `&mut self` updates of the
      source are modelled as functions returning the updated word; the
      owner of a collection reassigns it. */
  datatype CardCollection = CardCollection(bits: Word)
  {
    /** `CardCollection::new`: no cards. */
    static function New(): (r: CardCollection)
      ensures r.IsEmpty() && r.Len() == 0
      ensures forall c: Card :: !r.Contains(c)
    {
      CardCollection({})
    }

    /** `CardCollection::new_single`: exactly the given card. */
    static function NewSingle(card: Card): (r: CardCollection)
      ensures card.bits != {} ==> r.Contains(card)
      ensures card.IsReal() ==> forall d: Card :: d.IsReal() ==> (r.Contains(d) <==> d == card)
    {
      CardCollection(card.Raw())
    }

    /** `CardCollection::new_from_raw`: wrap a word as it is. */
    static function NewFromRaw(val: Word): (r: CardCollection)
      ensures r.Raw() == val
    {
      CardCollection(val)
    }

    /** `raw`: the word of the collection. */
    function Raw(): Word
    {
      bits
    }

    /** `add`: `self.0 |= card.raw()`. */
    function Add(card: Card): (r: CardCollection)
      ensures card.bits != {} ==> r.Contains(card)
      ensures forall c: Card :: Contains(c) ==> r.Contains(c)
      ensures card.bits <= bits ==> r == this && r.Len() == Len()
    {
      CardCollection(bits + card.Raw())
    }

    /** `remove`: `self.0 &= !card.raw()`. */
    function Remove(card: Card): (r: CardCollection)
      ensures !r.Contains(card)
      ensures forall c: Card :: r.Contains(c) ==> Contains(c)
      ensures bits !! card.bits ==> r == this
    {
      CardCollection(bits - card.Raw())
    }

    /** `set`: replace the contents with the card's word. */
    function Set(card: Card): (r: CardCollection)
      ensures r.Raw() == card.Raw()
    {
      CardCollection(card.Raw())
    }

    /** `contains`: the words share a set bit. */
    predicate Contains(card: Card)
    {
      bits * card.Raw() != {}
    }

    /** `is_empty`: the word is zero. */
    predicate IsEmpty()
    {
      bits == {}
    }

    /** `len`: the number of set bits (`count_ones`). */
    function Len(): (n: nat)
      ensures n == 0 <==> IsEmpty()
    {
      |bits|
    }

    /** `first`: the lowest set bit, isolated; the empty word for none. */
    function First(): (w: Word)
      ensures IsEmpty() <==> w == {}
      ensures !IsEmpty() ==> exists b :: w == {b} && b in bits && forall x :: x in bits ==> b <= x
    {
      if bits == {} then {} else {Lowest(bits)}
    }
  }

  /** The bits of a word in ascending order: what the iterator yields. */
  function Ascending(w: Word): seq<Bit>
    decreases w
  {
    if w == {} then [] else [Lowest(w)] + Ascending(w - {Lowest(w)})
  }

  lemma {:induction false} AscendingLength(w: Word)
    ensures |Ascending(w)| == |w|
  {
    if w != {} {
      var b := Lowest(w);
      AscendingLength(w - {b});
    }
  }

  lemma {:induction false} AscendingMembers(w: Word)
    ensures forall b :: b in Ascending(w) <==> b in w
  {
    if w != {} {
      var b := Lowest(w);
      AscendingMembers(w - {b});
    }
  }

  lemma {:induction false} AscendingSorted(w: Word)
    ensures forall i, j :: 0 <= i < j < |Ascending(w)| ==> Ascending(w)[i] < Ascending(w)[j]
  {
    if w != {} {
      var b := Lowest(w);
      var w' := w - {b};
      AscendingSorted(w');
      AscendingMembers(w');
      var t := Ascending(w');
      var a := Ascending(w);
      assert a == [b] + t;
      forall i, j | 0 <= i < j < |a| ensures a[i] < a[j] {
        assert a[j] == t[j - 1];
        assert t[j - 1] in w';
        if 0 < i {
          assert a[i] == t[i - 1];
        }
      }
    }
  }

  /** The iterator yields every set bit exactly once, in strictly ascending
      order, and as many bits as `len` counts. */
  lemma AscendingYieldsAll(w: Word)
    ensures |Ascending(w)| == CardCollection(w).Len()
    ensures forall i, j :: 0 <= i < j < |Ascending(w)| ==> Ascending(w)[i] < Ascending(w)[j]
    ensures forall b :: b in Ascending(w) <==> b in w
  {
    AscendingLength(w);
    AscendingMembers(w);
    AscendingSorted(w);
  }

  /** Adding a card sets its bits and leaves every other bit as it was
      (card_collection.rs test1). */
  lemma AddMembership(h: CardCollection, c: Card, b: Bit)
    ensures h.Add(c).Contains(Single(b)) <==> b in c.bits || h.Contains(Single(b))
  {
    assert b in h.Add(c).bits ==> b in h.Add(c).bits * Single(b).bits;
  }

  /** Removing a card clears its bits and leaves every other bit as it was
      (card_collection.rs test1). */
  lemma RemoveMembership(h: CardCollection, c: Card, b: Bit)
    ensures h.Remove(c).Contains(Single(b)) <==> b !in c.bits && h.Contains(Single(b))
  {
    assert b in h.Remove(c).bits ==> b in h.Remove(c).bits * Single(b).bits;
    assert b in h.bits ==> b in h.bits * Single(b).bits;
  }

  /** `iter`'s iterator: a copy of the word from which `next` clears the
      lowest set bit at each step. */
  class CardCollectionIterator {
    var rest: Word

    /** `CardCollection::iter`. */
    constructor (collection: CardCollection)
      ensures rest == collection.bits
    {
      rest := collection.bits;
    }

    /** `Iterator::next`: the lowest remaining bit as a single-bit card,
        cleared from the iterator's word; `None` once the word is zero. */
    method Next() returns (r: Option<Card>)
      modifies this
      ensures old(rest) == {} <==> r.None?
      ensures r.None? ==> rest == old(rest)
      ensures r.Some? ==> r.value == Single(Lowest(old(rest))) && rest == old(rest) - {Lowest(old(rest))}
      ensures r.Some? ==> Ascending(old(rest)) == [Lowest(old(rest))] + Ascending(rest)
    {
      var nextPos := TrailingZeros(rest);
      if nextPos == 64 {
        r := None;
      } else {
        var next: Bit := nextPos as Bit;
        rest := rest - {next};
        r := Some(Card.NewFromRaw({next}));
      }
    }
  }
}
