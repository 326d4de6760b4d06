/** kern/lib/bitmap.c: a fixed-size array of bits stored in 8-bit words. */
module Bitmaps {

  predicate Bit(x: bv8, k: nat)
    requires k < 8
  {
    x & (1 << k) != 0
  }

  lemma SetBitAt(x: bv8, k: nat, j: nat)
    requires k < 8 && j < 8
    ensures Bit(x | (1 << k), j) == (j == k || Bit(x, j))
  {
  }

  lemma ClearBitAt(x: bv8, k: nat, j: nat)
    requires k < 8 && j < 8
    ensures Bit(x & !(1 << k), j) == (j != k && Bit(x, j))
  {
  }

  lemma SetBit(x: bv8, k: nat, y: bv8)
    requires k < 8 && y == x | (1 << k)
    ensures forall j | 0 <= j < 8 :: Bit(y, j) == (j == k || Bit(x, j))
  {
    hide Bit;
    forall j | 0 <= j < 8
      ensures Bit(y, j) == (j == k || Bit(x, j))
    {
      SetBitAt(x, k, j);
    }
  }

  lemma ClearBit(x: bv8, k: nat, y: bv8)
    requires k < 8 && y == x & !(1 << k)
    ensures forall j | 0 <= j < 8 :: Bit(y, j) == (j != k && Bit(x, j))
  {
    hide Bit;
    forall j | 0 <= j < 8
      ensures Bit(y, j) == (j != k && Bit(x, j))
    {
      ClearBitAt(x, k, j);
    }
  }

  lemma AllOnes(b: bv8)
    requires b & 1 != 0 && b & 2 != 0 && b & 4 != 0 && b & 8 != 0
    requires b & 16 != 0 && b & 32 != 0 && b & 64 != 0 && b & 128 != 0
    ensures b == 0xff
  {
  }

  lemma FullWord(x: bv8)
    ensures x == 0xff <==> forall j | 0 <= j < 8 :: Bit(x, j)
  {
    if forall j | 0 <= j < 8 :: Bit(x, j) {
      assert Bit(x, 0) && Bit(x, 1) && Bit(x, 2) && Bit(x, 3) && Bit(x, 4) && Bit(x, 5) && Bit(x, 6) && Bit(x, 7);
      AllOnes(x);
    }
  }

  function DivRoundUp(a: nat, b: nat): (r: nat)
    requires b > 0
    ensures (r - 1) * b < a <= r * b
  {
    (a + b - 1) / b
  }

  /** The bits held by a word array: bit i is bit i % 8 of word i / 8. */
  function BitsOf(v: seq<bv8>): (bits: seq<bool>)
    ensures |bits| == 8 * |v|
  {
    seq(8 * |v|, i requires 0 <= i < 8 * |v| => Bit(v[i / 8], i % 8))
  }

  class Bitmap {
    const nbits: nat
    const v: array<bv8>
    ghost var bits: seq<bool>  // the bits held, without the spare ones of the last word

    /** The array holds the nbits bits, and the spare bits of its last word are marked in use. */
    ghost predicate Valid()
      reads this, v
    {
      && v.Length == DivRoundUp(nbits, 8)
      && BitsOf(v[..])[..nbits] == bits
      && forall i :: nbits <= i < 8 * v.Length ==> BitsOf(v[..])[i]
    }

    /** bitmap_create: all bits clear, spare bits of the last word set. */
    constructor (nbits: nat)
      ensures Valid() && fresh(v) && this.nbits == nbits
      ensures bits == seq(nbits, _ => false)
    {
      var words := DivRoundUp(nbits, 8);
      var data := new bv8[words](_ => 0);
      this.nbits := nbits;
      v := data;
      new;
      assert forall j | 0 <= j < 8 :: !Bit(0, j);
      if words > nbits / 8 {
        hide Bit;
        var ix := words - 1;
        var overbits := nbits - ix * 8;
        assert nbits / 8 == words - 1;
        assert 0 < overbits < 8;
        for j := overbits to 8
          invariant forall i | 0 <= i < words && i != ix :: v[i] == 0
          invariant forall i | 0 <= i < 8 :: Bit(v[ix], i) == (overbits <= i < j)
        {
          var w := v[ix] | (1 << j);
          SetBit(v[ix], j, w);
          v[ix] := w;
        }
        assert forall i :: nbits <= i < 8 * words ==> i / 8 == ix && i % 8 >= overbits;
      }
      bits := BitsOf(v[..])[..nbits];
    }

    /** bitmap_alloc: claims the lowest clear bit; reports failure exactly when every bit is set. */
    method Alloc() returns (ok: bool, index: nat)
      requires Valid()
      modifies this, v
      ensures Valid()
      ensures ok ==> index < nbits && !old(bits)[index] && bits == old(bits)[index := true]
      ensures ok ==> forall i :: 0 <= i < index ==> old(bits)[i]
      ensures !ok ==> bits == old(bits) && forall i :: 0 <= i < nbits ==> bits[i]
    {
      hide Bit;
      hide BitsOf;
      var maxix := DivRoundUp(nbits, 8);
      for ix := 0 to maxix
        invariant Valid() && bits == old(bits)
        invariant forall i :: 0 <= i < 8 * ix ==> BitsOf(v[..])[i]
      {
        FullWord(v[ix]);
        ghost var before := v[..];
        if v[ix] != 0xff {
          for offset := 0 to 8
            invariant Valid() && bits == old(bits) && v[..] == before
            invariant forall j :: 0 <= j < offset ==> Bit(v[ix], j)
          {
            if !Bit(v[ix], offset) {
              index := ix * 8 + offset;
              LowestClear(v[..], ix, offset);
              Mark(index);
              ok := true;
              return;
            }
          }
          assert false;
        }
        LowestClear(v[..], ix, 8);
      }
      ok, index := false, 0;
    }

    /** bitmap_mark and bitmap_unmark: flip one bit that must hold the other value. */
    method Mark(index: nat)
      requires Valid() && index < nbits && !bits[index]
      modifies this, v
      ensures Valid() && bits == old(bits)[index := true]
    {
      hide Bit;
      SetWord(v[..], index);
      v[index / 8] := v[index / 8] | (1 << (index % 8));
      bits := bits[index := true];
    }

    method Unmark(index: nat)
      requires Valid() && index < nbits && bits[index]
      modifies this, v
      ensures Valid() && bits == old(bits)[index := false]
    {
      hide Bit;
      ClearWord(v[..], index);
      v[index / 8] := v[index / 8] & !(1 << (index % 8));
      bits := bits[index := false];
    }

    method IsSet(index: nat) returns (set_: bool)
      requires Valid() && index < nbits
      ensures set_ == bits[index]
    {
      set_ := Bit(v[index / 8], index % 8);
    }
  }

  lemma BitAt(v: seq<bv8>, j: nat)
    requires j < 8 * |v|
    ensures BitsOf(v)[j] == Bit(v[j / 8], j % 8)
  {
    hide Bit;
  }

  /** Where the words before ix are full, the first clear bit of word ix is the first of the map. */
  lemma LowestClear(v: seq<bv8>, ix: nat, offset: nat)
    requires ix < |v| && offset <= 8
    requires forall i :: 0 <= i < 8 * ix ==> BitsOf(v)[i]
    requires forall j :: 0 <= j < offset ==> Bit(v[ix], j)
    ensures forall i :: 0 <= i < 8 * ix + offset ==> BitsOf(v)[i]
    ensures offset < 8 ==> BitsOf(v)[8 * ix + offset] == Bit(v[ix], offset)
  {
    hide Bit;
    hide BitsOf;
    forall i | 0 <= i < 8 * ix + offset
      ensures BitsOf(v)[i]
    {
      BitAt(v, i);
    }
    if offset < 8 {
      BitAt(v, 8 * ix + offset);
    }
  }

  /** Changing one mask bit of word i / 8 changes exactly bit i of the whole map. */
  lemma FlipWord(v: seq<bv8>, i: nat, w: bv8, set_: bool)
    requires i < 8 * |v|
    requires forall o | 0 <= o < 8 :: Bit(w, o) == if o == i % 8 then set_ else Bit(v[i / 8], o)
    ensures BitsOf(v[i / 8 := w]) == BitsOf(v)[i := set_]
  {
    hide Bit;
    hide BitsOf;
    var v' := v[i / 8 := w];
    forall j | 0 <= j < 8 * |v|
      ensures BitsOf(v')[j] == BitsOf(v)[i := set_][j]
    {
      BitAt(v, j);
      BitAt(v', j);
    }
  }

  lemma SetWord(v: seq<bv8>, i: nat)
    requires i < 8 * |v|
    ensures BitsOf(v[i / 8 := v[i / 8] | (1 << (i % 8))]) == BitsOf(v)[i := true]
  {
    hide Bit;
    var w := v[i / 8] | (1 << (i % 8));
    SetBit(v[i / 8], i % 8, w);
    FlipWord(v, i, w, true);
  }

  lemma ClearWord(v: seq<bv8>, i: nat)
    requires i < 8 * |v|
    ensures BitsOf(v[i / 8 := v[i / 8] & !(1 << (i % 8))]) == BitsOf(v)[i := false]
  {
    hide Bit;
    var w := v[i / 8] & !(1 << (i % 8));
    ClearBit(v[i / 8], i % 8, w);
    FlipWord(v, i, w, false);
  }
}
