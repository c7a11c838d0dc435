/** The compact bitfield of pieces, most significant bit first, and the set it stands for. */
module Bitfield {

  /** `1 << (7 - k)`. */
  function Mask(k: nat): bv8
    requires k < 8
  {
    if k == 0 then 0x80 else if k == 1 then 0x40 else if k == 2 then 0x20 else if k == 3 then 0x10
    else if k == 4 then 0x08 else if k == 5 then 0x04 else if k == 6 then 0x02 else 0x01
  }

  predicate Bit(bits: seq<bv8>, i: nat)
    requires i / 8 < |bits|
  {
    bits[i / 8] & Mask(i % 8) != 0
  }

  /** Bit i counts from the most significant bit of byte i / 8: moved up by i % 8 places it is the top bit. */
  lemma BitIsFromTheTop(bits: seq<bv8>, i: nat)
    requires i / 8 < |bits|
    ensures Bit(bits, i) <==> TopBit(bits[i / 8], i % 8)
  {
    Moved(bits[i / 8]);
  }

  /** Is the top bit of the byte set once it has been moved up by k places? */
  predicate TopBit(b: bv8, k: nat)
    requires k < 8
  {
    if k == 0 then b >= 0x80 else if k == 1 then b << 1 >= 0x80 else if k == 2 then b << 2 >= 0x80
    else if k == 3 then b << 3 >= 0x80 else if k == 4 then b << 4 >= 0x80 else if k == 5 then b << 5 >= 0x80
    else if k == 6 then b << 6 >= 0x80 else b << 7 >= 0x80
  }

  lemma Moved(b: bv8)
    ensures b & 0x80 != 0 <==> b >= 0x80
    ensures b & 0x40 != 0 <==> b << 1 >= 0x80
    ensures b & 0x20 != 0 <==> b << 2 >= 0x80
    ensures b & 0x10 != 0 <==> b << 3 >= 0x80
    ensures b & 0x08 != 0 <==> b << 4 >= 0x80
    ensures b & 0x04 != 0 <==> b << 5 >= 0x80
    ensures b & 0x02 != 0 <==> b << 6 >= 0x80
    ensures b & 0x01 != 0 <==> b << 7 >= 0x80
  {
  }

  function ByteLength(n: nat): nat {
    (n + 7) / 8
  }

  /** The indices below n whose bit is set. */
  function BitSet(bits: seq<bv8>, n: nat): (s: set<nat>)
    requires ByteLength(n) <= |bits|
    ensures forall i: nat :: i in s <==> i < n && Bit(bits, i)
  {
    if n == 0 then {} else BitSet(bits, n - 1) + if Bit(bits, n - 1) then {n - 1} else {}
  }

  lemma MaskBits(b: bv8, k: nat, m: nat)
    requires k < 8 && m < 8
    ensures (b | Mask(k)) & Mask(m) != 0 <==> k == m || b & Mask(m) != 0
  {
    var x, y := Mask(k), Mask(m);
    assert k == m ==> y != 0 && x == y;
    assert k != m ==> x & y == 0;
    OrAnd(b, x, y);
  }

  lemma OrAnd(b: bv8, x: bv8, y: bv8)
    ensures (b | x) & y == (b & y) | (x & y)
    ensures x & x == x
    ensures (b & y) | 0 == b & y
    ensures y != 0 ==> (b & y) | y != 0
  {
  }

  function WithBit(bits: seq<bv8>, i: nat): seq<bv8>
    requires i / 8 < |bits|
  {
    bits[i / 8 := bits[i / 8] | Mask(i % 8)]
  }

  /** Setting a bit adds exactly its index, one byte holding eight of them. */
  lemma SetAddsIndex(bits: seq<bv8>, n: nat, i: nat)
    requires ByteLength(n) <= |bits| && i < n
    ensures |WithBit(bits, i)| == |bits| && BitSet(WithBit(bits, i), n) == BitSet(bits, n) + {i}
  {
    hide Mask, WithBit, Bit;
    var after := WithBit(bits, i);
    BitAfter(bits, i, i);
    forall j: nat | j < n
      ensures Bit(after, j) <==> j == i || Bit(bits, j)
    {
      BitAfter(bits, i, j);
    }
  }

  lemma BitAfter(bits: seq<bv8>, i: nat, j: nat)
    requires i / 8 < |bits| && j / 8 < |bits|
    ensures |WithBit(bits, i)| == |bits|
    ensures Bit(WithBit(bits, i), j) <==> j == i || Bit(bits, j)
  {
    hide Mask, Bit, WithBit;
    SamePlace(i, j);
    WithBitAt(bits, i, j / 8);
    BitAt(bits, j);
    BitAt(WithBit(bits, i), j);
    MaskBits(bits[j / 8], i % 8, j % 8);
  }

  lemma WithBitAt(bits: seq<bv8>, i: nat, at: nat)
    requires i / 8 < |bits| && at < |bits|
    ensures |WithBit(bits, i)| == |bits|
    ensures WithBit(bits, i)[at] == if at == i / 8 then bits[at] | Mask(i % 8) else bits[at]
  {
    hide Mask;
  }

  lemma BitAt(bits: seq<bv8>, i: nat)
    requires i / 8 < |bits|
    ensures Bit(bits, i) <==> bits[i / 8] & Mask(i % 8) != 0
  {
    hide Mask;
  }

  lemma SamePlace(i: nat, j: nat)
    ensures i == j <==> i / 8 == j / 8 && i % 8 == j % 8
  {
  }

  lemma ClearBits(bits: seq<bv8>, n: nat)
    requires ByteLength(n) <= |bits| && forall k :: 0 <= k < |bits| ==> bits[k] == 0
    ensures BitSet(bits, n) == {}
  {
    hide Mask;
    forall i: nat | i < n
      ensures !Bit(bits, i)
    {
      ZeroAnd(Mask(i % 8));
    }
  }

  lemma ZeroAnd(x: bv8)
    ensures 0 & x == 0
  {
  }

  lemma BitSetStart(bits: seq<bv8>)
    ensures |BitSet(bits, 0)| == 0
  {
  }

  lemma BitSetNext(bits: seq<bv8>, i: nat)
    requires ByteLength(i + 1) <= |bits|
    ensures |BitSet(bits, i + 1)| == |BitSet(bits, i)| + if Bit(bits, i) then 1 else 0
  {
  }

  class Bitfield {
    var bits: seq<bv8>
    const numPieces: nat
    var count: nat

    ghost function View(): set<nat>
      requires ByteLength(numPieces) <= |bits|
      reads this
    {
      BitSet(bits, numPieces)
    }

    ghost predicate Valid()
      reads this
    {
      ByteLength(numPieces) <= |bits| && count == |View()|
    }

    constructor (n: nat)
      ensures Valid() && numPieces == n && View() == {}
    {
      bits := seq(ByteLength(n), _ => 0);
      numPieces := n;
      count := 0;
      new;
      ClearBits(bits, n);
    }

    /** From the bytes of a wire message, which must be long enough. */
    constructor FromBytes(bytes: seq<bv8>, n: nat)
      requires ByteLength(n) <= |bytes|
      ensures Valid() && numPieces == n && View() == BitSet(bytes, n)
    {
      bits := bytes;
      numPieces := n;
      count := 0;
      new;
      count := CountSetBits();
    }

    predicate Has(index: nat)
      requires ByteLength(numPieces) <= |bits|
      reads this
      ensures Has(index) <==> index in View()
    {
      if index >= numPieces then false
      else bits[index / 8] & Mask(index % 8) != 0
    }

    method Set(index: nat)
      requires Valid()
      modifies this
      ensures Valid() && View() == if index < numPieces then old(View()) + {index} else old(View())
    {
      hide Mask, BitSet, Bit, WithBit;
      if index < numPieces && !Has(index) {
        SetAddsIndex(bits, numPieces, index);
        bits := WithBit(bits, index);
        count := count + 1;
      }
    }

    predicate IsComplete()
      reads this
    {
      count == numPieces
    }

    method CountSetBits() returns (c: nat)
      requires ByteLength(numPieces) <= |bits|
      ensures c == |View()|
    {
      hide Mask, BitSet;
      c := 0;
      BitSetStart(bits);
      for i := 0 to numPieces
        invariant c == |BitSet(bits, i)|
      {
        BitSetNext(bits, i);
        if Bit(bits, i) {
          c := c + 1;
        }
      }
    }
  }
}
