/** Bits of an unsigned number: x & (1 << i), x | (1 << i) and x & ~(1 << i); and memmove into bytes. */
module Bits {
  predicate Bit(x: nat, i: nat) {
    if i == 0 then x % 2 == 1 else Bit(x / 2, i - 1)
  }

  function SetBit(x: nat, i: nat): nat {
    if i == 0 then x / 2 * 2 + 1 else SetBit(x / 2, i - 1) * 2 + x % 2
  }

  function ClearBit(x: nat, i: nat): nat {
    if i == 0 then x / 2 * 2 else ClearBit(x / 2, i - 1) * 2 + x % 2
  }

  /** 2 to the n. */
  function Pow2(n: nat): (p: nat)
    ensures p > 0
  {
    if n == 0 then 1 else 2 * Pow2(n - 1)
  }

  lemma {:induction false} SetBitAt(x: nat, i: nat, j: nat)
    ensures Bit(SetBit(x, i), j) <==> j == i || Bit(x, j)
  {
    if i == 0 {
      assert SetBit(x, 0) / 2 == x / 2;
    } else {
      assert SetBit(x, i) / 2 == SetBit(x / 2, i - 1);
      if j > 0 { SetBitAt(x / 2, i - 1, j - 1); }
    }
  }

  lemma {:induction false} ClearBitAt(x: nat, i: nat, j: nat)
    ensures Bit(ClearBit(x, i), j) <==> j != i && Bit(x, j)
  {
    if i == 0 {
      assert ClearBit(x, 0) / 2 == x / 2;
    } else {
      assert ClearBit(x, i) / 2 == ClearBit(x / 2, i - 1);
      if j > 0 { ClearBitAt(x / 2, i - 1, j - 1); }
    }
  }

  lemma HalfBound(x: nat, half: nat)
    requires x < 2 * half
    ensures x / 2 < half && x / 2 * 2 + 1 < 2 * half
  {
  }

  lemma DoubleBound(y: nat, x: nat, half: nat)
    requires y < half
    ensures y * 2 + x % 2 < 2 * half
  {
  }

  /** Bits below n keep a number below 2 to the n. */
  lemma {:induction false} BitBound(x: nat, i: nat, n: nat)
    requires x < Pow2(n) && i < n
    ensures SetBit(x, i) < Pow2(n) && ClearBit(x, i) < Pow2(n)
  {
    var half := Pow2(n - 1);
    HalfBound(x, half);
    if i > 0 {
      BitBound(x / 2, i - 1, n - 1);
      DoubleBound(SetBit(x / 2, i - 1), x, half);
      DoubleBound(ClearBit(x / 2, i - 1), x, half);
    }
  }

  /** Clearing a bit that is set takes its weight away. */
  lemma {:induction false} ClearBitIs(x: nat, i: nat)
    requires Bit(x, i)
    ensures x >= Pow2(i) && ClearBit(x, i) == x - Pow2(i)
  {
    var h, l := x / 2, x % 2;
    assert x == 2 * h + l;
    if i > 0 { ClearBitIs(h, i - 1); }
  }

  /** Bit 6 is that of weight 64. */
  lemma BitSix(x: nat)
    ensures Bit(x, 6) <==> x / 64 % 2 == 1
    ensures Pow2(6) == 64
  {
    assert Bit(x, 6) == Bit(x / 2, 5) == Bit(x / 2 / 2, 4);
    assert Bit(x / 2 / 2, 4) == Bit(x / 2 / 2 / 2, 3) == Bit(x / 2 / 2 / 2 / 2, 2);
    Halves(x);
    var y := x / 16;
    assert Bit(y, 2) == Bit(y / 2, 1) == Bit(y / 2 / 2, 0);
    assert Pow2(2) == 4 && Pow2(4) == 16;
  }

  lemma Halves(x: nat)
    ensures x / 2 / 2 / 2 / 2 == x / 16 && x / 16 / 2 / 2 == x / 64
  {
  }

  lemma {:induction false} NoBits(j: nat)
    ensures !Bit(0, j)
  {
    if j > 0 { NoBits(j - 1); }
  }

  lemma Pow2Of32()
    ensures Pow2(32) == 0x1_0000_0000
  {
    assert Pow2(8) == 256;
    assert Pow2(16) == 0x1_0000;
    assert Pow2(24) == 0x100_0000;
  }

  /** The bytes of a 32-bit number, lowest first. */
  function Bytes4(x: nat): (b: seq<nat>)
    ensures |b| == 4 && (x < Pow2(32) ==> x == b[0] + 0x100 * b[1] + 0x1_0000 * b[2] + 0x100_0000 * b[3])
  {
    Pow2Of32();
    [x % 256, x / 256 % 256, x / 256 / 256 % 256, x / 256 / 256 / 256 % 256]
  }

  /** memmove of `data` to offset `off`. */
  function Splice(bytes: seq<nat>, off: nat, data: seq<nat>): (out: seq<nat>)
    requires off + |data| <= |bytes|
    ensures |out| == |bytes|
    ensures forall i: nat | i < |bytes| :: out[i] == if off <= i < off + |data| then data[i - off] else bytes[i]
  {
    bytes[..off] + data + bytes[off + |data|..]
  }

  lemma SpliceAt(bytes: seq<nat>, off: nat, src: seq<nat>, n: nat, k: nat, i: nat)
    requires n + k <= |src| && off + k <= |bytes| && i < |bytes|
    ensures Splice(bytes, off, src[n..n + k])[i] == if off <= i < off + k then src[n + (i - off)] else bytes[i]
  {
  }
}
