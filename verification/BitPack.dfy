/**
 Packing of downlink coded bits, one per byte, into bytes for the FS6 link, and back. The packer works
 on 16 bytes at a time with vector operations; the unpacker copies 8-byte entries of a lookup table.
 */
module BitPack {
  import opened Fs6Chain

  const VECTOR := 16

  // Value of a bit vector, lowest bit first.
  function FromBits(bits: seq<bool>): nat {
    if bits == [] then 0 else (if bits[0] then 1 else 0) + 2 * FromBits(bits[1..])
  }

  function Pow2(n: nat): nat { if n == 0 then 1 else 2 * Pow2(n - 1) }

  // (v >> j) & 1
  function Bit(v: nat, j: nat): (b: nat)
    ensures b < 2
  {
    if j == 0 then v % 2 else Bit(v / 2, j - 1)
  }

  function Bits(v: nat, n: nat): (b: seq<bool>)
    ensures |b| == n && forall j :: 0 <= j < n ==> b[j] == (Bit(v, j) == 1)
  {
    seq(n, (j: nat) => Bit(v, j) == 1)
  }

  lemma {:induction false} FromBitsBound(bits: seq<bool>)
    ensures FromBits(bits) < Pow2(|bits|)
  {
    if bits != [] {
      FromBitsBound(bits[1..]);
    }
  }

  lemma {:induction false} BitOfFromBits(bits: seq<bool>, j: nat)
    requires j < |bits|
    ensures Bit(FromBits(bits), j) == if bits[j] then 1 else 0
  {
    if j > 0 {
      BitOfFromBits(bits[1..], j - 1);
      assert FromBits(bits) / 2 == FromBits(bits[1..]);
    }
  }

  lemma {:induction false} FromBitsOfBits(v: nat, n: nat)
    requires v < Pow2(n)
    ensures FromBits(Bits(v, n)) == v
  {
    if n > 0 {
      FromBitsOfBits(v / 2, n - 1);
      assert Bits(v, n)[1..] == Bits(v / 2, n - 1) by {
        assert forall j :: 1 <= j < n ==> Bit(v, j) == Bit(v / 2, j - 1);
      }
    }
  }

  lemma {:induction false} FromBitsConcat(a: seq<bool>, b: seq<bool>)
    ensures FromBits(a + b) == FromBits(a) + Pow2(|a|) * FromBits(b)
  {
    if a == [] {
      assert a + b == b;
    } else {
      FromBitsConcat(a[1..], b);
      assert (a + b)[1..] == a[1..] + b;
      assert Pow2(|a|) * FromBits(b) == 2 * (Pow2(|a| - 1) * FromBits(b));
    }
  }

  // ceil16_bytes
  function Ceil16Bytes(bits: nat): (r: nat)
    ensures r % 2 == 0 && bits <= 8 * r < bits + 16
  {
    (bits + 15) / 16 * 16 / 8
  }

  // ---- the vector operations ----

  type Vector = v: seq<int> | |v| == VECTOR witness seq(VECTOR, _ => 0)

  // _mm_cmpgt_epi8 against zero: all ones where the signed byte is positive.
  function CmpGtZero(v: Vector): Vector {
    seq(VECTOR, i requires 0 <= i < VECTOR => if v[i] > 0 then -1 else 0)
  }

  // _mm_shuffle_epi8 with the control bytes 7..0 and 15..8: each half reversed.
  function ShuffleHalves(v: Vector): Vector {
    seq(VECTOR, i requires 0 <= i < VECTOR => v[if i < 8 then 7 - i else 23 - i])
  }

  // _mm_movemask_epi8: the sign bits.
  function MoveMask(v: Vector): nat {
    FromBits(seq(VECTOR, i requires 0 <= i < VECTOR => v[i] < 0))
  }

  /** The packed byte of eight input bytes: bit j tells whether byte 7 - j is positive. */
  function Pack8(group: seq<int>): (b: Byte)
    requires |group| == 8
  {
    FromBitsBound(Signs(group));
    assert Pow2(8) == 256 by { assert Pow2(4) == 16; }
    FromBits(Signs(group))
  }

  function Signs(group: seq<int>): (r: seq<bool>)
    requires |group| == 8
    ensures |r| == 8
  {
    seq(8, j requires 0 <= j < 8 => group[7 - j] > 0)
  }

  // One vector gives the two packed bytes of its halves, as a little-endian 16-bit value.
  lemma VectorPacksTwo(v: Vector)
    ensures var m := MoveMask(ShuffleHalves(CmpGtZero(v)));
            m % 256 == Pack8(v[..8]) && m / 256 == Pack8(v[8..]) && m < U16
  {
    var s := ShuffleHalves(CmpGtZero(v));
    var mask := seq(VECTOR, i requires 0 <= i < VECTOR => s[i] < 0);
    assert mask == Signs(v[..8]) + Signs(v[8..]);
    TwoBytes(v[..8], v[8..]);
  }

  lemma TwoBytes(a: seq<int>, b: seq<int>)
    requires |a| == 8 && |b| == 8
    ensures FromBits(Signs(a) + Signs(b)) == Pack8(a) as int + 256 * (Pack8(b) as int)
  {
    hide FromBits, Signs;
    FromBitsConcat(Signs(a), Signs(b));
    assert Pow2(8) == 256 by { assert Pow2(4) == 16; }
  }

  // Byte k of the packed form.
  function PackedByte(input: seq<int>, k: nat): Byte
    requires 8 * k + 8 <= |input|
  {
    Pack8(input[8 * k..8 * k + 8])
  }

  /** fs6Dlpack. The input is read up to the next multiple of 16. */
  method Pack(output: array<Byte>, input: array<int>, szUnpacked: nat)
    requires output.Length >= Ceil16Bytes(szUnpacked) && input.Length >= 8 * Ceil16Bytes(szUnpacked)
    modifies output
    ensures forall k :: 0 <= k < Ceil16Bytes(szUnpacked) ==> output[k] == PackedByte(input[..], k)
    ensures forall k :: Ceil16Bytes(szUnpacked) <= k < output.Length ==> output[k] == old(output[k])
  {
    hide Pack8, MoveMask, ShuffleHalves, CmpGtZero;
    var loop := Ceil16Bytes(szUnpacked) / 2;
    for i := 0 to loop
      invariant forall k :: 0 <= k < 2 * i ==> output[k] == PackedByte(input[..], k)
      invariant forall k :: Ceil16Bytes(szUnpacked) <= k < output.Length ==> output[k] == old(output[k])
    {
      var v: Vector := input[16 * i..16 * i + 16];
      var mask := MoveMask(ShuffleHalves(CmpGtZero(v)));
      VectorPacksTwo(v);
      assert v[..8] == input[..][8 * (2 * i)..8 * (2 * i) + 8];
      assert v[8..] == input[..][8 * (2 * i + 1)..8 * (2 * i + 1) + 8];
      output[2 * i], output[2 * i + 1] := mask % 256, mask / 256;
    }
  }

  /** The lookup table of fs6Dlunpack. */
  method BuildTable() returns (lut: array2<int>)
    ensures fresh(lut) && lut.Length0 == 256 && lut.Length1 == 8
    ensures forall i, j :: 0 <= i < 256 && 0 <= j < 8 ==> lut[i, j] == Bit(i, 7 - j)
  {
    lut := new int[256, 8];
    for i := 0 to 256
      invariant forall k, j :: 0 <= k < i && 0 <= j < 8 ==> lut[k, j] == Bit(k, 7 - j)
    {
      for j := 0 to 8
        invariant forall k, m :: 0 <= k < i && 0 <= m < 8 ==> lut[k, m] == Bit(k, 7 - m)
        invariant forall m :: 7 - j < m < 8 ==> lut[i, m] == Bit(i, 7 - m)
      {
        lut[i, 7 - j] := Bit(i, j);
      }
    }
  }

  // What the receiver reads at position x.
  function UnpackedAt(packed: seq<Byte>, x: nat): int
    requires x / 8 < |packed|
  {
    Bit(packed[x / 8], 7 - x % 8)
  }

  /** fs6Dlunpack: output byte 8k + j is bit 7 - j of packed byte k. */
  method Unpack(output: array<int>, input: array<Byte>, szUnpacked: nat)
    requires input.Length >= Ceil16Bytes(szUnpacked) && output.Length >= 8 * Ceil16Bytes(szUnpacked)
    modifies output
    ensures forall x :: 0 <= x < 8 * Ceil16Bytes(szUnpacked) ==> output[x] == UnpackedAt(input[..], x)
    ensures forall x :: 8 * Ceil16Bytes(szUnpacked) <= x < output.Length ==> output[x] == old(output[x])
  {
    hide Bit;
    var lut := BuildTable();
    for k := 0 to Ceil16Bytes(szUnpacked)
      invariant forall i, j :: 0 <= i < 256 && 0 <= j < 8 ==> lut[i, j] == Bit(i, 7 - j)
      invariant forall x :: 0 <= x < 8 * k ==> output[x] == UnpackedAt(input[..], x)
      invariant forall x :: 8 * k <= x < output.Length ==> output[x] == old(output[x])
    {
      forall j | 0 <= j < 8 {
        output[8 * k + j] := lut[input[k] as int, j];
      }
      forall x | 8 * k <= x < 8 * k + 8
        ensures output[x] == UnpackedAt(input[..], x)
      {
        var j := x - 8 * k;
        assert x / 8 == k && x % 8 == j;
        assert output[8 * k + j] == lut[input[k] as int, j];
      }
    }
  }

  // ---- the two directions ----

  predicate PackedFrom(packed: seq<Byte>, input: seq<int>) {
    8 * |packed| <= |input| && forall k :: 0 <= k < |packed| ==> packed[k] == PackedByte(input, k)
  }

  /** Packing and unpacking yields 1 where the byte was positive and 0 elsewhere, so it is the identity
      on coded bits. */
  lemma UnpackOfPack(packed: seq<Byte>, input: seq<int>, x: nat)
    requires PackedFrom(packed, input) && x < 8 * |packed|
    ensures UnpackedAt(packed, x) == Bit(packed[x / 8], 7 - x % 8) == if input[x] > 0 then 1 else 0
    ensures input[x] == 0 || input[x] == 1 ==> UnpackedAt(packed, x) == input[x]
  {
    var k, j := x / 8, 7 - x % 8;
    var group := input[8 * k..8 * k + 8];
    BitOfFromBits(Signs(group), j);
    assert packed[k] == PackedByte(input, k);
    assert Signs(group)[j] == (group[7 - j] > 0);
  }

  /** Unpacking and packing again gives the packed bytes back, for every byte value. */
  lemma PackOfUnpack(packed: seq<Byte>, bits: seq<int>, k: nat)
    requires k < |packed| && |bits| == 8 * |packed|
    requires forall x :: 0 <= x < |bits| ==> bits[x] == UnpackedAt(packed, x)
    ensures PackedByte(bits, k) == packed[k]
  {
    var group := bits[8 * k..8 * k + 8];
    forall j | 0 <= j < 8
      ensures Signs(group)[j] == Bits(packed[k], 8)[j]
    {
      var x := 8 * k + 7 - j;
      assert x / 8 == k && x % 8 == 7 - j;
      assert group[7 - j] == bits[x] == UnpackedAt(packed, x);
    }
    assert Signs(group) == Bits(packed[k], 8);
    assert Pow2(8) == 256 by { assert Pow2(4) == 16; }
    FromBitsOfBits(packed[k], 8);
  }
}
