/**
 The block chain of the FS6 split. One buffer carries a subframe: blocks of 32-byte aligned size, each
 a common header (24 bytes), a second header (`h` bytes, used in the first block only) and a payload.
 Appending walks the chain by the size fields it finds in the buffer; receiving walks a buffer into
 which datagrams were put one behind the other, in whatever order they came.
 */
module Fs6Chain {
  type Byte = b: int | 0 <= b < 256

  const HEADER := 24       // sizeof(commonUDP_t)
  const NB_BLOCKS := 8     // offsets inside the common header
  const BLOCK_ID := 10
  const CONTENT_BYTES := 14
  const U16 := 0x1_0000

  function U16At(b: seq<Byte>, at: nat): (v: nat)
    requires at + 1 < |b|
    ensures v < U16
  {
    b[at] as int + 256 * (b[at + 1] as int)
  }

  // alignedSize
  function Aligned(contentBytes: nat): (size: nat)
    ensures contentBytes + HEADER <= size < contentBytes + HEADER + 32 && size % 32 == 0
  {
    (contentBytes + HEADER + 32 - 1) / 32 * 32
  }

  // Room taken by blocks with these payloads.
  function Room(h: nat, payloads: seq<seq<Byte>>): nat {
    if payloads == [] then 0
    else Room(h, payloads[..|payloads| - 1]) + Aligned(h + |payloads[|payloads| - 1]|)
  }

  function Offset(h: nat, payloads: seq<seq<Byte>>, k: nat): nat
    requires k <= |payloads|
  {
    Room(h, payloads[..k])
  }

  predicate BlockAt(b: seq<Byte>, h: nat, at: nat, payload: seq<Byte>) {
    && at + HEADER + h + |payload| <= |b|
    && U16At(b, at + CONTENT_BYTES) == h + |payload|
    && b[at + HEADER + h..at + HEADER + h + |payload|] == payload
  }

  /** The buffer starts with blocks of these payloads, one behind the other. */
  predicate Packed(b: seq<Byte>, h: nat, payloads: seq<seq<Byte>>) {
    && Room(h, payloads) <= |b|
    && forall k :: 0 <= k < |payloads| ==> BlockAt(b, h, Offset(h, payloads, k), payloads[k])
  }

  predicate Numbered(b: seq<Byte>, h: nat, payloads: seq<seq<Byte>>) {
    forall k :: 0 <= k < |payloads| ==>
      Offset(h, payloads, k) + HEADER <= |b| && U16At(b, Offset(h, payloads, k) + BLOCK_ID) == k
  }

  /** A chain under construction: the blocks are numbered from 0 and counted in the first header. */
  predicate Chain(b: seq<Byte>, h: nat, payloads: seq<seq<Byte>>) {
    && |b| >= HEADER && Packed(b, h, payloads) && Numbered(b, h, payloads)
    && U16At(b, NB_BLOCKS) == |payloads|
  }

  lemma OffsetStep(h: nat, payloads: seq<seq<Byte>>, k: nat)
    requires k < |payloads|
    ensures Offset(h, payloads, k + 1) == Offset(h, payloads, k) + Aligned(h + |payloads[k]|)
  {
    assert payloads[..k + 1][..k] == payloads[..k];
  }

  lemma {:induction false} OffsetsOrdered(h: nat, payloads: seq<seq<Byte>>, j: nat, k: nat)
    requires j <= k <= |payloads|
    ensures Offset(h, payloads, j) <= Offset(h, payloads, k)
    ensures j < k ==> Offset(h, payloads, j) + Aligned(h + |payloads[j]|) <= Offset(h, payloads, k)
    decreases k - j
  {
    if j < k {
      OffsetStep(h, payloads, j);
      OffsetsOrdered(h, payloads, j + 1, k);
    }
  }

  /** Blocks do not overlap, and each ends inside the room of the chain. */
  lemma BlocksDisjoint(h: nat, payloads: seq<seq<Byte>>, j: nat, k: nat)
    requires j < k < |payloads|
    ensures Offset(h, payloads, j) + HEADER + h + |payloads[j]| <= Offset(h, payloads, k)
    ensures Offset(h, payloads, k) + HEADER + h + |payloads[k]| <= Room(h, payloads)
  {
    OffsetsOrdered(h, payloads, j, k);
    OffsetsOrdered(h, payloads, k, |payloads|);
    assert payloads[..|payloads|] == payloads;
  }

  lemma BlockInRoom(h: nat, payloads: seq<seq<Byte>>, k: nat)
    requires k < |payloads|
    ensures Offset(h, payloads, k) + HEADER + h + |payloads[k]| <= Room(h, payloads)
    ensures Offset(h, payloads, k) + Aligned(h + |payloads[k]|) <= Room(h, payloads)
  {
    OffsetsOrdered(h, payloads, k, |payloads|);
    assert payloads[..|payloads|] == payloads;
  }

  lemma PrefixFits(h: nat, payloads: seq<seq<Byte>>, k: nat)
    requires k <= |payloads|
    ensures Room(h, payloads[..k]) <= Room(h, payloads)
  {
    OffsetsOrdered(h, payloads, k, |payloads|);
    assert payloads[..|payloads|] == payloads;
  }

  lemma OffsetPrefix(h: nat, payloads: seq<seq<Byte>>, more: seq<seq<Byte>>, k: nat)
    requires k <= |payloads|
    ensures Offset(h, payloads + more, k) == Offset(h, payloads, k)
  {
    assert (payloads + more)[..k] == payloads[..k];
  }

  // Blocks survive writes below their numbers and beyond the chain.
  lemma ChainFrame(b: seq<Byte>, b': seq<Byte>, h: nat, payloads: seq<seq<Byte>>)
    requires Packed(b, h, payloads) && Numbered(b, h, payloads) && |b'| == |b|
    requires forall i :: BLOCK_ID <= i < Room(h, payloads) ==> b'[i] == b[i]
    ensures Packed(b', h, payloads) && Numbered(b', h, payloads)
  {
    hide BlockAt, Room, Aligned;
    forall k | 0 <= k < |payloads|
      ensures BlockAt(b', h, Offset(h, payloads, k), payloads[k])
      ensures Offset(h, payloads, k) + HEADER <= |b'| && U16At(b', Offset(h, payloads, k) + BLOCK_ID) == k
    {
      BlockInRoom(h, payloads, k);
      BlockFrame(b, b', h, Offset(h, payloads, k), payloads[k]);
    }
  }

  lemma BlockFrame(b: seq<Byte>, b': seq<Byte>, h: nat, at: nat, payload: seq<Byte>)
    requires BlockAt(b, h, at, payload) && |b'| == |b|
    requires forall i :: at + BLOCK_ID <= i < at + HEADER + h + |payload| ==> b'[i] == b[i]
    ensures BlockAt(b', h, at, payload) && U16At(b', at + BLOCK_ID) == U16At(b, at + BLOCK_ID)
  {
    var from, to := at + HEADER + h, at + HEADER + h + |payload|;
    assert b'[from..to] == b[from..to];
  }

  lemma BlockOf(b: seq<Byte>, h: nat, payloads: seq<seq<Byte>>, k: nat)
    requires k < |payloads|
    ensures Packed(b, h, payloads) ==> BlockAt(b, h, Offset(h, payloads, k), payloads[k])
    ensures Numbered(b, h, payloads) ==>
              Offset(h, payloads, k) + HEADER <= |b| && U16At(b, Offset(h, payloads, k) + BLOCK_ID) == k
  {
  }

  // What a walk over received blocks reads.
  lemma PackedField(b: seq<Byte>, h: nat, payloads: seq<seq<Byte>>, k: nat)
    requires Packed(b, h, payloads) && k < |payloads|
    ensures var at, size := Offset(h, payloads, k), h + |payloads[k]|;
            && at + HEADER + size <= |b|
            && b[at + CONTENT_BYTES] as int + 256 * (b[at + CONTENT_BYTES + 1] as int) == size
            && b[at + HEADER + h..at + HEADER + size] == payloads[k]
  {
    assert BlockAt(b, h, Offset(h, payloads, k), payloads[k]);
  }

  // One more block behind a chain.
  lemma ChainGrows(b: seq<Byte>, h: nat, payloads: seq<seq<Byte>>, payload: seq<Byte>)
    requires |b| >= HEADER && Packed(b, h, payloads) && Numbered(b, h, payloads)
    requires Room(h, payloads + [payload]) <= |b|
    requires BlockAt(b, h, Room(h, payloads), payload)
    requires U16At(b, Room(h, payloads) + BLOCK_ID) == |payloads| == U16At(b, NB_BLOCKS) - 1
    ensures Chain(b, h, payloads + [payload])
  {
    hide BlockAt, Room, Aligned;
    RoomGrows(h, payloads, payload);
    var all := payloads + [payload];
    assert all[..|payloads|] == payloads;
    forall k | 0 <= k < |all|
      ensures BlockAt(b, h, Offset(h, all, k), all[k])
      ensures Offset(h, all, k) + HEADER <= |b| && U16At(b, Offset(h, all, k) + BLOCK_ID) == k
    {
      if k < |payloads| {
        OffsetPrefix(h, payloads, [payload], k);
        BlockOf(b, h, payloads, k);
      }
    }
  }

  class SplitBuffer {
    const bytes: array<Byte>
    const h: nat                          // size of the second header
    ghost var payloads: seq<seq<Byte>>    // what the chain holds

    ghost predicate Valid()
      reads this, bytes
    {
      Chain(bytes[..], h, payloads)
    }

    // initBufferZone leaves everything but the block count uninitialised.
    constructor (bytes: array<Byte>, h: nat)
      requires bytes.Length >= HEADER + h
      modifies bytes
      ensures this.bytes == bytes && this.h == h && Valid() && payloads == []
      ensures forall i :: 0 <= i < bytes.Length && !(NB_BLOCKS <= i < BLOCK_ID) ==> bytes[i] == old(bytes[i])
    {
      this.bytes, this.h, payloads := bytes, h, [];
      new;
      PutU16(NB_BLOCKS, 0);
    }

    method GetU16(at: nat) returns (v: nat)
      requires at + 1 < bytes.Length
      ensures v == U16At(bytes[..], at)
    {
      v := bytes[at] as int + 256 * (bytes[at + 1] as int);
    }

    method PutU16(at: nat, v: nat)
      requires at + 1 < bytes.Length && v < U16
      modifies bytes
      ensures U16At(bytes[..], at) == v
      ensures forall i :: 0 <= i < bytes.Length && i != at && i != at + 1 ==> bytes[i] == old(bytes[i])
    {
      bytes[at] := v % 256;
      bytes[at + 1] := v / 256;
    }

    method PutBytes(at: nat, data: seq<Byte>)
      requires at + |data| <= bytes.Length
      modifies bytes
      ensures bytes[at..at + |data|] == data
      ensures forall i :: 0 <= i < bytes.Length && !(at <= i < at + |data|) ==> bytes[i] == old(bytes[i])
    {
      forall k | 0 <= k < |data| {
        bytes[at + k] := data[k];
      }
    }

    /** The walk at the start of every append; `fatal` is its AssertFatal on block numbers. */
    method EndOfChain() returns (end: nat, count: nat, fatal: bool)
      requires Valid()
      ensures !fatal && end == Room(h, payloads) && count == |payloads|
    {
      hide BlockAt, Room, Aligned;
      end, count, fatal := 0, 0, false;
      var nbBlocks := GetU16(NB_BLOCKS);
      assert Offset(h, payloads, 0) == 0 by {
        EmptyRoom(h, payloads);
      }
      for i := 0 to nbBlocks
        invariant count == i <= |payloads| && end == Offset(h, payloads, i) && !fatal
      {
        BlockOf(bytes[..], h, payloads, i);
        SizeField(bytes[..], h, end, payloads[i]);
        var blockId := GetU16(end + BLOCK_ID);
        if blockId != count {
          fatal := true;
          return;
        }
        var contentBytes := GetU16(end + CONTENT_BYTES);
        OffsetStep(h, payloads, i);
        end := end + Aligned(contentBytes);
        count := count + 1;
      }
      assert payloads[..|payloads|] == payloads;
    }

    /** Every append: the chain gains exactly this payload, the earlier blocks keep theirs, and the
        second header of the first block is not touched. */
    method Append(payload: seq<Byte>) returns (fatal: bool)
      requires Valid() && h + |payload| < U16 && |payloads| + 1 < U16
      requires Room(h, payloads + [payload]) <= bytes.Length
      modifies this`payloads, bytes
      ensures !fatal && Valid() && payloads == old(payloads) + [payload]
      ensures forall i :: 0 <= i < bytes.Length && (i < NB_BLOCKS || HEADER <= i < HEADER + h) ==> bytes[i] == old(bytes[i])
      ensures var end := Room(h, old(payloads));
              forall i :: HEADER <= i < bytes.Length ==>
                || end <= i < end + HEADER || end + HEADER + h <= i < end + HEADER + h + |payload|
                || bytes[i] == old(bytes[i])
    {
      hide BlockAt, Packed, Numbered, Room, Aligned;
      var end, count;
      end, count, fatal := EndOfChain();
      if fatal {
        assert false;
      }
      RoomGrows(h, payloads, payload);
      ghost var before := bytes[..];
      PutU16(NB_BLOCKS, count + 1);
      PutU16(end + BLOCK_ID, count);
      PutU16(end + CONTENT_BYTES, h + |payload|);
      PutBytes(end + HEADER + h, payload);
      ChainFrame(before, bytes[..], h, payloads);
      BlockWritten(bytes[..], h, end, payload);
      ChainGrows(bytes[..], h, payloads, payload);
      payloads := payloads + [payload];
    }

    /** Without any block the subframe is still announced, by one block with an empty payload. */
    method AnnounceIfEmpty()
      requires Valid() && h < U16 && Aligned(h) <= bytes.Length
      modifies this`payloads, bytes
      ensures Valid() && payloads == if old(payloads) == [] then [[]] else old(payloads)
      ensures forall i :: 0 <= i < bytes.Length && (i < NB_BLOCKS || HEADER <= i) ==> bytes[i] == old(bytes[i])
    {
      var nbBlocks := GetU16(NB_BLOCKS);
      if nbBlocks == 0 {
        PutU16(NB_BLOCKS, 1);
        PutU16(BLOCK_ID, 0);
        PutU16(CONTENT_BYTES, h);
        ChainGrows(bytes[..], h, [], []);
        payloads := [[]];
      }
    }
  }

  lemma EmptyRoom(h: nat, payloads: seq<seq<Byte>>)
    ensures Offset(h, payloads, 0) == Room(h, []) == 0
  {
  }

  lemma RoomGrows(h: nat, payloads: seq<seq<Byte>>, payload: seq<Byte>)
    ensures Room(h, payloads + [payload]) == Room(h, payloads) + Aligned(h + |payload|)
    ensures Room(h, payloads) + HEADER + h + |payload| <= Room(h, payloads + [payload])
    ensures if payloads == [] then Room(h, payloads) == 0 else Room(h, payloads) >= HEADER + h
  {
    assert (payloads + [payload])[..|payloads|] == payloads;
    if payloads != [] {
      BlockInRoom(h, payloads, |payloads| - 1);
    }
  }

  lemma SizeField(b: seq<Byte>, h: nat, at: nat, payload: seq<Byte>)
    requires BlockAt(b, h, at, payload)
    ensures at + HEADER + h + |payload| <= |b| && U16At(b, at + CONTENT_BYTES) == h + |payload|
  {
  }

  lemma BlockWritten(b: seq<Byte>, h: nat, at: nat, payload: seq<Byte>)
    requires at + HEADER + h + |payload| <= |b| && U16At(b, at + CONTENT_BYTES) == h + |payload|
    requires b[at + HEADER + h..at + HEADER + h + |payload|] == payload
    ensures BlockAt(b, h, at, payload)
  {
  }
}
