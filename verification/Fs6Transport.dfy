/**
 Carrying a block chain over UDP. sendSubFrame stamps every block with the subframe's header fields and
 sends it as one datagram; receiveSubFrame puts the datagrams of one timestamp one behind the other, in
 order of arrival, and keeps a datagram of a later subframe for the next call.
 */
module Fs6Transport {
  import opened Fs6Chain

  const TIMESTAMP_BYTES := 8
  const CONTENT_TYPE := 12
  const SENDER_CLOCK := 16

  // A datagram holding one block with this payload.
  predicate Carries(d: seq<Byte>, h: nat, payload: seq<Byte>) {
    |d| == Aligned(h + |payload|) && BlockAt(d, h, 0, payload)
  }

  predicate Stamped(d: seq<Byte>, first: seq<Byte>, id: nat, count: nat) {
    && |d| >= HEADER && |first| >= HEADER
    && d[..TIMESTAMP_BYTES] == first[..TIMESTAMP_BYTES]
    && U16At(d, NB_BLOCKS) == count && U16At(d, BLOCK_ID) == id
    && U16At(d, CONTENT_TYPE) == U16At(first, CONTENT_TYPE)
  }

  // A datagram with the second header that stands behind the common header at `at` in the buffer.
  predicate SecondHeader(d: seq<Byte>, b: seq<Byte>, h: nat, at: nat) {
    && HEADER + h <= |d| && at + HEADER + h <= |b|
    && d[HEADER..HEADER + h] == b[at + HEADER..at + HEADER + h]
  }

  predicate SameFrom(a: seq<Byte>, b: seq<Byte>, from: nat) {
    |a| == |b| && forall i :: from <= i < |a| ==> a[i] == b[i]
  }

  lemma SameFromLater(a: seq<Byte>, b: seq<Byte>, c: seq<Byte>, from: nat, from': nat, to: nat)
    requires SameFrom(a, b, from) && SameFrom(b, c, from') && from <= to && from' <= to
    ensures SameFrom(a, c, to)
  {
  }

  lemma SameFromHeader(a: seq<Byte>, b: seq<Byte>)
    requires |a| == |b| && forall i :: HEADER <= i < |a| ==> b[i] == a[i]
    ensures SameFrom(a, b, HEADER)
  {
  }

  lemma SecondHeaderSame(d: seq<Byte>, b: seq<Byte>, b': seq<Byte>, h: nat, at: nat)
    requires SameFrom(b, b', at) || SameFrom(b, b', at + HEADER)
    requires SecondHeader(d, b', h, at)
    ensures SecondHeader(d, b, h, at)
  {
    assert b[at + HEADER..at + HEADER + h] == b'[at + HEADER..at + HEADER + h];
  }

  // The first datagrams of a subframe.
  predicate SentSoFar(datagrams: seq<seq<Byte>>, first: seq<Byte>, b: seq<Byte>, h: nat, ps: seq<seq<Byte>>) {
    && |datagrams| <= |ps|
    && forall k :: 0 <= k < |datagrams| ==>
         && Carries(datagrams[k], h, ps[k]) && Stamped(datagrams[k], first, k, |ps|)
         && SecondHeader(datagrams[k], b, h, Offset(h, ps, k))
  }

  lemma SentOneMore(datagrams: seq<seq<Byte>>, d: seq<Byte>, first: seq<Byte>, b: seq<Byte>, h: nat, ps: seq<seq<Byte>>)
    requires SentSoFar(datagrams, first, b, h, ps) && |datagrams| < |ps|
    requires var k := |datagrams|;
             Carries(d, h, ps[k]) && Stamped(d, first, k, |ps|) && SecondHeader(d, b, h, Offset(h, ps, k))
    ensures SentSoFar(datagrams + [d], first, b, h, ps)
  {
    hide Carries, Stamped, SecondHeader, Offset;
  }

  lemma SentAll(datagrams: seq<seq<Byte>>, first: seq<Byte>, b: seq<Byte>, h: nat, ps: seq<seq<Byte>>)
    requires SentSoFar(datagrams, first, b, h, ps)
    ensures forall k :: 0 <= k < |datagrams| ==> Carries(datagrams[k], h, ps[k])
    ensures forall k :: 0 <= k < |datagrams| ==> Stamped(datagrams[k], first, k, |ps|)
    ensures forall k :: 0 <= k < |datagrams| ==> SecondHeader(datagrams[k], b, h, Offset(h, ps, k))
  {
    hide Carries, Stamped, SecondHeader, Offset;
  }

  lemma FirstSecondHeader(d: seq<Byte>, b: seq<Byte>, h: nat)
    requires SecondHeader(d, b, h, 0)
    ensures HEADER + h <= |d| && HEADER + h <= |b| && d[HEADER..HEADER + h] == b[HEADER..HEADER + h]
  {
  }

  lemma CutSecondHeader(b: seq<Byte>, b': seq<Byte>, d: seq<Byte>, h: nat, at: nat)
    requires SameFrom(b, b', at + HEADER) && HEADER + h <= |d| && at + |d| <= |b'| && d == b'[at..at + |d|]
    ensures SecondHeader(d, b, h, at)
  {
    assert d[HEADER..HEADER + h] == b[at + HEADER..at + HEADER + h];
  }

  // Rewriting a common header, except for the size field, keeps the chain packed.
  lemma HeaderWrite(b: seq<Byte>, b': seq<Byte>, h: nat, payloads: seq<seq<Byte>>, k: nat)
    requires Packed(b, h, payloads) && Numbered(b, h, payloads) && |b'| == |b| && k < |payloads|
    requires var at := Offset(h, payloads, k);
             forall i :: 0 <= i < |b| && !(at <= i < at + CONTENT_BYTES || at + SENDER_CLOCK <= i < at + HEADER) ==> b'[i] == b[i]
    requires Offset(h, payloads, k) + HEADER <= |b'| && U16At(b', Offset(h, payloads, k) + BLOCK_ID) == k
    ensures Packed(b', h, payloads) && Numbered(b', h, payloads)
  {
    hide BlockAt, Room, Aligned, Offset;
    forall j | 0 <= j < |payloads|
      ensures BlockAt(b', h, Offset(h, payloads, j), payloads[j])
      ensures Offset(h, payloads, j) + HEADER <= |b'| && U16At(b', Offset(h, payloads, j) + BLOCK_ID) == j
    {
      if j < k {
        BlocksDisjoint(h, payloads, j, k);
      } else if k < j {
        BlocksDisjoint(h, payloads, k, j);
      }
      if j == k {
        OwnHeader(b, b', h, Offset(h, payloads, k), payloads[k]);
      } else {
        BlockInRoom(h, payloads, j);
        BlockFrame(b, b', h, Offset(h, payloads, j), payloads[j]);
      }
    }
  }

  lemma OwnHeader(b: seq<Byte>, b': seq<Byte>, h: nat, at: nat, payload: seq<Byte>)
    requires BlockAt(b, h, at, payload) && |b'| == |b|
    requires forall i :: at + CONTENT_BYTES <= i < |b| && !(at + SENDER_CLOCK <= i < at + HEADER) ==> b'[i] == b[i]
    ensures BlockAt(b', h, at, payload)
  {
    var from, to := at + HEADER + h, at + HEADER + h + |payload|;
    assert b'[from..to] == b[from..to];
  }

  // Cutting a block out of the buffer gives a datagram that carries it.
  lemma CutBlock(b: seq<Byte>, h: nat, payloads: seq<seq<Byte>>, k: nat)
    requires Packed(b, h, payloads) && k < |payloads|
    ensures var at := Offset(h, payloads, k);
            && at + Aligned(h + |payloads[k]|) <= |b|
            && U16At(b, at + CONTENT_BYTES) == h + |payloads[k]|
            && Carries(b[at..at + Aligned(h + |payloads[k]|)], h, payloads[k])
  {
    hide Packed, Room, Aligned, Offset;
    BlockInRoom(h, payloads, k);
    assert Room(h, payloads) <= |b| && BlockAt(b, h, Offset(h, payloads, k), payloads[k]) by {
      PackedBlock(b, h, payloads, k);
    }
    var at, p := Offset(h, payloads, k), payloads[k];
    var d := b[at..at + Aligned(h + |p|)];
    assert d[HEADER + h..HEADER + h + |p|] == b[at + HEADER + h..at + HEADER + h + |p|];
  }

  lemma PackedBlock(b: seq<Byte>, h: nat, payloads: seq<seq<Byte>>, k: nat)
    requires Packed(b, h, payloads) && k < |payloads|
    ensures Room(h, payloads) <= |b| && BlockAt(b, h, Offset(h, payloads, k), payloads[k])
  {
  }

  class Sender {
    const buffer: SplitBuffer

    constructor (buffer: SplitBuffer)
      ensures this.buffer == buffer
    {
      this.buffer := buffer;
    }

    // The header of a block after the first, copied from the first. The second header would be copied
    // onto itself, because source and target pointer have both moved on.
    method StampBlock(at: nat, id: nat)
      requires HEADER <= at && at + HEADER <= buffer.bytes.Length && id < U16
      modifies buffer.bytes
      ensures Stamped(buffer.bytes[at..at + HEADER], buffer.bytes[..HEADER], id, U16At(buffer.bytes[..], NB_BLOCKS))
      ensures forall i :: 0 <= i < buffer.bytes.Length && !(at <= i < at + CONTENT_BYTES) ==>
                buffer.bytes[i] == old(buffer.bytes[i])
    {
      var bytes := buffer.bytes;
      forall i | 0 <= i < TIMESTAMP_BYTES {
        bytes[at + i] := bytes[i];
      }
      var nbBlocks := buffer.GetU16(NB_BLOCKS);
      buffer.PutU16(at + NB_BLOCKS, nbBlocks);
      buffer.PutU16(at + BLOCK_ID, id);
      var contentType := buffer.GetU16(CONTENT_TYPE);
      buffer.PutU16(at + CONTENT_TYPE, contentType);
    }

    // What sendSubFrame writes into the first header.
    method PrepareFirst(contentType: nat, clock: seq<Byte>)
      requires buffer.Valid() && buffer.payloads != [] && contentType < U16 && |clock| == 8
      modifies buffer.bytes
      ensures buffer.Valid() && U16At(buffer.bytes[..], CONTENT_TYPE) == contentType
      ensures HEADER <= buffer.bytes.Length && buffer.bytes[SENDER_CLOCK..SENDER_CLOCK + 8] == clock
      ensures forall i :: 0 <= i < buffer.bytes.Length && (i < TIMESTAMP_BYTES || HEADER <= i) ==>
                buffer.bytes[i] == old(buffer.bytes[i])
    {
      hide BlockAt, Packed, Numbered, Room, Aligned, Offset;
      OffsetStart(buffer.h, buffer.payloads);
      NumberedFirst(buffer.bytes[..], buffer.h, buffer.payloads);
      ghost var before := buffer.bytes[..];
      buffer.PutU16(CONTENT_TYPE, contentType);
      buffer.PutBytes(SENDER_CLOCK, clock);
      assert U16At(buffer.bytes[..], BLOCK_ID) == U16At(before, BLOCK_ID);
      HeaderWrite(before, buffer.bytes[..], buffer.h, buffer.payloads, 0);
    }

    // A block after the first gets its header, which leaves the chain intact.
    method StampLater(at: nat, id: nat)
      requires buffer.Valid() && 0 < id < |buffer.payloads| && at == Offset(buffer.h, buffer.payloads, id)
      modifies buffer.bytes
      ensures buffer.Valid() && buffer.bytes[..HEADER] == old(buffer.bytes[..HEADER])
      ensures SameFrom(old(buffer.bytes[..]), buffer.bytes[..], at + HEADER) && at + HEADER <= buffer.bytes.Length
      ensures Stamped(buffer.bytes[at..at + HEADER], buffer.bytes[..HEADER], id, |buffer.payloads|)
    {
      hide BlockAt, Packed, Numbered, Room, Aligned, Offset, Stamped, Carries;
      var h := buffer.h;
      ghost var ps := buffer.payloads;
      ghost var before := buffer.bytes[..];
      OffsetStart(h, ps);
      CutBlock(before, h, ps, id);
      AlignedCovers(h + |ps[id]|);
      BlocksDisjoint(h, ps, 0, id);
      StampBlock(at, id);
      StampedId(buffer.bytes[at..at + HEADER], buffer.bytes[..HEADER], id, |ps|);
      assert U16At(buffer.bytes[..], at + BLOCK_ID) == id;
      HeaderWrite(before, buffer.bytes[..], h, ps, id);
    }

    // Any block but the first gets its header.
    method StampAny(at: nat, id: nat)
      requires buffer.Valid() && id < |buffer.payloads| && at == Offset(buffer.h, buffer.payloads, id)
      modifies buffer.bytes
      ensures buffer.Valid() && buffer.bytes[..HEADER] == old(buffer.bytes[..HEADER])
      ensures id == 0 ==> at == 0 && buffer.bytes[..] == old(buffer.bytes[..])
      ensures SameFrom(old(buffer.bytes[..]), buffer.bytes[..], at + HEADER) && at + HEADER <= buffer.bytes.Length
      ensures Stamped(buffer.bytes[at..at + HEADER], buffer.bytes[..HEADER], id, |buffer.payloads|)
    {
      hide BlockAt, Packed, Numbered, Room, Aligned, Offset, Stamped;
      OffsetStart(buffer.h, buffer.payloads);
      if id > 0 {
        StampLater(at, id);
      } else {
        FirstStamped(buffer.bytes[..], buffer.h, buffer.payloads);
      }
    }

    // The block at `at`, as long as its size field says.
    method TakeBlock(at: nat, ghost id: nat) returns (d: seq<Byte>)
      requires buffer.Valid() && id < |buffer.payloads| && at == Offset(buffer.h, buffer.payloads, id)
      ensures |d| == Aligned(buffer.h + |buffer.payloads[id]|) && at + |d| <= buffer.bytes.Length
      ensures d == buffer.bytes[at..at + |d|] && Carries(d, buffer.h, buffer.payloads[id])
    {
      hide BlockAt, Packed, Numbered, Room, Offset, Carries;
      CutBlock(buffer.bytes[..], buffer.h, buffer.payloads, id);
      var contentBytes := buffer.GetU16(at + CONTENT_BYTES);
      d := buffer.bytes[at..at + Aligned(contentBytes)];
      assert d == buffer.bytes[..][at..at + |d|];
    }

    // One turn of the sending loop.
    method SendBlock(at: nat, id: nat) returns (d: seq<Byte>)
      requires buffer.Valid() && id < |buffer.payloads| && at == Offset(buffer.h, buffer.payloads, id)
      modifies buffer.bytes
      ensures buffer.Valid() && buffer.bytes[..HEADER] == old(buffer.bytes[..HEADER])
      ensures Carries(d, buffer.h, buffer.payloads[id]) && |d| == Aligned(buffer.h + |buffer.payloads[id]|)
      ensures Stamped(d, buffer.bytes[..HEADER], id, |buffer.payloads|)
      ensures id == 0 ==> at == 0 && |d| <= buffer.bytes.Length && d == old(buffer.bytes[..])[..|d|]
      ensures SameFrom(old(buffer.bytes[..]), buffer.bytes[..], at + HEADER)
      ensures |d| >= HEADER && SecondHeader(d, old(buffer.bytes[..]), buffer.h, at)
    {
      hide BlockAt, Packed, Numbered, Room, Aligned, Offset, Stamped, Carries, SecondHeader;
      ghost var before := buffer.bytes[..];
      AlignedCovers(buffer.h + |buffer.payloads[id]|);
      StampAny(at, id);
      d := TakeBlock(at, id);
      assert d[..HEADER] == buffer.bytes[at..at + HEADER];
      CutSecondHeader(before, buffer.bytes[..], d, buffer.h, at);
      StampedWhole(d, buffer.bytes[..HEADER], id, |buffer.payloads|);
    }

    /** sendSubFrame: one datagram per block, in block order, each with the first block's timestamp,
        count and content type and its own number. The second header of each is what the buffer holds
        behind that block's own common header. */
    method SendSubFrame(contentType: nat, clock: seq<Byte>) returns (datagrams: seq<seq<Byte>>)
      requires buffer.Valid() && buffer.payloads != [] && contentType < U16 && |clock| == 8
      modifies buffer.bytes
      ensures buffer.Valid() && |datagrams| == |buffer.payloads|
      ensures forall k :: 0 <= k < |datagrams| ==> Carries(datagrams[k], buffer.h, buffer.payloads[k])
      ensures forall k :: 0 <= k < |datagrams| ==> Stamped(datagrams[k], datagrams[0], k, |datagrams|)
      ensures |datagrams[0]| >= HEADER + buffer.h && U16At(datagrams[0], CONTENT_TYPE) == contentType
      ensures datagrams[0][SENDER_CLOCK..SENDER_CLOCK + 8] == clock
      ensures datagrams[0][..TIMESTAMP_BYTES] == old(buffer.bytes[..TIMESTAMP_BYTES])
      ensures datagrams[0][HEADER..HEADER + buffer.h] == old(buffer.bytes[..])[HEADER..HEADER + buffer.h]
      ensures forall k :: 0 <= k < |datagrams| ==>
                SecondHeader(datagrams[k], old(buffer.bytes[..]), buffer.h, Offset(buffer.h, buffer.payloads, k))
    {
      hide BlockAt, Packed, Numbered, Room, Aligned, Offset, Stamped, Carries, SecondHeader, SameFrom, SentSoFar;
      var h := buffer.h;
      ghost var ps := buffer.payloads;
      ghost var before := buffer.bytes[..];
      var nbBlocks := buffer.GetU16(NB_BLOCKS);
      var d := SendFirst(contentType, clock);
      ghost var first := d[..HEADER];
      datagrams := [];
      SentOneMore(datagrams, d, first, before, h, ps);
      datagrams := datagrams + [d];
      var at, id := |d|, 1;
      while id < nbBlocks
        invariant 1 <= id <= nbBlocks == |ps| && at == Offset(h, ps, id)
        invariant buffer.Valid() && buffer.bytes[..HEADER] == first
        invariant |datagrams| == id && datagrams[0] == d
        invariant SameFrom(before, buffer.bytes[..], at) && SentSoFar(datagrams, first, before, h, ps)
      {
        ghost var mid := buffer.bytes[..];
        var next := SendBlock(at, id);
        SecondHeaderSame(next, before, mid, h, at);
        OffsetStep(h, ps, id);
        SameFromLater(before, mid, buffer.bytes[..], at, at + HEADER, at + |next|);
        SentOneMore(datagrams, next, first, before, h, ps);
        datagrams := datagrams + [next];
        at, id := at + |next|, id + 1;
      }
      SentAll(datagrams, first, before, h, ps);
      StampedFirst(datagrams, first, nbBlocks);
    }

    // The common fields of the first header, and its datagram.
    method SendFirst(contentType: nat, clock: seq<Byte>) returns (d: seq<Byte>)
      requires buffer.Valid() && buffer.payloads != [] && contentType < U16 && |clock| == 8
      modifies buffer.bytes
      ensures buffer.Valid() && |d| >= HEADER + buffer.h && |d| == Offset(buffer.h, buffer.payloads, 1)
      ensures d[..HEADER] == buffer.bytes[..HEADER] && U16At(d, CONTENT_TYPE) == contentType
      ensures d[SENDER_CLOCK..SENDER_CLOCK + 8] == clock
      ensures Carries(d, buffer.h, buffer.payloads[0]) && Stamped(d, d[..HEADER], 0, |buffer.payloads|)
      ensures Offset(buffer.h, buffer.payloads, 0) == 0 && SecondHeader(d, old(buffer.bytes[..]), buffer.h, 0)
      ensures SentSoFar([], d[..HEADER], old(buffer.bytes[..]), buffer.h, buffer.payloads)
      ensures SameFrom(old(buffer.bytes[..]), buffer.bytes[..], |d|)
      ensures d[..TIMESTAMP_BYTES] == old(buffer.bytes[..TIMESTAMP_BYTES])
      ensures d[HEADER..HEADER + buffer.h] == old(buffer.bytes[..])[HEADER..HEADER + buffer.h]
    {
      hide BlockAt, Packed, Numbered, Room, Aligned, Offset, Stamped, Carries, SecondHeader, SameFrom;
      var h := buffer.h;
      ghost var ps := buffer.payloads;
      ghost var before := buffer.bytes[..];
      OffsetStart(h, ps);
      PrepareFirst(contentType, clock);
      ghost var ready := buffer.bytes[..];
      SameFromHeader(before, ready);
      AlignedCovers(h + |ps[0]|);
      d := SendBlock(0, 0);
      OffsetStep(h, ps, 0);
      SecondHeaderSame(d, before, ready, h, 0);
      SameFromLater(before, ready, buffer.bytes[..], HEADER, HEADER, |d|);
      assert d[..HEADER] == buffer.bytes[..HEADER];
      assert d[SENDER_CLOCK..SENDER_CLOCK + 8] == ready[SENDER_CLOCK..SENDER_CLOCK + 8];
      FirstSecondHeader(d, before, h);
      assert d[..TIMESTAMP_BYTES] == before[..TIMESTAMP_BYTES];
    }
  }

  lemma NumberedFirst(b: seq<Byte>, h: nat, payloads: seq<seq<Byte>>)
    requires Numbered(b, h, payloads) && payloads != []
    ensures |b| >= HEADER && U16At(b, BLOCK_ID) == 0
  {
    OffsetStart(h, payloads);
    assert Offset(h, payloads, 0) + HEADER <= |b| && U16At(b, Offset(h, payloads, 0) + BLOCK_ID) == 0;
  }

  lemma OffsetStart(h: nat, payloads: seq<seq<Byte>>)
    ensures Offset(h, payloads, 0) == 0
  {
  }

  lemma AlignedCovers(contentBytes: nat)
    ensures Aligned(contentBytes) >= contentBytes + HEADER
  {
  }

  lemma StampedId(d: seq<Byte>, first: seq<Byte>, id: nat, count: nat)
    requires Stamped(d, first, id, count)
    ensures |d| >= HEADER && U16At(d, BLOCK_ID) == id
  {
  }

  lemma FirstStamped(b: seq<Byte>, h: nat, payloads: seq<seq<Byte>>)
    requires payloads != [] && Numbered(b, h, payloads)
    ensures |b| >= HEADER && Stamped(b[..HEADER], b[..HEADER], 0, U16At(b, NB_BLOCKS))
  {
    OffsetStart(h, payloads);
    assert U16At(b, Offset(h, payloads, 0) + BLOCK_ID) == 0;
  }

  // The stamp is in the common header.
  lemma StampedWhole(d: seq<Byte>, first: seq<Byte>, id: nat, count: nat)
    requires |d| >= HEADER
    ensures Stamped(d[..HEADER], first, id, count) ==> Stamped(d, first, id, count)
  {
    assert d[..HEADER][..TIMESTAMP_BYTES] == d[..TIMESTAMP_BYTES];
  }

  lemma StampedFirst(datagrams: seq<seq<Byte>>, first: seq<Byte>, count: nat)
    requires |datagrams| > 0 && |datagrams[0]| >= HEADER && datagrams[0][..HEADER] == first
    requires forall k :: 0 <= k < |datagrams| ==> Stamped(datagrams[k], first, k, count)
    ensures forall k :: 0 <= k < |datagrams| ==> Stamped(datagrams[k], datagrams[0], k, count)
  {
    var d := datagrams[0];
    assert d[..HEADER][..TIMESTAMP_BYTES] == d[..TIMESTAMP_BYTES];
  }
}
