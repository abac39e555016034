/**
 PRACH handling, in one piece and cut in two. The monolithic eNB detects and decides in one procedure;
 with the FS6 split the distributed unit detects and writes the result into the second header of the
 subframe, and the central unit decides from the header it receives. The detector itself is a parameter.
 */
module Fs6Prach {
  import opened LteClock
  import opened Fs6Chain
  import opened Fs6Codec
  import opened Fs6Transport
  import opened Fs6Receive
  import opened Fs6Uplink

  /** Result of rx_prach0 for one subframe, all 16 bits wide. */
  datatype Detection = Detection(preamble: nat, energy: nat, delay: nat, average: nat) {
    predicate Valid() { preamble < U16 && energy < U16 && delay < U16 && average < U16 }
  }

  datatype Preamble = Preamble(timingAdvance: nat, preamble: nat, rnti: nat, resourceType: nat, instanceLength: nat)

  datatype Rach = Rach(number: nat, sfnSf: nat, preamble0: Preamble, i0: int, energyCounter: nat, notified: nat)

  /** `threshold` is prach_DTX_threshold; `isPrach` the PRACH calendar; `pnf` the NFAPI PNF mode, in which
      indications are passed on at once (counted in `notified`). */
  datatype Cell = Cell(tti: nat, threshold: int, isPrach: (nat, nat) -> int, pnf: bool)

  predicate Indicates(rach: Rach, d: Detection, threshold: int) {
    rach.energyCounter == 100 && d.energy > rach.i0 + threshold
  }

  // The noise filter, in integer arithmetic with arithmetic right shifts.
  function Filtered(i0: int, average: int): int {
    i0 * 900 / 1024 + average * 124 / 1024
  }

  /** What one PRACH occasion does. */
  function After(rach: Rach, d: Detection, frame: nat, subframe: nat, cell: Cell): Rach {
    if Indicates(rach, d, cell.threshold) then
      Rach(if cell.pnf then 0 else 1, frame * 16 + subframe, Preamble(d.delay, d.preamble, 1 + subframe, 0, 0),
           rach.i0, rach.energyCounter, if cell.pnf then rach.notified + 1 else rach.notified)
    else
      rach.(i0 := Filtered(rach.i0, d.average),
            energyCounter := if rach.energyCounter < 100 then rach.energyCounter + 1 else rach.energyCounter)
  }

  /** The monolithic eNB on the subframe received at `ts`. */
  function Monolithic(rach: Rach, ts: nat, d: Detection, cell: Cell): Rach
    requires cell.tti > 0
  {
    var t := TimesAt(ts, cell.tti);
    if cell.isPrach(t.frameRx, t.subframeRx) > 0 then After(rach, d, t.framePrach, t.subframePrach, cell) else rach
  }

  class Enb {
    const cell: Cell
    const proc: L1Proc
    var number: nat
    var sfnSf: nat
    var preamble0: Preamble
    var prachI0: int
    var energyCounter: nat
    var notified: nat

    constructor (cell: Cell, rach: Rach)
      ensures this.cell == cell && View() == rach && fresh(proc)
    {
      this.cell := cell;
      proc := new L1Proc();
      number, sfnSf, preamble0 := rach.number, rach.sfnSf, rach.preamble0;
      prachI0, energyCounter, notified := rach.i0, rach.energyCounter, rach.notified;
    }

    function View(): Rach
      reads this
    {
      Rach(number, sfnSf, preamble0, prachI0, energyCounter, notified)
    }

    // The decision, as it stands in both procedures for br_flag 0.
    method Decide(d: Detection, frame: nat, subframe: nat)
      modifies this
      ensures View() == After(old(View()), d, frame, subframe, cell)
    {
      if energyCounter == 100 && d.energy > prachI0 + cell.threshold {
        number := 1;
        sfnSf := frame * 16 + subframe;
        preamble0 := Preamble(d.delay, d.preamble, 1 + subframe, 0, 0);
        if cell.pnf {
          notified := notified + 1;
          number := 0;
        }
      } else {
        prachI0 := Filtered(prachI0, d.average);
        if energyCounter < 100 {
          energyCounter := energyCounter + 1;
        }
      }
    }

    // Clock and gate of rxtx: setAllfromTS, then prach_eNB with br_flag 0.
    method PrachEnb(ts: nat, d: Detection)
      requires cell.tti > 0 && ts < U64
      modifies this, proc
      ensures View() == Monolithic(old(View()), ts, d, cell) && proc.View() == TimesAt(ts, cell.tti)
    {
      hide TimesAt, After;
      proc.SetAllFor(ts, cell.tti);
      if cell.isPrach(proc.frameRx, proc.subframeRx) > 0 {
        Decide(d, proc.framePrach, proc.subframePrach);
      }
    }

    /** UL_cu_fs6 on a received subframe: time and PRACH results are read from the first block that
        arrived. */
    method UlCuFs6(received: seq<Byte>)
      requires cell.tti > 0 && |received| >= HEADER + UL_HEADER && Timestamp(received) < U64
      modifies this, proc
      ensures View() == Monolithic(old(View()), Timestamp(received), HeaderOf(received), cell)
      ensures proc.View() == TimesAt(Timestamp(received), cell.tti)
    {
      hide TimesAt, After;
      proc.SetAllFor(Timestamp(received), cell.tti);
      PrachTimes(Timestamp(received), cell.tti);
      if cell.isPrach(proc.framePrach, proc.subframePrach) > 0 {
        Decide(HeaderOf(received), proc.framePrach, proc.subframePrach);
      }
    }
  }

  lemma PrachTimes(ts: nat, tti: nat)
    requires tti > 0
    ensures var t := TimesAt(ts, tti); t.framePrach == t.frameRx && t.subframePrach == t.subframeRx
  {
  }

  // Entry 0 of each array of the second header of the block at `at`.
  function HeaderAt(b: seq<Byte>, at: nat): Detection
    requires |b| >= at + HEADER + UL_HEADER
  {
    Detection(U16At(b, at + HEADER), U16At(b, at + HEADER + 8), U16At(b, at + HEADER + 16), U16At(b, at + HEADER + 24))
  }

  function HeaderOf(b: seq<Byte>): Detection
    requires |b| >= HEADER + UL_HEADER
  {
    HeaderAt(b, 0)
  }

  // ---- the distributed unit ----

  function LeBytes(v: nat, n: nat): (b: seq<Byte>)
    ensures |b| == n
  {
    if n == 0 then [] else [v % 256] + LeBytes(v / 256, n - 1)
  }

  function Span(n: nat): nat { if n == 0 then 1 else 256 * Span(n - 1) }

  lemma {:induction false} LeRoundTrip(v: nat, n: nat)
    requires v < Span(n)
    ensures Le(LeBytes(v, n)) == v
  {
    if n > 0 {
      LeRoundTrip(v / 256, n - 1);
      assert LeBytes(v, n)[1..] == LeBytes(v / 256, n - 1);
    }
  }

  lemma TimestampSpan()
    ensures Span(TIMESTAMP_BYTES) == U64
  {
    assert Span(3) == 0x100_0000;
    assert Span(6) == 256 * (256 * (256 * Span(3)));
    assert Span(8) == 256 * (256 * Span(6));
  }

  /** Send side of one subframe: timestamp, PRACH header, then the user blocks. */
  class DistributedUnit {
    const cell: Cell
    const buffer: SplitBuffer
    const proc: L1Proc

    constructor (cell: Cell, bytes: array<Byte>)
      requires bytes.Length >= HEADER + UL_HEADER
      modifies bytes
      ensures this.cell == cell && fresh(buffer) && fresh(proc) && buffer.bytes == bytes
      ensures buffer.Valid() && buffer.h == UL_HEADER && buffer.payloads == []
      ensures forall i :: 0 <= i < bytes.Length && !(NB_BLOCKS <= i < BLOCK_ID) ==> bytes[i] == old(bytes[i])
    {
      this.cell := cell;
      proc := new L1Proc();
      buffer := new SplitBuffer(bytes, UL_HEADER);
    }

    // prach_eNB_tosplit
    method PrachToSplit(d: Detection)
      requires d.Valid() && buffer.Valid() && buffer.h == UL_HEADER && buffer.payloads == []
      requires buffer.bytes.Length >= HEADER + UL_HEADER
      modifies buffer.bytes
      ensures buffer.Valid()
      ensures cell.isPrach(proc.framePrach, proc.subframePrach) > 0 ==>
                && HeaderOf(buffer.bytes[..]) == d
                && U16At(buffer.bytes[..], 24) == d.preamble && U16At(buffer.bytes[..], 32) == d.energy
                && U16At(buffer.bytes[..], 40) == d.delay && U16At(buffer.bytes[..], 48) == d.average
      ensures forall i :: 0 <= i < buffer.bytes.Length ==>
                || (cell.isPrach(proc.framePrach, proc.subframePrach) > 0 && HEADER <= i < HEADER + UL_HEADER && i % 8 < 2)
                || buffer.bytes[i] == old(buffer.bytes[i])
    {
      if cell.isPrach(proc.framePrach, proc.subframePrach) <= 0 {
        return;
      }
      buffer.PutU16(HEADER, d.preamble);
      buffer.PutU16(HEADER + 8, d.energy);
      buffer.PutU16(HEADER + 16, d.delay);
      buffer.PutU16(HEADER + 24, d.average);
    }

    /** UL_du_fs6 after reception at `ts`: every datagram of the subframe carries the timestamp, the content
        type, its number and their count; the first one, on a PRACH occasion, the detection, whatever blocks
        are appended behind, and every other one a second header that nobody has written: what the buffer
        held before. */
    method UlDuFs6(ts: nat, d: Detection, blocks: seq<seq<Byte>>, contentType: nat, clock: seq<Byte>)
      returns (datagrams: seq<seq<Byte>>)
      requires cell.tti > 0 && ts < U64 && d.Valid() && contentType < U16 && |clock| == 8
      requires buffer.Valid() && buffer.h == UL_HEADER && buffer.payloads == []
      requires |blocks| + 1 < U16 && forall k :: 0 <= k < |blocks| ==> UL_HEADER + |blocks[k]| < U16
      requires Room(UL_HEADER, blocks) <= buffer.bytes.Length && Aligned(UL_HEADER) <= buffer.bytes.Length
      modifies buffer`payloads, buffer.bytes, proc
      ensures var sent := if blocks == [] then [[]] else blocks;
              |datagrams| == |sent| && forall k :: 0 <= k < |sent| ==> Carries(datagrams[k], UL_HEADER, sent[k])
      ensures forall k :: 0 <= k < |datagrams| ==> |datagrams[k]| >= HEADER + UL_HEADER && Timestamp(datagrams[k]) == ts
      ensures forall k :: 0 <= k < |datagrams| ==>
                && U16At(datagrams[k], CONTENT_TYPE) == contentType
                && U16At(datagrams[k], BLOCK_ID) == k && U16At(datagrams[k], NB_BLOCKS) == |datagrams|
      ensures forall k :: 0 < k < |datagrams| ==>
                SecondHeader(datagrams[k], old(buffer.bytes[..]), UL_HEADER, Offset(UL_HEADER, blocks, k))
      ensures var t := TimesAt(ts, cell.tti);
              if cell.isPrach(t.framePrach, t.subframePrach) > 0 then HeaderOf(datagrams[0]) == d
              else SecondHeader(datagrams[0], old(buffer.bytes[..]), UL_HEADER, 0)
      ensures proc.View() == TimesAt(ts, cell.tti)
    {
      hide Room, Aligned, Carries, Stamped, TimesAt, LeBytes, Le, Chain, SecondHeader, HeadersKept, SameHeaders, Offset;
      ghost var was := buffer.bytes[..];
      proc.SetAllFor(ts, cell.tti);
      AlignedCovers(UL_HEADER);
      PutTimestamp(ts);
      ghost var stamped := buffer.bytes[..];
      PrachToSplit(d);
      ghost var head := buffer.bytes[..];
      assert head[..TIMESTAMP_BYTES] == stamped[..TIMESTAMP_BYTES];
      TimestampWritten(head, ts);
      KeptAtStart(was, head, blocks);
      AppendBlocks(blocks);
      ghost var filled := buffer.bytes[..];
      KeptLater(was, head, filled, blocks);
      buffer.AnnounceIfEmpty();
      ghost var ready := buffer.bytes[..];
      HeadersStay(head, filled, ready);
      AnnouncedKeeps(was, filled, ready, blocks);
      var sender := new Sender(buffer);
      datagrams := sender.SendSubFrame(contentType, clock);
      FirstDatagram(head, ready, datagrams[0]);
      if cell.isPrach(proc.framePrach, proc.subframePrach) <= 0 {
        SameSecondHeader(was, head, datagrams[0]);
      }
      AllStamped(datagrams, UL_HEADER, if blocks == [] then [[]] else blocks);
      AllNumbered(datagrams, contentType);
      OtherHeaders(was, ready, datagrams, blocks);
    }

    method AppendBlocks(blocks: seq<seq<Byte>>)
      requires buffer.Valid() && buffer.h == UL_HEADER && buffer.payloads == []
      requires |blocks| + 1 < U16 && forall k :: 0 <= k < |blocks| ==> UL_HEADER + |blocks[k]| < U16
      requires Room(UL_HEADER, blocks) <= buffer.bytes.Length
      modifies buffer`payloads, buffer.bytes
      ensures buffer.Valid() && buffer.payloads == blocks
      ensures SameHeaders(old(buffer.bytes[..]), buffer.bytes[..])
      ensures HeadersKept(old(buffer.bytes[..]), buffer.bytes[..], blocks)
    {
      hide Room, Aligned, Chain, Offset, HeadersKept;
      ghost var head := buffer.bytes[..];
      KeptAtStart(head, head, blocks);
      for i := 0 to |blocks|
        invariant buffer.Valid() && buffer.payloads == blocks[..i] && |head| == buffer.bytes.Length
        invariant SameHeaders(head, buffer.bytes[..]) && HeadersKept(head, buffer.bytes[..], blocks)
      {
        PrefixFits(UL_HEADER, blocks, i + 1);
        assert blocks[..i + 1] == blocks[..i] + [blocks[i]];
        ghost var mid := buffer.bytes[..];
        var fatal := buffer.Append(blocks[i]);
        OffsetIsRoom(UL_HEADER, blocks, i);
        AppendKeeps(head, mid, buffer.bytes[..], blocks, i);
      }
      assert blocks[..|blocks|] == blocks;
    }

    method PutTimestamp(ts: nat)
      requires ts < U64 && buffer.Valid() && buffer.payloads == []
      modifies buffer.bytes
      ensures buffer.Valid() && buffer.bytes[..TIMESTAMP_BYTES] == LeBytes(ts, TIMESTAMP_BYTES)
      ensures forall i :: TIMESTAMP_BYTES <= i < buffer.bytes.Length ==> buffer.bytes[i] == old(buffer.bytes[i])
    {
      hide LeBytes;
      buffer.PutBytes(0, LeBytes(ts, TIMESTAMP_BYTES));
      assert buffer.bytes[..TIMESTAMP_BYTES] == buffer.bytes[0..0 + TIMESTAMP_BYTES];
    }
  }

  lemma AllNumbered(datagrams: seq<seq<Byte>>, contentType: nat)
    requires |datagrams| > 0 && |datagrams[0]| >= HEADER && U16At(datagrams[0], CONTENT_TYPE) == contentType
    requires forall k :: 0 <= k < |datagrams| ==> Stamped(datagrams[k], datagrams[0], k, |datagrams|)
    ensures forall k :: 0 <= k < |datagrams| ==>
              && |datagrams[k]| >= HEADER && U16At(datagrams[k], CONTENT_TYPE) == contentType
              && U16At(datagrams[k], BLOCK_ID) == k && U16At(datagrams[k], NB_BLOCKS) == |datagrams|
  {
    hide U16At;
  }

  lemma TimestampWritten(b: seq<Byte>, ts: nat)
    requires |b| >= TIMESTAMP_BYTES && ts < U64 && b[..TIMESTAMP_BYTES] == LeBytes(ts, TIMESTAMP_BYTES)
    ensures Timestamp(b) == ts
  {
    TimestampSpan();
    LeRoundTrip(ts, TIMESTAMP_BYTES);
  }

  // Timestamp and second header agree.
  predicate SameHeaders(a: seq<Byte>, b: seq<Byte>) {
    |a| == |b| && forall i :: 0 <= i < |a| && (i < TIMESTAMP_BYTES || HEADER <= i < HEADER + UL_HEADER) ==> a[i] == b[i]
  }

  // The second header behind the common header at `at` is the same in both buffers.
  predicate SameSpan(a: seq<Byte>, b: seq<Byte>, at: nat) {
    && at + HEADER + UL_HEADER <= |a| == |b|
    && forall i :: at + HEADER <= i < at + HEADER + UL_HEADER ==> a[i] == b[i]
  }

  predicate HeadersKept(a: seq<Byte>, b: seq<Byte>, blocks: seq<seq<Byte>>) {
    |a| == |b| && forall k :: 0 < k < |blocks| ==> SameSpan(a, b, Offset(UL_HEADER, blocks, k))
  }

  // Time and detection are written in front of all second headers but the first.
  lemma KeptAtStart(a: seq<Byte>, b: seq<Byte>, blocks: seq<seq<Byte>>)
    requires Room(UL_HEADER, blocks) <= |a| == |b| && forall i :: HEADER + UL_HEADER <= i < |a| ==> a[i] == b[i]
    ensures HeadersKept(a, b, blocks)
  {
    hide Room, Offset, Aligned;
    forall k | 0 < k < |blocks|
      ensures SameSpan(a, b, Offset(UL_HEADER, blocks, k))
    {
      BlockInRoom(UL_HEADER, blocks, k);
      BlocksDisjoint(UL_HEADER, blocks, 0, k);
      OffsetStart(UL_HEADER, blocks);
    }
  }

  lemma KeptLater(a: seq<Byte>, b: seq<Byte>, c: seq<Byte>, blocks: seq<seq<Byte>>)
    requires HeadersKept(a, b, blocks) && HeadersKept(b, c, blocks)
    ensures HeadersKept(a, c, blocks)
  {
    hide Offset, SameSpan;
    forall k | 0 < k < |blocks|
      ensures SameSpan(a, c, Offset(UL_HEADER, blocks, k))
    {
      SpanLater(a, b, c, Offset(UL_HEADER, blocks, k));
    }
  }

  lemma SpanLater(a: seq<Byte>, b: seq<Byte>, c: seq<Byte>, at: nat)
    requires SameSpan(a, b, at) && SameSpan(b, c, at)
    ensures SameSpan(a, c, at)
  {
  }

  lemma OffsetIsRoom(h: nat, payloads: seq<seq<Byte>>, k: nat)
    requires k <= |payloads|
    ensures Offset(h, payloads, k) == Room(h, payloads[..k])
  {
  }

  lemma AppendKeeps(a: seq<Byte>, b: seq<Byte>, c: seq<Byte>, blocks: seq<seq<Byte>>, n: nat)
    requires HeadersKept(a, b, blocks) && n < |blocks| && |c| == |b|
    requires var end := Offset(UL_HEADER, blocks, n);
             forall i :: HEADER <= i < |b| ==>
               || end <= i < end + HEADER || end + HEADER + UL_HEADER <= i < end + HEADER + UL_HEADER + |blocks[n]|
               || c[i] == b[i]
    ensures HeadersKept(a, c, blocks)
  {
    hide Room, Aligned, Offset;
    forall k | 0 < k < |blocks|
      ensures SameSpan(a, c, Offset(UL_HEADER, blocks, k))
    {
      if k < n {
        BlocksDisjoint(UL_HEADER, blocks, k, n);
      } else if n < k {
        BlocksDisjoint(UL_HEADER, blocks, n, k);
      }
    }
  }

  lemma AnnouncedKeeps(a: seq<Byte>, b: seq<Byte>, c: seq<Byte>, blocks: seq<seq<Byte>>)
    requires HeadersKept(a, b, blocks) && |c| == |b| && forall i :: HEADER <= i < |b| ==> c[i] == b[i]
    ensures HeadersKept(a, c, blocks)
  {
    hide Offset;
  }

  lemma HeadersStay(a: seq<Byte>, b: seq<Byte>, c: seq<Byte>)
    requires SameHeaders(a, b) && |c| == |b| && forall i :: 0 <= i < |b| && (i < NB_BLOCKS || HEADER <= i) ==> c[i] == b[i]
    ensures SameHeaders(a, c)
  {
  }

  lemma FirstDatagram(head: seq<Byte>, ready: seq<Byte>, d: seq<Byte>)
    requires SameHeaders(head, ready) && |head| >= HEADER + UL_HEADER && |d| >= HEADER + UL_HEADER
    requires d[..TIMESTAMP_BYTES] == ready[..TIMESTAMP_BYTES]
    requires d[HEADER..HEADER + UL_HEADER] == ready[HEADER..HEADER + UL_HEADER]
    ensures HeaderOf(d) == HeaderOf(head) && Timestamp(d) == Timestamp(head) && SecondHeader(d, head, UL_HEADER, 0)
  {
    hide Timestamp;
    assert head[..TIMESTAMP_BYTES] == ready[..TIMESTAMP_BYTES];
    assert head[HEADER..HEADER + UL_HEADER] == ready[HEADER..HEADER + UL_HEADER];
    HeadersSeen(head, d);
  }

  lemma SameSecondHeader(was: seq<Byte>, head: seq<Byte>, d: seq<Byte>)
    requires SameFrom(was, head, HEADER) && SecondHeader(d, head, UL_HEADER, 0)
    ensures SecondHeader(d, was, UL_HEADER, 0)
  {
    assert was[HEADER..HEADER + UL_HEADER] == head[HEADER..HEADER + UL_HEADER];
  }

  lemma OtherHeaders(was: seq<Byte>, ready: seq<Byte>, datagrams: seq<seq<Byte>>, blocks: seq<seq<Byte>>)
    requires HeadersKept(was, ready, blocks) && (|datagrams| == |blocks| || |datagrams| <= 1)
    requires forall k :: 0 <= k < |blocks| && k < |datagrams| ==>
               SecondHeader(datagrams[k], ready, UL_HEADER, Offset(UL_HEADER, blocks, k))
    ensures forall k :: 0 < k < |datagrams| ==> SecondHeader(datagrams[k], was, UL_HEADER, Offset(UL_HEADER, blocks, k))
  {
    hide Offset;
    forall k | 0 < k < |datagrams|
      ensures SecondHeader(datagrams[k], was, UL_HEADER, Offset(UL_HEADER, blocks, k))
    {
      var at := Offset(UL_HEADER, blocks, k);
      assert SecondHeader(datagrams[k], ready, UL_HEADER, at) && SameSpan(was, ready, at);
      assert was[at + HEADER..at + HEADER + UL_HEADER] == ready[at + HEADER..at + HEADER + UL_HEADER];
    }
  }

  // Reading time and PRACH results only needs the headers.
  lemma HeadersSeen(a: seq<Byte>, d: seq<Byte>)
    requires |a| >= HEADER + UL_HEADER && |d| >= HEADER + UL_HEADER
    requires d[..TIMESTAMP_BYTES] == a[..TIMESTAMP_BYTES]
    requires d[HEADER..HEADER + UL_HEADER] == a[HEADER..HEADER + UL_HEADER]
    ensures HeaderOf(d) == HeaderOf(a) && Timestamp(d) == Timestamp(a)
  {
    assert forall i :: HEADER <= i < HEADER + UL_HEADER ==> d[i] == d[HEADER..HEADER + UL_HEADER][i - HEADER];
    assert forall i :: HEADER <= i < HEADER + UL_HEADER ==> a[i] == a[HEADER..HEADER + UL_HEADER][i - HEADER];
  }

  // ---- when the split preserves the procedure ----

  // The second header of the datagram that arrives first: the detection for block 0, else what the
  // send buffer happened to hold at that place.
  function HeaderRead(bytes: seq<Byte>, d: Detection, blocks: seq<seq<Byte>>, first: nat): Detection
    requires first == 0 || first < |blocks|
    requires Room(UL_HEADER, blocks) <= |bytes|
  {
    if first == 0 then d
    else
      BlockInRoom(UL_HEADER, blocks, first);
      HeaderAt(bytes, Offset(UL_HEADER, blocks, first))
  }

  lemma SecondHeaderRead(d: seq<Byte>, b: seq<Byte>, at: nat)
    requires SecondHeader(d, b, UL_HEADER, at)
    ensures |d| >= HEADER + UL_HEADER && at + HEADER + UL_HEADER <= |b| && HeaderOf(d) == HeaderAt(b, at)
  {
    var x, y := d[HEADER..HEADER + UL_HEADER], b[at + HEADER..at + HEADER + UL_HEADER];
    assert forall i :: 0 <= i < |x| ==> x[i] == d[HEADER + i];
    assert forall i :: 0 <= i < |y| ==> y[i] == b[at + HEADER + i];
  }

  lemma SocketOfSubframe(datagrams: seq<seq<Byte>>, order: seq<nat>, ts: nat, contentType: nat)
    requires order != [] && forall i :: 0 <= i < |order| ==> order[i] < |datagrams|
    requires forall k :: 0 <= k < |datagrams| ==>
               && |datagrams[k]| >= HEADER + UL_HEADER && Timestamp(datagrams[k]) == ts
               && U16At(datagrams[k], CONTENT_TYPE) == contentType
    ensures WellFormed(Socket(datagrams, order))
    ensures OfSubframe(Socket(datagrams, order), contentType, datagrams[order[0]])
  {
    hide Timestamp;
  }

  // The call begins with the first datagram that arrives.
  lemma FirstRead(socket: seq<Event>, contentType: nat, first: seq<Byte>, used: nat, outcome: Outcome)
    requires socket != [] && socket[0] == Arrival(first) && OfSubframe(socket, contentType, first) && |first| >= HEADER
    requires Ends([], socket, contentType, used, outcome)
    ensures used > 0 && (outcome == Complete || outcome == TimedOut)
    ensures var got := Held([], socket[..used]); got != [] && got[0] == first
  {
    hide Held, Ends, OfSubframe;
    SubframeIsRead([], socket, contentType, first, used, outcome);
    HeldOfSubframe([], socket, contentType, first, used);
  }

  /** One subframe received, sent, delivered in any order with losses and duplicates, collected and processed:
      the central unit reads the datagrams until it has as many as announced, or no more arrive, and does
      what the monolithic procedure does on the header that arrived first. */
  method SplitSubframe(du: DistributedUnit, receiver: Fs6Receive.Receiver, cu: Enb, ts: nat, d: Detection, blocks: seq<seq<Byte>>,
                       order: seq<nat>, contentType: nat, clock: seq<Byte>)
    returns (used: nat, outcome: Outcome)
    requires du.cell == cu.cell && cu.cell.tti > 0 && ts < U64 && d.Valid() && contentType < U16 && |clock| == 8
    requires du.buffer.Valid() && du.buffer.h == UL_HEADER && du.buffer.payloads == []
    requires |blocks| + 1 < U16 && forall k :: 0 <= k < |blocks| ==> UL_HEADER + |blocks[k]| < U16
    requires Room(UL_HEADER, blocks) <= du.buffer.bytes.Length && Aligned(UL_HEADER) <= du.buffer.bytes.Length
    requires order != [] && forall i :: 0 <= i < |order| ==> order[i] == 0 || order[i] < |blocks|
    requires receiver.crossData == []
    modifies du.buffer`payloads, du.buffer.bytes, du.proc, receiver, cu, cu.proc
    ensures receiver.crossData == []
    ensures var n := if blocks == [] then 1 else |blocks|;
            && used == (if |order| >= n then n else |order|)
            && outcome == (if |order| >= n then Complete else TimedOut)
    ensures cu.View() == Monolithic(old(cu.View()), ts, HeaderRead(old(du.buffer.bytes[..]), d, blocks, order[0]), cu.cell)
    ensures du.proc != cu.proc ==> du.proc.View() == cu.proc.View() == TimesAt(ts, cu.cell.tti)
  {
    hide Room, Aligned, Carries, TimesAt, After, Concat, Timestamp, Chain, SecondHeader, Offset, Held, Ends, OfSubframe;
    hide WholeSubframe, AsArrived, Accounted, OneSubframe, Announced, WellFormed;
    var datagrams := du.UlDuFs6(ts, d, blocks, contentType, clock);
    SocketOfSubframe(datagrams, order, ts, contentType);
    var got;
    got, used, outcome := receiver.ReceiveSubFrame(Socket(datagrams, order), contentType);
    SubframeIsRead([], Socket(datagrams, order), contentType, datagrams[order[0]], used, outcome);
    FirstRead(Socket(datagrams, order), contentType, datagrams[order[0]], used, outcome);
    FirstArrivedIsFirst(got);
    var received := Concat(got);
    SameFront(got[0], received);
    PrachTimes(ts, cu.cell.tti);
    if order[0] > 0 {
      SecondHeaderRead(datagrams[order[0]], old(du.buffer.bytes[..]), Offset(UL_HEADER, blocks, order[0]));
    }
    cu.UlCuFs6(received);
  }

  lemma SameFront(d: seq<Byte>, received: seq<Byte>)
    requires |d| >= HEADER + UL_HEADER && d <= received
    ensures HeaderOf(received) == HeaderOf(d) && Timestamp(received) == Timestamp(d)
  {
    assert received[..|d|] == d;
    HeadersSeen(received, d);
  }

  // The subframe received at `ts` has a PRACH occasion.
  predicate PrachAt(cell: Cell, ts: nat)
    requires cell.tti > 0
  {
    var t := TimesAt(ts, cell.tti);
    cell.isPrach(t.frameRx, t.subframeRx) > 0
  }

  // The monolithic procedure on subframe after subframe.
  function OnAll(rach: Rach, seen: seq<(nat, Detection)>, cell: Cell): Rach
    requires cell.tti > 0
  {
    if seen == [] then rach
    else
      var (ts, d) := seen[|seen| - 1];
      Monolithic(OnAll(rach, seen[..|seen| - 1], cell), ts, d, cell)
  }

  // What an eNB starts with.
  const START := Rach(0, 0, Preamble(0, 0, 0, 0, 0), 0, 0, 0)

  // The states that subframes with any detections lead to.
  ghost predicate Occurs(rach: Rach, cell: Cell)
    requires cell.tti > 0
  {
    exists seen: seq<(nat, Detection)> ::
      (forall k :: 0 <= k < |seen| ==> seen[k].1.Valid()) && rach == OnAll(START, seen, cell)
  }

  // The outcome of `SplitSubframe` is that of the monolithic procedure, in whatever state the eNB can be
  // and whatever the send buffer held.
  ghost predicate SplitPreserves(cell: Cell, ts: nat, d: Detection, blocks: seq<seq<Byte>>, first: nat)
    requires cell.tti > 0 && (first == 0 || first < |blocks|)
  {
    forall rach: Rach, bytes: seq<Byte> :: Occurs(rach, cell) && Room(UL_HEADER, blocks) <= |bytes| ==>
      Monolithic(rach, ts, HeaderRead(bytes, d, blocks, first), cell) == Monolithic(rach, ts, d, cell)
  }

  /** Split preserves meaning exactly if block 0 arrives first or the subframe has no PRACH occasion. */
  lemma SplitPreservesExactly(cell: Cell, ts: nat, d: Detection, blocks: seq<seq<Byte>>, first: nat)
    requires cell.tti > 0 && (first == 0 || first < |blocks|)
    ensures SplitPreserves(cell, ts, d, blocks, first) <==> first == 0 || !PrachAt(cell, ts)
  {
    hide TimesAt, Room, Offset, Occurs;
    if first != 0 && PrachAt(cell, ts) {
      StartOccurs(cell);
      var bytes := AnotherNoise(cell, ts, d, blocks, first);
    }
  }

  lemma StartOccurs(cell: Cell)
    requires cell.tti > 0
    ensures Occurs(START, cell)
  {
    var none: seq<(nat, Detection)> := [];
    assert OnAll(START, none, cell) == START;
  }

  // On the very first occasion the noise estimate is already another one.
  lemma AnotherNoise(cell: Cell, ts: nat, d: Detection, blocks: seq<seq<Byte>>, first: nat) returns (bytes: seq<Byte>)
    requires cell.tti > 0 && 0 < first < |blocks| && PrachAt(cell, ts)
    ensures Room(UL_HEADER, blocks) <= |bytes|
    ensures Monolithic(START, ts, HeaderRead(bytes, d, blocks, first), cell).i0 != Monolithic(START, ts, d, cell).i0
  {
    hide TimesAt, Room, Offset;
    var value: Byte := if d.average * 124 / 1024 == 0 then 255 else 0;
    bytes := seq(Room(UL_HEADER, blocks), _ => value);
    BlockInRoom(UL_HEADER, blocks, first);
  }

  // Occasions without any energy count up to 100 and leave the noise estimate at 0.
  lemma {:induction false} Silence(cell: Cell, ts: nat, n: nat) returns (seen: seq<(nat, Detection)>)
    requires cell.tti > 0 && PrachAt(cell, ts) && n <= 100
    ensures |seen| == n && OnAll(START, seen, cell) == START.(energyCounter := n)
    ensures forall k :: 0 <= k < n ==> seen[k] == (ts, Detection(0, 0, 0, 0))
  {
    hide TimesAt, Monolithic;
    seen := [];
    if n > 0 {
      var before := Silence(cell, ts, n - 1);
      seen := before + [(ts, Detection(0, 0, 0, 0))];
      assert seen[..|seen| - 1] == before;
      OneSilent(cell, ts, n);
    }
  }

  lemma OneSilent(cell: Cell, ts: nat, n: nat)
    requires cell.tti > 0 && PrachAt(cell, ts) && 0 < n <= 100
    ensures Monolithic(START.(energyCounter := n - 1), ts, Detection(0, 0, 0, 0), cell) == START.(energyCounter := n)
  {
    hide TimesAt;
  }

  /** A run that goes wrong: after 100 silent occasions the energy is above the threshold, and the buffer
      held another preamble where the block that arrives first has its second header. The central unit
      reports a random access with that preamble. */
  lemma AnotherPreamble(cell: Cell, ts: nat, d: Detection, blocks: seq<seq<Byte>>, first: nat)
    returns (bytes: seq<Byte>, rach: Rach)
    requires cell.tti > 0 && d.Valid() && 0 < first < |blocks| && PrachAt(cell, ts) && d.energy > cell.threshold
    ensures Room(UL_HEADER, blocks) <= |bytes| && Occurs(rach, cell)
    ensures var read := HeaderRead(bytes, d, blocks, first);
            && read.preamble != d.preamble
            && Monolithic(rach, ts, read, cell).preamble0.preamble == read.preamble
            && Monolithic(rach, ts, d, cell).preamble0.preamble == d.preamble
  {
    hide TimesAt, Room, Offset;
    BlockInRoom(UL_HEADER, blocks, first);
    var at := Offset(UL_HEADER, blocks, first) + HEADER;
    var value: Byte := if d.preamble == 65535 then 0 else 255;
    bytes := seq(Room(UL_HEADER, blocks), k => if at <= k < at + 2 then value else 255);
    var seen := Silence(cell, ts, 100);
    rach := OnAll(START, seen, cell);
  }

  // ---- what a PRACH occasion changes ----

  /** The indication is written exactly when the counter is at 100 and the energy above noise plus
      threshold; it then names the preamble, delay and time, and noise and counter stay. Otherwise the
      indication stays, and noise and counter move on. */
  lemma IndicatedExactly(rach: Rach, ts: nat, d: Detection, cell: Cell)
    requires cell.tti > 0 && PrachAt(cell, ts)
    ensures var r, t := Monolithic(rach, ts, d, cell), TimesAt(ts, cell.tti);
            if rach.energyCounter == 100 && d.energy > rach.i0 + cell.threshold then
              && r.preamble0 == Preamble(d.delay, d.preamble, 1 + t.subframeRx, 0, 0)
              && r.sfnSf == t.frameRx * 16 + t.subframeRx && (r.i0, r.energyCounter) == (rach.i0, rach.energyCounter)
              && r.number + r.notified == rach.notified + 1 && (r.number == 1 <==> !cell.pnf)
            else
              && (r.number, r.sfnSf, r.preamble0, r.notified) == (rach.number, rach.sfnSf, rach.preamble0, rach.notified)
              && r.i0 == rach.i0 * 900 / 1024 + d.average * 124 / 1024
  {
    PrachTimes(ts, cell.tti);
  }

  /** On any sequence of subframes the counter never falls and never passes 100, and without a PRACH
      occasion nothing changes. */
  lemma {:induction false} CounterBounds(rach: Rach, seen: seq<(nat, Detection)>, cell: Cell)
    requires cell.tti > 0 && rach.energyCounter <= 100
    ensures rach.energyCounter <= OnAll(rach, seen, cell).energyCounter <= 100
    ensures (forall i :: 0 <= i < |seen| ==> !PrachAt(cell, seen[i].0)) ==> OnAll(rach, seen, cell) == rach
  {
    hide TimesAt;
    if seen != [] {
      var before := seen[..|seen| - 1];
      CounterBounds(rach, before, cell);
      assert forall i :: 0 <= i < |before| ==> before[i] == seen[i];
    }
  }
}
