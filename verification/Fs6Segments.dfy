/** How the distributed unit cuts soft bits into segments, and what arrives of them. */
module Fs6Segments {
  import opened Arith
  import opened Fs6Chain
  import opened Fs6Codec
  import opened Fs6Receive
  import opened Fs6Uplink

  /** One HARQ process of one subframe at the distributed unit: `g` coded bits, modulation order `qm`,
      `c` code segments, the soft bits as bytes, and the fields sent along with every segment. */
  datatype Job = Job(
    ueId: nat, harqId: Byte, g: nat, qm: nat, c: nat, source: seq<Byte>,
    power: seq<Byte>, oAck: seq<Byte>, ackCount: Byte, ta: seq<Byte>, tail: seq<Byte>)
  {
    predicate Valid() {
      && qm > 0 && 0 < c <= 256 && ueId < U16 && g < U32 && |source| >= 2 * g
      && |power| == 8 && |oAck| == 4 && |ta| == 4
    }

    function Key(): Key { Fs6Uplink.Key(ueId, harqId) }

    function Gp(): nat
      requires Valid()
    {
      g / qm
    }

    // E in ulsch_decoding_data
    function SegmentSize(r: nat): nat
      requires Valid()
    {
      var gpModC := Gp() % c;
      if r < c - gpModC then qm * (Gp() / c) else qm * ((if gpModC == 0 then 0 else 1) + Gp() / c)
    }

    function Start(r: nat): nat
      requires Valid()
    {
      if r == 0 then 0 else Start(r - 1) + SegmentSize(r - 1)
    }
  }

  // Modulation symbols before segment r.
  function UnitsBefore(gp: nat, c: nat, r: nat): int
    requires c > 0
  {
    r * (gp / c) + (if r <= c - gp % c then 0 else r - (c - gp % c))
  }

  lemma UnitsStep(gp: nat, c: nat, r: nat)
    requires c > 0 && r < c
    ensures UnitsBefore(gp, c, r + 1) == UnitsBefore(gp, c, r) + gp / c + (if r < c - gp % c then 0 else 1)
  {
    assert (r + 1) * (gp / c) == r * (gp / c) + gp / c;
  }

  lemma UnitsAll(gp: nat, c: nat)
    requires c > 0
    ensures UnitsBefore(gp, c, c) == gp && UnitsBefore(gp, c, 0) == 0
  {
    assert c * (gp / c) == (gp / c) * c;
    assert gp == (gp / c) * c + gp % c;
    assert 0 * (gp / c) == 0;
  }

  lemma {:induction false} StartUnits(j: Job, r: nat)
    requires j.Valid() && r <= j.c
    ensures j.Start(r) == j.qm * UnitsBefore(j.Gp(), j.c, r)
  {
    if r == 0 {
      UnitsAll(j.Gp(), j.c);
    } else {
      hide UnitsBefore, Job.SegmentSize;
      StartUnits(j, r - 1);
      SizeInUnits(j, r - 1);
      Distribute(j.qm, UnitsBefore(j.Gp(), j.c, r), UnitsBefore(j.Gp(), j.c, r - 1));
    }
  }

  lemma SizeInUnits(j: Job, r: nat)
    requires j.Valid() && r < j.c
    ensures j.SegmentSize(r) == j.qm * (UnitsBefore(j.Gp(), j.c, r + 1) - UnitsBefore(j.Gp(), j.c, r))
  {
    UnitsStep(j.Gp(), j.c, r);
    hide UnitsBefore;
  }

  lemma Distribute(a: int, b: int, c: int)
    ensures a * (b - c) == a * b - a * c
  {
  }

  /** The segments lie one behind the other and together cover exactly the whole modulation symbols. */
  lemma SegmentsTile(j: Job)
    requires j.Valid()
    ensures j.Start(j.c) == j.qm * j.Gp() <= j.g
  {
    hide UnitsBefore, Job.Start;
    StartUnits(j, j.c);
    UnitsAll(j.Gp(), j.c);
    assert j.g == (j.g / j.qm) * j.qm + j.g % j.qm;
    assert (j.g / j.qm) * j.qm == j.qm * (j.g / j.qm);
  }

  lemma {:induction false} StartsOrdered(j: Job, r: nat, s: nat)
    requires j.Valid() && r <= s
    ensures j.Start(r) <= j.Start(s)
    ensures r < s ==> j.Start(r) + j.SegmentSize(r) <= j.Start(s)
    decreases s - r
  {
    hide Job.SegmentSize;
    if r < s {
      assert j.Start(r + 1) == j.Start(r) + j.SegmentSize(r);
      StartsOrdered(j, r + 1, s);
    }
  }

  // The segment a byte of the soft bits belongs to.
  lemma {:induction false} SegmentOf(j: Job, x: nat, n: nat) returns (r: nat)
    requires j.Valid() && x < 2 * j.Start(n)
    ensures r < n && 2 * j.Start(r) <= x < 2 * (j.Start(r) + j.SegmentSize(r))
    decreases n
  {
    hide Job.SegmentSize;
    if x < 2 * j.Start(n - 1) {
      r := SegmentOf(j, x, n - 1);
    } else {
      r := n - 1;
    }
  }

  function SegmentRecord(j: Job, r: nat): Ulsch
    requires j.Valid() && r < j.c
  {
    StartsOrdered(j, r, j.c);
    SegmentsTile(j);
    var start := j.Start(r);
    Ulsch(j.ueId, j.harqId, r, start, j.g, j.power, j.oAck, j.ackCount, j.ta, j.tail,
          j.source[2 * start..2 * start + 2 * j.SegmentSize(r)])
  }

  lemma SegmentRecordFits(j: Job, r: nat)
    requires j.Valid() && r < j.c && 2 * j.g < U32
    ensures SegmentRecord(j, r).Valid(|j.tail|)
    ensures |SegmentRecord(j, r).data| == 2 * j.SegmentSize(r) && j.Start(r) + j.SegmentSize(r) <= j.g
  {
    StartsOrdered(j, r, j.c);
    SegmentsTile(j);
  }

  /** The blocks of the first n segments. */
  function Segments(j: Job, n: nat): (p: seq<seq<Byte>>)
    requires j.Valid() && n <= j.c && 2 * j.g < U32
    ensures |p| == n
  {
    if n == 0 then []
    else
      SegmentRecordFits(j, n - 1);
      Segments(j, n - 1) + [EncodeUlsch(SegmentRecord(j, n - 1), |j.tail|)]
  }

  lemma {:induction false} SegmentsPrefix(j: Job, n: nat)
    requires j.Valid() && n <= j.c && 2 * j.g < U32
    ensures Segments(j, n) == Segments(j, j.c)[..n]
    decreases j.c - n
  {
    hide Job.Valid;
    if n < j.c {
      SegmentsPrefix(j, n + 1);
      assert Segments(j, n + 1)[..n] == Segments(j, n);
    }
  }

  lemma SegmentAt(j: Job, r: nat)
    requires j.Valid() && r < j.c && 2 * j.g < U32
    ensures SegmentRecord(j, r).Valid(|j.tail|)
    ensures Segments(j, j.c)[r] == EncodeUlsch(SegmentRecord(j, r), |j.tail|)
  {
    hide EncodeUlsch, SegmentRecord;
    SegmentRecordFits(j, r);
    SegmentsPrefix(j, r + 1);
    assert Segments(j, r + 1)[r] == Segments(j, j.c)[r];
  }

  /** ulsch_decoding_data at the distributed unit: exactly the segment blocks are appended, in order. */
  method SendSegments(j: Job, buffer: SplitBuffer) returns (fatal: bool)
    requires j.Valid() && 2 * j.g < U32 && buffer.Valid() && buffer.h == UL_HEADER
    requires forall r :: 0 <= r < j.c ==> UL_HEADER + ULSCH_FIXED + |j.tail| + 2 * j.SegmentSize(r) < U16
    requires |buffer.payloads| + j.c < U16
    requires Room(UL_HEADER, buffer.payloads + Segments(j, j.c)) <= buffer.bytes.Length
    modifies buffer`payloads, buffer.bytes
    ensures !fatal && buffer.Valid() && buffer.payloads == old(buffer.payloads) + Segments(j, j.c)
    ensures forall i :: 0 <= i < buffer.bytes.Length && (i < NB_BLOCKS || HEADER <= i < HEADER + UL_HEADER) ==>
              buffer.bytes[i] == old(buffer.bytes[i])
  {
    hide Job.SegmentSize, Room, EncodeUlsch, Chain, Segments;
    ghost var before := buffer.payloads;
    var rOffset := 0;
    fatal := false;
    NoSegments(j);
    for r := 0 to j.c
      invariant rOffset == j.Start(r) && !fatal
      invariant buffer.Valid() && buffer.payloads == before + Segments(j, r)
      invariant forall i :: 0 <= i < buffer.bytes.Length && (i < NB_BLOCKS || HEADER <= i < HEADER + UL_HEADER) ==>
                  buffer.bytes[i] == old(buffer.bytes[i])
    {
      var e := j.SegmentSize(r);
      SegmentRecordFits(j, r);
      var u := Ulsch(j.ueId, j.harqId, r, rOffset, j.g, j.power, j.oAck, j.ackCount, j.ta, j.tail,
                     j.source[2 * rOffset..2 * rOffset + 2 * e]);
      var payload := EncodeUlsch(u, |j.tail|);
      NextSegment(j, before, r);
      fatal := buffer.Append(payload);
      rOffset := rOffset + e;
    }
  }

  lemma NoSegments(j: Job)
    requires j.Valid() && 2 * j.g < U32
    ensures Segments(j, 0) == [] && j.Start(0) == 0
  {
  }

  // Every intermediate chain fits if the last one does.
  lemma NextSegment(j: Job, before: seq<seq<Byte>>, r: nat)
    requires j.Valid() && r < j.c && 2 * j.g < U32
    ensures SegmentRecord(j, r).Valid(|j.tail|)
    ensures before + Segments(j, r + 1) == before + Segments(j, r) + [EncodeUlsch(SegmentRecord(j, r), |j.tail|)]
    ensures Room(UL_HEADER, before + Segments(j, r + 1)) <= Room(UL_HEADER, before + Segments(j, j.c))
  {
    hide Room, EncodeUlsch, SegmentRecord;
    SegmentRecordFits(j, r);
    SegmentsPrefix(j, r + 1);
    var all := before + Segments(j, j.c);
    assert all[..|before| + r + 1] == before + Segments(j, r + 1);
    OffsetsOrdered(UL_HEADER, all, |before| + r + 1, |all|);
    assert all[..|all|] == all;
  }

  // ---- delivery ----

  predicate OtherProcess(b: seq<Byte>, key: Key, sizes: Sizes) {
    IsUlsch(b, sizes.tail) ==> KeyOf(DecodeUlsch(b, sizes.tail)) != key
  }

  /** In a subframe carrying this job's segments, only they concern its HARQ process. */
  predicate CarriesJob(sent: seq<seq<Byte>>, j: Job, base: nat, sizes: Sizes) {
    && j.Valid() && 2 * j.g < U32 && |j.tail| == sizes.tail && base + j.c <= |sent|
    && sent[base..base + j.c] == Segments(j, j.c)
    && forall i :: 0 <= i < |sent| && !(base <= i < base + j.c) ==> OtherProcess(sent[i], j.Key(), sizes)
  }

  lemma SegmentBlock(j: Job, r: nat, b: seq<Byte>, x: nat, sizes: Sizes)
    requires j.Valid() && r < j.c && 2 * j.g < U32 && |j.tail| == sizes.tail && b == Segments(j, j.c)[r]
    ensures CutFrom(b, j.Key(), j.source, sizes)
    ensures CoversByte(b, j.Key(), x, sizes) <==> 2 * j.Start(r) <= x < 2 * (j.Start(r) + j.SegmentSize(r))
  {
    SegmentAt(j, r);
    SegmentRecordFits(j, r);
    UlschRoundTrip(SegmentRecord(j, r), sizes.tail);
    hide IsUlsch, DecodeUlsch, EncodeUlsch, Segments, Job.SegmentSize;
  }

  lemma SentBlock(sent: seq<seq<Byte>>, j: Job, base: nat, i: nat, r: nat, x: nat, sizes: Sizes)
    requires CarriesJob(sent, j, base, sizes) && i < |sent| && r < j.c
    requires 2 * j.Start(r) <= x < 2 * (j.Start(r) + j.SegmentSize(r))
    ensures CutFrom(sent[i], j.Key(), j.source, sizes)
    ensures CoversByte(sent[i], j.Key(), x, sizes) <==> i == base + r
  {
    hide IsUlsch, DecodeUlsch, Segments, Job.SegmentSize;
    if base <= i < base + j.c {
      var s := i - base;
      assert sent[i] == sent[base..base + j.c][s];
      SegmentBlock(j, s, sent[i], x, sizes);
      if s < r {
        StartsOrdered(j, s, r);
      } else if r < s {
        StartsOrdered(j, r, s);
      }
    }
  }

  /** For every arrival order, with any duplicates and any losses: the bytes of a segment are the
      sender's exactly if its block arrived, and otherwise untouched. */
  lemma ByteDelivered(st: UlState, sent: seq<seq<Byte>>, order: seq<nat>, j: Job, base: nat, r: nat, x: nat, sizes: Sizes)
    requires CarriesJob(sent, j, base, sizes) && r < j.c
    requires forall i :: 0 <= i < |order| ==> order[i] < |sent|
    requires j.Key() in st.harq && |st.harq[j.Key()].eUL| == |j.source| && x < |j.source|
    requires 2 * j.Start(r) <= x < 2 * (j.Start(r) + j.SegmentSize(r))
    ensures var after := ApplyAll(st, Delivered(sent, order), sizes);
            && j.Key() in after.harq && |after.harq[j.Key()].eUL| == |j.source|
            && after.harq[j.Key()].eUL[x] == if base + r in order then j.source[x] else st.harq[j.Key()].eUL[x]
  {
    hide CarriesJob, CutFrom, CoversByte, ApplyAll, Job.SegmentSize, Job.Start, Job.Valid;
    var arrived := Delivered(sent, order);
    forall k | 0 <= k < |arrived|
      ensures CutFrom(arrived[k], j.Key(), j.source, sizes)
      ensures CoversByte(arrived[k], j.Key(), x, sizes) <==> order[k] == base + r
    {
      SentBlock(sent, j, base, order[k], r, x, sizes);
    }
    Reassembly(st, arrived, j.Key(), j.source, x, sizes);
    assert Covered(arrived, j.Key(), x, sizes) <==> base + r in order;
  }

  /** If every segment arrives at least once, the soft bits are those of the sender. */
  lemma AllSegmentsDelivered(st: UlState, sent: seq<seq<Byte>>, order: seq<nat>, j: Job, base: nat, sizes: Sizes)
    requires CarriesJob(sent, j, base, sizes)
    requires forall i :: 0 <= i < |order| ==> order[i] < |sent|
    requires j.Key() in st.harq && |st.harq[j.Key()].eUL| == |j.source|
    requires forall i :: base <= i < base + j.c ==> i in order
    ensures var after := ApplyAll(st, Delivered(sent, order), sizes);
            && j.Key() in after.harq && |after.harq[j.Key()].eUL| == |j.source|
            && 2 * j.Start(j.c) == 2 * j.qm * j.Gp() <= |j.source|
            && after.harq[j.Key()].eUL == j.source[..2 * j.Start(j.c)] + st.harq[j.Key()].eUL[2 * j.Start(j.c)..]
  {
    hide ApplyAll, CarriesJob, Job.Start, Job.SegmentSize, Job.Valid;
    JobOf(sent, j, base, sizes);
    SegmentsTile(j);
    var all := 2 * j.Start(j.c);
    assert all == 2 * j.qm * j.Gp();
    var before, after := st.harq[j.Key()].eUL, ApplyAll(st, Delivered(sent, order), sizes);
    SizeKept(st, Delivered(sent, order), j.Key(), sizes);
    forall x | 0 <= x < |j.source|
      ensures after.harq[j.Key()].eUL[x] == if x < all then j.source[x] else before[x]
    {
      if x < all {
        var r := SegmentOf(j, x, j.c);
        ByteDelivered(st, sent, order, j, base, r, x, sizes);
      } else {
        BeyondUntouched(st, sent, order, j, base, x, sizes);
      }
    }
    assert after.harq[j.Key()].eUL == j.source[..all] + before[all..];
  }

  lemma JobOf(sent: seq<seq<Byte>>, j: Job, base: nat, sizes: Sizes)
    requires CarriesJob(sent, j, base, sizes)
    ensures j.Valid() && 2 * j.g <= |j.source|
  {
  }

  lemma {:induction false} SizeKept(st: UlState, payloads: seq<seq<Byte>>, key: Key, sizes: Sizes)
    requires key in st.harq
    ensures var after := ApplyAll(st, payloads, sizes);
            key in after.harq && |after.harq[key].eUL| == |st.harq[key].eUL|
  {
    hide IsUlsch, DecodeUlsch, IsUci, Elements;
    if payloads != [] {
      SizeKept(st, payloads[..|payloads| - 1], key, sizes);
    }
  }

  // Nothing is written behind the last segment.
  lemma BeyondUntouched(st: UlState, sent: seq<seq<Byte>>, order: seq<nat>, j: Job, base: nat, x: nat, sizes: Sizes)
    requires CarriesJob(sent, j, base, sizes)
    requires forall i :: 0 <= i < |order| ==> order[i] < |sent|
    requires j.Key() in st.harq && |st.harq[j.Key()].eUL| == |j.source|
    requires 2 * j.Start(j.c) <= x < |j.source|
    ensures var after := ApplyAll(st, Delivered(sent, order), sizes);
            j.Key() in after.harq && |after.harq[j.Key()].eUL| == |j.source|
            && after.harq[j.Key()].eUL[x] == st.harq[j.Key()].eUL[x]
  {
    hide CutFrom, CoversByte, ApplyAll, Job.SegmentSize, IsUlsch, DecodeUlsch, Segments;
    var arrived := Delivered(sent, order);
    forall k | 0 <= k < |arrived|
      ensures CutFrom(arrived[k], j.Key(), j.source, sizes) && !CoversByte(arrived[k], j.Key(), x, sizes)
    {
      BlockBelow(sent, j, base, order[k], x, sizes);
    }
    Reassembly(st, arrived, j.Key(), j.source, x, sizes);
  }

  lemma BlockBelow(sent: seq<seq<Byte>>, j: Job, base: nat, i: nat, x: nat, sizes: Sizes)
    requires CarriesJob(sent, j, base, sizes) && i < |sent| && 2 * j.Start(j.c) <= x
    ensures CutFrom(sent[i], j.Key(), j.source, sizes) && !CoversByte(sent[i], j.Key(), x, sizes)
  {
    hide IsUlsch, DecodeUlsch, Segments, Job.SegmentSize;
    if base <= i < base + j.c {
      assert sent[i] == sent[base..base + j.c][i - base];
      SegmentBlock(j, i - base, sent[i], x, sizes);
      StartsOrdered(j, i - base, j.c);
    }
  }

  // ---- the fields sent along ----

  predicate OtherUser(b: seq<Byte>, ueId: nat, sizes: Sizes) {
    !IsFrom(b, ueId, sizes)
  }

  // A block of this job says what the job says.
  lemma SegmentFields(sent: seq<seq<Byte>>, j: Job, base: nat, i: nat, sizes: Sizes)
    requires CarriesJob(sent, j, base, sizes) && base <= i < base + j.c
    ensures IsFor(sent[i], j.Key(), sizes)
    ensures var u := DecodeUlsch(sent[i], sizes.tail);
            && u.segment == i - base && u.ackCount == j.ackCount && u.rOffset == j.Start(i - base)
            && u.ueId == j.ueId && u.g == j.g && u.oAck == j.oAck && u.tail == j.tail && u.power == j.power && u.ta == j.ta
  {
    var r := i - base;
    assert sent[i] == sent[base..base + j.c][r];
    SegmentAt(j, r);
    UlschRoundTrip(SegmentRecord(j, r), sizes.tail);
    hide IsUlsch, DecodeUlsch, EncodeUlsch, Segments, Job.SegmentSize, Job.Start;
  }

  // The last block of the job that arrives.
  lemma LastOfJob(order: seq<nat>, base: nat, c: nat) returns (k: nat)
    requires exists i :: base <= i < base + c && i in order
    ensures k < |order| && base <= order[k] < base + c
    ensures forall m :: k < m < |order| ==> !(base <= order[m] < base + c)
  {
    var i :| base <= i < base + c && i in order;
    k := |order| - 1;
    while !(base <= order[k] < base + c)
      invariant i in order[..k + 1] && k < |order|
      invariant forall m :: k < m < |order| ==> !(base <= order[m] < base + c)
      decreases k
    {
      k := k - 1;
    }
  }

  /** If any block of the job arrives, its process has the job's number of coded bits, ACK and CQI fields; and
      its user, unless another process of it is in the subframe, the job's power and timing advance. */
  lemma FieldsDelivered(st: UlState, sent: seq<seq<Byte>>, order: seq<nat>, j: Job, base: nat, sizes: Sizes)
    requires CarriesJob(sent, j, base, sizes) && j.Key() in st.harq
    requires forall i :: 0 <= i < |order| ==> order[i] < |sent|
    requires exists i :: base <= i < base + j.c && i in order
    ensures var after, key := ApplyAll(st, Delivered(sent, order), sizes), j.Key();
            && key in after.harq
            && after.harq[key].g == j.g && after.harq[key].oAck == j.oAck && after.harq[key].tail == j.tail
            && ((forall i :: 0 <= i < |sent| && !(base <= i < base + j.c) ==> OtherUser(sent[i], j.ueId, sizes)) ==>
                  && j.ueId in after.power && after.power[j.ueId] == j.power
                  && j.ueId in after.ta && after.ta[j.ueId] == j.ta)
  {
    var arrived := Delivered(sent, order);
    var k := LastOfJob(order, base, j.c);
    forall m | k < m < |arrived|
      ensures OtherProcess(arrived[m], j.Key(), sizes)
    {
      NotOfJob(sent, j, base, order[m], sizes);
    }
    hide CarriesJob, ApplyAll, IsUlsch, DecodeUlsch;
    SegmentFields(sent, j, base, order[k], sizes);
    LastFieldsArrive(st, arrived, j.Key(), k, sizes);
    if forall i :: 0 <= i < |sent| && !(base <= i < base + j.c) ==> OtherUser(sent[i], j.ueId, sizes) {
      forall m | k < m < |arrived|
        ensures !IsFrom(arrived[m], j.ueId, sizes)
      {
        assert OtherUser(sent[order[m]], j.ueId, sizes);
      }
      LastUserArrives(st, arrived, j.ueId, k, sizes);
    }
  }

  lemma NotOfJob(sent: seq<seq<Byte>>, j: Job, base: nat, i: nat, sizes: Sizes)
    requires CarriesJob(sent, j, base, sizes) && i < |sent| && !(base <= i < base + j.c)
    ensures OtherProcess(sent[i], j.Key(), sizes)
  {
    hide OtherProcess, Segments;
  }
}
