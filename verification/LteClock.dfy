/**
 The LTE clock: every frame and subframe counter is derived from one 64-bit sample timestamp, on the
 monolithic eNB and, for the FS6 split, once in the distributed unit (DU) and once in the central unit
 (CU). Received samples go into a ring of ten subframe segments.
 */
module LteClock {
  import opened Arith

  const U64 := 0x1_0000_0000_0000_0000
  const SF_AHEAD := 4
  const FRAMES := 1024

  datatype Times = Times(
    timestampRx: nat, timestampTx: nat,
    frameRx: nat, subframeRx: nat, frameTx: nat, subframeTx: nat,
    framePrach: nat, subframePrach: nat, framePrachBr: nat, subframePrachBr: nat)

  // Frame and subframe in one count, as an over-the-air clock shows it.
  function AirTime(frame: nat, subframe: nat): nat { frame * 10 + subframe }

  function Subframe(ts: nat, tti: nat): (s: nat)
    requires tti > 0
    ensures s < 10
  {
    ts / tti % 10
  }

  function Frame(ts: nat, tti: nat): nat
    requires tti > 0
  {
    ts / (tti * 10) % FRAMES
  }

  function TimesAt(ts: nat, tti: nat): Times
    requires tti > 0
  {
    var tx := (ts + SF_AHEAD * tti) % U64;
    Times(ts, tx, Frame(ts, tti), Subframe(ts, tti), Frame(tx, tti), Subframe(tx, tti),
          Frame(ts, tti), Subframe(ts, tti), Frame(ts, tti), Subframe(ts, tti))
  }

  type Tti = n: nat | n > 0 witness 1

  // The carriers of all instances in loop order; the last one decides.
  function Flatten(cells: seq<seq<Tti>>): seq<Tti> {
    if cells == [] then [] else Flatten(cells[..|cells| - 1]) + cells[|cells| - 1]
  }

  class L1Proc {
    var timestampRx: nat
    var timestampTx: nat
    var frameRx: nat
    var subframeRx: nat
    var frameTx: nat
    var subframeTx: nat
    var framePrach: nat
    var subframePrach: nat
    var framePrachBr: nat
    var subframePrachBr: nat

    // Zero-initialised, as the source declares it.
    constructor ()
      ensures View() == Times(0, 0, 0, 0, 0, 0, 0, 0, 0, 0)
    {
      timestampRx, timestampTx, frameRx, subframeRx, frameTx, subframeTx := 0, 0, 0, 0, 0, 0;
      framePrach, subframePrach, framePrachBr, subframePrachBr := 0, 0, 0, 0;
    }

    function View(): Times
      reads this
    {
      Times(timestampRx, timestampTx, frameRx, subframeRx, frameTx, subframeTx,
            framePrach, subframePrach, framePrachBr, subframePrachBr)
    }

    // The body of the loops in setAllfromTS, for one carrier.
    method SetAllFor(ts: nat, tti: nat)
      requires ts < U64 && tti > 0
      modifies this
      ensures View() == TimesAt(ts, tti)
    {
      hide Frame, Subframe;
      var tx := (ts + SF_AHEAD * tti) % U64;
      var rach := ts;
      timestampRx, timestampTx := ts, tx;
      subframeRx := Subframe(ts, tti);
      subframePrach := Subframe(rach, tti);
      subframePrachBr := Subframe(rach, tti);
      frameRx := Frame(ts, tti);
      framePrach := Frame(rach, tti);
      framePrachBr := Frame(rach, tti);
      frameTx := Frame(tx, tti);
      subframeTx := Subframe(tx, tti);
    }

    // The inner loop, over the carriers of one instance.
    method SetAllForInstance(ts: nat, ttis: seq<Tti>)
      requires ts < U64
      modifies this
      ensures View() == AfterCells(old(View()), ts, ttis)
    {
      hide TimesAt;
      for j := 0 to |ttis|
        invariant View() == AfterCells(old(View()), ts, ttis[..j])
      {
        SetAllFor(ts, ttis[j]);
      }
      assert ttis[..|ttis|] == ttis;
    }

    /** setAllfromTS over the samples per TTI of every carrier of every instance. */
    method SetAllFromTS(ts: nat, cells: seq<seq<Tti>>)
      requires ts < U64
      modifies this
      ensures View() == AfterCells(old(View()), ts, Flatten(cells))
    {
      hide AfterCells, TimesAt;
      ghost var was := View();
      NoCells(was, ts);
      for i := 0 to |cells|
        invariant View() == AfterCells(was, ts, Flatten(cells[..i]))
      {
        assert cells[..i + 1][..i] == cells[..i];
        AfterMore(was, ts, Flatten(cells[..i]), cells[i]);
        SetAllForInstance(ts, cells[i]);
      }
      assert cells[..|cells|] == cells;
    }
  }

  // Only the last carrier written leaves a trace.
  function AfterCells(was: Times, ts: nat, ttis: seq<Tti>): Times {
    if ttis == [] then was else TimesAt(ts, ttis[|ttis| - 1])
  }

  lemma NoCells(was: Times, ts: nat)
    ensures AfterCells(was, ts, Flatten([])) == was
  {
  }

  lemma AfterMore(was: Times, ts: nat, a: seq<Tti>, b: seq<Tti>)
    ensures AfterCells(AfterCells(was, ts, a), ts, b) == AfterCells(was, ts, a + b)
  {
  }

  /** The ten times in numbers. */
  lemma TimesInNumbers(ts: nat, tti: nat)
    requires tti > 0
    ensures var t, tx := TimesAt(ts, tti), (ts + 4 * tti) % 0x1_0000_0000_0000_0000;
            && t.timestampRx == ts && t.timestampTx == tx
            && t.frameRx == t.framePrach == t.framePrachBr == ts / (tti * 10) % 1024
            && t.subframeRx == t.subframePrach == t.subframePrachBr == ts / tti % 10
            && t.frameTx == tx / (tti * 10) % 1024 && t.subframeTx == tx / tti % 10
  {
  }

  /** Frame and subframe together count TTIs modulo 10240. */
  lemma AirTimeCountsTtis(ts: nat, tti: nat)
    requires tti > 0
    ensures AirTime(Frame(ts, tti), Subframe(ts, tti)) == ts / tti % 10240
  {
    DivTwice(ts, tti);
    DivModNest(ts / tti, FRAMES, 10);
  }

  lemma DivTwice(n: nat, d: nat)
    requires d > 0
    ensures n / (d * 10) == n / d / 10
  {
    DivModNest(n, 10, d);
    var q := n / d;
    var r := (q % 10) * d + n % d;
    assert n == q * d + n % d;
    TenTimes(q, d);
    MulOrder(q % 10, 9, d);
    DivModUnique(q / 10, r, d * 10);
  }

  lemma TenTimes(q: nat, d: nat)
    ensures q * d == (q / 10) * (d * 10) + (q % 10) * d
  {
    var a, b := q / 10, q % 10;
    assert q == a * 10 + b;
    assert (a * 10 + b) * d == a * 10 * d + b * d;
    assert a * (d * 10) == a * 10 * d;
  }

  // The samples in a subframe for 6, 15, 25, 50, 75 and 100 resource blocks.
  predicate LteSamples(tti: nat) {
    tti == 1920 || tti == 3840 || tti == 7680 || tti == 15360 || tti == 23040 || tti == 30720
  }

  // The transmit clock is the receive clock advanced by the look-ahead, modulo 10240 subframes.
  predicate InStep(ts: nat, tti: nat)
    requires tti > 0
  {
    var t := TimesAt(ts, tti);
    AirTime(t.frameTx, t.subframeTx) == (AirTime(t.frameRx, t.subframeRx) + SF_AHEAD) % 10240
  }

  /** Transmit and receive clock are in step exactly as long as the look-ahead does not pass the end of
      the 64-bit counter, at which frame and subframe start over. */
  lemma TxIsRxAdvancedExactly(ts: nat, tti: nat)
    requires LteSamples(tti) && ts < U64
    ensures InStep(ts, tti) <==> ts + SF_AHEAD * tti < U64
  {
    if ts + SF_AHEAD * tti < U64 {
      TxIsRxAdvanced(ts, tti);
    } else {
      OutOfStep(ts, tti);
    }
  }

  // U64 in whole subframes and a rest, for each of the LTE sample counts.
  lemma WholeSubframes(tti: nat) returns (q: nat, r: nat)
    requires LteSamples(tti)
    ensures U64 == q * tti + r && r < tti && 0 < q % 10240 < 10239
  {
    q, r := U64 / tti, U64 % tti;
    Euclid(U64, tti);
  }

  // Counted on from q whole subframes and a rest, subframe tx / tti is that many further, or one more.
  lemma CountedOn(tx: nat, q: nat, r: nat, tti: nat) returns (carry: nat)
    requires r < tti
    ensures carry <= 1 && (tx + r + q * tti) / tti == q + tx / tti + carry
  {
    Euclid(tx, tti);
    carry := if tx % tti + r < tti then 0 else 1;
    assert (tx / tti + carry) * tti == tx / tti * tti + carry * tti;
    DivModUnique(tx / tti + carry, tx % tti + r - carry * tti, tti);
    DivModShift(tx + r, q, tti);
  }

  lemma NotInStep(q: nat, k: nat, carry: nat)
    requires 0 < q % 10240 < 10239 && k < 10240 && carry <= 1
    ensures (q + k + carry) % 10240 != k
  {
    AddModulo(q, k + carry, 10240);
  }

  lemma OutOfStep(ts: nat, tti: nat)
    requires LteSamples(tti) && ts < U64 <= ts + SF_AHEAD * tti
    ensures !InStep(ts, tti)
  {
    hide Frame, Subframe, AirTime;
    var q, r := WholeSubframes(tti);
    hide LteSamples;
    var tx := ts + SF_AHEAD * tti - U64;
    DivModUnique(1, tx, U64);
    AirTimeCountsTtis(ts, tti);
    AirTimeCountsTtis(tx, tti);
    DivModShift(ts, SF_AHEAD, tti);
    AddModulo(ts / tti, SF_AHEAD, 10240);
    var carry := CountedOn(tx, q, r, tti);
    Euclid(tx, tti);
    NotInStep(q, tx / tti, carry);
  }

  lemma TxIsRxAdvanced(ts: nat, tti: nat)
    requires tti > 0 && ts + SF_AHEAD * tti < U64
    ensures InStep(ts, tti)
  {
    hide Frame, Subframe, AirTime;
    var tx := ts + SF_AHEAD * tti;
    DivModUnique(0, tx, U64);
    AirTimeCountsTtis(ts, tti);
    AirTimeCountsTtis(tx, tti);
    DivModShift(ts, SF_AHEAD, tti);
    AddModulo(ts / tti, SF_AHEAD, 10240);
  }

  lemma AddModulo(n: nat, k: nat, m: nat)
    requires m > 0
    ensures (n + k) % m == (n % m + k) % m
  {
    assert n + k == n % m + k + (n / m) * m;
    DivModShift(n % m + k, n / m, m);
  }

  // What du_fs6 makes of the timestamp in a downlink subframe.
  function ReceivedDownlink(sent: nat, tti: nat): Times
    requires tti > 0
  {
    TimesAt((sent - SF_AHEAD * tti) % U64, tti)
  }

  /** Cross-machine agreement: the CU derives every counter from the uplink timestamp of the DU, and the
      DU gets all of them back from the downlink timestamp of the CU, even across the 64-bit wrap. */
  lemma CuAndDuAgree(ts: nat, tti: nat)
    requires tti > 0 && ts < U64
    ensures var du := TimesAt(ts, tti);
            var cu := TimesAt(du.timestampRx, tti);
            cu == du && ReceivedDownlink(cu.timestampTx, tti) == cu
  {
    var a := SF_AHEAD * tti;
    var sent := (ts + a) % U64;
    assert sent - a == ts + (-((ts + a) / U64)) * U64;
    DivModShift(ts, -((ts + a) / U64), U64);
    DivModUnique(0, ts, U64);
  }

  // ---- the receive ring ----

  /** A device read: its timestamp after offset correction, and one TTI of samples. */
  datatype Read = Read(ts: nat, samples: seq<int>)

  predicate Samples(stream: seq<Read>, tti: nat) {
    forall j :: 0 <= j < |stream| ==> |stream[j].samples| == tti && stream[j].ts < U64
  }

  // The stream advances by one TTI per read.
  predicate Steady(stream: seq<Read>, tti: nat) {
    forall j, k :: 0 <= j && k == j + 1 < |stream| ==> stream[k].ts == stream[j].ts + tti
  }

  class Receiver {
    const tti: nat
    const proc: L1Proc
    const rxdata: array<int>

    constructor (tti: nat)
      requires tti > 0
      ensures Valid() && this.tti == tti && proc.View().subframeRx == 0 && fresh(proc) && fresh(rxdata)
    {
      this.tti := tti;
      proc := new L1Proc();
      rxdata := new int[10 * tti];
    }

    predicate Valid()
      reads this
    {
      tti > 0 && rxdata.Length == 10 * tti
    }

    function Segment(subframe: nat): seq<int>
      requires Valid() && subframe < 10
      reads this, rxdata
    {
      SegmentBounds(subframe, tti);
      rxdata[subframe * tti..(subframe + 1) * tti]
    }

    method WriteSegment(subframe: nat, samples: seq<int>)
      requires Valid() && subframe < 10 && |samples| == tti
      modifies rxdata
      ensures Segment(subframe) == samples
      ensures forall s: nat :: s < 10 && s != subframe ==> Segment(s) == old(Segment(s))
    {
      SegmentBounds(subframe, tti);
      var start := subframe * tti;
      ghost var was := rxdata[..];
      forall k | 0 <= k < tti {
        rxdata[start + k] := samples[k];
      }
      ghost var now := rxdata[..];
      assert now[start..start + tti] == samples;
      forall s: nat | s < 10 && s != subframe
        ensures Segment(s) == old(Segment(s))
      {
        SegmentBounds(s, tti);
        SegmentsApart(s, subframe, tti);
        SliceUnchanged(was, now, start, tti, s * tti, (s + 1) * tti);
        assert Segment(s) == now[s * tti..(s + 1) * tti];
      }
    }

    /** rx_rf: the segment is chosen before the read, from the previous read's subframe. */
    method RxRf(read: Read) returns (segment: nat)
      requires Valid() && |read.samples| == tti && read.ts < U64
      modifies rxdata, proc
      ensures segment == (old(proc.subframeRx) + 1) % 10
      ensures proc.View() == TimesAt(read.ts, tti) && proc.subframeRx == Subframe(read.ts, tti)
      ensures Segment(segment) == read.samples
      ensures forall s: nat :: s < 10 && s != segment ==> Segment(s) == old(Segment(s))
    {
      segment := (proc.subframeRx + 1) % 10;
      WriteSegment(segment, read.samples);
      assert Flatten([[tti]]) == [tti] by {
        assert [[tti]][..0] == [];
      }
      proc.SetAllFromTS(read.ts, [[tti]]);
    }

    // From the second read on, the segments hold the latest subframe of each index.
    predicate Coherent(stream: seq<Read>, i: nat)
      requires Valid() && i <= |stream|
      reads this, rxdata
    {
      forall j :: 1 <= j < i <= j + 10 ==> Segment(Subframe(stream[j].ts, tti)) == stream[j].samples
    }

    method ReceiveNext(stream: seq<Read>, i: nat)
      requires Valid() && Samples(stream, tti) && Steady(stream, tti) && 1 <= i < |stream|
      requires Coherent(stream, i) && proc.subframeRx == Subframe(stream[i - 1].ts, tti)
      modifies rxdata, proc
      ensures Coherent(stream, i + 1)
      ensures proc.View() == TimesAt(stream[i].ts, tti) && proc.subframeRx == Subframe(stream[i].ts, tti)
      ensures forall s: nat :: s < 10 && s != Subframe(stream[i].ts, tti) ==> Segment(s) == old(Segment(s))
    {
      hide TimesAt, Frame, Subframe;
      NextSegment(stream[i - 1].ts, stream[i].ts, tti);
      forall j | 1 <= j < i < j + 10
        ensures Subframe(stream[j].ts, tti) != Subframe(stream[i].ts, tti)
      {
        Spread(stream, tti, j, i);
      }
      hide Steady;
      var segment := RxRf(stream[i]);
    }

    /** Over a steady stream the segments hold, from the second read on, the latest subframe of each
        index; the first read lands in its own segment exactly when its subframe follows the initial
        one. */
    method Receive(stream: seq<Read>)
      requires Valid() && Samples(stream, tti) && Steady(stream, tti) && |stream| > 0
      modifies rxdata, proc
      ensures proc.View() == TimesAt(stream[|stream| - 1].ts, tti)
      ensures forall j :: 1 <= j < |stream| <= j + 10 ==> Segment(Subframe(stream[j].ts, tti)) == stream[j].samples
      ensures |stream| <= 10 ==>
                var first := Subframe(stream[0].ts, tti);
                if first == (old(proc.subframeRx) + 1) % 10 then Segment(first) == stream[0].samples
                else Segment(first) == old(Segment(first))
      ensures forall s: nat :: s < 10 && (forall j :: 1 <= j < |stream| ==> s != Subframe(stream[j].ts, tti)) ==>
                Segment(s) == if s == (old(proc.subframeRx) + 1) % 10 then stream[0].samples else old(Segment(s))
    {
      hide TimesAt, Frame, Subframe;
      ghost var first := Subframe(stream[0].ts, tti);
      ghost var initial := if first == (proc.subframeRx + 1) % 10 then stream[0].samples else Segment(first);
      var segment := RxRf(stream[0]);
      for i := 1 to |stream|
        invariant proc.View() == TimesAt(stream[i - 1].ts, tti) && proc.subframeRx == Subframe(stream[i - 1].ts, tti)
        invariant Coherent(stream, i)
        invariant i <= 10 ==> Segment(first) == initial
        invariant forall s: nat :: s < 10 && (forall j :: 1 <= j < i ==> s != Subframe(stream[j].ts, tti)) ==>
                    Segment(s) == if s == (old(proc.subframeRx) + 1) % 10 then stream[0].samples else old(Segment(s))
      {
        if i < 10 {
          Spread(stream, tti, 0, i);
        }
        ReceiveNext(stream, i);
      }
    }
  }

  lemma SliceUnchanged(was: seq<int>, now: seq<int>, start: nat, size: nat, from: nat, to: nat)
    requires |now| == |was| && from <= to <= |was| && (to <= start || start + size <= from)
    requires forall i :: 0 <= i < |was| && !(start <= i < start + size) ==> now[i] == was[i]
    ensures now[from..to] == was[from..to]
  {
  }

  lemma SegmentBounds(s: nat, tti: nat)
    requires s < 10
    ensures 0 <= s * tti <= (s + 1) * tti <= 10 * tti && (s + 1) * tti == s * tti + tti
  {
    assert (s + 1) * tti == s * tti + tti;
    assert (9 - s) * tti >= 0;
  }

  lemma SegmentsApart(s: nat, t: nat, tti: nat)
    requires s != t
    ensures s < t ==> (s + 1) * tti <= t * tti
    ensures t < s ==> (t + 1) * tti <= s * tti
  {
    if s < t {
      MulOrder(s + 1, t, tti);
    } else {
      MulOrder(t + 1, s, tti);
    }
  }

  /** The segment chosen before a read is the one of the subframe derived after it exactly when the
      stream moved on by one TTI modulo ten. */
  lemma SegmentExactly(ts: nat, ts': nat, tti: nat)
    requires tti > 0
    ensures (Subframe(ts, tti) + 1) % 10 == Subframe(ts', tti) <==> (ts' / tti - ts / tti) % 10 == 1
  {
    ModTen(ts / tti, ts' / tti);
  }

  lemma ModTen(a: nat, b: nat)
    ensures (a % 10 + 1) % 10 == b % 10 <==> (b - a) % 10 == 1
  {
  }

  lemma NextSegment(ts: nat, ts': nat, tti: nat)
    requires tti > 0 && ts' == ts + tti
    ensures (Subframe(ts, tti) + 1) % 10 == Subframe(ts', tti)
  {
    DivModShift(ts, 1, tti);
    SegmentExactly(ts, ts', tti);
  }

  lemma {:induction false} TtisApart(stream: seq<Read>, tti: nat, j: nat, i: nat)
    requires tti > 0 && Steady(stream, tti) && j <= i < |stream|
    ensures stream[i].ts / tti == stream[j].ts / tti + (i - j)
    decreases i - j
  {
    if j < i {
      TtisApart(stream, tti, j, i - 1);
      DivModShift(stream[i - 1].ts, 1, tti);
    }
  }

  lemma Spread(stream: seq<Read>, tti: nat, j: nat, i: nat)
    requires tti > 0 && Steady(stream, tti) && j < i < |stream| && i < j + 10
    ensures Subframe(stream[j].ts, tti) != Subframe(stream[i].ts, tti)
  {
    TtisApart(stream, tti, j, i);
  }
}
