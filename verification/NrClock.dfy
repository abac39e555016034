/**
 The NR sample calendar. Slots of one subframe differ in length (the first slot of each half subframe
 carries a longer cyclic prefix), and the source converts between slots and sample times with a slot
 length table, a prefix-sum loop and subframe arithmetic. `Start(fp, n)` is the sample at which the
 absolute slot n begins; everything else is measured against it.
 */
module NrClock {
  import opened Arith

  const SUBFRAMES_PER_FRAME := 10
  const SYMBOLS := 14

  /** `mu` is the numerology index; `unit` is the OFDM symbol size over 128. */
  datatype FrameParms = FrameParms(mu: nat, unit: nat) {
    predicate Valid() { mu <= 4 && unit >= 1 }

    function SlotsPerSubframe(): (s: nat)
      ensures s >= 1
    {
      if mu == 0 then 1 else if mu == 1 then 2 else if mu == 2 then 4 else if mu == 3 then 8 else 16
    }

    function SlotsPerFrame(): nat { SUBFRAMES_PER_FRAME * SlotsPerSubframe() }

    function SymbolSize(): nat { 128 * unit }
    function Prefix(): nat { SymbolSize() / 128 * 9 }
    function Prefix0(): nat { SymbolSize() / 128 * (9 + SlotsPerSubframe()) }

    function SamplesPerSlotN0(): nat { (Prefix() + SymbolSize()) * SYMBOLS }
    function SamplesPerSlot0(): nat { Prefix0() + (SYMBOLS - 1) * Prefix() + SYMBOLS * SymbolSize() }

    function SamplesPerSubframe(): nat {
      (Prefix0() + SymbolSize()) * 2 + (Prefix() + SymbolSize()) * (SYMBOLS * SlotsPerSubframe() - 2)
    }

    function SamplesPerFrame(): nat { SUBFRAMES_PER_FRAME * SamplesPerSubframe() }

    // sf_ahead = ceil(6 / 2^mu)
    function SfAhead(): nat { (6 + SlotsPerSubframe() - 1) / SlotsPerSubframe() }

    function SlotsAhead(): nat { SlotsPerSubframe() * SfAhead() }
  }

  /** The look-ahead is the least number of subframes that holds six slots. */
  lemma LookAheadIsLeast(fp: FrameParms)
    requires fp.Valid()
    ensures fp.SfAhead() * fp.SlotsPerSubframe() >= 6 && (fp.SfAhead() - 1) * fp.SlotsPerSubframe() < 6
  {
    assert fp.mu == 0 || fp.mu == 1 || fp.mu == 2 || fp.mu == 3 || fp.mu == 4;
  }

  /** In numbers, for each numerology. */
  lemma LookAheadInNumbers(fp: FrameParms)
    requires fp.Valid()
    ensures fp.SfAhead() == [6, 3, 2, 1, 1][fp.mu] && fp.SlotsAhead() == [6, 6, 8, 8, 16][fp.mu]
    ensures fp.SlotsPerFrame() == [10, 20, 40, 80, 160][fp.mu]
  {
    assert fp.mu == 0 || fp.mu == 1 || fp.mu == 2 || fp.mu == 3 || fp.mu == 4;
  }

  // The remainder operator of C truncates toward zero.
  function CRem(a: int, b: int): int
    requires b > 0
  {
    if a >= 0 then a % b else -(-a % b)
  }

  // get_samples_per_slot
  function SamplesPerSlot(fp: FrameParms, slot: int): nat
    requires fp.Valid()
  {
    if fp.mu == 0 then fp.SamplesPerSubframe()
    else if CRem(slot, fp.SlotsPerSubframe() / 2) != 0 then fp.SamplesPerSlotN0()
    else fp.SamplesPerSlot0()
  }

  // First sample of the absolute slot n.
  function Start(fp: FrameParms, n: nat): nat
    requires fp.Valid()
  {
    if n == 0 then 0 else Start(fp, n - 1) + SamplesPerSlot(fp, (n - 1) % fp.SlotsPerFrame())
  }

  // ---- slot lengths ----

  lemma Lengths(fp: FrameParms)
    requires fp.Valid()
    ensures fp.SamplesPerSlotN0() == 1918 * fp.unit
    ensures fp.SamplesPerSlot0() == 1918 * fp.unit + fp.SlotsPerSubframe() * fp.unit
    ensures fp.SamplesPerSubframe() == 1920 * fp.SlotsPerSubframe() * fp.unit
  {
    hide FrameParms.SlotsPerSubframe;
    var u, s := fp.unit, fp.SlotsPerSubframe();
    assert fp.SymbolSize() / 128 == u;
    LengthSums(u, s);
  }

  lemma LengthSums(u: nat, s: nat)
    ensures u * (9 + s) + 13 * (u * 9) + 14 * (128 * u) == 1918 * u + s * u
    ensures (u * (9 + s) + 128 * u) * 2 + (u * 9 + 128 * u) * (14 * s - 2) == 1920 * s * u
  {
    assert u * (9 + s) == 9 * u + s * u;
    assert (137 * u) * (14 * s - 2) == 1918 * (s * u) - 274 * u;
    assert u * 9 + 128 * u == 137 * u;
    assert 1920 * s * u == 1920 * (s * u);
  }

  function Half(fp: FrameParms): nat { fp.SlotsPerSubframe() / 2 }

  // The table repeats every half subframe, so it can be read at the absolute slot as well.
  lemma LengthAt(fp: FrameParms, n: nat)
    requires fp.Valid()
    ensures SamplesPerSlot(fp, n % fp.SlotsPerFrame()) == SamplesPerSlot(fp, n)
    ensures fp.mu > 0 ==> SamplesPerSlot(fp, n) == if n % Half(fp) != 0 then fp.SamplesPerSlotN0() else fp.SamplesPerSlot0()
  {
    hide FrameParms.SamplesPerSlot0, FrameParms.SamplesPerSlotN0, FrameParms.SamplesPerSubframe;
    if fp.mu > 0 {
      var half := Half(fp);
      assert n % fp.SlotsPerFrame() % half == n % half by {
        assert fp.SlotsPerFrame() == 20 * half;
        DivModNest(n, 20, half);
      }
    }
  }

  lemma StartStep(fp: FrameParms, n: nat)
    requires fp.Valid()
    ensures Start(fp, n + 1) == Start(fp, n) + SamplesPerSlot(fp, n) > Start(fp, n)
  {
    LengthAt(fp, n);
    Lengths(fp);
    assert SamplesPerSlot(fp, n) >= 1;
  }

  /** rx_rf asks for the length of slot `(slot - 1) % slots_per_frame`, which is -1 at slot 0; the table
      still returns the length of the frame's last slot. */
  lemma PreviousSlotLength(fp: FrameParms, n: nat)
    requires fp.Valid()
    ensures SamplesPerSlot(fp, CRem((n + 1) % fp.SlotsPerFrame() - 1, fp.SlotsPerFrame()))
         == SamplesPerSlot(fp, n % fp.SlotsPerFrame())
  {
    DivModSucc(n, fp.SlotsPerFrame());
    var slot := (n + 1) % fp.SlotsPerFrame();
    if slot > 0 {
      assert slot - 1 == n % fp.SlotsPerFrame();
      DivModUnique(0, slot - 1, fp.SlotsPerFrame());
    } else {
      assert n % fp.SlotsPerFrame() == fp.SlotsPerFrame() - 1;
    }
  }

  lemma {:induction false} StartIncreases(fp: FrameParms, m: nat, n: nat)
    requires fp.Valid() && m < n
    ensures Start(fp, m) < Start(fp, n)
    decreases n
  {
    hide Start, SamplesPerSlot;
    StartStep(fp, n - 1);
    if m < n - 1 {
      StartIncreases(fp, m, n - 1);
    }
  }

  // Slots of the first half subframe: one long slot, then short ones.
  lemma {:induction false} FirstHalf(fp: FrameParms, n: nat)
    requires fp.Valid() && fp.mu > 0 && 1 <= n <= Half(fp)
    ensures Start(fp, n) == (n - 1) * fp.SamplesPerSlotN0() + fp.SamplesPerSlot0()
  {
    hide Half, SamplesPerSlot, FrameParms.SamplesPerSlot0, FrameParms.SamplesPerSlotN0, FrameParms.SlotsPerFrame;
    StartStep(fp, n - 1);
    LengthAt(fp, n - 1);
    if n > 1 {
      FirstHalf(fp, n - 1);
      DivModUnique(0, n - 1, Half(fp));
      assert (n - 1) * fp.SamplesPerSlotN0() == (n - 2) * fp.SamplesPerSlotN0() + fp.SamplesPerSlotN0();
    } else {
      DivModUnique(0, 0, Half(fp));
    }
  }

  function HalfLength(fp: FrameParms): int { (Half(fp) - 1) * fp.SamplesPerSlotN0() + fp.SamplesPerSlot0() }

  lemma TwoHalves(fp: FrameParms)
    requires fp.Valid() && fp.mu > 0
    ensures fp.SamplesPerSubframe() == 2 * HalfLength(fp) && fp.SlotsPerSubframe() == 2 * Half(fp) > 0
  {
    Lengths(fp);
    hide FrameParms.SamplesPerSlot0, FrameParms.SamplesPerSlotN0, FrameParms.SamplesPerSubframe;
    assert fp.mu == 1 || fp.mu == 2 || fp.mu == 3 || fp.mu == 4;
  }

  lemma LengthPeriodic(fp: FrameParms, n: nat)
    requires fp.Valid() && fp.mu > 0
    ensures SamplesPerSlot(fp, n + Half(fp)) == SamplesPerSlot(fp, n)
  {
    TwoHalves(fp);
    LengthAt(fp, n);
    LengthAt(fp, n + Half(fp));
    hide Half, HalfLength, SamplesPerSlot, FrameParms.SlotsPerFrame, FrameParms.SlotsPerSubframe,
      FrameParms.SamplesPerSlot0, FrameParms.SamplesPerSlotN0, FrameParms.SamplesPerSubframe;
    DivModShift(n, 1, Half(fp));
  }

  lemma {:induction false} HalfSubframe(fp: FrameParms, n: nat)
    requires fp.Valid() && fp.mu > 0
    ensures Start(fp, n + Half(fp)) == Start(fp, n) + HalfLength(fp)
  {
    hide Half, Start, SamplesPerSlot, FrameParms.SlotsPerFrame, FrameParms.SlotsPerSubframe,
      FrameParms.SamplesPerSlot0, FrameParms.SamplesPerSlotN0, FrameParms.SamplesPerSubframe;
    TwoHalves(fp);
    if n == 0 {
      FirstHalf(fp, Half(fp));
      StartAtZero(fp);
    } else {
      hide HalfLength;
      HalfSubframe(fp, n - 1);
      StartStep(fp, n - 1);
      StartStep(fp, n - 1 + Half(fp));
      LengthPeriodic(fp, n - 1);
    }
  }

  /** Any run of `SlotsPerSubframe` consecutive slots is one subframe long, wherever it starts. */
  lemma OneSubframe(fp: FrameParms, n: nat)
    requires fp.Valid()
    ensures Start(fp, n + fp.SlotsPerSubframe()) == Start(fp, n) + fp.SamplesPerSubframe()
  {
    hide Half, HalfLength, Start, FrameParms.SamplesPerSubframe;
    if fp.mu > 0 {
      TwoHalves(fp);
      HalfSubframe(fp, n);
      HalfSubframe(fp, n + Half(fp));
    } else {
      StartStep(fp, n);
    }
  }

  lemma {:induction false} Subframes(fp: FrameParms, n: nat, k: nat)
    requires fp.Valid()
    ensures n + k * fp.SlotsPerSubframe() >= 0
    ensures Start(fp, n + k * fp.SlotsPerSubframe()) == Start(fp, n) + k * fp.SamplesPerSubframe()
    decreases k
  {
    hide Start, FrameParms.SamplesPerSubframe, FrameParms.SlotsPerSubframe;
    if k > 0 {
      Subframes(fp, n, k - 1);
      OneSubframe(fp, n + (k - 1) * fp.SlotsPerSubframe());
      assert k * fp.SlotsPerSubframe() == (k - 1) * fp.SlotsPerSubframe() + fp.SlotsPerSubframe();
      assert k * fp.SamplesPerSubframe() == (k - 1) * fp.SamplesPerSubframe() + fp.SamplesPerSubframe();
    }
  }

  // The start of a slot, split at the frame boundary.
  lemma StartInFrame(fp: FrameParms, n: nat)
    requires fp.Valid()
    ensures Start(fp, n) == (n / fp.SlotsPerFrame()) * fp.SamplesPerFrame() + Start(fp, n % fp.SlotsPerFrame())
    ensures Start(fp, n % fp.SlotsPerFrame()) < fp.SamplesPerFrame() == Start(fp, fp.SlotsPerFrame())
  {
    hide Start, FrameParms.SamplesPerSubframe;
    var spf, f := fp.SlotsPerFrame(), n / fp.SlotsPerFrame();
    Subframes(fp, n % spf, f * SUBFRAMES_PER_FRAME);
    assert (f * SUBFRAMES_PER_FRAME) * fp.SlotsPerSubframe() == f * spf;
    assert (f * SUBFRAMES_PER_FRAME) * fp.SamplesPerSubframe() == f * fp.SamplesPerFrame();
    Subframes(fp, 0, SUBFRAMES_PER_FRAME);
    StartAtZero(fp);
    StartIncreases(fp, n % spf, spf);
  }

  lemma FrameEnd(fp: FrameParms, t: int)
    requires fp.Valid() && t < fp.SamplesPerFrame()
    ensures t < Start(fp, fp.SlotsPerFrame())
  {
    StartInFrame(fp, 0);
  }

  lemma StartAtZero(fp: FrameParms)
    requires fp.Valid()
    ensures Start(fp, 0) == 0
  {
  }

  // ---- from sample time back to frame and slot ----

  // The first slot of the frame beginning at or after the sample.
  predicate RoundsUpTo(fp: FrameParms, ts: nat, slot: nat)
    requires fp.Valid() && fp.SamplesPerFrame() > 0
  {
    && ts % fp.SamplesPerFrame() <= Start(fp, slot)
    && (slot > 0 ==> Start(fp, slot - 1) < ts % fp.SamplesPerFrame())
  }

  /** get_slot_from_timestamp. The loop rounds up; past the last slot's start it returns one more than
      the last slot. */
  method GetSlotFromTimestamp(fp: FrameParms, ts: nat) returns (slot: nat)
    requires fp.Valid() && fp.SamplesPerFrame() > 0
    ensures slot <= fp.SlotsPerFrame() && RoundsUpTo(fp, ts, slot)
  {
    hide Start, SamplesPerSlot, FrameParms.SamplesPerSubframe;
    var t := ts % fp.SamplesPerFrame();
    FrameEnd(fp, t);
    StartAtZero(fp);
    slot := 0;
    var samplesTillTheSlot := 0;
    while t > samplesTillTheSlot
      invariant slot <= fp.SlotsPerFrame() && samplesTillTheSlot == Start(fp, slot)
      invariant slot > 0 ==> Start(fp, slot - 1) < t
      decreases fp.SlotsPerFrame() - slot
    {
      StartStep(fp, slot);
      samplesTillTheSlot := samplesTillTheSlot + SamplesPerSlot(fp, slot);
      slot := slot + 1;
    }
  }

  lemma FrameIsPositive(fp: FrameParms)
    requires fp.Valid()
    ensures fp.SamplesPerFrame() > 0
  {
    Lengths(fp);
    MulAtLeast(1920 * fp.SlotsPerSubframe(), fp.unit);
  }

  /** The conversion is exact precisely on slot boundaries: for a sample inside slot n it returns n's
      number if the sample is the first of the slot, and the number after it otherwise. */
  lemma SlotFromTimestampExactly(fp: FrameParms, ts: nat, n: nat, slot: nat)
    requires fp.Valid() && Start(fp, n) <= ts < Start(fp, n + 1)
    requires fp.SamplesPerFrame() > 0 && RoundsUpTo(fp, ts, slot)
    ensures slot == n % fp.SlotsPerFrame() + (if ts == Start(fp, n) then 0 else 1)
    ensures slot == n % fp.SlotsPerFrame() <==> ts == Start(fp, n)
    ensures ts / fp.SamplesPerFrame() == n / fp.SlotsPerFrame()
  {
    hide Start, SamplesPerSlot, FrameParms.SamplesPerSubframe, FrameParms.SlotsPerSubframe;
    var s, f := n % fp.SlotsPerFrame(), n / fp.SlotsPerFrame();
    var t := ts - f * fp.SamplesPerFrame();
    StartInFrame(fp, n);
    StartStep(fp, n);
    StartStep(fp, s);
    LengthAt(fp, n);
    assert Start(fp, s) <= t < Start(fp, s + 1);
    if s + 1 < fp.SlotsPerFrame() {
      StartIncreases(fp, s + 1, fp.SlotsPerFrame());
    }
    DivModUnique(f, t, fp.SamplesPerFrame());
    SlotBetween(fp, t, s, slot);
  }

  lemma SlotBetween(fp: FrameParms, t: nat, s: nat, slot: nat)
    requires fp.Valid() && Start(fp, s) <= t < Start(fp, s + 1)
    requires t <= Start(fp, slot) && (slot > 0 ==> Start(fp, slot - 1) < t)
    ensures slot == s + (if t == Start(fp, s) then 0 else 1)
  {
    hide Start, FrameParms.SlotsPerSubframe;
    var want := s + (if t == Start(fp, s) then 0 else 1);
    if slot < want {
      if slot < s {
        StartIncreases(fp, slot, s);
      }
    } else if slot > want {
      if want < slot - 1 {
        StartIncreases(fp, want, slot - 1);
      }
    }
  }

  // At the start of slot n both decoded counters are those of n.
  lemma DecodedAtStart(fp: FrameParms, n: nat, slot: nat)
    requires fp.Valid() && fp.SamplesPerFrame() > 0 && RoundsUpTo(fp, Start(fp, n), slot)
    ensures slot == n % fp.SlotsPerFrame()
    ensures Start(fp, n) / fp.SamplesPerFrame() == n / fp.SlotsPerFrame()
  {
    StartIncreases(fp, n, n + 1);
    SlotFromTimestampExactly(fp, Start(fp, n), n, slot);
  }

  // ---- look-ahead ----

  // The transmit frame and slot as ru_thread computes them from the received ones.
  function FrameTx(fp: FrameParms, frameRx: int, ttiRx: int): int {
    if ttiRx > fp.SlotsPerFrame() - 1 - fp.SlotsAhead() then (frameRx + 1) % 1024 else frameRx
  }

  function TtiTx(fp: FrameParms, ttiRx: int): int {
    (ttiRx + fp.SlotsAhead()) % fp.SlotsPerFrame()
  }

  function TimestampTx(fp: FrameParms, timestampRx: int): int {
    timestampRx + fp.SfAhead() * fp.SamplesPerSubframe()
  }

  /** Look-ahead agreement: frame and slot computed by branch and modulo are those of the slot that
      begins at the transmit timestamp, for every numerology and every received slot. */
  lemma LookAheadAgrees(fp: FrameParms, n: nat)
    requires fp.Valid()
    ensures var ahead := n + fp.SlotsAhead();
            var spf := fp.SlotsPerFrame();
            && TimestampTx(fp, Start(fp, n)) == Start(fp, ahead)
            && FrameTx(fp, n / spf % 1024, n % spf) == ahead / spf % 1024
            && TtiTx(fp, n % spf) == ahead % spf
  {
    hide Start;
    Subframes(fp, n, fp.SfAhead());
    AheadCounters(n, fp.SlotsAhead(), fp.SlotsPerFrame());
  }

  lemma AheadCounters(n: nat, ahead: nat, spf: nat)
    requires 0 < spf && ahead < spf
    ensures (n + ahead) % spf == (n % spf + ahead) % spf
    ensures (n + ahead) / spf == n / spf + (if n % spf > spf - 1 - ahead then 1 else 0)
    ensures n % spf > spf - 1 - ahead ==> (n + ahead) / spf % 1024 == (n / spf % 1024 + 1) % 1024
  {
    var f, s := n / spf, n % spf + ahead;
    assert n + ahead == f * spf + s;
    if s < spf {
      DivModUnique(f, s, spf);
      DivModUnique(0, s, spf);
    } else {
      assert (f + 1) * spf == f * spf + spf;
      DivModUnique(f + 1, s - spf, spf);
      DivModUnique(1, s - spf, spf);
      Modulo1024(f);
    }
  }

  lemma Modulo1024(f: nat)
    ensures (f + 1) % 1024 == (f % 1024 + 1) % 1024
  {
  }
}
