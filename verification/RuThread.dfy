/**
 The receive side of the radio unit: rx_rf turns device timestamps into frame and slot, correcting any
 drift through an offset, and ru_thread checks the result against its own counters every slot.
 */
module RuThread {
  import opened Arith
  import opened NrClock

  // What ru_thread writes into the RX token it hands to the L1.
  datatype SlotMessage = SlotMessage(frameRx: int, slotRx: int, frameTx: int, slotTx: int, timestampTx: int)

  /** The message for the n-th slot, read off the sample calendar. */
  function MessageAt(fp: FrameParms, n: nat): SlotMessage
    requires fp.Valid()
  {
    var spf, tx := fp.SlotsPerFrame(), n + fp.SlotsAhead();
    SlotMessage(n / spf % 1024, n % spf, tx / spf % 1024, tx % spf, Start(fp, tx))
  }

  class RadioUnit {
    const fp: FrameParms
    var tsOffset: int
    var firstRx: bool
    var timestampRx: int
    var frameRx: int
    var ttiRx: int
    var timestampTx: int
    var frameTx: int
    var ttiTx: int
    var exited: bool    // an "Exiting" branch has been taken

    constructor (fp: FrameParms, tsOffset: int)
      requires fp.Valid()
      ensures this.fp == fp && this.tsOffset == tsOffset && firstRx && timestampRx == 0 && !exited
    {
      this.fp := fp;
      this.tsOffset := tsOffset;
      firstRx, timestampRx, exited := true, 0, false;
    }

    /** rx_rf. Whatever the device reports, the received time moves on by the previous slot's samples;
        the offset absorbs the difference. */
    method RxRf(emulate: bool, deviceTs: int, frame: int, slot: int) returns (frame': int, slot': int)
      requires fp.Valid() && fp.SamplesPerFrame() > 0 && 0 <= slot < fp.SlotsPerFrame() && timestampRx >= 0
      modifies this`tsOffset, this`firstRx, this`timestampRx, this`frameRx, this`ttiRx, this`exited
      ensures !firstRx
      ensures timestampRx == if old(firstRx) then 0
                             else old(timestampRx) + SamplesPerSlot(fp, CRem(slot - 1, fp.SlotsPerFrame()))
      ensures var ts := if emulate then old(timestampRx) + SamplesPerSlot(fp, slot) else deviceTs;
              tsOffset == ts - if old(firstRx) then old(tsOffset) else timestampRx
      ensures frameRx == timestampRx / fp.SamplesPerFrame() % 1024
      ensures 0 <= ttiRx <= fp.SlotsPerFrame() && RoundsUpTo(fp, timestampRx, ttiRx)
      ensures frame' == (if old(firstRx) then frameRx else frame) && slot' == if old(firstRx) then ttiRx else slot
      ensures exited == (old(exited) || (!old(firstRx) && (ttiRx != slot || frameRx != frame)))
    {
      hide Start, SamplesPerSlot, RoundsUpTo, FrameParms.SamplesPerSubframe, FrameParms.SlotsPerSubframe;
      var samplesPerSlot := SamplesPerSlot(fp, slot);
      var oldTs := timestampRx;
      var ts := if emulate then oldTs + samplesPerSlot else deviceTs;
      timestampRx := ts - tsOffset;
      if firstRx {
        tsOffset := timestampRx;
        timestampRx := 0;
      } else {
        var samplesPerSlotPrev := SamplesPerSlot(fp, CRem(slot - 1, fp.SlotsPerFrame()));
        if timestampRx - oldTs != samplesPerSlotPrev {
          tsOffset := tsOffset + (timestampRx - oldTs - samplesPerSlotPrev);
          timestampRx := ts - tsOffset;
        }
      }
      frameRx := timestampRx / (fp.SamplesPerSubframe() * 10) % 1024;
      ttiRx := GetSlotFromTimestamp(fp, timestampRx);
      frame', slot' := frame, slot;
      if !firstRx {
        if ttiRx != slot || frameRx != frame {
          exited := true;
        }
      } else {
        firstRx := false;
        frame', slot' := frameRx, ttiRx;
      }
    }

    /** ru_thread over `|device|` slots. For any device timestamps and any initial offset the clock stays
        in lockstep: no "Exiting" branch is taken, and the n-th message is the calendar's. The first one is
        given in numbers, for the numerologies 0 to 4: a subframe has 1920 samples per slot and unit of 128
        samples of the symbol size. */
    method Run(emulate: bool, device: seq<int>) returns (handed: seq<SlotMessage>)
      requires fp.Valid() && firstRx && timestampRx == 0 && !exited
      modifies this
      ensures !exited
      ensures |handed| == |device| && forall n :: 0 <= n < |device| ==> handed[n] == MessageAt(fp, n)
      ensures |device| > 0 ==>
                handed[0] == SlotMessage(0, 0, 0, [6, 6, 8, 8, 16][fp.mu], 1920 * [6, 6, 8, 8, 16][fp.mu] * fp.unit)
      ensures |device| > 0 ==> timestampRx == Start(fp, |device| - 1)
      ensures |device| > 1 && !emulate ==> tsOffset == device[|device| - 1] - timestampRx
    {
      hide Start, SamplesPerSlot, RoundsUpTo, FrameParms.SamplesPerSubframe, FrameParms.SlotsPerSubframe;
      FrameIsPositive(fp);
      StartAtZero(fp);
      FirstMessage(fp);
      var spf := fp.SlotsPerFrame();
      var slot, frame := spf - 1, 1023;
      handed := [];
      for i := 0 to |device|
        invariant !exited && |handed| == i && forall n :: 0 <= n < i ==> handed[n] == MessageAt(fp, n)
        invariant i == 0 ==> firstRx && timestampRx == 0 && slot == spf - 1 && frame == 1023
        invariant i > 0 ==> !firstRx && timestampRx == Start(fp, i - 1)
        invariant i > 0 ==> slot == (i - 1) % spf && frame == (i - 1) / spf % 1024
        invariant i > 1 && !emulate ==> tsOffset == device[i - 1] - timestampRx
      {
        CounterStep(i, spf, slot, frame);
        if slot == spf - 1 {
          slot := 0;
          frame := (frame + 1) % 1024;
        } else {
          slot := slot + 1;
        }
        NextStart(fp, i);
        frame, slot := RxRf(emulate, device[i], frame, slot);
        DecodedAtStart(fp, i, ttiRx);
        LookAheadAgrees(fp, i);
        timestampTx := TimestampTx(fp, timestampRx);
        frameTx := FrameTx(fp, frameRx, ttiRx);
        ttiTx := TtiTx(fp, ttiRx);
        handed := handed + [SlotMessage(frameRx, ttiRx, frameTx, ttiTx, timestampTx)];
      }
    }
  }

  lemma FirstMessage(fp: FrameParms)
    requires fp.Valid()
    ensures var ahead := [6, 6, 8, 8, 16][fp.mu];
            MessageAt(fp, 0) == SlotMessage(0, 0, 0, ahead, 1920 * ahead * fp.unit)
  {
    hide Start, FrameParms.SfAhead, FrameParms.SlotsAhead, FrameParms.SamplesPerSubframe, FrameParms.SlotsPerFrame;
    LookAheadInNumbers(fp);
    FirstTransmitStart(fp);
    var spf, tx := fp.SlotsPerFrame(), fp.SlotsAhead();
    DivModUnique(0, 0, spf);
    DivModUnique(0, tx, spf);
  }

  // The subframes before the first slot to be transmitted.
  lemma FirstTransmitStart(fp: FrameParms)
    requires fp.Valid()
    ensures Start(fp, fp.SlotsAhead()) == 1920 * fp.SlotsAhead() * fp.unit
  {
    hide Start, FrameParms.SfAhead, FrameParms.SamplesPerSubframe, FrameParms.SlotsPerSubframe;
    Lengths(fp);
    StartAtZero(fp);
    Subframes(fp, 0, fp.SfAhead());
    Products(fp.SlotsPerSubframe(), fp.SfAhead(), fp.unit);
    assert 0 + fp.SfAhead() * fp.SlotsPerSubframe() == fp.SlotsAhead();
  }

  lemma Products(s: nat, k: nat, u: nat)
    ensures k * s == s * k && k * (1920 * s * u) == 1920 * (s * k) * u
  {
    var a, b := s * k, s * u;
    assert k * (1920 * b) == 1920 * (k * b);
    assert k * b == a * u;
    assert 1920 * s * u == 1920 * b && 1920 * a * u == 1920 * (a * u);
  }

  // The counters of ru_thread, before and after its increment.
  lemma CounterStep(i: nat, spf: nat, slot: int, frame: int)
    requires spf >= 1
    requires i == 0 ==> slot == spf - 1 && frame == 1023
    requires i > 0 ==> slot == (i - 1) % spf && frame == (i - 1) / spf % 1024
    ensures slot == spf - 1 ==> i % spf == 0 && i / spf % 1024 == (frame + 1) % 1024
    ensures slot != spf - 1 ==> i % spf == slot + 1 && i / spf % 1024 == frame
  {
    if i > 0 {
      DivModSucc(i - 1, spf);
      Modulo1024((i - 1) / spf);
    } else {
      DivModUnique(0, 0, spf);
    }
  }

  lemma NextStart(fp: FrameParms, i: nat)
    requires fp.Valid()
    ensures i > 0 ==>
              var spf := fp.SlotsPerFrame();
              Start(fp, i) == Start(fp, i - 1) + SamplesPerSlot(fp, CRem(i % spf - 1, spf))
  {
    hide SamplesPerSlot;
    if i > 0 {
      PreviousSlotLength(fp, i - 1);
    }
  }
}
