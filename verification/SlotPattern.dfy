/**
 Which slots of the NR TDD pattern carry downlink, and how the transmit chain finds the next one.
 The table covers two frames; slots are also counted by one absolute index `at`, of which the source
 keeps only the slot number `at % slotsPerFrame` and the frame number modulo 1024.
 */
module SlotPattern {
  import opened Arith

  const SYMBOLS_PER_SLOT := 14

  datatype Option<+T> = None | Some(value: T)

  datatype SlotType = Downlink | Uplink | Mixed

  datatype Cell = Cell(fdd: bool, slotsPerFrame: nat, table: seq<seq<int>>) {
    predicate WellFormed() {
      && slotsPerFrame >= 2
      && (fdd || |table| == 2 * slotsPerFrame)
      && (forall i :: 0 <= i < |table| ==> |table[i]| == SYMBOLS_PER_SLOT)
    }

    // At least one slot of the pattern can carry downlink.
    predicate Valid() {
      WellFormed() && (fdd || exists i :: 0 <= i < |table| && TypeOf(table[i]) != Uplink)
    }

    function Num(at: int): (s: nat)
      requires WellFormed()
    {
      at % slotsPerFrame
    }

    predicate Dl(at: int)
      requires WellFormed()
    {
      fdd || TypeOf(table[at % (2 * slotsPerFrame)]) != Uplink
    }

    predicate Ul(at: int)
      requires WellFormed()
    {
      fdd || TypeOf(table[at % (2 * slotsPerFrame)]) != Downlink
    }
  }

  predicate AllSymbols(row: seq<int>, v: int) {
    forall i :: 0 <= i < |row| ==> row[i] == v
  }

  function TypeOf(row: seq<int>): SlotType {
    if AllSymbols(row, 1) then Uplink
    else if AllSymbols(row, 0) then Downlink
    else Mixed
  }

  // The counting loop of nr_slot_select.
  method CountSymbols(row: seq<int>, v: int) returns (count: nat)
    ensures count <= |row|
    ensures count == |row| <==> AllSymbols(row, v)
  {
    count := 0;
    for i := 0 to |row|
      invariant count <= i
      invariant count == i <==> forall j :: 0 <= j < i ==> row[j] == v
    {
      if row[i] == v {
        count := count + 1;
      }
    }
  }

  lemma RowOf(frame: nat, slot: nat, spf: nat)
    requires slot < spf
    ensures (frame * spf + slot) % (2 * spf) == if frame % 2 == 0 then slot else spf + slot
  {
    var at := frame * spf + slot;
    DivModNest(at, 2, spf);
    DivModUnique(frame, slot, spf);
    assert frame % 2 == 0 || frame % 2 == 1;
  }

  // nr_slot_select. FDD slots carry both directions, which is the code of a mixed slot.
  method NrSlotSelect(cell: Cell, frame: nat, slot: nat) returns (t: SlotType)
    requires cell.WellFormed() && slot < cell.slotsPerFrame
    ensures t != Uplink <==> cell.Dl(frame * cell.slotsPerFrame + slot)
    ensures t != Downlink <==> cell.Ul(frame * cell.slotsPerFrame + slot)
    ensures !cell.fdd ==> t == TypeOf(cell.table[(frame * cell.slotsPerFrame + slot) % (2 * cell.slotsPerFrame)])
  {
    RowOf(frame, slot, cell.slotsPerFrame);
    if cell.fdd {
      return Mixed;
    }
    var row := cell.table[if frame % 2 == 0 then slot else cell.slotsPerFrame + slot];
    var uplink := CountSymbols(row, 1);
    if uplink == SYMBOLS_PER_SLOT {
      return Uplink;
    }
    var downlink := CountSymbols(row, 0);
    if downlink == SYMBOLS_PER_SLOT {
      return Downlink;
    }
    return Mixed;
  }

  lemma DlPeriodic(cell: Cell, at: int, m: int)
    requires cell.WellFormed()
    ensures cell.Dl(at + m * (2 * cell.slotsPerFrame)) == cell.Dl(at)
    ensures cell.Ul(at + m * (2 * cell.slotsPerFrame)) == cell.Ul(at)
  {
    DivModShift(at, m, 2 * cell.slotsPerFrame);
  }

  ghost function SomeDlRow(cell: Cell): (i: nat)
    requires cell.Valid()
    ensures i < 2 * cell.slotsPerFrame && cell.Dl(i)
  {
    if cell.fdd then 0
    else
      var i :| 0 <= i < |cell.table| && TypeOf(cell.table[i]) != Uplink;
      DivModUnique(0, i, 2 * cell.slotsPerFrame);
      i
  }

  // Slots still to pass before the pattern row `SomeDlRow` comes round again.
  ghost function DlDistance(cell: Cell, at: int): (d: nat)
    requires cell.Valid()
  {
    (SomeDlRow(cell) - at) % (2 * cell.slotsPerFrame)
  }

  lemma DlDistanceStep(cell: Cell, at: int)
    requires cell.Valid() && !cell.Dl(at)
    ensures DlDistance(cell, at + 1) < DlDistance(cell, at)
  {
    var p := 2 * cell.slotsPerFrame;
    var w := SomeDlRow(cell);
    var x := w - at;
    if x % p == 0 {
      assert at == w + (-(x / p)) * p by { assert x == (x / p) * p; }
      DlPeriodic(cell, w, -(x / p));
      assert false;
    }
    assert x - 1 == (x / p) * p + (x % p - 1);
    DivModUnique(x / p, x % p - 1, p);
  }

  // The first downlink-capable slot at or after `at`.
  ghost function FirstDl(cell: Cell, at: int): (k: int)
    requires cell.Valid()
    ensures at <= k && cell.Dl(k)
    ensures forall m :: at <= m < k ==> !cell.Dl(m)
    decreases DlDistance(cell, at)
  {
    if cell.Dl(at) then at
    else
      DlDistanceStep(cell, at);
      FirstDl(cell, at + 1)
  }

  ghost function NextDl(cell: Cell, at: int): (k: int)
    requires cell.Valid()
    ensures at < k && cell.Dl(k)
    ensures forall m :: at < m < k ==> !cell.Dl(m)
  {
    FirstDl(cell, at + 1)
  }

  lemma NextDlUnique(cell: Cell, at: int, k: int)
    requires cell.Valid()
    requires at < k && cell.Dl(k) && forall m :: at < m < k ==> !cell.Dl(m)
    ensures NextDl(cell, at) == k
  {
    var n := NextDl(cell, at);
    assert !(n < k) && !(k < n);
  }

  // The search only depends on the position inside the two-frame pattern.
  lemma NextDlPeriodic(cell: Cell, at: int, m: int)
    requires cell.Valid()
    ensures NextDl(cell, at + m * (2 * cell.slotsPerFrame)) == NextDl(cell, at) + m * (2 * cell.slotsPerFrame)
    ensures cell.Num(NextDl(cell, at + m * (2 * cell.slotsPerFrame))) == cell.Num(NextDl(cell, at))
  {
    var p := 2 * cell.slotsPerFrame;
    var k := NextDl(cell, at);
    DlPeriodic(cell, k, m);
    forall x | at + m * p < x < k + m * p
      ensures !cell.Dl(x)
    {
      DlPeriodic(cell, x - m * p, m);
    }
    NextDlUnique(cell, at + m * p, k + m * p);
    NumPeriodic(cell, k, m);
  }

  lemma NumPeriodic(cell: Cell, at: int, m: int)
    requires cell.WellFormed()
    ensures cell.Num(at + m * (2 * cell.slotsPerFrame)) == cell.Num(at)
  {
    assert m * (2 * cell.slotsPerFrame) == (2 * m) * cell.slotsPerFrame;
    DivModShift(at, 2 * m, cell.slotsPerFrame);
  }

  // The last slot get_next_downlink_slot looks at before its assertion fires.
  function SearchEnd(cell: Cell, at: int): int
    requires cell.WellFormed()
  {
    (at / cell.slotsPerFrame + 2) * cell.slotsPerFrame
  }

  // One turn of the search loop: the carried frame and slot stay those of the absolute index.
  lemma SearchStep(frame: nat, slot: nat, spf: nat)
    requires slot < spf
    ensures (slot + 1) / spf == (if slot + 1 == spf then 1 else 0)
    ensures (slot + 1) % spf == (if slot + 1 == spf then 0 else slot + 1)
    ensures frame * spf + slot + 1 == (frame + (slot + 1) / spf) * spf + (slot + 1) % spf
  {
    if slot + 1 < spf {
      DivModUnique(0, slot + 1, spf);
    } else {
      DivModUnique(1, 0, spf);
      assert (frame + 1) * spf == frame * spf + spf;
    }
  }

  lemma SearchBound(frame: nat, slot: nat, frame0: nat, spf: nat)
    requires slot < spf && frame < frame0 + 2
    ensures frame * spf + slot < (frame0 + 2) * spf
  {
    assert frame * spf <= (frame0 + 1) * spf;
    assert (frame0 + 2) * spf == (frame0 + 1) * spf + spf;
  }

  // The first downlink-capable slot among those the search looks at.
  predicate FirstWithin(cell: Cell, at: int, k: int)
    requires cell.WellFormed()
  {
    at < k <= SearchEnd(cell, at) && cell.Dl(k) && forall m :: at < m < k ==> !cell.Dl(m)
  }

  /** get_next_downlink_slot, also for patterns without any downlink. `None` is the AssertFatal; it fires
      exactly when no downlink slot lies before slot 1 of the second following frame. */
  method GetNextDownlinkSlot(cell: Cell, frame0: nat, slot0: nat) returns (r: Option<nat>)
    requires cell.WellFormed() && slot0 < cell.slotsPerFrame
    ensures var at := frame0 * cell.slotsPerFrame + slot0;
            if r.Some? then exists k :: FirstWithin(cell, at, k) && r.value == cell.Num(k)
            else forall m :: at < m <= SearchEnd(cell, at) ==> !cell.Dl(m)
    ensures cell.Valid() ==>
              var at := frame0 * cell.slotsPerFrame + slot0;
              r == if NextDl(cell, at) <= SearchEnd(cell, at) then Some(cell.Num(NextDl(cell, at))) else None
  {
    hide NextDl, FirstDl;
    var spf := cell.slotsPerFrame;
    ghost var start, end := frame0 * spf + slot0, (frame0 + 2) * spf;
    assert SearchEnd(cell, start) == end by {
      DivModUnique(frame0, slot0, spf);
    }
    var frame, slot := frame0, slot0;
    SearchBound(frame, slot, frame0, spf);
    while true
      invariant slot < spf && frame0 <= frame < frame0 + 2
      invariant start <= frame * spf + slot < end
      invariant forall m :: start < m <= frame * spf + slot ==> !cell.Dl(m)
      decreases end - (frame * spf + slot)
    {
      SearchStep(frame, slot, spf);
      slot := slot + 1;
      if slot / spf > 0 {
        frame := frame + 1;
      }
      slot := slot % spf;
      ghost var cur := frame * spf + slot;
      var t := NrSlotSelect(cell, frame, slot);
      if t != Uplink {
        if cell.Valid() {
          NextDlUnique(cell, start, cur);
        }
        assert FirstWithin(cell, start, cur);
        assert cell.Num(cur) == slot by {
          DivModUnique(frame, slot, spf);
        }
        return Some(slot);
      }
      if !(frame < frame0 + 2) {
        return None;
      }
      SearchBound(frame, slot, frame0, spf);
    }
  }

  // Some slot of the frame that begins at `from` carries downlink.
  predicate FrameDl(cell: Cell, from: int)
    requires cell.WellFormed()
  {
    exists at :: from <= at < from + cell.slotsPerFrame && cell.Dl(at)
  }

  /** Both frames of the table have downlink, or one of them in its slot 0. */
  predicate SearchSafe(cell: Cell)
    requires cell.WellFormed()
  {
    (FrameDl(cell, 0) && FrameDl(cell, cell.slotsPerFrame)) || cell.Dl(0) || cell.Dl(cell.slotsPerFrame)
  }

  lemma NextDlAtMost(cell: Cell, at: int, k: int)
    requires cell.Valid() && at < k && cell.Dl(k)
    ensures NextDl(cell, at) <= k
  {
  }

  // The frame after that of a slot, as a frame of the table and a number of whole tables.
  lemma FrameAfter(cell: Cell, at: nat) returns (from: int, m: int)
    requires cell.WellFormed()
    ensures from == 0 || from == cell.slotsPerFrame
    ensures at < from + m * (2 * cell.slotsPerFrame)
    ensures SearchEnd(cell, at) == from + m * (2 * cell.slotsPerFrame) + cell.slotsPerFrame
  {
    var spf := cell.slotsPerFrame;
    var f := at / spf;
    Euclid(at, spf);
    assert (f + 1) * spf == f * spf + spf && (f + 2) * spf == f * spf + 2 * spf;
    if f % 2 == 1 {
      from, m := 0, (f + 1) / 2;
      assert f + 1 == m * 2;
    } else {
      from, m := spf, f / 2;
      assert f == m * 2;
    }
    assert (m * 2) * spf == m * (2 * spf);
  }

  lemma SearchSucceeds(cell: Cell, at: nat)
    requires cell.Valid() && SearchSafe(cell)
    ensures NextDl(cell, at) <= SearchEnd(cell, at)
  {
    hide Cell.Dl, NextDl, SearchEnd;
    var spf := cell.slotsPerFrame;
    var from, m := FrameAfter(cell, at);
    if FrameDl(cell, from) {
      var k :| from <= k < from + spf && cell.Dl(k);
      DlPeriodic(cell, k, m);
      NextDlAtMost(cell, at, k + m * (2 * spf));
    } else {
      var other := spf - from;
      assert cell.Dl(other);
      var m' := if from == 0 then m else m + 1;
      assert (m + 1) * (2 * spf) == m * (2 * spf) + 2 * spf;
      DlPeriodic(cell, other, m');
      NextDlAtMost(cell, at, other + m' * (2 * spf));
    }
  }

  // The last downlink slot of a frame.
  lemma LastOfFrame(cell: Cell, from: nat) returns (at: nat)
    requires cell.WellFormed() && FrameDl(cell, from)
    ensures from <= at < from + cell.slotsPerFrame && cell.Dl(at)
    ensures forall k :: at < k < from + cell.slotsPerFrame ==> !cell.Dl(k)
  {
    hide Cell.Dl;
    at := from + cell.slotsPerFrame - 1;
    while !cell.Dl(at)
      invariant from <= at < from + cell.slotsPerFrame
      invariant forall k :: at < k < from + cell.slotsPerFrame ==> !cell.Dl(k)
      decreases at
    {
      var w :| from <= w < from + cell.slotsPerFrame && cell.Dl(w);
      assert w < at;
      at := at - 1;
    }
  }

  // A table that is not safe has downlink in one of its frames only, and there not in slot 0.
  lemma OneFrameOnly(cell: Cell) returns (from: nat)
    requires cell.Valid() && !SearchSafe(cell)
    ensures from == 0 || from == cell.slotsPerFrame
    ensures FrameDl(cell, from) && !FrameDl(cell, cell.slotsPerFrame - from) && !cell.Dl(from)
  {
    hide Cell.Dl;
    var i := SomeDlRow(cell);
    from := if i < cell.slotsPerFrame then 0 else cell.slotsPerFrame;
  }

  lemma SearchFails(cell: Cell) returns (at: nat)
    requires cell.Valid() && !SearchSafe(cell)
    ensures cell.Dl(at) && NextDl(cell, at) > SearchEnd(cell, at)
  {
    hide Cell.Dl, NextDl, SearchSafe, FrameDl;
    var spf := cell.slotsPerFrame;
    var from := OneFrameOnly(cell);
    at := LastOfFrame(cell, from);
    assert SearchEnd(cell, at) == from + 2 * spf by {
      var f := if from == 0 then 0 else 1;
      assert from == f * spf && (f + 2) * spf == f * spf + 2 * spf;
      DivModUnique(f, at - from, spf);
    }
    forall m | at < m <= from + 2 * spf
      ensures !cell.Dl(m)
    {
      NoneLater(cell, from, at, m);
    }
  }

  lemma NoneLater(cell: Cell, from: nat, at: nat, m: int)
    requires cell.WellFormed() && (from == 0 || from == cell.slotsPerFrame)
    requires !FrameDl(cell, cell.slotsPerFrame - from) && !cell.Dl(from)
    requires forall k :: at < k < from + cell.slotsPerFrame ==> !cell.Dl(k)
    requires from <= at < m <= from + 2 * cell.slotsPerFrame
    ensures !cell.Dl(m)
  {
    hide Cell.Dl;
    var spf := cell.slotsPerFrame;
    DlPeriodic(cell, from, 1);
    DlPeriodic(cell, m - 2 * spf, 1);
  }

  /** The assertion in get_next_downlink_slot never fires, for a search from a downlink slot or from any,
      exactly if the table satisfies `SearchSafe`. */
  lemma SearchNeverFires(cell: Cell)
    requires cell.Valid()
    ensures SearchSafe(cell) <==> forall at: nat :: NextDl(cell, at) <= SearchEnd(cell, at)
    ensures SearchSafe(cell) <==> forall at: nat :: cell.Dl(at) ==> NextDl(cell, at) <= SearchEnd(cell, at)
  {
    hide Cell.Dl, NextDl, SearchSafe;
    if SearchSafe(cell) {
      forall at: nat
        ensures NextDl(cell, at) <= SearchEnd(cell, at)
      {
        SearchSucceeds(cell, at);
      }
    } else {
      var at := SearchFails(cell);
    }
  }

  /** The transmit chain passes the frame number modulo 1024, and the pattern has period two frames,
      so wrapping the frame number never changes the slot number found, nor whether the search ends. */
  lemma WrappedFrameFindsSameSlot(cell: Cell, at: nat, wrapped: nat)
    requires cell.Valid()
    requires wrapped == (at / cell.slotsPerFrame % 1024) * cell.slotsPerFrame + cell.Num(at)
    ensures cell.Num(NextDl(cell, wrapped)) == cell.Num(NextDl(cell, at))
    ensures NextDl(cell, wrapped) <= SearchEnd(cell, wrapped) <==> NextDl(cell, at) <= SearchEnd(cell, at)
  {
    var m := WrappedFrame(cell, at, wrapped);
    NextDlPeriodic(cell, wrapped, m);
  }

  lemma WrappedFrame(cell: Cell, at: nat, wrapped: nat) returns (m: int)
    requires cell.WellFormed()
    requires wrapped == (at / cell.slotsPerFrame % 1024) * cell.slotsPerFrame + cell.Num(at)
    ensures at == wrapped + m * (2 * cell.slotsPerFrame)
    ensures SearchEnd(cell, at) == SearchEnd(cell, wrapped) + m * (2 * cell.slotsPerFrame)
  {
    m := WrapShift(at, wrapped, cell.slotsPerFrame);
  }

  lemma WrapShift(at: nat, wrapped: nat, spf: nat) returns (m: int)
    requires spf > 0 && wrapped == (at / spf % 1024) * spf + at % spf
    ensures at == wrapped + m * (2 * spf)
    ensures (at / spf + 2) * spf == (wrapped / spf + 2) * spf + m * (2 * spf)
  {
    var f := at / spf;
    m := 512 * (f / 1024);
    Euclid(at, spf);
    FrameShift(f, f % 1024, m, spf);
    DivModUnique(f % 1024, at % spf, spf);
  }

  lemma FrameShift(f: nat, g: nat, m: int, spf: nat)
    requires f == 2 * m + g
    ensures f * spf == g * spf + m * (2 * spf)
    ensures (f + 2) * spf == (g + 2) * spf + m * (2 * spf)
  {
    assert f * spf == (2 * m) * spf + g * spf;
    assert (f + 2) * spf == f * spf + 2 * spf;
    assert (g + 2) * spf == g * spf + 2 * spf;
  }
}
