/**
 Fronthaul reception of one slot as 14 symbols in any order: the asynchronous variant clears the bit of
 each received symbol until none is left, the northbound one sets bits until exactly the full mask is
 there.
 */
module SymbolGather {
  const SYMBOLS: bv32 := 14
  const FULL: bv32 := (1 << 14) - 1

  datatype Kind = PulFft | Prach | Other

  /** A packet of recv_IF4p5. */
  datatype Packet = Packet(frame: int, slot: int, kind: Kind, symbol: Symbol)

  type Symbol = s: bv32 | s < 32

  predicate Has(mask: bv32, s: Symbol) {
    mask & (1 << s) != 0
  }

  function WithBit(mask: bv32, s: Symbol): bv32 { mask | (1 << s) }

  function WithoutBit(mask: bv32, s: Symbol): bv32 { mask & !(1 << s) }

  // ---- bit facts ----

  lemma OrBit(mask: bv32, s: Symbol, t: Symbol)
    ensures Has(mask | (1 << s), t) <==> Has(mask, t) || t == s
  {
  }

  lemma AndBit(mask: bv32, s: Symbol, t: Symbol)
    ensures Has(mask & !(1 << s), t) <==> Has(mask, t) && t != s
  {
  }

  lemma SetBit(mask: bv32, s: Symbol, t: Symbol)
    ensures Has(WithBit(mask, s), t) <==> Has(mask, t) || t == s
  {
    hide Has;
    OrBit(mask, s, t);
  }

  lemma ClearBit(mask: bv32, s: Symbol, t: Symbol)
    ensures Has(WithoutBit(mask, s), t) <==> Has(mask, t) && t != s
  {
    hide Has;
    AndBit(mask, s, t);
  }

  lemma FullBits(t: Symbol)
    ensures Has(FULL, t) <==> t < SYMBOLS
  {
  }

  lemma ZeroMask(mask: bv32)
    ensures mask == 0 <==> forall t: Symbol :: !Has(mask, t)
  {
    if forall t: Symbol :: !Has(mask, t) {
      assert !Has(mask, 0) && !Has(mask, 1) && !Has(mask, 2) && !Has(mask, 3) && !Has(mask, 4) && !Has(mask, 5)
          && !Has(mask, 6) && !Has(mask, 7) && !Has(mask, 8) && !Has(mask, 9) && !Has(mask, 10) && !Has(mask, 11)
          && !Has(mask, 12) && !Has(mask, 13) && !Has(mask, 14) && !Has(mask, 15);
      assert !Has(mask, 16) && !Has(mask, 17) && !Has(mask, 18) && !Has(mask, 19) && !Has(mask, 20) && !Has(mask, 21)
          && !Has(mask, 22) && !Has(mask, 23) && !Has(mask, 24) && !Has(mask, 25) && !Has(mask, 26) && !Has(mask, 27)
          && !Has(mask, 28) && !Has(mask, 29) && !Has(mask, 30) && !Has(mask, 31);
    }
  }

  lemma XorBit(a: bv32, b: bv32, t: Symbol)
    ensures Has(a ^ b, t) <==> (Has(a, t) != Has(b, t))
  {
  }

  lemma SameBits(a: bv32, b: bv32)
    ensures a == b <==> forall t: Symbol :: Has(a, t) == Has(b, t)
  {
    hide Has;
    if forall t: Symbol :: Has(a, t) == Has(b, t) {
      var x := a ^ b;
      ZeroMask(x);
      forall t: Symbol
        ensures !Has(x, t)
      {
        XorBit(a, b, t);
        assert Has(a, t) == Has(b, t);
      }
      XorZero(a, b);
    }
  }

  lemma XorZero(a: bv32, b: bv32)
    ensures a == b <==> a ^ b == 0
  {
  }

  // ---- what has been received ----

  // Symbols whose packets count, among the first packets of a run.
  ghost predicate Seen(packets: seq<Packet>, all: bool, t: Symbol) {
    exists k :: 0 <= k < |packets| && packets[k].symbol == t && (all || packets[k].kind == PulFft)
  }

  ghost predicate Covers(packets: seq<Packet>, all: bool) {
    forall t: Symbol :: t < SYMBOLS ==> Seen(packets, all, t)
  }

  predicate InSlot(p: Packet, frame: int, slot: int) {
    p.frame == frame && p.slot == slot
  }

  lemma SeenGrows(packets: seq<Packet>, p: Packet, all: bool, t: Symbol)
    ensures Seen(packets + [p], all, t) <==> Seen(packets, all, t) || (p.symbol == t && (all || p.kind == PulFft))
  {
    var more := packets + [p];
    if Seen(packets, all, t) {
      var k :| 0 <= k < |packets| && packets[k].symbol == t && (all || packets[k].kind == PulFft);
      assert more[k] == packets[k];
    }
    assert more[|packets|] == p;
  }

  ghost predicate MissingBits(mask: bv32, packets: seq<Packet>) {
    forall t: Symbol :: Has(mask, t) <==> t < SYMBOLS && !Seen(packets, false, t)
  }

  ghost predicate SeenBits(mask: bv32, packets: seq<Packet>) {
    forall t: Symbol :: Has(mask, t) <==> Seen(packets, true, t)
  }

  lemma ClearsSeen(mask: bv32, packets: seq<Packet>, p: Packet)
    requires MissingBits(mask, packets)
    ensures MissingBits(if p.kind == PulFft then WithoutBit(mask, p.symbol) else mask, packets + [p])
  {
    hide Seen, Has, WithBit, WithoutBit;
    forall t: Symbol
      ensures Has(if p.kind == PulFft then WithoutBit(mask, p.symbol) else mask, t) <==> t < SYMBOLS && !Seen(packets + [p], false, t)
    {
      SeenGrows(packets, p, false, t);
      ClearBit(mask, p.symbol, t);
    }
  }

  lemma SetsSeen(mask: bv32, packets: seq<Packet>, p: Packet)
    requires SeenBits(mask, packets)
    ensures SeenBits(WithBit(mask, p.symbol), packets + [p])
  {
    hide Seen, Has, WithBit, WithoutBit;
    forall t: Symbol
      ensures Has(WithBit(mask, p.symbol), t) <==> Seen(packets + [p], true, t)
    {
      SeenGrows(packets, p, true, t);
      SetBit(mask, p.symbol, t);
    }
  }

  lemma StartBits()
    ensures MissingBits(FULL, []) && SeenBits(0, [])
  {
    forall t: Symbol
      ensures Has(FULL, t) <==> t < SYMBOLS
      ensures !Has(0, t)
    {
      FullBits(t);
      ZeroMask(0);
    }
  }

  datatype Outcome = Complete | Exiting | Waiting

  class RadioUnit {
    var firstRx: bool
    var frameRx: int
    var ttiRx: int

    constructor (firstRx: bool)
      ensures this.firstRx == firstRx
    {
      this.firstRx, frameRx, ttiRx := firstRx, 0, 0;
    }

    /** fh_if4p5_south_asynch_in on a packet stream (`Waiting` at its end). A normal exit happens exactly
        at the first packet that completes the coverage of all symbols of the slot, with every packet
        from the expected frame and slot, which the very first packet sets; a packet from elsewhere
        takes the "Exiting" branch. */
    method SouthAsynchIn(stream: seq<Packet>, frame: int, slot: int)
      returns (frame': int, slot': int, used: nat, outcome: Outcome)
      modifies this
      ensures used <= |stream| && firstRx == (old(firstRx) && used == 0) && (|stream| > 0 ==> used > 0)
      ensures used > 0 ==> frameRx == stream[used - 1].frame && ttiRx == stream[used - 1].slot
      ensures if old(firstRx) && |stream| > 0 then frame' == stream[0].frame && slot' == stream[0].slot
              else frame' == frame && slot' == slot
      ensures outcome == Complete <==>
                used > 0 && Covers(stream[..used], false) && !Covers(stream[..used - 1], false)
                && forall k :: 0 <= k < used ==> InSlot(stream[k], frame', slot')
      ensures outcome == Exiting <==> used > 0 && !InSlot(stream[used - 1], frame', slot')
      ensures outcome == Exiting ==> forall k :: 0 <= k < used - 1 ==> InSlot(stream[k], frame', slot')
      ensures outcome == Exiting ==> !Covers(stream[..used - 1], false)
      ensures outcome == Waiting ==> used == |stream| && !Covers(stream, false)
    {
      hide Has, Seen, MissingBits, WithoutBit;
      frame', slot', used := frame, slot, 0;
      var symbolMask: bv32 := FULL;
      StartBits();
      MaskOfMissing(symbolMask, []);
      while true
        invariant used <= |stream| && MissingBits(symbolMask, stream[..used]) && !Covers(stream[..used], false)
        invariant forall k :: 0 <= k < used ==> InSlot(stream[k], frame', slot')
        invariant if old(firstRx) && used > 0 then frame' == stream[0].frame && slot' == stream[0].slot
                  else frame' == frame && slot' == slot
        invariant firstRx == (old(firstRx) && used == 0)
        invariant used > 0 ==> frameRx == stream[used - 1].frame && ttiRx == stream[used - 1].slot
        decreases |stream| - used
      {
        if used == |stream| {
          assert stream[..used] == stream;
          return frame', slot', used, Waiting;
        }
        var p := stream[used];
        frameRx, ttiRx := p.frame, p.slot;
        assert stream[..used + 1] == stream[..used] + [p];
        ClearsSeen(symbolMask, stream[..used], p);
        used := used + 1;
        if firstRx {
          frame', slot', firstRx := frameRx, ttiRx, false;
        } else if frameRx != frame' || ttiRx != slot' {
          return frame', slot', used, Exiting;
        }
        if p.kind == PulFft {
          symbolMask := WithoutBit(symbolMask, p.symbol);
        }
        MaskOfMissing(symbolMask, stream[..used]);
        if symbolMask == 0 {
          return frame', slot', used, Complete;
        }
      }
    }
  }

  lemma MaskOfMissing(mask: bv32, packets: seq<Packet>)
    requires MissingBits(mask, packets)
    ensures mask == 0 <==> Covers(packets, false)
  {
    hide Has, Seen;
    ZeroMask(mask);
  }

  /** fh_if4p5_north_in: the exit is at the first packet after which the symbols seen are exactly 0 to 13;
      frame and slot are those of the last packet read. */
  method NorthIn(stream: seq<Packet>) returns (used: nat, complete: bool, frame: int, slot: int)
    ensures used <= |stream| && (used > 0 ==> frame == stream[used - 1].frame && slot == stream[used - 1].slot)
    ensures complete ==> used > 0 && ExactlyAll(stream[..used])
    ensures forall k :: 0 <= k <= |stream| && (k < used || !complete) ==> !ExactlyAll(stream[..k])
    ensures !complete ==> used == |stream|
  {
    hide Has, Seen, SeenBits, WithBit;
    used, complete, frame, slot := 0, false, 0, 0;
    var symbolMask: bv32 := 0;
    StartBits();
    MaskOfSeen(symbolMask, []);
    assert stream[..0] == [];
    while true
      invariant used <= |stream| && SeenBits(symbolMask, stream[..used]) && !complete
      invariant used > 0 ==> frame == stream[used - 1].frame && slot == stream[used - 1].slot
      invariant forall k :: 0 <= k <= used ==> !ExactlyAll(stream[..k])
      decreases |stream| - used
    {
      if used == |stream| {
        return;
      }
      var p := stream[used];
      frame, slot := p.frame, p.slot;
      assert stream[..used + 1] == stream[..used] + [p];
      SetsSeen(symbolMask, stream[..used], p);
      symbolMask := WithBit(symbolMask, p.symbol);
      used := used + 1;
      MaskOfSeen(symbolMask, stream[..used]);
      if symbolMask == FULL {
        return used, true, frame, slot;
      }
    }
  }

  ghost predicate ExactlyAll(packets: seq<Packet>) {
    forall t: Symbol :: Seen(packets, true, t) <==> t < SYMBOLS
  }

  lemma MaskOfSeen(mask: bv32, packets: seq<Packet>)
    requires SeenBits(mask, packets)
    ensures mask == FULL <==> ExactlyAll(packets)
  {
    hide Has, Seen;
    SameBits(mask, FULL);
    forall t: Symbol
      ensures Has(FULL, t) <==> t < SYMBOLS
    {
      FullBits(t);
    }
  }

  /** The northbound loop collects the slot's symbols exactly if no packet names a symbol beyond them: one
      that does keeps the loop from ever ending. */
  lemma NorthExitsExactly(stream: seq<Packet>)
    ensures ExactlyAll(stream) <==> Covers(stream, true) && forall k :: 0 <= k < |stream| ==> stream[k].symbol < SYMBOLS
  {
    if ExactlyAll(stream) {
      forall k | 0 <= k < |stream|
        ensures stream[k].symbol < SYMBOLS
      {
        assert Seen(stream, true, stream[k].symbol);
      }
    }
  }

  // ---- progress ----

  function AllSymbols(): set<Symbol> { {0, 1, 2, 3, 4, 5, 6, 7, 8, 9, 10, 11, 12, 13} }

  lemma InAllSymbols(t: Symbol)
    ensures t in AllSymbols() <==> t < SYMBOLS
  {
  }

  ghost function Missing(packets: seq<Packet>, all: bool): set<Symbol> {
    set t: Symbol | t in AllSymbols() && !Seen(packets, all, t)
  }

  /** The number of missing symbols falls by one with every fresh symbol and not otherwise, and reception
      is complete when it is 0. */
  lemma FreshSymbolsCount(packets: seq<Packet>, p: Packet, all: bool)
    ensures |Missing(packets + [p], all)|
         == |Missing(packets, all)| - (if p.symbol in Missing(packets, all) && (all || p.kind == PulFft) then 1 else 0)
    ensures |Missing(packets, all)| == 0 <==> Covers(packets, all)
  {
    hide Seen, AllSymbols;
    forall t: Symbol
      ensures t in AllSymbols() <==> t < SYMBOLS
    {
      InAllSymbols(t);
    }
    var before, after := Missing(packets, all), Missing(packets + [p], all);
    forall t: Symbol
      ensures Seen(packets + [p], all, t) <==> Seen(packets, all, t) || (p.symbol == t && (all || p.kind == PulFft))
    {
      SeenGrows(packets, p, all, t);
    }
    if all || p.kind == PulFft {
      assert after == before - {p.symbol};
    } else {
      assert after == before;
    }
    if Covers(packets, all) {
      assert before == {};
    } else {
      var t: Symbol :| t < SYMBOLS && !Seen(packets, all, t);
      assert t in before;
    }
  }
}
