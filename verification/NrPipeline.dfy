/**
 The slot pipeline run on a concrete TDD pattern: the calendar the transition system needs comes from
 the two-frame symbol table, and the conditions for order and progress become ones a caller can read
 off the table.
 */
module NrPipeline {
  import opened Arith
  import opened NrClock
  import opened SlotPattern
  import opened SlotPipeline
  import opened PipelineInvariant
  import opened PipelineSafety
  import opened PipelineDecoding
  import opened PipelineProgress
  import opened PipelineTheorems
  import opened PipelineRuns
  import opened PipelineCut
  import opened PipelineOvertake
  import opened PipelineDeadlock

  // The numbers of code blocks to decode in each received slot.
  type Traffic = int -> seq<nat>

  ghost function ConfigOf(cell: Cell, workers: nat, ahead: nat, time: int -> int, blocks: Traffic): Config
    requires cell.Valid()
  {
    Config(workers, ahead,
           (at: int) => cell.Valid() && cell.Dl(at),
           (at: int) => if cell.Valid() then cell.Num(at) else 0,
           (at: int) => if cell.Valid() then NextDl(cell, at) else 0,
           time, blocks)
  }

  lemma ConfigOfIsValid(cell: Cell, workers: nat, ahead: nat, time: int -> int, blocks: Traffic)
    requires cell.Valid() && workers >= 1 && ahead >= 1
    ensures ConfigOf(cell, workers, ahead, time, blocks).Valid()
  {
    hide Cell.Dl, NextDl;
    var c := ConfigOf(cell, workers, ahead, time, blocks);
    forall at, next | at >= 0 && next == at + 1
      ensures c.num(at) != c.num(next)
    {
      DivModSucc(at, cell.slotsPerFrame);
    }
    forall at, m | at < m < c.nextDl(at)
      ensures !c.isDl(m)
    {
      assert !cell.Dl(m);
    }
  }

  /** In the two-frame table, no downlink-capable slot is followed by one with its own slot number; it
      fails only for patterns with a single downlink-capable slot position per frame. */
  ghost predicate DistinctPattern(cell: Cell)
    requires cell.Valid()
  {
    forall i :: 0 <= i < 2 * cell.slotsPerFrame && cell.Dl(i) ==> cell.Num(NextDl(cell, i)) != cell.Num(i)
  }

  // A slot and its position in the two-frame table have the same successor number.
  lemma Residue(cell: Cell, at: int) returns (i: nat)
    requires cell.Valid()
    ensures i < 2 * cell.slotsPerFrame && cell.Dl(i) == cell.Dl(at) && cell.Num(i) == cell.Num(at)
    ensures cell.Num(NextDl(cell, i)) == cell.Num(NextDl(cell, at))
  {
    hide NextDl, Cell.Dl, Cell.Num;
    Euclid(at, 2 * cell.slotsPerFrame);
    i := at % (2 * cell.slotsPerFrame);
    var m := at / (2 * cell.slotsPerFrame);
    DlPeriodic(cell, i, m);
    NextDlPeriodic(cell, i, m);
    NumPeriodic(cell, i, m);
  }

  lemma LateEnough(ahead: nat, period: nat)
    requires period >= 1
    ensures ahead <= ahead * period
  {
    assert period * ahead == ahead * period;
    MulAtLeast(period, ahead);
  }

  // The downlink slots from the first look-ahead slot on are those of the enumeration.
  lemma DlIsQ(cell: Cell, c: Config, at: int) returns (j: nat)
    requires cell.Valid() && c.Valid() && c == ConfigOf(cell, c.workers, c.ahead, c.time, c.blocks)
    requires c.ahead <= at && cell.Dl(at)
    ensures Q(c, j) == at && Q(c, j + 1) == NextDl(cell, at)
  {
    assert c.isDl(at);
    QCoversDownlink(c, at);
    hide Config.Valid, NextDl;
    j :| Q(c, j) == at;
  }

  lemma QIsDl(cell: Cell, c: Config, j: nat)
    requires cell.Valid() && c.Valid() && c == ConfigOf(cell, c.workers, c.ahead, c.time, c.blocks)
    ensures cell.Dl(Q(c, j)) && c.ahead <= Q(c, j) && Q(c, j + 1) == NextDl(cell, Q(c, j))
  {
    QIsDownlink(c, j);
  }

  // A slot as late as wanted at the same position of the table.
  lemma Later(cell: Cell, at: int, bound: nat) returns (m: nat)
    requires cell.Valid()
    ensures at + m * (2 * cell.slotsPerFrame) >= bound
  {
    m := bound + if at < 0 then -at else 0;
    LateEnough(m, 2 * cell.slotsPerFrame);
  }

  // Two slots of equal number follow each other among the downlink slots, with nothing to decode between
  // them.
  ghost predicate Unseparated(cell: Cell, ahead: nat, blocks: Traffic, at: int)
    requires cell.Valid()
  {
    && cell.Dl(at) && cell.Num(NextDl(cell, at)) == cell.Num(at)
    && forall n {:trigger blocks(n)} :: at - ahead < n <= NextDl(cell, at) - ahead ==> !HasBlocks(blocks(n))
  }

  // The slot that starts downlink slot `at` is the first one to be decoded behind the one that starts the
  // downlink slot before, and all its code blocks belong to one transport block, at index f.
  ghost predicate OneTransportBlock(cell: Cell, ahead: nat, blocks: Traffic, before: int, at: int, f: nat)
    requires cell.Valid()
  {
    && ahead <= before && cell.Dl(before) && NextDl(cell, before) == at
    && (forall n {:trigger blocks(n)} :: before - ahead < n < at - ahead ==> !HasBlocks(blocks(n)))
    && FirstOf(blocks(at - ahead), f) && LastOf(blocks(at - ahead), f) && blocks(at - ahead)[f] >= 2
  }

  // The TX job of downlink slot `at`, which is followed by one of equal number, can be lost.
  ghost predicate Losable(cell: Cell, ahead: nat, blocks: Traffic, at: int)
    requires cell.Valid()
  {
    && cell.Dl(at) && cell.Num(NextDl(cell, at)) == cell.Num(at)
    && exists before, f: nat :: OneTransportBlock(cell, ahead, blocks, before, at, f)
  }

  /** The ordering condition read off the table and the traffic. */
  ghost predicate KeepsOrder(cell: Cell, workers: nat, ahead: nat, blocks: Traffic)
    requires cell.Valid()
  {
    || workers == 1 || DistinctPattern(cell)
    || (workers == 2 && forall at :: ahead <= at ==> !Unseparated(cell, ahead, blocks, at) && !Losable(cell, ahead, blocks, at))
  }

  // A pair of equal slot numbers in the table, as late as wanted.
  lemma EqualPair(cell: Cell, bound: nat) returns (at: nat)
    requires cell.Valid() && !DistinctPattern(cell)
    ensures at >= bound && cell.Dl(at) && cell.Num(NextDl(cell, at)) == cell.Num(at)
  {
    hide NextDl, Cell.Dl, Cell.Num;
    var i :| 0 <= i < 2 * cell.slotsPerFrame && cell.Dl(i) && cell.Num(NextDl(cell, i)) == cell.Num(i);
    at := Shifted(cell, i, bound);
  }

  lemma SeparatedPair(cell: Cell, c: Config, j: nat)
    requires cell.Valid() && c.Valid() && c == ConfigOf(cell, c.workers, c.ahead, c.time, c.blocks)
    requires KeepsOrder(cell, c.workers, c.ahead, c.blocks)
    requires c.workers != 1 && c.num(c.nextDl(Q(c, j))) == c.num(Q(c, j))
    ensures c.workers == 2 && !NoneDecodes(c, Starter(c, j), Starter(c, j + 1)) && !TxLost(c, j)
  {
    hide Config.Valid, Q, NextDl, Cell.Dl, Cell.Num, DistinctPattern, HasBlocks, Unseparated, OneTransportBlock, TxLost;
    var at := Q(c, j);
    QIsDl(cell, c, j);
    EqualNums(cell, c, at);
    NotDistinctAt(cell, at);
    assert !Unseparated(cell, c.ahead, c.blocks, at) && !Losable(cell, c.ahead, c.blocks, at);
    if NoneDecodes(c, Starter(c, j), Starter(c, j + 1)) {
      QNext(c, j);
      NothingBetween(cell, c, at);
      assert false;
    }
    if TxLost(c, j) {
      var before, f := LostBehind(cell, c, j);
      assert false;
    }
  }

  // What the loss of a TX job means on the table, and the other way round.
  lemma LostBehind(cell: Cell, c: Config, j: nat) returns (before: int, f: nat)
    requires cell.Valid() && c.Valid() && c == ConfigOf(cell, c.workers, c.ahead, c.time, c.blocks)
    requires c.workers == 2 && TxLost(c, j)
    ensures OneTransportBlock(cell, c.ahead, c.blocks, before, Q(c, j), f)
  {
    hide Config.Valid, Q, NextDl, Cell.Dl, HasBlocks, FirstOf, LastOf, Cuttable;
    f :| Cuttable(c, Starter(c, j), f) && LastOf(c.blocks(Starter(c, j)), f);
    BesidePrevious(c, j, f);
    before := Q(c, j - 1);
    QIsDl(cell, c, j - 1);
    IsFirst(c, Starter(c, j), f);
    assert forall n {:trigger c.blocks(n)} :: c.Decodes(n) == HasBlocks(c.blocks(n));
  }

  lemma IsFirst(c: Config, n: int, f: nat)
    requires Cuttable(c, n, f) && c.workers == 2
    ensures FirstOf(c.blocks(n), f) && c.blocks(n)[f] >= 2
  {
  }

  lemma LostOfTable(cell: Cell, c: Config, before: int, j: nat, f: nat)
    requires cell.Valid() && c.Valid() && c == ConfigOf(cell, c.workers, c.ahead, c.time, c.blocks)
    requires c.workers == 2 && OneTransportBlock(cell, c.ahead, c.blocks, before, Q(c, j), f)
    ensures TxLost(c, j)
  {
    hide Config.Valid, Q, NextDl, Cell.Dl, HasBlocks, OneTransportBlock, TxLost, RightBehind, Cell.Valid;
    OneAfter(cell, c.ahead, c.blocks, before, Q(c, j), f);
    var i := DlIsQ(cell, c, before);
    SameQ(c, i + 1, j);
    RightBehindOfTable(cell, c, i, f);
    StarterOrder(c, 0, i);
    CutsBehind(c, i, j, f);
  }

  lemma OneAfter(cell: Cell, ahead: nat, blocks: Traffic, before: int, at: int, f: nat)
    requires cell.Valid() && OneTransportBlock(cell, ahead, blocks, before, at, f)
    ensures ahead <= before && cell.Dl(before) && NextDl(cell, before) == at
  {
  }

  lemma RightBehindOfTable(cell: Cell, c: Config, i: nat, f: nat)
    requires cell.Valid() && c.Valid() && c == ConfigOf(cell, c.workers, c.ahead, c.time, c.blocks)
    requires OneTransportBlock(cell, c.ahead, c.blocks, Q(c, i), Q(c, i + 1), f)
    ensures RightBehind(c, i, Starter(c, i + 1))
    ensures var blocks := c.blocks(Starter(c, i + 1));
            FirstOf(blocks, f) && LastOf(blocks, f) && blocks[f] >= 2
  {
    QIncreasing(c, i);
    hide Config.Valid, Q, NextDl, Cell.Dl, HasBlocks, FirstOf, LastOf;
    assert forall n {:trigger c.blocks(n)} :: c.Decodes(n) == HasBlocks(c.blocks(n));
  }

  lemma CutsBehind(c: Config, i: nat, j: nat, f: nat)
    requires c.workers == 2 && j == i + 1 && RightBehind(c, i, Starter(c, j)) && Starter(c, 0) <= Starter(c, i)
    requires FirstOf(c.blocks(Starter(c, j)), f) && LastOf(c.blocks(Starter(c, j)), f) && c.blocks(Starter(c, j))[f] >= 2
    ensures TxLost(c, j)
  {
    hide Q, NoneDecodes;
    assert Cuttable(c, Starter(c, j), f);
  }

  lemma SameQ(c: Config, i: nat, j: nat)
    requires c.Valid() && Q(c, i) == Q(c, j)
    ensures i == j
  {
    hide Config.Valid, Q;
    if i < j {
      QIncreases(c, i, j);
    } else if j < i {
      QIncreases(c, j, i);
    }
  }

  lemma NotDistinctAt(cell: Cell, at: int)
    requires cell.Valid() && cell.Dl(at) && cell.Num(NextDl(cell, at)) == cell.Num(at)
    ensures !DistinctPattern(cell)
  {
    hide NextDl, Cell.Dl, Cell.Num;
    var i := Residue(cell, at);
  }

  lemma EqualNums(cell: Cell, c: Config, at: int)
    requires cell.Valid() && c == ConfigOf(cell, c.workers, c.ahead, c.time, c.blocks)
    ensures (c.num(c.nextDl(at)) == c.num(at)) == (cell.Num(NextDl(cell, at)) == cell.Num(at))
  {
    hide NextDl, Cell.Num;
  }

  lemma NothingBetween(cell: Cell, c: Config, at: int)
    requires cell.Valid() && c == ConfigOf(cell, c.workers, c.ahead, c.time, c.blocks)
    requires cell.Dl(at) && cell.Num(NextDl(cell, at)) == cell.Num(at)
    requires NoneDecodes(c, at - c.ahead, NextDl(cell, at) - c.ahead)
    ensures Unseparated(cell, c.ahead, c.blocks, at)
  {
    hide NextDl, Cell.Num, Cell.Dl, HasBlocks;
    assert forall n {:trigger c.blocks(n)} :: c.Decodes(n) == HasBlocks(c.blocks(n));
  }

  lemma UnseparatedPair(cell: Cell, c: Config, at: int)
    requires cell.Valid() && c.Valid() && c == ConfigOf(cell, c.workers, c.ahead, c.time, c.blocks)
    requires c.workers != 1 && c.ahead <= at && cell.Dl(at) && cell.Num(NextDl(cell, at)) == cell.Num(at)
    requires c.workers == 2 ==> Unseparated(cell, c.ahead, c.blocks, at) || Losable(cell, c.ahead, c.blocks, at)
    ensures !OrderSafe(c)
  {
    var j := DlIsQ(cell, c, at);
    QNext(c, j);
    hide Config.Valid, Q, NextDl, Cell.Dl, Cell.Num, HasBlocks, OneTransportBlock, TxLost;
    assert c.num(c.nextDl(Q(c, j))) == c.num(Q(c, j));
    if c.workers == 2 {
      if Unseparated(cell, c.ahead, c.blocks, at) {
        assert NoneDecodes(c, Starter(c, j), Starter(c, j + 1));
      } else {
        var before, f: nat :| OneTransportBlock(cell, c.ahead, c.blocks, before, at, f);
        LostOfTable(cell, c, before, j, f);
      }
    }
  }

  lemma OrderSafeOfTable(cell: Cell, c: Config)
    requires cell.Valid() && c.Valid() && c == ConfigOf(cell, c.workers, c.ahead, c.time, c.blocks)
    ensures KeepsOrder(cell, c.workers, c.ahead, c.blocks) <==> OrderSafe(c)
  {
    hide Config.Valid, Q, NextDl, Cell.Dl, Cell.Num, DistinctPattern, NoneDecodes, TxLost, OneTransportBlock;
    if KeepsOrder(cell, c.workers, c.ahead, c.blocks) {
      forall j: nat | c.workers != 1 && c.num(c.nextDl(Q(c, j))) == c.num(Q(c, j))
        ensures c.workers == 2 && !NoneDecodes(c, Starter(c, j), Starter(c, j + 1)) && !TxLost(c, j)
      {
        SeparatedPair(cell, c, j);
      }
    } else if c.workers == 2 {
      var at :| c.ahead <= at && (Unseparated(cell, c.ahead, c.blocks, at) || Losable(cell, c.ahead, c.blocks, at));
      UnseparatedPair(cell, c, at);
    } else {
      var at := EqualPair(cell, c.ahead);
      UnseparatedPair(cell, c, at);
    }
  }

  /** The gNB transmits its downlink slots in order in every interleaving exactly when the pool has one
      worker, or the table satisfies `DistinctPattern`, or with two workers, for any two successive downlink
      slots of equal number, there is something to decode between them and the TX job of the first cannot be
      lost. */
  lemma GnbKeepsOrderExactly(cell: Cell, workers: nat, ahead: nat, time: int -> int, blocks: Traffic)
    requires cell.Valid() && workers >= 1 && ahead >= 1
    ensures var c := ConfigOf(cell, workers, ahead, time, blocks);
            KeepsOrder(cell, workers, ahead, blocks) <==> forall s :: Reachable(c, s) ==> InSlotOrder(c, s.sent)
  {
    hide Config.Valid, Reachable, InSlotOrder, KeepsOrder, OrderSafe;
    ConfigOfIsValid(cell, workers, ahead, time, blocks);
    var c := ConfigOf(cell, workers, ahead, time, blocks);
    OrderSafeOfTable(cell, c);
    OrderedExactlyWhenSafe(c);
  }

  /** The same for a table whatever the traffic. */
  lemma GnbKeepsOrderForAllTraffic(cell: Cell, workers: nat, ahead: nat, time: int -> int)
    requires cell.Valid() && workers >= 1 && ahead >= 1
    ensures (workers == 1 || DistinctPattern(cell)) <==>
              forall blocks: Traffic, s :: Reachable(ConfigOf(cell, workers, ahead, time, blocks), s) ==>
                InSlotOrder(ConfigOf(cell, workers, ahead, time, blocks), s.sent)
  {
    hide Config.Valid, Reachable, InSlotOrder, DistinctPattern, NextDl;
    if workers == 1 || DistinctPattern(cell) {
      forall blocks: Traffic, s | Reachable(ConfigOf(cell, workers, ahead, time, blocks), s)
        ensures InSlotOrder(ConfigOf(cell, workers, ahead, time, blocks), s.sent)
      {
        GnbKeepsOrderExactly(cell, workers, ahead, time, blocks);
      }
    } else {
      var none: Traffic := (n: int) => [];
      var at := EqualPair(cell, ahead);
      assert Unseparated(cell, ahead, none, at);
      GnbKeepsOrderExactly(cell, workers, ahead, time, none);
    }
  }

  // ---- deadlock freedom ----

  // Code blocks are received in uplink and mixed slots only.
  ghost predicate UplinkTraffic(cell: Cell, blocks: Traffic)
    requires cell.Valid()
  {
    forall n: nat :: HasBlocks(blocks(n)) ==> cell.Ul(n)
  }

  // The slot received behind the one that starts downlink slot `at` can have something to decode.
  predicate InFront(cell: Cell, ahead: nat, at: int)
    requires cell.Valid()
  {
    cell.Dl(at) && cell.Ul(at - ahead + 1)
  }

  // While downlink slot i, followed by one of equal number, stands before an RU token that shows another
  // number, slot n can have something to decode.
  ghost predicate Stranded(cell: Cell, ahead: nat, i: int, k: int, n: int)
    requires cell.Valid()
  {
    && cell.Dl(i) && cell.Num(NextDl(cell, i)) == cell.Num(i)
    && cell.Dl(k) && cell.Num(NextDl(cell, k)) != cell.Num(i)
    && k - ahead < n <= NextDl(cell, k) - ahead && cell.Ul(n)
  }

  /** The condition read off the table: three workers, or no uplink, or two workers and none of the two
      situations. */
  ghost predicate NeverStuck(cell: Cell, workers: nat, ahead: nat)
    requires cell.Valid()
  {
    || workers >= 3
    || (forall at: int :: !cell.Ul(at))
    || (workers == 2 && (forall at: int :: !InFront(cell, ahead, at))
        && forall i: int, k: int, n: int :: !Stranded(cell, ahead, i, k, n))
  }

  lemma DeadlockSafeOfTable(cell: Cell, c: Config)
    requires cell.Valid() && c.Valid() && c == ConfigOf(cell, c.workers, c.ahead, c.time, c.blocks)
    requires UplinkTraffic(cell, c.blocks) && NeverStuck(cell, c.workers, c.ahead)
    ensures DeadlockSafe(c)
  {
    hide Config.Valid, Q, NextDl, Cell.Dl, Cell.Ul;
    if c.workers == 2 && exists at: int :: cell.Ul(at) {
      forall j: nat
        ensures !HeldUp(c, j)
      {
        QIsDl(cell, c, j + 1);
        assert !InFront(cell, c.ahead, Q(c, j + 1));
      }
      forall p: nat, t: nat, m: nat
        ensures !LeftBehind(c, p, t, m)
      {
        QIsDl(cell, c, p);
        QIsDl(cell, c, t);
        assert !Stranded(cell, c.ahead, Q(c, p), Q(c, t), m);
      }
    }
  }

  // Traffic in a single received slot.
  function OneBlock(n: nat): Traffic {
    (k: int) => if k == n then [1] else []
  }

  lemma OneBlockOnly(n: nat, k: int)
    ensures HasBlocks(OneBlock(n)(k)) <==> k == n
  {
    assert OneBlock(n)(n)[0] > 0;
  }

  lemma OneBlockDecodes(c: Config, n: nat)
    requires c.blocks == OneBlock(n)
    ensures forall k :: c.Decodes(k) <==> k == n
  {
    forall k
      ensures c.Decodes(k) <==> k == n
    {
      OneBlockOnly(n, k);
    }
  }

  lemma OneBlockIsUplink(cell: Cell, n: nat)
    requires cell.Valid() && cell.Ul(n)
    ensures UplinkTraffic(cell, OneBlock(n))
  {
    forall k: nat | HasBlocks(OneBlock(n)(k))
      ensures cell.Ul(k)
    {
      OneBlockOnly(n, k);
    }
  }

  lemma InFrontCanDeadlock(cell: Cell, c0: Config, at0: int) returns (n: nat)
    requires cell.Valid() && c0.Valid() && c0 == ConfigOf(cell, c0.workers, c0.ahead, c0.time, c0.blocks)
    requires c0.workers == 2 && InFront(cell, c0.ahead, at0)
    ensures cell.Ul(n) && !DeadlockSafe(c0.(blocks := OneBlock(n)))
  {
    hide Config.Valid, Q, NextDl, Cell.Dl, Cell.Ul, Config.Decodes;
    QIsDl(cell, c0, 0);
    var m := Later(cell, at0, Q(c0, 0) + 1);
    var at := at0 + m * (2 * cell.slotsPerFrame);
    DlPeriodic(cell, at0, m);
    DlPeriodic(cell, at0 - c0.ahead + 1, m);
    n := at - c0.ahead + 1;
    var c := c0.(blocks := OneBlock(n));
    AheadIsPositive(c0);
    ConfigOfIsValid(cell, c.workers, c.ahead, c.time, c.blocks);
    var j := DlIsQ(cell, c, at);
    FirstQ(c, c0);
    OneBlockDecodes(c, n);
    assert HeldUp(c, j - 1);
  }

  lemma FirstQ(c: Config, c0: Config)
    requires c == c0.(blocks := c.blocks)
    ensures Q(c, 0) == Q(c0, 0)
  {
  }

  lemma StrandedCanDeadlock(cell: Cell, c0: Config, i0: int, k0: int, n0: int) returns (n: nat)
    requires cell.Valid() && c0.Valid() && c0 == ConfigOf(cell, c0.workers, c0.ahead, c0.time, c0.blocks)
    requires c0.workers == 2 && Stranded(cell, c0.ahead, i0, k0, n0)
    ensures cell.Ul(n) && !DeadlockSafe(c0.(blocks := OneBlock(n)))
  {
    hide Config.Valid, Q, NextDl, Cell.Dl, Cell.Ul, Cell.Num;
    var i := Shifted(cell, i0, c0.ahead);
    var m := Later(cell, k0, i + 1);
    DlPeriodic(cell, k0, m);
    DlPeriodic(cell, n0, m);
    NextDlPeriodic(cell, k0, m);
    n := n0 + m * (2 * cell.slotsPerFrame);
    StrandedLate(cell, c0, i, k0 + m * (2 * cell.slotsPerFrame), n);
  }

  lemma StrandedLate(cell: Cell, c0: Config, i: int, k: int, n: nat)
    requires cell.Valid() && c0.Valid() && c0 == ConfigOf(cell, c0.workers, c0.ahead, c0.time, c0.blocks)
    requires c0.workers == 2 && Stranded(cell, c0.ahead, i, k, n) && c0.ahead <= i < k
    ensures !DeadlockSafe(c0.(blocks := OneBlock(n)))
  {
    hide Q, NextDl, Cell.Dl, Cell.Ul, Cell.Num, Config.Valid;
    var c := c0.(blocks := OneBlock(n));
    AheadIsPositive(c0);
    ConfigOfIsValid(cell, c.workers, c.ahead, c.time, c.blocks);
    var p := DlIsQ(cell, c, i);
    var t := DlIsQ(cell, c, k);
    if t <= p {
      StarterOrder(c, t, p);
      assert false;
    }
    StarterOrder(c, p, t);
    OneBlockDecodes(c, n);
    hide Config.Decodes;
    assert LeftBehind(c, p, t, n);
    assert c.Decodes(n);
  }

  lemma Shifted(cell: Cell, i0: int, bound: nat) returns (i: nat)
    requires cell.Valid() && cell.Dl(i0)
    ensures i >= bound && cell.Dl(i) && cell.Num(i) == cell.Num(i0)
    ensures cell.Num(NextDl(cell, i)) == cell.Num(NextDl(cell, i0))
  {
    hide NextDl, Cell.Dl, Cell.Num;
    var m := Later(cell, i0, bound);
    i := i0 + m * (2 * cell.slotsPerFrame);
    DlPeriodic(cell, i0, m);
    NextDlPeriodic(cell, i0, m);
    NumPeriodic(cell, i0, m);
  }

  lemma SoleWorkerCanDeadlock(cell: Cell, c0: Config, at: int) returns (n: nat)
    requires cell.Valid() && c0.workers == 1 && cell.Ul(at)
    ensures cell.Ul(n) && !DeadlockSafe(c0.(blocks := OneBlock(n)))
  {
    hide Config.Decodes, Cell.Ul;
    var m := Later(cell, at, 0);
    DlPeriodic(cell, at, m);
    n := at + m * (2 * cell.slotsPerFrame);
    OneBlockDecodes(c0.(blocks := OneBlock(n)), n);
    assert c0.(blocks := OneBlock(n)).Decodes(n);
  }

  // Where the condition fails, one code block in the wrong slot is enough.
  lemma TableCanDeadlock(cell: Cell, c0: Config) returns (n: nat)
    requires cell.Valid() && c0.Valid() && c0 == ConfigOf(cell, c0.workers, c0.ahead, c0.time, c0.blocks)
    requires !NeverStuck(cell, c0.workers, c0.ahead)
    ensures cell.Ul(n) && !DeadlockSafe(c0.(blocks := OneBlock(n)))
  {
    hide DeadlockSafe, Cell.Ul, InFront, Stranded;
    if c0.workers == 1 {
      var at: int :| cell.Ul(at);
      n := SoleWorkerCanDeadlock(cell, c0, at);
    } else if at: int :| InFront(cell, c0.ahead, at) {
      n := InFrontCanDeadlock(cell, c0, at);
    } else {
      var i: int, k: int, m: int :| Stranded(cell, c0.ahead, i, k, m);
      n := StrandedCanDeadlock(cell, c0, i, k, m);
    }
  }

  // No transport block has more than one code block.
  ghost predicate SmallBlocks(blocks: Traffic) {
    forall n: nat, b :: 0 <= b < |blocks(n)| ==> blocks(n)[b] <= 1
  }

  lemma SmallIsSafe(c: Config)
    requires SmallBlocks(c.blocks)
    ensures JobsSafe(c)
  {
  }

  /** As long as no transport block has more than one code block, the gNB can never get stuck, whatever it
      receives in its uplink slots and whatever the interleaving, exactly when the table and the number of
      workers satisfy `NeverStuck`. */
  lemma GnbSmallBlocksExactly(cell: Cell, workers: nat, ahead: nat, time: int -> int)
    requires cell.Valid() && workers >= 1 && ahead >= 1
    ensures NeverStuck(cell, workers, ahead) <==>
              forall blocks: Traffic, s ::
                UplinkTraffic(cell, blocks) && SmallBlocks(blocks) && Reachable(ConfigOf(cell, workers, ahead, time, blocks), s) ==>
                  CanProgress(ConfigOf(cell, workers, ahead, time, blocks), s)
  {
    hide Config.Valid, Reachable, CanProgress, DeadlockSafe, NeverStuck, UplinkTraffic, Cell.Ul, SmallBlocks, JobsSafe;
    if NeverStuck(cell, workers, ahead) {
      forall blocks: Traffic, s |
        UplinkTraffic(cell, blocks) && SmallBlocks(blocks) && Reachable(ConfigOf(cell, workers, ahead, time, blocks), s)
        ensures CanProgress(ConfigOf(cell, workers, ahead, time, blocks), s)
      {
        ConfigOfIsValid(cell, workers, ahead, time, blocks);
        DeadlockSafeOfTable(cell, ConfigOf(cell, workers, ahead, time, blocks));
        SmallIsSafe(ConfigOf(cell, workers, ahead, time, blocks));
        DeadlockFreeExactly(ConfigOf(cell, workers, ahead, time, blocks));
      }
    } else {
      ConfigOfIsValid(cell, workers, ahead, time, OneBlock(0));
      var n := TableCanDeadlock(cell, ConfigOf(cell, workers, ahead, time, OneBlock(0)));
      ConfigOfIsValid(cell, workers, ahead, time, OneBlock(n));
      OneBlockIsUplink(cell, n);
      OneBlockIsSmall(n);
      DeadlockFreeExactly(ConfigOf(cell, workers, ahead, time, OneBlock(n)));
    }
  }

  lemma OneBlockIsSmall(n: nat)
    ensures SmallBlocks(OneBlock(n))
  {
  }

  // A transport block of two code blocks in a single received slot.
  function TwoBlocks(n: nat): Traffic {
    (k: int) => if k == n then [2] else []
  }

  lemma TwoBlocksOnly(n: nat)
    ensures forall k :: HasBlocks(TwoBlocks(n)(k)) <==> k == n
  {
    assert TwoBlocks(n)(n)[0] > 0;
  }

  // Wherever the table has uplink, two code blocks there can cut the queue.
  lemma TwoBlocksCut(cell: Cell, c0: Config, at: int) returns (n: nat)
    requires cell.Valid() && c0.Valid() && c0 == ConfigOf(cell, c0.workers, c0.ahead, c0.time, c0.blocks)
    requires c0.workers >= 2 && cell.Ul(at)
    ensures UplinkTraffic(cell, TwoBlocks(n)) && !JobsSafe(c0.(blocks := TwoBlocks(n)))
  {
    hide Config.Valid, Q, Cell.Ul;
    QIsDownlink(c0, 0);
    var m := Later(cell, at, Q(c0, 0) + 1);
    DlPeriodic(cell, at, m);
    n := at + m * (2 * cell.slotsPerFrame);
    var c := c0.(blocks := TwoBlocks(n));
    AheadIsPositive(c0);
    ConfigOfIsValid(cell, c.workers, c.ahead, c.time, c.blocks);
    FirstQ(c, c0);
    TwoBlocksOnly(n);
    var j := Surrounded(c, n);
    assert RightBehind(c, j, n);
    assert Cuttable(c, n, 0);
  }

  lemma UplinkCanFreeze(cell: Cell, workers: nat, ahead: nat, time: int -> int, at: int) returns (blocks: Traffic)
    requires cell.Valid() && workers >= 1 && ahead >= 1 && cell.Ul(at)
    ensures UplinkTraffic(cell, blocks) && ConfigOf(cell, workers, ahead, time, blocks).Valid()
    ensures var c := ConfigOf(cell, workers, ahead, time, blocks);
            !(DeadlockSafe(c) && JobsSafe(c))
  {
    hide Config.Valid, Cell.Ul, DeadlockSafe, JobsSafe;
    ConfigOfIsValid(cell, workers, ahead, time, OneBlock(0));
    var c0 := ConfigOf(cell, workers, ahead, time, OneBlock(0));
    if workers == 1 {
      var n := SoleWorkerCanDeadlock(cell, c0, at);
      blocks := OneBlock(n);
      OneBlockIsUplink(cell, n);
    } else {
      var n := TwoBlocksCut(cell, c0, at);
      blocks := TwoBlocks(n);
    }
    ConfigOfIsValid(cell, workers, ahead, time, blocks);
  }

  // Some uplink traffic lets the pipeline freeze.
  ghost predicate CanFreeze(cell: Cell, workers: nat, ahead: nat, time: int -> int)
    requires cell.Valid()
  {
    exists blocks: Traffic, s ::
      && UplinkTraffic(cell, blocks)
      && Reachable(ConfigOf(cell, workers, ahead, time, blocks), s) && Frozen(ConfigOf(cell, workers, ahead, time, blocks), s)
  }

  lemma UplinkFreezes(cell: Cell, workers: nat, ahead: nat, time: int -> int, at: int)
    requires cell.Valid() && workers >= 1 && ahead >= 1 && cell.Ul(at)
    ensures CanFreeze(cell, workers, ahead, time)
  {
    hide Config.Valid, Reachable, CanProgress, Frozen, DeadlockSafe, JobsSafe, Cell.Ul, UplinkTraffic;
    var blocks := UplinkCanFreeze(cell, workers, ahead, time, at);
    DeadlockFreeExactly(ConfigOf(cell, workers, ahead, time, blocks));
  }

  /** Whatever it receives, the gNB can never get stuck exactly when its table has no uplink: any number of
      workers, on any other table, can be stopped by one slot. */
  lemma GnbDeadlockFreeExactly(cell: Cell, workers: nat, ahead: nat, time: int -> int)
    requires cell.Valid() && workers >= 1 && ahead >= 1
    ensures (forall at: int :: !cell.Ul(at)) <==>
              forall blocks: Traffic, s :: UplinkTraffic(cell, blocks) && Reachable(ConfigOf(cell, workers, ahead, time, blocks), s) ==>
                CanProgress(ConfigOf(cell, workers, ahead, time, blocks), s)
  {
    hide Config.Valid, Reachable, CanProgress, Frozen, DeadlockSafe, JobsSafe, Cell.Ul;
    if at: int :| cell.Ul(at) {
      UplinkFreezes(cell, workers, ahead, time, at);
      var blocks: Traffic, s :|
        && UplinkTraffic(cell, blocks)
        && Reachable(ConfigOf(cell, workers, ahead, time, blocks), s) && Frozen(ConfigOf(cell, workers, ahead, time, blocks), s);
      FrozenIsStuck(ConfigOf(cell, workers, ahead, time, blocks), s);
    } else {
      forall blocks: Traffic, s | UplinkTraffic(cell, blocks) && Reachable(ConfigOf(cell, workers, ahead, time, blocks), s)
        ensures CanProgress(ConfigOf(cell, workers, ahead, time, blocks), s)
      {
        ConfigOfIsValid(cell, workers, ahead, time, blocks);
        var c := ConfigOf(cell, workers, ahead, time, blocks);
        NothingReceived(c);
        DeadlockFreeExactly(c);
      }
    }
  }

  lemma NothingReceived(c: Config)
    requires forall n: nat :: !HasBlocks(c.blocks(n))
    ensures DeadlockSafe(c) && JobsSafe(c)
  {
    forall n: nat, f: nat
      ensures !Cuttable(c, n, f)
    {
      assert !HasBlocks(c.blocks(n));
    }
  }

  /** All the searches of the pipeline for the next downlink slot, the one of init_gNB_Tpool included,
      stay within the bound of the assertion exactly on the tables that satisfy `SearchSafe`. */
  lemma GnbSearchesExactly(cell: Cell, workers: nat, ahead: nat, time: int -> int, blocks: Traffic)
    requires cell.Valid() && workers >= 1 && ahead >= 1
    ensures var c := ConfigOf(cell, workers, ahead, time, blocks);
            SearchSafe(cell) <==>
              && NextDl(cell, ahead - 1) <= SearchEnd(cell, ahead - 1)
              && forall j: nat :: NextDl(cell, Q(c, j)) <= SearchEnd(cell, Q(c, j))
  {
    hide Config.Valid, Q, NextDl, Cell.Dl, SearchSafe, SearchEnd;
    var c := ConfigOf(cell, workers, ahead, time, blocks);
    ConfigOfIsValid(cell, workers, ahead, time, blocks);
    SearchNeverFires(cell);
    forall j: nat
      ensures Q(c, j) >= 0
    {
      QIsDl(cell, c, j);
    }
    if !SearchSafe(cell) {
      var j := FailingSearch(cell, c);
    }
  }

  lemma FailingSearch(cell: Cell, c: Config) returns (j: nat)
    requires cell.Valid() && c.Valid() && c == ConfigOf(cell, c.workers, c.ahead, c.time, c.blocks)
    requires !SearchSafe(cell)
    ensures Q(c, j) >= 0 && NextDl(cell, Q(c, j)) > SearchEnd(cell, Q(c, j))
  {
    hide Config.Valid, Q, NextDl, Cell.Dl, SearchSafe, SearchEnd;
    var at0 := SearchFails(cell);
    var m := Later(cell, at0, c.ahead);
    SearchPeriodic(cell, at0, m);
    j := DlIsQ(cell, c, at0 + m * (2 * cell.slotsPerFrame));
  }

  lemma SearchPeriodic(cell: Cell, at: nat, m: nat)
    requires cell.Valid()
    ensures var at' := at + m * (2 * cell.slotsPerFrame);
            && cell.Dl(at') == cell.Dl(at)
            && (NextDl(cell, at') <= SearchEnd(cell, at') <==> NextDl(cell, at) <= SearchEnd(cell, at))
  {
    hide Cell.Dl, NextDl;
    var spf := cell.slotsPerFrame;
    DlPeriodic(cell, at, m);
    NextDlPeriodic(cell, at, m);
    assert m * (2 * spf) == (2 * m) * spf;
    DivModShift(at, 2 * m, spf);
    assert (at / spf + 2 * m + 2) * spf == (at / spf + 2) * spf + (2 * m) * spf;
  }

  // What ru_thread puts into the n-th RX token as transmit timestamp.
  ghost function RuTimes(fp: FrameParms): int -> int
    requires fp.Valid()
  {
    (n: int) => if fp.Valid() && n >= 0 then Start(fp, n + fp.SlotsAhead()) else 0
  }

  /** Clock and pipeline together: under the ordering condition, everything transmitted belongs to a
      downlink-capable slot and leaves with the sample time at which that very slot begins. */
  lemma TransmissionsLeaveOnTime(cell: Cell, fp: FrameParms, workers: nat, blocks: Traffic, s: State)
    requires cell.Valid() && fp.Valid() && cell.slotsPerFrame == fp.SlotsPerFrame()
    requires workers >= 1 && KeepsOrder(cell, workers, fp.SlotsAhead(), blocks)
    requires Reachable(ConfigOf(cell, workers, fp.SlotsAhead(), RuTimes(fp), blocks), s)
    ensures forall j :: 0 <= j < |s.sent| ==>
              s.sent[j].at >= 0 && cell.Dl(s.sent[j].at) && s.sent[j].ts == Start(fp, s.sent[j].at)
    ensures forall i, j :: 0 <= i < j < |s.sent| ==> s.sent[i].ts < s.sent[j].ts
  {
    hide Config.Valid, Reachable, KeepsOrder, OrderSafe, Start, FrameParms.SlotsAhead;
    var c := ConfigOf(cell, workers, fp.SlotsAhead(), RuTimes(fp), blocks);
    AheadOfNow(fp);
    ConfigOfIsValid(cell, workers, c.ahead, c.time, blocks);
    OrderSafeOfTable(cell, c);
    OrderedTransmission(c, s);
    forall i, j | 0 <= i < j < |s.sent|
      ensures s.sent[i].ts < s.sent[j].ts
    {
      StartIncreases(fp, s.sent[i].at, s.sent[j].at);
    }
  }

  lemma AheadOfNow(fp: FrameParms)
    requires fp.Valid()
    ensures fp.SlotsAhead() >= 1
  {
    assert fp.mu == 0 || fp.mu == 1 || fp.mu == 2 || fp.mu == 3 || fp.mu == 4;
  }

  // A pattern with downlink only in slot 0 of each of two ten-slot frames.
  function OneDownlinkSlot(): Cell {
    Cell(false, 10, seq(20, i => seq(SYMBOLS_PER_SLOT, _ => if i % 10 == 0 then 0 else 1)))
  }

  /** The conditions can fail: with one downlink slot per frame, no uplink received and two workers,
      transmissions can overtake each other. */
  lemma OneDownlinkSlotOvertakes(time: int -> int)
    ensures OneDownlinkSlot().Valid() && !DistinctPattern(OneDownlinkSlot())
    ensures exists blocks: Traffic, s :: Reachable(ConfigOf(OneDownlinkSlot(), 2, 6, time, blocks), s)
              && !InSlotOrder(ConfigOf(OneDownlinkSlot(), 2, 6, time, blocks), s.sent)
  {
    hide Config.Valid, Reachable, InSlotOrder;
    var cell := OneDownlinkSlot();
    assert forall i :: 0 <= i < 20 ==> |cell.table[i]| == SYMBOLS_PER_SLOT;
    assert cell.table[0][0] == 0 && TypeOf(cell.table[0]) != Uplink;
    assert cell.Dl(0) && cell.Dl(10);
    forall m | 0 < m < 10
      ensures !cell.Dl(m)
    {
      assert AllSymbols(cell.table[m], 1);
    }
    NextDlUnique(cell, 0, 10);
    GnbKeepsOrderForAllTraffic(cell, 2, 6, time);
  }

  // The pattern of the configuration files: in 5 ms at 30 kHz seven downlink slots, one with six downlink
  // and four uplink symbols, and two uplink slots.
  function UsualTable(): Cell {
    Cell(false, 20, seq(40, i => seq(SYMBOLS_PER_SLOT, k =>
      if i % 10 < 7 || (i % 10 == 7 && k < 6) then 0 else if i % 10 == 7 && k < 10 then 2 else 1)))
  }

  lemma UsualRow(i: int)
    requires 0 <= i < 40
    ensures var row := UsualTable().table[i];
            && |row| == SYMBOLS_PER_SLOT
            && TypeOf(row) == if i % 10 < 7 then Downlink else if i % 10 == 7 then Mixed else Uplink
  {
    var row := UsualTable().table[i];
    assert row[0] == (if i % 10 < 8 then 0 else 1) && row[13] == (if i % 10 < 7 then 0 else 1);
    assert i % 10 < 7 ==> AllSymbols(row, 0);
    assert i % 10 >= 8 ==> AllSymbols(row, 1);
  }

  lemma UsualIsValid()
    ensures UsualTable().Valid()
    ensures forall i :: 0 <= i < 40 ==> (UsualTable().Dl(i) <==> i % 10 < 8) && (UsualTable().Ul(i) <==> i % 10 >= 7)
  {
    hide TypeOf;
    var cell := UsualTable();
    forall i | 0 <= i < 40
      ensures |cell.table[i]| == SYMBOLS_PER_SLOT
      ensures TypeOf(cell.table[i]) == if i % 10 < 7 then Downlink else if i % 10 == 7 then Mixed else Uplink
    {
      UsualRow(i);
    }
    assert TypeOf(cell.table[0]) != Uplink;
  }

  lemma UsualNext(i: int)
    requires UsualTable().Valid() && 0 <= i < 40 && i % 10 < 8
    ensures UsualTable().Num(NextDl(UsualTable(), i)) != UsualTable().Num(i)
  {
    UsualIsValid();
    hide NextDl, Cell.Dl, Cell.Ul, UsualTable;
    var cell := UsualTable();
    UsualSize();
    var k := if i % 10 < 7 then i + 1 else i + 3;
    DlPeriodic(cell, 0, 1);
    NextDlUnique(cell, i, k);
  }

  lemma UsualSize()
    ensures UsualTable().slotsPerFrame == 20
  {
  }

  /** On the usual table, with its look-ahead of six slots, the order is kept and the search never misses a
      slot. Two workers can get stuck already on transport blocks of one code block, three cannot; but there
      is no number of workers that could not be stopped by larger ones. */
  lemma UsualTableCanFreeze(time: int -> int)
    ensures UsualTable().Valid() && SearchSafe(UsualTable()) && DistinctPattern(UsualTable())
    ensures !NeverStuck(UsualTable(), 2, 6) && NeverStuck(UsualTable(), 3, 6)
    ensures forall workers: nat :: workers >= 1 ==> CanFreeze(UsualTable(), workers, 6, time)
  {
    UsualIsValid();
    UsualSize();
    hide NextDl, Cell.Dl, Cell.Ul, UsualTable, Cell.Num;
    var cell := UsualTable();
    assert cell.Ul(9) && cell.Dl(14) && cell.Dl(0);
    assert InFront(cell, 6, 14);
    forall i | 0 <= i < 40 && cell.Dl(i)
      ensures cell.Num(NextDl(cell, i)) != cell.Num(i)
    {
      UsualNext(i);
    }
    hide Cell.Valid, SearchSafe, DistinctPattern, NeverStuck, CanFreeze;
    forall workers: nat | workers >= 1
      ensures CanFreeze(cell, workers, 6, time)
    {
      UplinkFreezes(cell, workers, 6, time, 9);
    }
  }

  // ---- the matching loop of rx_func ----

  // Position of the first occurrence, or |q|.
  function FirstIndex(q: seq<int>, x: int): (p: nat)
    ensures p <= |q| && (forall i :: 0 <= i < p ==> q[i] != x) && (p < |q| ==> q[p] == x)
  {
    if q == [] || q[0] == x then 0 else 1 + FirstIndex(q[1..], x)
  }

  function SlotFields(c: Config, l1: seq<int>): (r: seq<int>)
    ensures |r| == |l1| && forall i :: 0 <= i < |l1| ==> r[i] == SlotField(c, l1[i])
  {
    seq(|l1|, i requires 0 <= i < |l1| => SlotField(c, l1[i]))
  }

  // Putting the pulled token back and pulling again moves the rotation on by one.
  lemma TurnOnce(was: seq<int>, k: nat)
    requires k + 1 < |was|
    ensures var back := was[k + 1..] + was[..k] + [was[k]];
            back[0] == was[k + 1] && back[1..] == was[k + 2..] + was[..k + 1]
  {
  }

  /** A response FIFO, holding the slot fields of its tokens. */
  class NotifiedFifo {
    var tokens: seq<int>

    constructor ()
      ensures tokens == []
    {
      tokens := [];
    }

    method Push(token: int)
      modifies this
      ensures tokens == old(tokens) + [token]
    {
      tokens := tokens + [token];
    }

    // Blocks on an empty FIFO; callers are modelled when it is not.
    method Pull() returns (token: int)
      requires tokens != []
      modifies this
      ensures token == old(tokens)[0] && tokens == old(tokens)[1..]
    {
      token := tokens[0];
      tokens := tokens[1..];
    }

    /** rx_func pulls tokens and pushes them back until one shows its slot. The FIFO loses exactly the
        first such token, and those before it end up, in order, at the back. */
    method PullMatching(slot: int) returns (token: int)
      requires slot in tokens
      modifies this
      ensures token == slot
      ensures var p := FirstIndex(old(tokens), slot);
              p < |old(tokens)| && tokens == TakeAt(old(tokens), p)
    {
      hide FirstIndex;
      ghost var was := tokens;
      ghost var p := FirstIndex(was, slot);
      ghost var k := 0;
      token := Pull();
      while token != slot
        invariant 0 <= k <= p < |was| && token == was[k] && tokens == was[k + 1..] + was[..k]
        decreases p - k
      {
        TurnOnce(was, k);
        Push(token);
        token := Pull();
        k := k + 1;
      }
    }
  }

  /** The step relation's `FindStamp` is where that loop stops. */
  lemma MatchStepIsTheLoop(c: Config, l1: seq<int>, at: int)
    ensures FirstIndex(SlotFields(c, l1), c.num(at)) == FindStamp(c, l1, at)
    ensures forall p: nat :: p < |l1| ==> SlotFields(c, TakeAt(l1, p)) == TakeAt(SlotFields(c, l1), p)
  {
    var q := SlotFields(c, l1);
    var p, p' := FirstIndex(q, c.num(at)), FindStamp(c, l1, at);
    assert p < |l1| ==> q[p] == SlotField(c, l1[p]);
    assert p' < |l1| ==> q[p'] == SlotField(c, l1[p']);
  }
}
