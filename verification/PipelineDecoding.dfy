/**
 What the decoding of code blocks adds to the pipeline invariant. rx_func shares the pool with the
 blocks it waits for, so with two workers it stands still while a tx_func that has not handed over
 occupies the other one. That keeps slots in order which the slot numbers alone would not, and it is
 what the pipeline can get stuck on. Giving up on code blocks can cut the queue; what can be lost then,
 and after which traffic, is part of the invariant too.
 */
module PipelineDecoding {
  import opened SlotPipeline
  import opened PipelineInvariant
  import opened PipelineSafety

  // Nothing is to be decoded in the slots received after `from` up to `to`.
  ghost predicate NoneDecodes(c: Config, from: int, to: int) {
    forall k {:trigger c.Decodes(k)} :: from < k <= to ==> !c.Decodes(k)
  }

  // The received slot whose rx_func starts the TX job of the j-th downlink slot.
  ghost function Starter(c: Config, j: nat): int {
    Q(c, j) - c.ahead
  }

  // Slot m is the first one to be decoded behind the starter of downlink slot j, if anything is before
  // the next starter.
  ghost predicate RightBehind(c: Config, j: nat, m: int) {
    Starter(c, j) < m <= Starter(c, j + 1) && NoneDecodes(c, Starter(c, j), m - 1)
  }

  predicate FirstOf(blocks: seq<nat>, f: nat) {
    f < |blocks| && forall b :: 0 <= b < f ==> blocks[b] == 0
  }

  predicate LastOf(blocks: seq<nat>, f: nat) {
    f < |blocks| && forall b :: f < b < |blocks| ==> blocks[b] == 0
  }

  /** Giving up on the transport block at index f of the n-th received slot can cut the queue: it has two
      code blocks, and a tx_func of an earlier slot can hand over between them. With two workers that one
      must be standing before the RU token when rx_func starts, and only the first block waits for it. */
  ghost predicate Cuttable(c: Config, n: int, f: nat) {
    && f < |c.blocks(n)| && c.blocks(n)[f] >= 2 && c.workers >= 2 && Starter(c, 0) < n
    && (c.workers == 2 ==> FirstOf(c.blocks(n), f) && exists j: nat :: RightBehind(c, j, n))
  }

  /** The condition under which no job is ever lost. */
  ghost predicate JobsSafe(c: Config) {
    forall n: nat, f: nat :: !Cuttable(c, n, f)
  }

  // The TX job of downlink slot j can be lost: the last transport block with code blocks of the slot that
  // starts it is one that can be given up so that the queue is cut.
  ghost predicate TxLost(c: Config, j: nat) {
    exists f: nat :: Cuttable(c, Starter(c, j), f) && LastOf(c.blocks(Starter(c, j)), f)
  }

  /** The condition under which matching the RU token by slot number keeps the order: one worker, or
      consecutive downlink slots differ in their slot number, or there are two workers and, for any two
      that do not, something is decoded between them and the TX job of the first cannot be lost. */
  ghost predicate OrderSafe(c: Config) {
    c.workers == 1
    || forall j: nat :: c.num(c.nextDl(Q(c, j))) == c.num(Q(c, j)) ==>
         c.workers == 2 && !NoneDecodes(c, Starter(c, j), Starter(c, j + 1)) && !TxLost(c, j)
  }

  predicate ToDecode(phase: Phase) {
    phase.Decoding? && (phase.left > 0 || HasBlocks(phase.todo))
  }

  // What the job at log position i has still to collect.
  function LeftAt(s: State, i: nat): nat {
    if i in s.running && s.running[i].Decoding? then s.running[i].left else 0
  }

  function Left(s: State, rxAt: seq<nat>): nat {
    if |rxAt| > 0 then LeftAt(s, rxAt[|rxAt| - 1]) else 0
  }

  // The code blocks that have been lost.
  function LostBlocks(s: State): set<nat> {
    set i | i in s.lost && i < |s.log| && s.log[i].Dec?
  }

  // The transport block rx_func is at.
  function Current(blocks: seq<nat>, phase: Phase): int {
    if phase.Decoding? then |blocks| - |phase.todo| else |blocks|
  }

  // rx_func stands somewhere in its transport blocks, with code blocks handed out, and possibly some
  // collected, only of the current one.
  predicate Progressed(blocks: seq<nat>, phase: Phase) {
    phase.Decoding? ==>
      var todo, k := phase.todo, Current(blocks, phase);
      if todo == [] then phase.left == 0
      else k >= 0 && phase.left + todo[0] <= blocks[k] && todo[1..] == blocks[k + 1..]
  }

  // It is still at the first one that has code blocks.
  predicate InFirst(blocks: seq<nat>, phase: Phase) {
    && phase.Decoding? && phase.todo != [] && Progressed(blocks, phase) && FirstOf(blocks, Current(blocks, phase))
  }

  // And has collected none.
  predicate Fresh(blocks: seq<nat>, phase: Phase) {
    InFirst(blocks, phase) && phase.left + phase.todo[0] == blocks[Current(blocks, phase)]
  }

  /** Every code block handed out of which the result is wanted is in the pool, a result to collect, or
      lost; on a cut queue it is lost. */
  ghost predicate Segments(c: Config, s: State, rxAt: seq<nat>) {
    && s.resp + |DecJobs(s)| + |LostBlocks(s)| == Left(s, rxAt)
    && (|rxAt| > 0 && rxAt[|rxAt| - 1] in s.running ==> Progressed(c.blocks(|rxAt| - 1), s.running[rxAt[|rxAt| - 1]]))
    && (s.cut ==> s.resp == 0 && DecJobs(s) == {})
    && (c.workers == 1 ==> s.resp == 0)
  }

  // A TX job that has not handed over.
  predicate Open(h: Hist, u: nat) {
    u < |h.txAt| && u !in h.turn
  }

  // And still can.
  predicate Alive(s: State, h: Hist, u: nat) {
    Open(h, u) && h.txAt[u] !in s.lost
  }

  // None of the code blocks of the RX job at log position i has been looked at.
  predicate Undecoded(s: State, i: nat, blocks: seq<nat>) {
    || i >= s.head || i in s.lost
    || (i in s.running && Fresh(blocks, s.running[i]) && s.resp == 0 && forall k :: k in s.running ==> !s.running[k].Decoded?)
  }

  // While a TX job is open, no later received slot gets decoded.
  ghost predicate Gate(c: Config, s: State, h: Hist) {
    forall u: nat, m: nat :: Alive(s, h, u) && Starter(c, u) < m < |h.rxAt| && c.Decodes(m) ==>
                               m == |h.rxAt| - 1 && Undecoded(s, h.rxAt[m], c.blocks(m))
  }

  // While two TX jobs are open, the slot received after them is not looked at.
  ghost predicate PickGuard(c: Config, s: State, h: Hist) {
    var last := |h.rxAt| - 1;
    s.lost == {} && |h.txAt| == |h.turn| + 2 && last >= 0 && last > Starter(c, |h.txAt| - 1) ==>
      h.rxAt[last] >= s.head && last == Starter(c, |h.txAt| - 1) + 1
  }

  // When a queued RU job has a later RX job in front of it, that one is for the very next slot.
  ghost predicate RuBehind(c: Config, s: State, h: Hist) {
    var n, last := |h.ruAt|, |h.rxAt| - 1;
    s.lost == {} && n > 0 && last >= 0 && h.ruAt[n - 1] >= s.head && last > Starter(c, n) && h.rxAt[last] < h.ruAt[n - 1] ==>
      last == Starter(c, n) + 1 && NoneDecodes(c, Starter(c, n - 1), Starter(c, n))
  }

  // A code block has been decoded or will be before the queued RU job at position r is.
  ghost predicate Passes(s: State, r: nat) {
    s.resp > 0 || exists d :: d in DecJobs(s) && d < r
  }

  // The last received slot is behind the starters of all TX jobs, and with two workers it is the first
  // one to be decoded there.
  ghost predicate LastIsBehind(c: Config, h: Hist) {
    var last := |h.rxAt| - 1;
    && 0 < |h.txAt| && Starter(c, |h.txAt| - 1) < last
    && (c.workers == 2 ==> NoneDecodes(c, Starter(c, |h.txAt| - 1), last - 1))
  }

  // When an RU job is queued among code blocks, they are the first of their slot.
  ghost predicate RuAmong(c: Config, s: State, h: Hist) {
    var n, last := |h.ruAt|, |h.rxAt| - 1;
    n > 0 && last >= 0 && h.ruAt[n - 1] >= s.head && LeftAt(s, h.rxAt[last]) > 0 && Passes(s, h.ruAt[n - 1]) ==>
      InFirst(c.blocks(last), s.running[h.rxAt[last]]) && LastIsBehind(c, h)
  }

  // Only what the traffic allows to be lost is.
  ghost predicate LostTx(c: Config, s: State, h: Hist) {
    forall u: nat :: u < |h.txAt| && h.txAt[u] in s.lost ==> TxLost(c, u)
  }

  ghost predicate TwoWorkers(c: Config, s: State, h: Hist) {
    Gate(c, s, h) && PickGuard(c, s, h) && RuBehind(c, s, h) && RuAmong(c, s, h) && LostTx(c, s, h)
  }

  predicate BeforeMatch(phase: Phase) {
    phase.Decoding? || phase.Scheduling? || phase.Matching?
  }

  // The transport block at index f has been given up, and no other one with code blocks has been
  // completed since.
  predicate SinceGivenUp(c: Config, cut: bool, blocks: seq<nat>, phase: Phase, f: nat) {
    var k := Current(blocks, phase);
    && f <= k && f < |blocks| && blocks[f] >= 2 && (c.workers == 2 ==> FirstOf(blocks, f))
    && (forall b :: f < b < k ==> blocks[b] == 0)
    && (phase.Decoding? && f == k ==> phase.left == 0 && (phase.todo == [] || phase.todo[0] == 0))
    && (phase.Decoding? && f < k < |blocks| && cut ==> phase.todo != [] && phase.left + phase.todo[0] == blocks[k])
  }

  // What has been received when the queue has been cut.
  ghost predicate AfterCut(c: Config, s: State, h: Hist) {
    var last := |h.rxAt| - 1;
    (s.cut || LostBlocks(s) != {}) && last >= 0 && h.rxAt[last] in s.running && BeforeMatch(s.running[h.rxAt[last]]) ==>
      LastIsBehind(c, h) && exists f: nat :: SinceGivenUp(c, s.cut, c.blocks(last), s.running[h.rxAt[last]], f)
  }

  ghost predicate InTurn(c: Config, h: Hist) {
    OrderSafe(c) ==> h.parked < 0 && forall n :: 0 <= n < |h.turn| ==> h.turn[n] == n
  }

  ghost predicate NothingLost(c: Config, s: State) {
    JobsSafe(c) ==> !s.cut && s.lost == {}
  }

  ghost predicate FullInv(c: Config, s: State, h: Hist) {
    && InvWith(c, s, h)
    && Segments(c, s, h.rxAt)
    && (c.workers == 2 ==> TwoWorkers(c, s, h))
    && AfterCut(c, s, h)
    && InTurn(c, h)
    && NothingLost(c, s)
  }

  ghost predicate Inv(c: Config, s: State) {
    exists h :: FullInv(c, s, h)
  }

  lemma InitKeeps(c: Config)
    requires c.Valid()
    ensures FullInv(c, Init(c), NoHist())
  {
    TokensAtStart(c);
    assert DecJobs(Init(c)) == {} && LostBlocks(Init(c)) == {};
  }

  // ---- where the jobs are ----

  // The starters of downlink slots follow each other, none before slot 0.
  lemma StarterOrder(c: Config, i: nat, j: nat)
    requires c.Valid() && i <= j
    ensures 0 <= Starter(c, i) <= Starter(c, j)
  {
    hide Q, Config.Valid;
    QIsDownlink(c, i);
    if i < j {
      QIncreases(c, i, j);
    }
  }

  // The starter of a TX job is an RX job that has passed; that of the next TX job is not.
  lemma PushedUpTo(c: Config, s: State, h: Hist)
    requires InvWith(c, s, h)
    ensures forall j: nat :: j < |h.txAt| ==>
              Starter(c, j) < |h.rxAt| && (Starter(c, j) == |h.rxAt| - 1 ==> RxPassed(s, h.rxAt))
    ensures Starter(c, |h.txAt|) >= |h.rxAt| - 1
  {
    hide LogShape, Increasing, TxBetweenRx, RuBetweenTx, Workers, RxToken, TxTokens, Stamps, RuToken, SentInOrder, Turns, Q, RxPassed, CutQueue;
  }

  // A TX job that is open runs as soon as a later RX job has been picked.
  lemma OpenRuns(c: Config, s: State, h: Hist, u: nat, k: nat)
    requires InvWith(c, s, h) && Alive(s, h, u) && Starter(c, u) < k < |h.rxAt|
    ensures h.txAt[u] < h.rxAt[k] && (h.rxAt[k] <= s.head ==> InTx(s, h.txAt[u]))
  {
    hide LogShape, Increasing, RuBetweenTx, Workers, RxToken, TxUpTo, Stamps, RuToken, SentInOrder, Turns, Q, InTx, Exiting, CutQueue;
    assert k > Q(c, u) - c.ahead;
  }

  lemma TwoAreTwo(s: State, a: nat, b: nat)
    requires a in s.running && b in s.running && a != b
    ensures |s.running| >= 2
    ensures forall k :: k in s.running && k != a && k != b ==> |s.running| >= 3
  {
    assert |s.running.Keys| == |s.running|;
    var both := {a, b};
    assert |s.running.Keys - both| == |s.running.Keys| - |both|;
    if k :| k in s.running && k != a && k != b {
      var three := {a, b, k};
      assert |s.running.Keys - three| == |s.running.Keys| - |three|;
    }
  }

  // One of the first TX jobs that are open.
  function FirstOpen(h: Hist): nat {
    if h.parked < 0 then |h.turn| else h.parked
  }

  lemma FirstIsOpen(c: Config, h: Hist)
    requires Turns(c, h.turn, h.parked, |h.txAt|) && |h.turn| < |h.txAt|
    ensures Open(h, FirstOpen(h)) && FirstOpen(h) <= |h.turn|
  {
  }

  // A slot with code blocks not collected yet is one with something to decode.
  lemma ProgressedDecodes(blocks: seq<nat>, phase: Phase)
    requires Progressed(blocks, phase) && ToDecode(phase)
    ensures HasBlocks(blocks)
  {
    var todo, k := phase.todo, Current(blocks, phase);
    if phase.left > 0 || todo[0] > 0 {
      assert blocks[k] > 0;
    } else {
      var b :| 0 <= b < |todo| && todo[b] > 0;
      assert blocks[k + 1..][b - 1] == todo[1..][b - 1] == todo[b];
      assert blocks[k + b] > 0;
    }
  }

  // As long as none have been collected, there are code blocks left if there were any.
  lemma FreshDecodes(blocks: seq<nat>, phase: Phase)
    requires Fresh(blocks, phase) && HasBlocks(blocks)
    ensures ToDecode(phase)
  {
    var todo, k := phase.todo, Current(blocks, phase);
    var b :| 0 <= b < |blocks| && blocks[b] > 0;
    if b > k {
      assert todo[1..][b - k - 1] == blocks[k + 1..][b - k - 1] == blocks[b];
      assert todo[b - k] > 0;
    }
  }

  lemma LostBound(c: Config, s: State, h: Hist)
    requires InvWith(c, s, h)
    ensures forall k :: k in s.lost ==> k < |s.log| && !s.log[k].Ru? && k !in s.running
    ensures forall k :: k in s.dead ==> k < |s.log| && s.log[k].Dec?
    ensures c.workers == 1 ==> s.lost == {} && !s.cut
  {
    hide LogShape, Increasing, TxBetweenRx, RuBetweenTx, RxToken, TxUpTo, TxTokens, Stamps, RuToken, SentInOrder, Turns, CutQueue;
  }

  // ---- what moves on ----

  predicate SameStage(phase: Phase, phase': Phase) {
    phase' == phase || (phase.Scheduling? && phase'.Matching?)
  }

  lemma AfterCutFrame(c: Config, s: State, s': State, h: Hist, h': Hist)
    requires AfterCut(c, s, h) && h'.rxAt == h.rxAt && h'.txAt == h.txAt
    requires (s'.cut ==> s.cut) && LostBlocks(s') == LostBlocks(s)
    requires |h.rxAt| > 0 && h.rxAt[|h.rxAt| - 1] in s'.running && BeforeMatch(s'.running[h.rxAt[|h.rxAt| - 1]]) ==>
               h.rxAt[|h.rxAt| - 1] in s.running && SameStage(s.running[h.rxAt[|h.rxAt| - 1]], s'.running[h.rxAt[|h.rxAt| - 1]])
    ensures AfterCut(c, s', h')
  {
    hide LostBlocks, LastIsBehind;
    var last := |h.rxAt| - 1;
    if (s'.cut || LostBlocks(s') != {}) && last >= 0 && h.rxAt[last] in s'.running && BeforeMatch(s'.running[h.rxAt[last]]) {
      var f :| SinceGivenUp(c, s.cut, c.blocks(last), s.running[h.rxAt[last]], f);
      assert SinceGivenUp(c, s'.cut, c.blocks(last), s'.running[h.rxAt[last]], f);
      LastIsBehindFrame(c, h, h');
    }
  }

  lemma LastIsBehindFrame(c: Config, h: Hist, h': Hist)
    requires h'.rxAt == h.rxAt && h'.txAt == h.txAt
    ensures LastIsBehind(c, h') == LastIsBehind(c, h)
  {
  }

  // Nothing is lost by a push onto a whole queue.
  lemma NothingLostFrame(c: Config, s: State, s': State)
    requires NothingLost(c, s) && AtMostPushes(s, s') && (s'.cut ==> s.cut)
    ensures NothingLost(c, s')
  {
    hide JobsSafe;
  }

  lemma LostTxFrame(c: Config, s: State, s': State, h: Hist, h': Hist)
    requires LostTx(c, s, h) && AtMostPushes(s, s') && h'.txAt == h.txAt && Inside(s, h.txAt)
    ensures LostTx(c, s', h')
  {
    hide TxLost;
  }

  // ---- steps that decode nothing ----

  predicate NoDecoding(s: State, i: nat) {
    i in s.running ==> !s.running[i].Decoding? && !s.running[i].Decoded?
  }

  // A step of job i that leaves the pool's queue alone, or pushes one job that is no code block.
  ghost predicate Aside(s: State, s': State, i: nat) {
    && i in s.running && i < |s.log| && !s.log[i].Dec? && Touches(s, s', i)
    && NoDecoding(s, i) && NoDecoding(s', i) && s'.resp == s.resp && s'.dead == s.dead && s'.cut == s.cut
    && AtMostPushes(s, s') && (s'.log == s.log || !s'.log[|s.log|].Dec?)
    && (i in s'.running && BeforeMatch(s'.running[i]) ==> SameStage(s.running[i], s'.running[i]))
  }

  lemma AsideJobs(s: State, s': State, i: nat)
    requires Aside(s, s', i) && |s.log| !in s.running && s.head <= |s.log|
    ensures DecJobs(s') == DecJobs(s) && LostBlocks(s') == LostBlocks(s)
  {
  }

  lemma SegmentsAside(c: Config, s: State, s': State, rxAt: seq<nat>, i: nat)
    requires Segments(c, s, rxAt) && Aside(s, s', i)
    requires |s.log| !in s.running && s.head <= |s.log|
    ensures Segments(c, s', rxAt)
  {
    AsideJobs(s, s', i);
    hide DecJobs, LostBlocks;
  }

  lemma AfterCutAside(c: Config, s: State, s': State, h: Hist, h': Hist, i: nat)
    requires AfterCut(c, s, h) && Aside(s, s', i) && h'.rxAt == h.rxAt && h'.txAt == h.txAt
    requires |s.log| !in s.running && s.head <= |s.log|
    ensures AfterCut(c, s', h')
  {
    AsideJobs(s, s', i);
    hide DecJobs, LostBlocks, AfterCut;
    AfterCutFrame(c, s, s', h, h');
  }

  lemma UndecodedAside(s: State, s': State, i: nat, x: nat, blocks: seq<nat>)
    requires Aside(s, s', i) && Undecoded(s, x, blocks)
    ensures Undecoded(s', x, blocks)
  {
  }

  lemma GateAside(c: Config, s: State, s': State, h: Hist, h': Hist, i: nat)
    requires Gate(c, s, h) && Aside(s, s', i)
    requires h'.rxAt == h.rxAt && h'.txAt == h.txAt && h.turn <= h'.turn
    ensures Gate(c, s', h')
  {
    hide Undecoded;
    forall u: nat, m: nat | Alive(s', h', u) && Starter(c, u) < m < |h.rxAt| && c.Decodes(m)
      ensures m == |h.rxAt| - 1 && Undecoded(s', h.rxAt[m], c.blocks(m))
    {
      assert Alive(s, h, u);
      UndecodedAside(s, s', i, h.rxAt[m], c.blocks(m));
    }
  }

  lemma RuAmongAside(c: Config, s: State, s': State, h: Hist, h': Hist, i: nat)
    requires RuAmong(c, s, h) && Aside(s, s', i) && |s.log| !in s.running && s.head <= |s.log|
    requires h'.rxAt == h.rxAt && h'.txAt == h.txAt && h'.ruAt == h.ruAt
    ensures RuAmong(c, s', h')
  {
    AsideJobs(s, s', i);
    LastIsBehindFrame(c, h, h');
    hide DecJobs, LostBlocks, LastIsBehind, InFirst;
  }

  // Steps that change neither the order of jobs nor what is decoded.
  lemma AsideKeeps(c: Config, s: State, h: Hist, s': State, h': Hist, i: nat)
    requires Aside(s, s', i) && s'.log == s.log && h' == h.(place := h'.place)
    requires InvWith(c, s', h')
    requires FullInv(c, s, h)
    ensures FullInv(c, s', h')
  {
    hide InvWith, Segments, Gate, RuAmong, AfterCut, NothingLost, LostTx;
    HeadBound(c, s, h);
    LogPositions(c, s, h);
    SegmentsAside(c, s, s', h.rxAt, i);
    AfterCutAside(c, s, s', h, h', i);
    NothingLostFrame(c, s, s');
    if c.workers == 2 {
      GateAside(c, s, s', h, h', i);
      RuAmongAside(c, s, s', h, h', i);
      LostTxFrame(c, s, s', h, h');
    }
  }

  // ---- ru_thread and the pool ----

  lemma TickDecodes(c: Config, s: State, h: Hist)
    requires s.rxTokens > 0
    requires InvWith(c, DoTick(c, s), Record(c, s, h, Tick))
    requires c.Valid() && FullInv(c, s, h)
    ensures FullInv(c, DoTick(c, s), Record(c, s, h, Tick))
  {
    hide InvWith, Segments, Gate, PickGuard, RuBehind, RuAmong, AfterCut, NothingLost, LostTx, InTurn;
    HeadBound(c, s, h);
    LastRxFinished(c, s, h);
    LogPositions(c, s, h);
    TickSegments(c, s, h);
    TickAfterCut(c, s, h);
    NothingLostFrame(c, s, DoTick(c, s));
    TickInTurn(c, s, h);
    if c.workers == 2 {
      TickGate(c, s, h);
      TickGuard(c, s, h);
      TickRu(c, s, h);
      LostTxFrame(c, s, DoTick(c, s), h, Record(c, s, h, Tick));
    }
  }

  lemma TickInTurn(c: Config, s: State, h: Hist)
    requires InTurn(c, h) && s.rxTokens > 0
    ensures InTurn(c, Record(c, s, h, Tick))
  {
    hide OrderSafe;
  }

  lemma LastRxFinished(c: Config, s: State, h: Hist)
    requires InvWith(c, s, h) && s.rxTokens > 0
    ensures |h.rxAt| > 0 ==> Finished(s, h.rxAt[|h.rxAt| - 1])
  {
    hide LogShape, Increasing, TxBetweenRx, RuBetweenTx, Workers, TxUpTo, TxTokens, Stamps, RuToken, SentInOrder, Turns, CutQueue;
  }

  lemma TickSegments(c: Config, s: State, h: Hist)
    requires Segments(c, s, h.rxAt) && s.rxTokens > 0 && |s.log| !in s.running && s.head <= |s.log|
    requires |h.rxAt| > 0 ==> Finished(s, h.rxAt[|h.rxAt| - 1])
    ensures Segments(c, DoTick(c, s), h.rxAt + [|s.log|])
  {
    assert DecJobs(DoTick(c, s)) == DecJobs(s);
    assert LostBlocks(DoTick(c, s)) == LostBlocks(s);
  }

  lemma TickAfterCut(c: Config, s: State, h: Hist)
    requires s.rxTokens > 0 && |s.log| !in s.running
    ensures AfterCut(c, DoTick(c, s), Record(c, s, h, Tick))
  {
  }

  lemma TickRu(c: Config, s: State, h: Hist)
    requires s.rxTokens > 0 && |s.log| !in s.running
    ensures RuAmong(c, DoTick(c, s), Record(c, s, h, Tick))
  {
  }

  lemma TickGate(c: Config, s: State, h: Hist)
    requires Gate(c, s, h) && RuBehind(c, s, h) && s.rxTokens > 0 && s.head <= |s.log|
    requires |h.rxAt| > 0 ==> Finished(s, h.rxAt[|h.rxAt| - 1])
    requires forall n :: 0 <= n < |h.ruAt| ==> h.ruAt[n] < |s.log|
    ensures Gate(c, DoTick(c, s), Record(c, s, h, Tick))
    ensures RuBehind(c, DoTick(c, s), Record(c, s, h, Tick))
  {
    var s', h' := DoTick(c, s), Record(c, s, h, Tick);
    forall u: nat, m: nat | Alive(s', h', u) && Starter(c, u) < m < |h'.rxAt| && c.Decodes(m)
      ensures m == |h'.rxAt| - 1 && Undecoded(s', h'.rxAt[m], c.blocks(m))
    {
      assert Alive(s, h, u);
    }
  }

  lemma TickGuard(c: Config, s: State, h: Hist)
    requires c.Valid() && InvWith(c, s, h) && PickGuard(c, s, h) && s.rxTokens > 0 && s.head <= |s.log|
    requires |h.rxAt| > 0 ==> Finished(s, h.rxAt[|h.rxAt| - 1])
    ensures PickGuard(c, DoTick(c, s), Record(c, s, h, Tick))
  {
    hide InvWith, Q, Config.Valid;
    PushedUpTo(c, s, h);
    if |h.txAt| > 0 {
      StarterOrder(c, |h.txAt| - 1, |h.txAt| - 1);
    }
  }

  lemma PickDecodes(c: Config, s: State, h: Hist)
    requires Waits(s, s.head) && |s.running| < c.workers
    requires InvWith(c, DoPick(s), h)
    requires c.Valid() && FullInv(c, s, h)
    ensures FullInv(c, DoPick(s), h)
  {
    hide InvWith, Segments, Gate, PickGuard, RuBehind, RuAmong, AfterCut, NothingLost, LostTx, InTurn;
    HeadBound(c, s, h);
    LogPositions(c, s, h);
    PickMends(c, s, h);
    PickSegments(c, s, h);
    PickAfterCut(c, s, h);
    NothingLostFrame(c, s, DoPick(s));
    if c.workers == 2 {
      PickGate(c, s, h);
      PickGuards(c, s, h);
      PickRuAmong(c, s, h);
      LostTxFrame(c, s, DoPick(s), h, h);
    }
  }

  // Picking from a cut queue empties it.
  lemma PickMends(c: Config, s: State, h: Hist)
    requires InvWith(c, s, h) && Waits(s, s.head)
    ensures !DoPick(s).cut
  {
    hide LogShape, Increasing, TxBetweenRx, RuBetweenTx, RxToken, Workers, TxUpTo, TxTokens, Stamps, RuToken, SentInOrder, Turns;
    var s' := s.(running := s.running[s.head := StartPhase(s.log[s.head])], head := s.head + 1);
    forall k | s.cut
      ensures !Waits(s', k)
    {
      assert Waits(s', k) ==> Waits(s, k);
    }
  }

  // Picking the last RX job starts it on the code blocks of its slot.
  lemma PickedRx(c: Config, s: State, h: Hist)
    requires InvWith(c, s, h) && s.head < |s.log| && |h.rxAt| > 0 && s.head == h.rxAt[|h.rxAt| - 1]
    ensures StartPhase(s.log[s.head]) == Decoding(c.blocks(|h.rxAt| - 1), 0)
  {
    hide Increasing, TxBetweenRx, RuBetweenTx, Workers, RxToken, TxUpTo, TxTokens, Stamps, RuToken, SentInOrder, Turns, Ranked, TxPlaced, RuPlaced, CutQueue;
  }

  lemma PickJobs(s: State)
    requires s.head < |s.log|
    ensures DecJobs(DoPick(s)) == DecJobs(s) && LostBlocks(DoPick(s)) == LostBlocks(s)
  {
    hide SomeWaits;
  }

  lemma PickSegments(c: Config, s: State, h: Hist)
    requires InvWith(c, s, h) && Segments(c, s, h.rxAt) && Waits(s, s.head)
    ensures Segments(c, DoPick(s), h.rxAt)
  {
    hide InvWith, SomeWaits;
    HeadBound(c, s, h);
    if |h.rxAt| > 0 && s.head == h.rxAt[|h.rxAt| - 1] {
      PickedRx(c, s, h);
    }
    PickJobs(s);
    hide DecJobs, LostBlocks;
  }

  lemma PickAfterCut(c: Config, s: State, h: Hist)
    requires InvWith(c, s, h) && Segments(c, s, h.rxAt) && AfterCut(c, s, h) && Waits(s, s.head)
    ensures AfterCut(c, DoPick(s), h)
  {
    PickMends(c, s, h);
    PickJobs(s);
    HeadBound(c, s, h);
    hide InvWith, SomeWaits, DecJobs, LostBlocks, Progressed, AfterCut;
    if LostBlocks(s) == {} {
      SafeAfterCut(c, DoPick(s), h);
    } else {
      assert |LostBlocks(s)| > 0;
      AfterCutFrame(c, s, DoPick(s), h, h);
    }
  }

  lemma SafeAfterCut(c: Config, s: State, h: Hist)
    requires !s.cut && LostBlocks(s) == {}
    ensures AfterCut(c, s, h)
  {
  }

  lemma PickGate(c: Config, s: State, h: Hist)
    requires FullInv(c, s, h) && c.workers == 2 && Waits(s, s.head) && |s.running| < c.workers
    ensures Gate(c, DoPick(s), h)
  {
    hide InvWith, PickGuard, RuBehind, RuAmong, AfterCut, LostTx, Undecoded, Segments, InTurn, NothingLost;
    var s' := DoPick(s);
    assert TwoWorkers(c, s, h);
    forall u: nat, m: nat | Alive(s', h, u) && Starter(c, u) < m < |h.rxAt| && c.Decodes(m)
      ensures m == |h.rxAt| - 1 && Undecoded(s', h.rxAt[m], c.blocks(m))
    {
      assert Alive(s, h, u);
      PickUndecoded(c, s, h, u, m);
    }
  }

  lemma PickUndecoded(c: Config, s: State, h: Hist, u: nat, m: nat)
    requires InvWith(c, s, h) && Segments(c, s, h.rxAt)
    requires c.workers == 2 && Waits(s, s.head) && |s.running| < c.workers
    requires Alive(s, h, u) && Starter(c, u) < m == |h.rxAt| - 1 && c.Decodes(m) && Undecoded(s, h.rxAt[m], c.blocks(m))
    ensures Undecoded(DoPick(s), h.rxAt[m], c.blocks(m))
  {
    hide InvWith, Q, SomeWaits, DecJobs, LostBlocks, Fresh;
    HeadBound(c, s, h);
    OpenRuns(c, s, h, u, m);
    var x := h.rxAt[m];
    if x < s.head {
      if x in s.running {
        TwoAreTwo(s, h.txAt[u], x);
        assert false;
      }
    } else if x == s.head {
      PickedRx(c, s, h);
      StartIsFresh(c.blocks(m));
      forall k | k in s.running
        ensures !s.running[k].Decoded?
      {
        if k != h.txAt[u] {
          TwoAreTwo(s, h.txAt[u], k);
        }
      }
    }
  }

  lemma StartIsFresh(blocks: seq<nat>)
    requires HasBlocks(blocks)
    ensures Fresh(blocks, Decoding(blocks, 0))
  {
  }

  lemma PickGuards(c: Config, s: State, h: Hist)
    requires c.Valid() && FullInv(c, s, h) && c.workers == 2 && Waits(s, s.head) && |s.running| < c.workers
    ensures PickGuard(c, DoPick(s), h) && RuBehind(c, DoPick(s), h)
  {
    hide InvWith, Gate, RuAmong, AfterCut, LostTx, Segments, InTurn, NothingLost, Config.Valid, Q, SomeWaits;
    assert TwoWorkers(c, s, h);
    var last := |h.rxAt| - 1;
    if s.lost == {} && |h.txAt| == |h.turn| + 2 && last >= 0 && last > Starter(c, |h.txAt| - 1) && h.rxAt[last] == s.head {
      BothOpenRun(c, s, h, last);
      assert false;
    }
  }

  lemma PickRuAmong(c: Config, s: State, h: Hist)
    requires Segments(c, s, h.rxAt) && RuAmong(c, s, h) && Waits(s, s.head)
    ensures RuAmong(c, DoPick(s), h)
  {
    PickJobs(s);
    hide DecJobs, LostBlocks, LastIsBehind, InFirst, SomeWaits, Progressed;
  }

  // Two open TX jobs in front of the RX job to be picked occupy both workers.
  lemma BothOpenRun(c: Config, s: State, h: Hist, k: nat)
    requires c.Valid() && InvWith(c, s, h) && |h.txAt| == |h.turn| + 2 && s.lost == {}
    requires Starter(c, |h.txAt| - 1) < k < |h.rxAt| && h.rxAt[k] <= s.head
    ensures |s.running| >= 2
    ensures InTx(s, h.txAt[FirstOpen(h)]) && InTx(s, h.txAt[|h.txAt| - 1])
  {
    hide InvWith;
    OpenBefore(c, s, h, k);
    TwoAreTwo(s, h.txAt[FirstOpen(h)], h.txAt[|h.txAt| - 1]);
  }

  lemma OpenBefore(c: Config, s: State, h: Hist, k: nat)
    requires c.Valid() && InvWith(c, s, h) && |h.txAt| == |h.turn| + 2 && s.lost == {}
    requires Starter(c, |h.txAt| - 1) < k < |h.rxAt| && h.rxAt[k] <= s.head
    ensures var u, v := FirstOpen(h), |h.txAt| - 1;
            u < v && Open(h, u) && Open(h, v) && InTx(s, h.txAt[u]) && InTx(s, h.txAt[v]) && h.txAt[u] != h.txAt[v]
  {
    hide LogShape, RuBetweenTx, Workers, RxToken, TxUpTo, Stamps, RuToken, SentInOrder, Q, CutQueue;
    StarterOrder(c, FirstOpen(h), |h.txAt| - 1);
  }

  // ---- rx_func and the decoders ----

  lemma DecodeDecodes(c: Config, s: State, h: Hist, i: nat)
    requires CanWork(c, s, i) && s.running[i].Decoding?
    requires InvWith(c, DoDecode(s, i), Record(c, s, h, Work(i)))
    requires c.Valid() && FullInv(c, s, h)
    ensures FullInv(c, DoDecode(s, i), Record(c, s, h, Work(i)))
  {
    hide InvWith, Segments, Gate, PickGuard, RuBehind, RuAmong, AfterCut, NothingLost, LostTx, Config.Valid;
    HeadBound(c, s, h);
    LostBound(c, s, h);
    LogPositions(c, s, h);
    RunningRx(c, s, h, i);
    DecodeSegments(c, s, h.rxAt, i);
    DecodeAfterCut(c, s, h, i, Record(c, s, h, Work(i)));
    DecodePushes(s, i);
    NothingLostFrame(c, s, DoDecode(s, i));
    if c.workers == 2 {
      DecodeGate(c, s, h, i);
      DecodeGuards(c, s, h, i);
      DecodeRuAmong(c, s, h, i, Record(c, s, h, Work(i)));
      LostTxFrame(c, s, DoDecode(s, i), h, Record(c, s, h, Work(i)));
    }
  }

  lemma DecodePushes(s: State, i: nat)
    requires i in s.running && i < |s.log| && s.log[i].Rx? && s.running[i].Decoding?
    requires Collects(s.running[i]) ==> s.resp > 0
    ensures var s' := DoDecode(s, i);
            AtMostPushes(s, s') && s'.cut == s.cut && s'.head == s.head
  {
  }

  lemma DecodeJobs(c: Config, s: State, i: nat)
    requires CanWork(c, s, i) && s.running[i].Decoding? && |s.log| !in s.running && s.head <= |s.log|
    requires |s.log| !in s.dead && |s.log| !in s.lost
    ensures var s', d := DoDecode(s, i), HandsOut(s.running[i]);
            && DecJobs(s') == DecJobs(s) + (if d && !s.cut then {|s.log|} else {})
            && LostBlocks(s') == LostBlocks(s) + (if d && s.cut then {|s.log|} else {})
            && |s.log| !in DecJobs(s) && |s.log| !in LostBlocks(s)
  {
  }

  lemma DecodeSegments(c: Config, s: State, rxAt: seq<nat>, i: nat)
    requires Segments(c, s, rxAt) && CanWork(c, s, i) && s.running[i].Decoding?
    requires |rxAt| > 0 && i == rxAt[|rxAt| - 1] && |s.log| !in s.running && s.head <= |s.log|
    requires |s.log| !in s.dead && |s.log| !in s.lost
    ensures Segments(c, DoDecode(s, i), rxAt)
  {
    DecodeSizes(c, s, i);
    DecodeCounts(c, s, i);
    ProgressMoves(c, s, i, c.blocks(|rxAt| - 1));
    hide DecJobs, LostBlocks, Progressed, DoDecode, HandsOut, CanWork;
  }

  // A code block handed out is one more in the pool or among the lost.
  lemma DecodeSizes(c: Config, s: State, i: nat)
    requires CanWork(c, s, i) && s.running[i].Decoding? && |s.log| !in s.running && s.head <= |s.log|
    requires |s.log| !in s.dead && |s.log| !in s.lost
    ensures var s', d := DoDecode(s, i), HandsOut(s.running[i]);
            && |DecJobs(s')| + |LostBlocks(s')| == |DecJobs(s)| + |LostBlocks(s)| + (if d then 1 else 0)
            && (s.cut ==> DecJobs(s') == DecJobs(s))
  {
    DecodeJobs(c, s, i);
    hide DecJobs, LostBlocks, DoDecode, HandsOut;
  }

  lemma DecodeCounts(c: Config, s: State, i: nat)
    requires CanWork(c, s, i) && s.running[i].Decoding?
    ensures var s', d := DoDecode(s, i), HandsOut(s.running[i]);
            && i in s'.running && s'.cut == s.cut
            && LeftAt(s', i) - s'.resp == LeftAt(s, i) - s.resp + (if d then 1 else 0)
            && s'.resp == if !d && s.running[i].left > 0 then s.resp - 1 else s.resp
  {
  }

  lemma ProgressMoves(c: Config, s: State, i: nat, blocks: seq<nat>)
    requires CanWork(c, s, i) && s.running[i].Decoding? && Progressed(blocks, s.running[i])
    ensures Progressed(blocks, DoDecode(s, i).running[i])
  {
    var todo, k := s.running[i].todo, Current(blocks, s.running[i]);
    if !HandsOut(s.running[i]) && s.running[i].left == 0 && todo != [] {
      assert todo[1..] == blocks[k + 1..];
      assert |todo| > 1 ==> todo[1..][0] == blocks[k + 1] && todo[1..][1..] == blocks[k + 2..];
    }
  }

  lemma FreshMoves(c: Config, s: State, i: nat, blocks: seq<nat>)
    requires CanWork(c, s, i) && Fresh(blocks, s.running[i]) && HasBlocks(blocks) && s.resp == 0
    ensures Fresh(blocks, DoDecode(s, i).running[i])
  {
    ProgressMoves(c, s, i, blocks);
    FreshDecodes(blocks, s.running[i]);
    var todo := s.running[i].todo;
    if !HandsOut(s.running[i]) {
      var b :| 0 <= b < |todo| && todo[b] > 0;
      assert |todo[1..]| > 0;
    }
  }

  lemma InFirstMoves(c: Config, s: State, i: nat, blocks: seq<nat>)
    requires CanWork(c, s, i) && InFirst(blocks, s.running[i])
    ensures var phase := DoDecode(s, i).running[i];
            phase.Decoding? && phase.left > 0 ==> InFirst(blocks, phase)
  {
    ProgressMoves(c, s, i, blocks);
  }

  lemma DecodeGate(c: Config, s: State, h: Hist, i: nat)
    requires Gate(c, s, h) && CanWork(c, s, i) && s.running[i].Decoding? && i < s.head && i !in s.lost
    requires |h.rxAt| > 0 && i == h.rxAt[|h.rxAt| - 1] && |s.log| !in s.running
    ensures Gate(c, DoDecode(s, i), Record(c, s, h, Work(i)))
  {
    hide Fresh;
    var s', h' := DoDecode(s, i), Record(c, s, h, Work(i));
    DecodePushes(s, i);
    forall u: nat, m: nat | Alive(s', h', u) && Starter(c, u) < m < |h'.rxAt| && c.Decodes(m)
      ensures m == |h'.rxAt| - 1 && Undecoded(s', h'.rxAt[m], c.blocks(m))
    {
      assert Alive(s, h, u);
      assert Undecoded(s, i, c.blocks(m));
      FreshMoves(c, s, i, c.blocks(m));
    }
  }

  lemma DecodeGuards(c: Config, s: State, h: Hist, i: nat)
    requires PickGuard(c, s, h) && RuBehind(c, s, h) && CanWork(c, s, i) && s.running[i].Decoding?
    ensures PickGuard(c, DoDecode(s, i), Record(c, s, h, Work(i)))
    ensures RuBehind(c, DoDecode(s, i), Record(c, s, h, Work(i)))
  {
  }

  lemma DecodeRuAmong(c: Config, s: State, h: Hist, i: nat, h': Hist)
    requires h' == h.(rank := h'.rank)
    requires RuAmong(c, s, h) && Segments(c, s, h.rxAt) && CanWork(c, s, i) && s.running[i].Decoding?
    requires |h.rxAt| > 0 && i == h.rxAt[|h.rxAt| - 1] && |s.log| !in s.running && s.head <= |s.log|
    requires |s.log| !in s.dead && |s.log| !in s.lost && forall n :: 0 <= n < |h.ruAt| ==> h.ruAt[n] < |s.log|
    ensures RuAmong(c, DoDecode(s, i), h')
  {
    DecodeJobs(c, s, i);
    LastIsBehindFrame(c, h, h');
    if InFirst(c.blocks(|h.rxAt| - 1), s.running[i]) {
      InFirstMoves(c, s, i, c.blocks(|h.rxAt| - 1));
    }
    hide DecJobs, LostBlocks, LastIsBehind, InFirst, Progressed;
  }

  lemma DecodeAfterCut(c: Config, s: State, h: Hist, i: nat, h': Hist)
    requires h' == h.(rank := h'.rank)
    requires AfterCut(c, s, h) && Segments(c, s, h.rxAt) && CanWork(c, s, i) && s.running[i].Decoding?
    requires |h.rxAt| > 0 && i == h.rxAt[|h.rxAt| - 1] && |s.log| !in s.running && s.head <= |s.log|
    requires |s.log| !in s.dead && |s.log| !in s.lost
    ensures AfterCut(c, DoDecode(s, i), h')
  {
    hide DecJobs, LostBlocks, LastIsBehind, SinceGivenUp;
    DecodeJobs(c, s, i);
    var blocks := c.blocks(|h.rxAt| - 1);
    LastIsBehindFrame(c, h, h');
    if s.cut || LostBlocks(s) != {} {
      var f :| SinceGivenUp(c, s.cut, blocks, s.running[i], f);
      SinceMoves(c, s, i, blocks, f);
      assert SinceGivenUp(c, DoDecode(s, i).cut, blocks, DoDecode(s, i).running[i], f);
    }
  }

  lemma SinceMoves(c: Config, s: State, i: nat, blocks: seq<nat>, f: nat)
    requires CanWork(c, s, i) && s.running[i].Decoding? && SinceGivenUp(c, s.cut, blocks, s.running[i], f)
    requires Progressed(blocks, s.running[i])
    requires s.cut ==> s.resp == 0
    requires s.running[i].left == 0 ==> s.cut
    ensures SinceGivenUp(c, s.cut, blocks, DoDecode(s, i).running[i], f)
  {
    ProgressMoves(c, s, i, blocks);
  }

  lemma ResultDecodes(c: Config, s: State, h: Hist, i: nat)
    requires CanWork(c, s, i) && s.running[i].Decoded?
    requires InvWith(c, DoReturn(s, i), h)
    requires c.Valid() && FullInv(c, s, h)
    ensures FullInv(c, DoReturn(s, i), h)
  {
    hide InvWith, Segments, Gate, RuAmong, AfterCut, NothingLost, LostTx, Config.Valid;
    KindOfRunning(c, s, h, i);
    WithinWorkers(c, s, h);
    ResultSegments(c, s, h.rxAt, i);
    ResultAfterCut(c, s, h, i);
    ResultOnly(s, i);
    NothingLostFrame(c, s, DoReturn(s, i));
    if c.workers == 2 {
      ResultGate(c, s, h, i);
      ResultRuAmong(c, s, h, i);
      LogPositions(c, s, h);
      LostTxFrame(c, s, DoReturn(s, i), h, h);
    }
  }

  lemma WithinWorkers(c: Config, s: State, h: Hist)
    requires InvWith(c, s, h)
    ensures |s.running| <= c.workers
  {
    hide LogShape, Increasing, TxBetweenRx, RuBetweenTx, RxToken, TxUpTo, TxTokens, Stamps, RuToken, SentInOrder, Turns, CutQueue;
  }

  lemma KindOfRunning(c: Config, s: State, h: Hist, i: nat)
    requires InvWith(c, s, h) && i in s.running && s.running[i].Decoded?
    ensures i < s.head <= |s.log| && s.log[i].Dec? && i !in h.rxAt && i !in s.lost
  {
    hide LogShape, Increasing, TxBetweenRx, RuBetweenTx, Workers, RxToken, TxUpTo, TxTokens, Stamps, RuToken, SentInOrder, Turns, CutQueue;
    FitsRunning(c, s, h, i);
    KindOf(c, s.log, h, i);
  }

  lemma ResultJobs(s: State, i: nat)
    requires i in s.running && i < s.head <= |s.log| && s.log[i].Dec? && i !in s.lost
    ensures DecJobs(DoReturn(s, i)) == DecJobs(s) - {i} && LostBlocks(DoReturn(s, i)) == LostBlocks(s)
    ensures i in DecJobs(s) <==> i !in s.dead
  {
  }

  lemma ResultSegments(c: Config, s: State, rxAt: seq<nat>, i: nat)
    requires Segments(c, s, rxAt) && i in s.running && i < s.head <= |s.log| && s.log[i].Dec? && i !in rxAt && i !in s.lost
    requires |s.running| <= c.workers
    ensures Segments(c, DoReturn(s, i), rxAt)
  {
    ResultJobs(s, i);
    ResultLeft(s, rxAt, i);
    hide DecJobs, LostBlocks, Progressed, Left;
    if i !in s.dead {
      assert |DecJobs(s)| > 0;
      LeftRuns(s, rxAt);
      TwoAreTwo(s, i, rxAt[|rxAt| - 1]);
    }
  }

  lemma ResultLeft(s: State, rxAt: seq<nat>, i: nat)
    requires i in s.running && i < |s.log| && s.log[i].Dec? && i !in rxAt
    ensures Left(DoReturn(s, i), rxAt) == Left(s, rxAt)
  {
  }

  lemma LeftRuns(s: State, rxAt: seq<nat>)
    requires Left(s, rxAt) > 0
    ensures |rxAt| > 0 && rxAt[|rxAt| - 1] in s.running
  {
  }

  lemma ResultGate(c: Config, s: State, h: Hist, i: nat)
    requires Gate(c, s, h) && i in s.running && s.running[i].Decoded? && i < |s.log| && s.log[i].Dec?
    ensures Gate(c, DoReturn(s, i), h)
  {
    hide Fresh;
    var s' := DoReturn(s, i);
    forall u: nat, m: nat | Alive(s', h, u) && Starter(c, u) < m < |h.rxAt| && c.Decodes(m)
      ensures m == |h.rxAt| - 1 && Undecoded(s', h.rxAt[m], c.blocks(m))
    {
      assert Alive(s, h, u);
      assert Undecoded(s, h.rxAt[m], c.blocks(m));
    }
  }

  lemma ResultRuAmong(c: Config, s: State, h: Hist, i: nat)
    requires RuAmong(c, s, h) && i in s.running && i < s.head <= |s.log| && s.log[i].Dec? && i !in h.rxAt && i !in s.lost
    ensures RuAmong(c, DoReturn(s, i), h)
  {
    ResultJobs(s, i);
    hide DecJobs, LostBlocks, LastIsBehind, InFirst;
  }

  lemma ResultAfterCut(c: Config, s: State, h: Hist, i: nat)
    requires AfterCut(c, s, h) && i in s.running && i < s.head <= |s.log| && s.log[i].Dec? && i !in s.lost
    ensures AfterCut(c, DoReturn(s, i), h)
  {
    ResultJobs(s, i);
    hide DecJobs, LostBlocks, AfterCut;
    AfterCutFrame(c, s, DoReturn(s, i), h, h);
  }

  // ---- giving up on a transport block ----

  lemma FailDecodes(c: Config, s: State, h: Hist, i: nat)
    requires Enabled(c, s, Fail(i))
    requires InvWith(c, DoFail(s, i), h)
    requires c.Valid() && FullInv(c, s, h)
    ensures FullInv(c, DoFail(s, i), h)
  {
    hide InvWith, Segments, Gate, PickGuard, RuBehind, RuAmong, InTurn, AfterCut, NothingLost, LostTx, Config.Valid;
    FitsRunning(c, s, h, i);
    RunningRx(c, s, h, i);
    FailSegments(c, s, h.rxAt, i);
    FailAfterCut(c, s, h, i);
    FailLosesNothing(c, s, h, i);
    if c.workers == 2 {
      FailGate(c, s, h, i);
    }
  }

  lemma FailJobs(c: Config, s: State, i: nat)
    requires CanFail(c, s, i)
    ensures var s' := DoFail(s, i);
            && DecJobs(s') == {} && LostBlocks(s') == LostBlocks(s) && s'.resp == 0 && s'.lost == s.lost && s'.head == s.head
            && s'.running == s.running[i := Decoding(s.running[i].todo, 0)]
  {
    hide SomeWaits, LastIsWanted;
  }

  lemma FailSegments(c: Config, s: State, rxAt: seq<nat>, i: nat)
    requires Segments(c, s, rxAt) && Enabled(c, s, Fail(i)) && |rxAt| > 0 && i == rxAt[|rxAt| - 1]
    ensures Segments(c, DoFail(s, i), rxAt)
  {
    hide LostBlocks, DoFail;
    FailJobs(c, s, i);
    hide DecJobs;
  }

  // Where the queue is cut, an RU job has been queued among the code blocks.
  lemma FailAfterCut(c: Config, s: State, h: Hist, i: nat)
    requires Enabled(c, s, Fail(i)) && |h.rxAt| > 0 && i == h.rxAt[|h.rxAt| - 1] < s.head
    requires Segments(c, s, h.rxAt) && (c.workers == 2 ==> RuAmong(c, s, h))
    requires InvWith(c, DoFail(s, i), h)
    requires c.Valid() && InvWith(c, s, h)
    ensures AfterCut(c, DoFail(s, i), h)
  {
    hide InvWith, DecJobs, LostBlocks, DoFail, Config.Valid, RuAmong, InFirst, LastIsBehind, Progressed, SinceGivenUp;
    var s', blocks := DoFail(s, i), c.blocks(|h.rxAt| - 1);
    FailJobs(c, s, i);
    assert LostBlocks(s) == {};
    if s'.cut {
      FailIsBehind(c, s, h, i);
      GivenUp(c, blocks, s.running[i]);
      var f := Current(blocks, s.running[i]);
      assert SinceGivenUp(c, s'.cut, blocks, s'.running[i], f);
    }
  }

  lemma GivenUp(c: Config, blocks: seq<nat>, phase: Phase)
    requires Progressed(blocks, phase) && Collects(phase) && phase.left > 1
    requires c.workers == 2 ==> InFirst(blocks, phase)
    ensures 0 <= Current(blocks, phase)
    ensures SinceGivenUp(c, true, blocks, Decoding(phase.todo, 0), Current(blocks, phase))
  {
  }

  lemma FailIsBehind(c: Config, s: State, h: Hist, i: nat)
    requires Enabled(c, s, Fail(i)) && |h.rxAt| > 0 && i == h.rxAt[|h.rxAt| - 1] < s.head
    requires (c.workers == 2 ==> RuAmong(c, s, h)) && DoFail(s, i).cut
    requires InvWith(c, DoFail(s, i), h)
    requires c.Valid() && InvWith(c, s, h)
    ensures LastIsBehind(c, h) && (c.workers == 2 ==> InFirst(c.blocks(|h.rxAt| - 1), s.running[i]))
  {
    hide InvWith, DecJobs, LostBlocks, DoFail, Config.Valid, InFirst, AddsUp, Q;
    FailJobs(c, s, i);
    CutHolds(c, DoFail(s, i), h);
    assert |h.ruAt| > 0 && h.ruAt[|h.ruAt| - 1] >= s.head;
    if c.workers == 2 {
      assert Passes(s, h.ruAt[|h.ruAt| - 1]);
    } else {
      hide RuAmong;
      LagHolds(c, s, h);
      PushedUpTo(c, s, h);
    }
  }

  // A queue cut, or a code block lost, while the last slot is in rx_func shows what has been received.
  lemma CutMeansCuttable(c: Config, s: State, h: Hist) returns (f: nat)
    requires c.Valid() && InvWith(c, s, h) && AfterCut(c, s, h) && (s.cut || LostBlocks(s) != {})
    requires |h.rxAt| > 0 && h.rxAt[|h.rxAt| - 1] in s.running && BeforeMatch(s.running[h.rxAt[|h.rxAt| - 1]])
    ensures LastIsBehind(c, h)
    ensures SinceGivenUp(c, s.cut, c.blocks(|h.rxAt| - 1), s.running[h.rxAt[|h.rxAt| - 1]], f)
    ensures Cuttable(c, |h.rxAt| - 1, f)
  {
    hide InvWith, SinceGivenUp, LastIsBehind, Cuttable, LostBlocks, Config.Valid;
    var last := |h.rxAt| - 1;
    f :| SinceGivenUp(c, s.cut, c.blocks(last), s.running[h.rxAt[last]], f);
    AtLeastTwo(c, s, h);
    LastIsUpTo(c, s, h);
    BehindIsCuttable(c, s.cut, h, s.running[h.rxAt[last]], f);
  }

  lemma AtLeastTwo(c: Config, s: State, h: Hist)
    requires c.Valid() && InvWith(c, s, h) && (s.cut || LostBlocks(s) != {})
    ensures c.workers >= 2
  {
    LostBound(c, s, h);
    hide InvWith;
  }

  lemma LastIsUpTo(c: Config, s: State, h: Hist)
    requires InvWith(c, s, h)
    ensures |h.rxAt| - 1 <= Starter(c, |h.txAt|)
  {
    hide InvWith, Q;
    PushedUpTo(c, s, h);
  }

  lemma BehindIsCuttable(c: Config, cut: bool, h: Hist, phase: Phase, f: nat)
    requires c.Valid() && c.workers >= 2 && LastIsBehind(c, h) && |h.rxAt| - 1 <= Starter(c, |h.txAt|)
    requires SinceGivenUp(c, cut, c.blocks(|h.rxAt| - 1), phase, f)
    ensures |h.rxAt| > 0 && Cuttable(c, |h.rxAt| - 1, f)
  {
    hide Q, Config.Decodes, Config.Valid;
    StarterOrder(c, 0, |h.txAt| - 1);
    assert c.workers == 2 ==> RightBehind(c, |h.txAt| - 1, |h.rxAt| - 1);
  }

  lemma FailLosesNothing(c: Config, s: State, h: Hist, i: nat)
    requires Enabled(c, s, Fail(i)) && |h.rxAt| > 0 && i == h.rxAt[|h.rxAt| - 1]
    requires NothingLost(c, s) && AfterCut(c, DoFail(s, i), h)
    requires c.Valid() && InvWith(c, DoFail(s, i), h)
    ensures NothingLost(c, DoFail(s, i))
  {
    hide InvWith, DecJobs, LostBlocks, DoFail, AfterCut, Cuttable, Config.Valid, AddsUp;
    FailJobs(c, s, i);
    if DoFail(s, i).cut {
      var f := CutMeansCuttable(c, DoFail(s, i), h);
    }
  }

  lemma FailGate(c: Config, s: State, h: Hist, i: nat)
    requires TwoWorkers(c, s, h) && Enabled(c, s, Fail(i)) && i < s.head && i !in s.lost
    requires |h.rxAt| > 0 && i == h.rxAt[|h.rxAt| - 1]
    ensures TwoWorkers(c, DoFail(s, i), h)
  {
    hide DecJobs, LostBlocks, AddsUp, DoFail, Gate, PickGuard, RuBehind, RuAmong, LostTx;
    FailJobs(c, s, i);
    NothingOpen(c, s, h, i);
    FailGuards(c, s, DoFail(s, i), h);
  }

  // With results to collect, no TX job that could hand over is left from before.
  lemma NothingOpen(c: Config, s: State, h: Hist, i: nat)
    requires Gate(c, s, h) && CanFail(c, s, i) && i < s.head && i !in s.lost && |h.rxAt| > 0 && i == h.rxAt[|h.rxAt| - 1]
    ensures forall u: nat, m: nat :: Alive(s, h, u) && Starter(c, u) < m < |h.rxAt| ==> !c.Decodes(m)
  {
    hide Fresh;
    forall u: nat, m: nat | Alive(s, h, u) && Starter(c, u) < m < |h.rxAt|
      ensures !c.Decodes(m)
    {
      assert !Undecoded(s, i, c.blocks(m));
    }
  }

  lemma FailGuards(c: Config, s: State, s': State, h: Hist)
    requires TwoWorkers(c, s, h) && s'.head == s.head && s'.lost == s.lost
    requires forall u: nat, m: nat :: Alive(s, h, u) && Starter(c, u) < m < |h.rxAt| ==> !c.Decodes(m)
    requires |h.rxAt| > 0 && LeftAt(s', h.rxAt[|h.rxAt| - 1]) == 0
    ensures TwoWorkers(c, s', h)
  {
    hide DecJobs, Fresh, TxLost, Passes, InFirst, LastIsBehind;
  }

  lemma DropDecodes(c: Config, s: State, h: Hist)
    requires Enabled(c, s, Drop)
    requires InvWith(c, s.(head := s.head + 1), h)
    requires c.Valid() && FullInv(c, s, h)
    ensures FullInv(c, s.(head := s.head + 1), h)
  {
    hide InvWith, Segments, Gate, PickGuard, RuBehind, RuAmong, AfterCut, LostTx, InTurn, Config.Valid;
    var s' := s.(head := s.head + 1);
    Dropped(c, s, h);
    HeadKind(c, s, h);
    DropJobs(s);
    DropSegments(c, s, h.rxAt);
    AfterCutFrame(c, s, s', h, h);
    if c.workers == 2 {
      DropGate(c, s, h);
      DropGuards(c, s, h);
      LogPositions(c, s, h);
      LostTxFrame(c, s, s', h, h);
    }
  }

  lemma HeadKind(c: Config, s: State, h: Hist)
    requires InvWith(c, s, h) && s.head < |s.log| && (s.log[s.head].Dec? || s.head in s.lost)
    ensures s.head in h.rxAt ==> s.head in s.lost
  {
    hide Increasing, TxBetweenRx, RuBetweenTx, Workers, RxToken, TxUpTo, TxTokens, Stamps, RuToken, SentInOrder, Turns, CutQueue;
    KindOf(c, s.log, h, s.head);
  }

  lemma DropJobs(s: State)
    requires s.head < |s.log| && !Waits(s, s.head)
    ensures var s' := s.(head := s.head + 1);
            DecJobs(s') == DecJobs(s) && LostBlocks(s') == LostBlocks(s)
  {
  }

  lemma DropSegments(c: Config, s: State, rxAt: seq<nat>)
    requires Segments(c, s, rxAt) && Enabled(c, s, Drop)
    ensures Segments(c, s.(head := s.head + 1), rxAt)
  {
    DropJobs(s);
    hide DecJobs, LostBlocks;
  }

  lemma DropGate(c: Config, s: State, h: Hist)
    requires Gate(c, s, h) && (s.head in h.rxAt ==> s.head in s.lost)
    ensures Gate(c, s.(head := s.head + 1), h)
  {
    hide Fresh;
    var s' := s.(head := s.head + 1);
    forall u: nat, m: nat | Alive(s', h, u) && Starter(c, u) < m < |h.rxAt| && c.Decodes(m)
      ensures m == |h.rxAt| - 1 && Undecoded(s', h.rxAt[m], c.blocks(m))
    {
      assert Alive(s, h, u);
      assert Undecoded(s, h.rxAt[m], c.blocks(m));
    }
  }

  lemma DropGuards(c: Config, s: State, h: Hist)
    requires PickGuard(c, s, h) && RuBehind(c, s, h) && RuAmong(c, s, h)
    requires Enabled(c, s, Drop) && (s.head in h.rxAt ==> s.head in s.lost)
    ensures var s' := s.(head := s.head + 1);
            PickGuard(c, s', h) && RuBehind(c, s', h) && RuAmong(c, s', h)
  {
    DropJobs(s);
    hide DecJobs, LostBlocks, LastIsBehind, InFirst;
  }

  lemma MatchDecodes(c: Config, s: State, h: Hist, i: nat)
    requires CanWork(c, s, i) && s.running[i].Matching? && c.isDl(s.log[i].at)
    requires InvWith(c, DoMatch(c, s, i), Record(c, s, h, Work(i)))
    requires c.Valid() && FullInv(c, s, h)
    ensures FullInv(c, DoMatch(c, s, i), Record(c, s, h, Work(i)))
  {
    hide InvWith, Segments, Gate, PickGuard, RuBehind, RuAmong, LostTx, AfterCut, NothingLost, Config.Valid, Q;
    HeadBound(c, s, h);
    LogPositions(c, s, h);
    FitsRunning(c, s, h, i);
    RunningRx(c, s, h, i);
    var s', h' := DoMatch(c, s, i), Record(c, s, h, Work(i));
    MatchPushes(c, s, i);
    hide FindStamp;
    PushedUpTo(c, s, h);
    SegmentsAside(c, s, s', h.rxAt, i);
    MatchAfterCut(c, h', s');
    NothingLostFrame(c, s, s');
    if c.workers == 2 {
      MatchGate(c, s, h, i, s', h');
      MatchLostTx(c, s, h, i);
    }
  }

  lemma MatchAfterCut(c: Config, h: Hist, s: State)
    requires |h.rxAt| > 0 && h.rxAt[|h.rxAt| - 1] in s.running ==> s.running[h.rxAt[|h.rxAt| - 1]].RxExit?
    ensures AfterCut(c, s, h)
  {
  }

  lemma MatchGate(c: Config, s: State, h: Hist, i: nat, s': State, h': Hist)
    requires TwoWorkers(c, s, h) && |h.rxAt| > 0 && i == h.rxAt[|h.rxAt| - 1] < s.head && i !in s.lost
    requires i in s.running && s.running[i].Matching? && s'.head == s.head && AtMostPushes(s, s')
    requires i in s'.running && s'.running[i].RxExit? && Inside(s, h.txAt)
    requires h' == h.(txAt := h'.txAt, rank := h'.rank) && |h'.txAt| == |h.txAt| + 1 && h.txAt <= h'.txAt
    requires Starter(c, |h.txAt|) >= |h.rxAt| - 1
    ensures Gate(c, s', h') && PickGuard(c, s', h') && RuBehind(c, s', h') && RuAmong(c, s', h')
  {
    hide TxLost, LastIsBehind;
    forall u: nat, m: nat | Alive(s', h', u) && Starter(c, u) < m < |h'.rxAt|
      ensures !c.Decodes(m)
    {
      if u < |h.txAt| {
        assert Alive(s, h, u);
      }
    }
  }

  // The TX job of the slot being matched is lost only after a transport block that can be given up.
  lemma MatchLostTx(c: Config, s: State, h: Hist, i: nat)
    requires CanWork(c, s, i) && s.running[i].Matching? && c.isDl(s.log[i].at) && s.log[i].Rx?
    requires LostTx(c, s, h) && AfterCut(c, s, h)
    requires c.Valid() && InvWith(c, s, h)
    ensures LostTx(c, DoMatch(c, s, i), WithTx(s, h))
  {
    hide InvWith, AfterCut, LostTx, TxLost, Config.Valid, FindStamp;
    LogPositions(c, s, h);
    LostBound(c, s, h);
    if s.cut {
      MatchCutLoses(c, s, h, i);
    }
    LostTxGrows(c, s, DoMatch(c, s, i), h);
  }

  lemma LostTxGrows(c: Config, s: State, s': State, h: Hist)
    requires LostTx(c, s, h) && s'.lost <= s.lost + {|s.log|} && Inside(s, h.txAt)
    requires |s.log| in s'.lost && |s.log| !in s.lost ==> TxLost(c, |h.txAt|)
    requires |s.log| !in s.lost
    ensures LostTx(c, s', WithTx(s, h))
  {
    hide TxLost;
  }

  lemma MatchCutLoses(c: Config, s: State, h: Hist, i: nat)
    requires i in s.running && s.running[i].Matching? && i < |s.log| && s.log[i].Rx? && c.isDl(s.log[i].at) && s.cut
    requires AfterCut(c, s, h)
    requires c.Valid() && InvWith(c, s, h)
    ensures TxLost(c, |h.txAt|)
  {
    hide InvWith, AfterCut, Q, Config.Valid, Cuttable, LostBlocks, SinceGivenUp, LastIsBehind;
    RunningRx(c, s, h, i);
    StarterMatched(c, s, h, i);
    var f := CutMeansCuttable(c, s, h);
    SinceIsLast(c, s.cut, c.blocks(|h.rxAt| - 1), s.running[i], f);
  }

  lemma SinceIsLast(c: Config, cut: bool, blocks: seq<nat>, phase: Phase, f: nat)
    requires SinceGivenUp(c, cut, blocks, phase, f) && !phase.Decoding?
    ensures LastOf(blocks, f)
  {
  }

  lemma StarterMatched(c: Config, s: State, h: Hist, i: nat)
    requires c.Valid() && InvWith(c, s, h) && i in s.running && s.running[i].Matching? && s.log[i].Rx? && c.isDl(s.log[i].at)
    ensures Starter(c, |h.txAt|) == |h.rxAt| - 1
  {
    RunningRx(c, s, h, i);
    hide LogShape, Increasing, TxBetweenRx, RuBetweenTx, Workers, RxToken, TxTokens, Stamps, RuToken, SentInOrder, Turns, Q, CutQueue, Config.Valid;
    AheadPositive(c);
    DownlinkFrontier(c, |h.txAt|, s.log[i].at);
  }

  lemma AheadPositive(c: Config)
    requires c.Valid()
    ensures c.ahead >= 1 && c.workers >= 1
  {
  }

  // ---- tx_func handing over ----

  lemma CommitDecodes(c: Config, s: State, h: Hist, i: nat)
    requires CanWork(c, s, i) && s.running[i].Holding?
    requires s.running[i].next == c.num(s.log[i].at) && i < |h.rank|
    requires InvWith(c, DoHold(c, s, i), Record(c, s, h, Work(i)))
    requires c.Valid() && FullInv(c, s, h)
    ensures FullInv(c, DoHold(c, s, i), Record(c, s, h, Work(i)))
  {
    hide InvWith, Segments, Gate, PickGuard, RuBehind, RuAmong, LostTx, AfterCut, NothingLost, InTurn, Config.Valid, Q;
    HeadBound(c, s, h);
    LogPositions(c, s, h);
    var j := RunningTx(c, s, h, i);
    HeldToken(c, s, h, i);
    var s', h' := DoHold(c, s, i), Record(c, s, h, Work(i));
    SegmentsAside(c, s, s', h.rxAt, i);
    AfterCutAside(c, s, s', h, h', i);
    NothingLostFrame(c, s, s');
    CommitInTurn(c, s, h, j);
    if c.workers == 2 {
      FitsRunning(c, s, h, i);
      GateAside(c, s, s', h, h', i);
      CommitGuards(c, s, h, s', h');
      CommitRuAmong(c, s, h, i, j, s', h');
      LostTxFrame(c, s, s', h, h');
    }
  }

  lemma CommitInTurn(c: Config, s: State, h: Hist, j: nat)
    requires Open(h, j) && c.num(Q(c, j)) == NextNum(c, h)
    requires c.Valid() && FullInv(c, s, h)
    ensures InTurn(c, Committed(s, h, j))
  {
    hide InvWith, Segments, TwoWorkers, AfterCut, NothingLost, Config.Valid, Q, OrderSafe;
    LagHolds(c, s, h);
    TurnsOf(c, s, h);
    if h.parked < 0 && j != |h.turn| {
      OvertakingIsUnsafe(c, s, h, j);
    }
  }

  lemma TurnsOf(c: Config, s: State, h: Hist)
    requires InvWith(c, s, h)
    ensures Turns(c, h.turn, h.parked, |h.txAt|) && |h.turn| == |h.ruAt|
  {
    hide LogShape, Increasing, TxBetweenRx, RuBetweenTx, Workers, RxToken, TxUpTo, TxTokens, Stamps, RuToken, SentInOrder, Turns, CutQueue;
  }

  // Only where the ordering condition fails can another than the next job take its turn.
  lemma OvertakingIsUnsafe(c: Config, s: State, h: Hist, j: nat)
    requires h.parked < 0 && Open(h, j) && j > |h.turn| && c.num(Q(c, j)) == c.num(Q(c, |h.turn|))
    requires c.Valid() && FullInv(c, s, h)
    ensures !OrderSafe(c)
  {
    hide InvWith, Segments, Q, Config.Valid, Config.Decodes, TwoWorkers, AfterCut, NothingLost, TxLost;
    var t := |h.turn|;
    LagHolds(c, s, h);
    TurnsOf(c, s, h);
    QNext(c, t);
    assert Open(h, t) && j == t + 1;
    if c.workers == 2 {
      OvertakenTx(c, s, h, t);
    }
    assert c.num(c.nextDl(Q(c, t))) == c.num(Q(c, t));
  }

  // With two workers, a TX job that can be overtaken is lost, or nothing is decoded up to the next one.
  lemma OvertakenTx(c: Config, s: State, h: Hist, t: nat)
    requires c.workers == 2 && Open(h, t) && t + 1 < |h.txAt|
    requires c.Valid() && FullInv(c, s, h)
    ensures NoneDecodes(c, Starter(c, t), Starter(c, t + 1)) || TxLost(c, t)
  {
    hide InvWith, Segments, Q, Config.Valid, Config.Decodes, PickGuard, RuBehind, RuAmong, AfterCut, NothingLost, TxLost, InTurn;
    HeadBound(c, s, h);
    PushedUpTo(c, s, h);
    StarterOrder(c, t, t + 1);
    RxNotLost(c, s, h);
    assert TwoWorkers(c, s, h);
    if Alive(s, h, t) {
      forall k | Starter(c, t) < k <= Starter(c, t + 1)
        ensures !c.Decodes(k)
      {
        assert k == |h.rxAt| - 1 ==> !Undecoded(s, h.rxAt[k], c.blocks(k));
      }
    }
  }

  // An RX job that has passed has been picked.
  lemma RxNotLost(c: Config, s: State, h: Hist)
    requires InvWith(c, s, h)
    ensures RxPassed(s, h.rxAt) && |h.rxAt| > 0 ==> h.rxAt[|h.rxAt| - 1] !in s.lost
  {
    LostBound(c, s, h);
    hide InvWith;
  }

  lemma CommitGuards(c: Config, s: State, h: Hist, s': State, h': Hist)
    requires c.workers == 2 && s'.head == s.head && s.lost <= s'.lost
    requires h'.rxAt == h.rxAt && h'.txAt == h.txAt && |h'.turn| == |h.turn| + 1
    requires h'.ruAt == h.ruAt + [|s.log|]
    requires c.Valid() && FullInv(c, s, h)
    ensures PickGuard(c, s', h') && RuBehind(c, s', h')
  {
    hide InvWith, Segments, Q, Config.Valid, Config.Decodes, InTurn, RuBehind, RuAmong, LostTx, AfterCut, NothingLost;
    LagHolds(c, s, h);
    TurnsOf(c, s, h);
    PushedUpTo(c, s, h);
    assert TwoWorkers(c, s, h);
    var n, last := |h'.ruAt|, |h.rxAt| - 1;
    if s.lost == {} && last > Starter(c, n) {
      if |h.txAt| <= n {
        StarterOrder(c, |h.txAt|, n);
        assert false;
      }
      StarterOrder(c, FirstOpen(h), n - 1);
      FirstIsOpen(c, h);
      assert Alive(s, h, FirstOpen(h));
      assert forall k :: Starter(c, n - 1) < k <= Starter(c, n) ==> !c.Decodes(k);
    }
    NewRuBehind(c, s', h');
  }

  lemma NewRuBehind(c: Config, s: State, h: Hist)
    requires |h.ruAt| > 0
    requires s.lost == {} && |h.rxAt| - 1 > Starter(c, |h.ruAt|) ==>
               |h.rxAt| - 1 == Starter(c, |h.ruAt|) + 1 && NoneDecodes(c, Starter(c, |h.ruAt| - 1), Starter(c, |h.ruAt|))
    ensures RuBehind(c, s, h)
  {
    hide NoneDecodes, Q;
  }

  // The code blocks in front of the RU job have been handed out while the tx_func stood before its token.
  lemma CommitRuAmong(c: Config, s: State, h: Hist, i: nat, j: nat, s': State, h': Hist)
    requires c.workers == 2 && Aside(s, s', i) && |s.log| !in s.running && s.head <= |s.log| && Alive(s, h, j)
    requires h'.rxAt == h.rxAt && h'.txAt == h.txAt && h'.ruAt == h.ruAt + [|s.log|]
    requires c.Valid() && FullInv(c, s, h)
    ensures RuAmong(c, s', h')
  {
    hide FullInv, Aside, Alive, Passes, Q, Config.Valid, InFirst, LeftAt, LastIsBehind;
    LastIsBehindFrame(c, h, h');
    var last := |h.rxAt| - 1;
    if last >= 0 && LeftAt(s', h.rxAt[last]) > 0 {
      AsideLeft(s, s', i, h.rxAt[last]);
      FirstWhileOpen(c, s, h, j);
    }
  }

  lemma AsideLeft(s: State, s': State, i: nat, x: nat)
    requires Aside(s, s', i) && LeftAt(s', x) > 0
    ensures LeftAt(s, x) > 0 && x in s.running && x in s'.running && s'.running[x] == s.running[x]
  {
  }

  lemma FirstWhileOpen(c: Config, s: State, h: Hist, j: nat)
    requires c.workers == 2 && Alive(s, h, j) && |h.rxAt| > 0 && LeftAt(s, h.rxAt[|h.rxAt| - 1]) > 0
    requires c.Valid() && FullInv(c, s, h)
    ensures InFirst(c.blocks(|h.rxAt| - 1), s.running[h.rxAt[|h.rxAt| - 1]]) && LastIsBehind(c, h)
  {
    hide InvWith, PickGuard, RuBehind, RuAmong, LostTx, AfterCut, NothingLost, InTurn, DecJobs, LostBlocks, Q, Config.Valid, InFirst, Progressed;
    var last := |h.rxAt| - 1;
    HeadBound(c, s, h);
    LostBound(c, s, h);
    PushedUpTo(c, s, h);
    StarterOrder(c, j, |h.txAt| - 1);
    ProgressedDecodes(c.blocks(last), s.running[h.rxAt[last]]);
    assert TwoWorkers(c, s, h) && c.Decodes(last);
    assert Starter(c, j) < last;
    assert forall k :: Starter(c, |h.txAt| - 1) < k <= last - 1 ==> !c.Decodes(k);
  }

  /** Every step of every interleaving keeps the invariant. */
  lemma StepKeeps(c: Config, s: State, h: Hist, step: Step)
    requires Enabled(c, s, step)
    requires c.Valid() && FullInv(c, s, h)
    ensures FullInv(c, Apply(c, s, step), Record(c, s, h, step))
  {
    hide FullInv, InvWith, Config.Valid, DecJobs, Waits;
    HasTokens(c, s, h);
    FailNeedsTwo(c, s, h);
    TokensKept(c, s, h, step);
    match step
    case Tick => TickDecodes(c, s, h);
    case Pick => PickDecodes(c, s, h);
    case Drop => DropDecodes(c, s, h);
    case Fail(i) => FailDecodes(c, s, h, i);
    case Work(i) => WorkDecodes(c, s, h, i);
  }

  lemma HasTokens(c: Config, s: State, h: Hist)
    requires FullInv(c, s, h)
    ensures InvWith(c, s, h)
  {
    hide InvWith, Segments, TwoWorkers, AfterCut, InTurn, NothingLost;
  }

  // With one worker there is never a result to collect.
  lemma FailNeedsTwo(c: Config, s: State, h: Hist)
    requires FullInv(c, s, h)
    ensures forall i :: CanFail(c, s, i) ==> c.workers != 1
  {
    hide InvWith, TwoWorkers, AfterCut, InTurn, NothingLost, DecJobs, LostBlocks;
  }

  lemma WorkDecodes(c: Config, s: State, h: Hist, i: nat)
    requires CanWork(c, s, i)
    requires InvWith(c, DoWork(c, s, i), Record(c, s, h, Work(i)))
    requires c.Valid() && FullInv(c, s, h)
    ensures FullInv(c, DoWork(c, s, i), Record(c, s, h, Work(i)))
  {
    hide FullInv, InvWith, Config.Valid;
    var s', h' := DoWork(c, s, i), Record(c, s, h, Work(i));
    match s.running[i]
    case Decoding(_, _) => DecodeDecodes(c, s, h, i);
    case Decoded => ResultDecodes(c, s, h, i);
    case Matching =>
      if c.isDl(s.log[i].at) {
        MatchDecodes(c, s, h, i);
      } else {
        AsideKeeps(c, s, h, s', h', i);
      }
    case Holding(next) =>
      if next == c.num(s.log[i].at) {
        RankLength(c, s, h);
        CommitDecodes(c, s, h, i);
      } else {
        AsideKeeps(c, s, h, s', h', i);
      }
    case _ => AsideKeeps(c, s, h, s', h', i);
  }

  lemma RankLength(c: Config, s: State, h: Hist)
    requires FullInv(c, s, h)
    ensures |h.rank| == |s.log|
  {
    hide Segments, TwoWorkers, AfterCut, InTurn, NothingLost;
  }
}
