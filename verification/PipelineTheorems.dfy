/** Main results about the slot pipeline, for every run of every interleaving. */
module PipelineTheorems {
  import opened SlotPipeline
  import opened PipelineInvariant
  import opened PipelineSafety
  import opened PipelineDecoding
  import opened PipelineProgress

  lemma {:induction false} RunKeeps(c: Config, run: seq<State>, k: nat)
    requires c.Valid() && IsRun(c, run) && k < |run|
    ensures Inv(c, run[k])
  {
    hide FullInv;
    if k == 0 {
      InitKeeps(c);
    } else {
      RunKeeps(c, run, k - 1);
      assert Next(c, run[k - 1], run[k - 1 + 1]);
      var step :| Enabled(c, run[k - 1], step) && run[k] == Apply(c, run[k - 1], step);
      var h :| FullInv(c, run[k - 1], h);
      StepKeeps(c, run[k - 1], h, step);
    }
  }

  lemma ReachableKeeps(c: Config, s: State)
    requires c.Valid() && Reachable(c, s)
    ensures Inv(c, s)
  {
    var run :| IsRun(c, run) && run[|run| - 1] == s;
    RunKeeps(c, run, |run| - 1);
  }

  /** Ordered transmission: the radio gets exactly the downlink slots, each with the timestamp computed
      when it was received, in strictly increasing order from the first look-ahead slot, none skipped
      or repeated. */
  ghost predicate InSlotOrder(c: Config, sent: seq<Transmission>) {
    && (forall j :: 0 <= j < |sent| ==>
          c.isDl(sent[j].at) && c.ahead <= sent[j].at && sent[j].ts == c.time(sent[j].at - c.ahead))
    && (forall i, j :: 0 <= i < j < |sent| ==> sent[i].at < sent[j].at)
    && (forall at :: c.isDl(at) && |sent| > 0 && c.ahead <= at <= sent[|sent| - 1].at ==>
          exists j :: 0 <= j < |sent| && sent[j].at == at)
  }

  lemma ExpectedIsInSlotOrder(c: Config, sent: seq<Transmission>)
    requires c.Valid() && forall j :: 0 <= j < |sent| ==> sent[j] == Expected(c, j)
    ensures InSlotOrder(c, sent)
  {
    hide Config.Valid, Q;
    forall j | 0 <= j < |sent|
      ensures c.isDl(sent[j].at) && c.ahead <= sent[j].at
    {
      QIsDownlink(c, j);
    }
    forall i, j | 0 <= i < j < |sent|
      ensures sent[i].at < sent[j].at
    {
      QIncreases(c, i, j);
    }
    forall at | c.isDl(at) && |sent| > 0 && c.ahead <= at <= sent[|sent| - 1].at
      ensures exists j :: 0 <= j < |sent| && sent[j].at == at
    {
      QCoversDownlink(c, at);
      var j: nat :| Q(c, j) == at;
      if j >= |sent| {
        QIncreases(c, |sent| - 1, j);
      }
      assert sent[j].at == at;
    }
  }

  lemma OrderedTransmission(c: Config, s: State)
    requires c.Valid() && OrderSafe(c) && Reachable(c, s)
    ensures InSlotOrder(c, s.sent)
  {
    hide InvWith, Segments, TwoWorkers, InSlotOrder, AfterCut, NothingLost;
    ReachableKeeps(c, s);
    var h :| FullInv(c, s, h);
    SentIsExpected(c, s, h);
    ExpectedIsInSlotOrder(c, s.sent);
  }

  /** The radio front end never runs twice at a time. */
  lemma OneRadioJob(c: Config, s: State, i: nat, k: nat)
    requires c.Valid() && Reachable(c, s)
    requires i in s.running && k in s.running && i < |s.log| && k < |s.log|
    requires s.log[i].Ru? && s.log[k].Ru?
    ensures i == k
  {
    hide InvWith, Segments, TwoWorkers, InTurn, AfterCut, NothingLost;
    ReachableKeeps(c, s);
    var h :| FullInv(c, s, h);
    RunningRu(c, s, h, i);
    RunningRu(c, s, h, k);
  }

  lemma SentIsExpected(c: Config, s: State, h: Hist)
    requires OrderSafe(c) && FullInv(c, s, h)
    ensures forall j :: 0 <= j < |s.sent| ==> s.sent[j] == Expected(c, j)
  {
    hide CutQueue, LogShape, Increasing, TxBetweenRx, RuBetweenTx, Workers, RxToken, TxUpTo, TxTokens, Stamps, RuToken, Turns, Segments, TwoWorkers, OrderSafe, AfterCut, NothingLost;
  }

  /** Without any condition on the calendar: only downlink slots are transmitted, with the timestamp
      computed when they were received, and none of them twice. */
  lemma EachSlotOnce(c: Config, s: State)
    requires c.Valid() && Reachable(c, s)
    ensures forall j :: 0 <= j < |s.sent| ==>
              c.isDl(s.sent[j].at) && c.ahead <= s.sent[j].at && s.sent[j].ts == c.time(s.sent[j].at - c.ahead)
    ensures forall i, j :: 0 <= i < j < |s.sent| ==> s.sent[i].at != s.sent[j].at
  {
    hide Config.Valid, InvWith, Segments, TwoWorkers, InTurn, Reachable, Q, AfterCut, NothingLost;
    ReachableKeeps(c, s);
    var h :| FullInv(c, s, h);
    SentFollowsTurns(c, s, h);
    forall j | 0 <= j < |s.sent|
      ensures c.isDl(s.sent[j].at) && c.ahead <= s.sent[j].at
    {
      QIsDownlink(c, h.turn[j]);
    }
    forall i, j | 0 <= i < j < |s.sent|
      ensures s.sent[i].at != s.sent[j].at
    {
      if h.turn[i] < h.turn[j] {
        QIncreases(c, h.turn[i], h.turn[j]);
      } else {
        QIncreases(c, h.turn[j], h.turn[i]);
      }
    }
  }

  lemma SentFollowsTurns(c: Config, s: State, h: Hist)
    requires InvWith(c, s, h)
    ensures |s.sent| <= |h.turn| && forall n :: 0 <= n < |s.sent| ==> s.sent[n] == Expected(c, h.turn[n])
    ensures forall m, n :: 0 <= m < n < |h.turn| ==> h.turn[m] != h.turn[n]
  {
    hide CutQueue, LogShape, Increasing, TxBetweenRx, RuBetweenTx, Workers, RxToken, TxUpTo, TxTokens, Stamps, RuToken;
  }

  /** What has been transmitted stays transmitted. */
  lemma TransmissionsOnlyGrow(c: Config, s: State, s': State)
    requires Next(c, s, s')
    ensures s.sent <= s'.sent <= s.sent + s'.sent[|s.sent|..] && |s'.sent| <= |s.sent| + 1
  {
  }

  /** Under the condition the pipeline cannot get stuck before a job has been lost. */
  lemma ProgressUntilLost(c: Config, s: State)
    requires c.Valid() && DeadlockSafe(c) && Reachable(c, s) && s.lost == {}
    ensures CanProgress(c, s)
  {
    ReachableKeeps(c, s);
    InvProgress(c, s);
  }

  /** Under the condition on the traffic the queue is never cut and no job lost. */
  lemma NoJobLost(c: Config, s: State)
    requires c.Valid() && JobsSafe(c) && Reachable(c, s)
    ensures !s.cut && s.lost == {}
  {
    hide InvWith, Segments, TwoWorkers, AfterCut, InTurn, JobsSafe;
    ReachableKeeps(c, s);
  }

  // ---- conservation of the 1 + 2 + 1 tokens ----

  function RxJobs(s: State): set<nat> { set i | 0 <= i < |s.log| && Live(s, i) && i !in s.lost && s.log[i].Rx? }
  function TxJobs(s: State): set<nat> { set i | 0 <= i < |s.log| && Live(s, i) && i !in s.lost && s.log[i].Tx? }
  function RuJobs(s: State): set<nat> { set i | 0 <= i < |s.log| && Live(s, i) && i !in s.lost && s.log[i].Ru? }
  function LostRxJobs(s: State): set<nat> { set i | i in s.lost && i < |s.log| && s.log[i].Rx? }
  function LostTxJobs(s: State): set<nat> { set i | i in s.lost && i < |s.log| && s.log[i].Tx? }
  function RuHolders(s: State): set<nat> { set i | i in s.running && s.running[i].Holding? }

  /** Every token is either in its response FIFO or with exactly one job (or, for the RU token, in the
      hands of one tx_func), or gone with a job lost on a cut queue, which the RU token never is: one RX,
      two L1-TX and one RU-TX token at all times. */
  lemma TokensConserved(c: Config, s: State)
    requires c.Valid() && Reachable(c, s)
    ensures s.rxTokens + |RxJobs(s)| + |LostRxJobs(s)| == 1
    ensures |s.l1| + |TxJobs(s)| + |LostTxJobs(s)| == 2
    ensures |s.ru| + |RuJobs(s)| + |RuHolders(s)| == 1
  {
    hide InvWith, Segments, TwoWorkers, InTurn, AfterCut, NothingLost;
    ReachableKeeps(c, s);
    var h :| FullInv(c, s, h);
    RxConserved(c, s, h);
    TxConserved(c, s, h);
    RuConserved(c, s, h);
  }

  /** Every code block handed out, not collected and not given up is a job in the pool, a result in the
      response FIFO, or lost on a cut queue, and belongs to the one rx_func that waits for it: none is left
      over for a later transport block or slot. */
  lemma CodeBlocksConserved(c: Config, s: State)
    requires c.Valid() && Reachable(c, s)
    ensures forall i :: i in s.running && s.running[i].Decoding? ==>
              s.resp + |DecJobs(s)| + |LostBlocks(s)| == s.running[i].left
    ensures (forall i :: i in s.running ==> !s.running[i].Decoding?) ==>
              s.resp == 0 && DecJobs(s) == {} && LostBlocks(s) == {}
  {
    hide DecJobs, LostBlocks;
    hide InvWith, TwoWorkers, InTurn, AfterCut, NothingLost;
    ReachableKeeps(c, s);
    var h :| FullInv(c, s, h);
    forall i | i in s.running && s.running[i].Decoding?
      ensures s.resp + |DecJobs(s)| + |LostBlocks(s)| == s.running[i].left
    {
      FitsRunning(c, s, h, i);
      RunningRx(c, s, h, i);
    }
  }

  /** When rx_func collects the result of a code block that could not be decoded, the assertion of
      nr_postDecode holds exactly if no code block of the transport block has been lost: giving up then takes
      exactly as many jobs and results away as are missing, this one and at least one other, and leaves none
      behind. */
  lemma GivingUpAddsUp(c: Config, s: State, i: nat)
    requires c.Valid() && Reachable(c, s) && CanFail(c, s, i)
    ensures AddsUp(s, i) <==> LostBlocks(s) == {}
    ensures s.resp + |DecJobs(s)| + |LostBlocks(s)| >= 2
    ensures AddsUp(s, i) ==>
              var s' := Apply(c, s, Fail(i));
              s'.resp == 0 && DecJobs(s') == {} && i in s'.running && s'.running[i].Decoding? && s'.running[i].left == 0
  {
    CodeBlocksConserved(c, s);
    if AddsUp(s, i) {
      FailJobs(c, s, i);
    }
    hide DecJobs, LostBlocks, Reachable, Config.Valid;
  }

  lemma RxConserved(c: Config, s: State, h: Hist)
    requires InvWith(c, s, h)
    ensures s.rxTokens + |RxJobs(s)| + |LostRxJobs(s)| == 1
  {
    RxTokenAway(c, s, h);
    RxUnfinished(c, s, h);
    hide InvWith, RxJobs, LostRxJobs;
    BothSizes(RxJobs(s), LostRxJobs(s));
    if s.rxTokens != 0 {
      assert RxJobs(s) + LostRxJobs(s) == {};
    }
  }

  lemma BothSizes(a: set<nat>, b: set<nat>)
    requires a !! b
    ensures |a + b| == |a| + |b|
  {
  }

  lemma RxUnfinished(c: Config, s: State, h: Hist)
    requires InvWith(c, s, h)
    ensures RxJobs(s) !! LostRxJobs(s)
    ensures RxJobs(s) + LostRxJobs(s)
            == if |h.rxAt| > 0 && !Finished(s, h.rxAt[|h.rxAt| - 1]) then {h.rxAt[|h.rxAt| - 1]} else {}
  {
    LastRxLog(c, s, h);
    hide InvWith;
    forall i | i in RxJobs(s) + LostRxJobs(s)
      ensures |h.rxAt| > 0 && i == h.rxAt[|h.rxAt| - 1] && !Finished(s, i)
    {
      UnfinishedRx(c, s, h, i);
    }
  }

  lemma RxTokenAway(c: Config, s: State, h: Hist)
    requires InvWith(c, s, h)
    ensures s.rxTokens <= 1
    ensures s.rxTokens == 0 <==> |h.rxAt| > 0 && !Finished(s, h.rxAt[|h.rxAt| - 1])
  {
    hide CutQueue, LogShape, Increasing, TxBetweenRx, RuBetweenTx, Workers, TxUpTo, TxTokens, Stamps, RuToken, SentInOrder, Turns;
  }

  lemma LastRxLog(c: Config, s: State, h: Hist)
    requires InvWith(c, s, h)
    ensures |h.rxAt| > 0 ==> h.rxAt[|h.rxAt| - 1] < |s.log| && s.log[h.rxAt[|h.rxAt| - 1]].Rx?
  {
    hide CutQueue, Increasing, TxBetweenRx, RuBetweenTx, Workers, RxToken, TxUpTo, TxTokens, Stamps, RuToken, SentInOrder, Turns, TxPlaced, RuPlaced, Ranked;
  }

  lemma UnfinishedRx(c: Config, s: State, h: Hist, i: nat)
    requires InvWith(c, s, h) && i < |s.log| && s.log[i].Rx? && !Finished(s, i)
    ensures |h.rxAt| > 0 && i == h.rxAt[|h.rxAt| - 1]
  {
    hide InvWith;
    RankOf(c, s, h, i);
    UnfinishedJob(c, s, h);
  }

  lemma TxConserved(c: Config, s: State, h: Hist)
    requires InvWith(c, s, h)
    ensures |s.l1| + |TxJobs(s)| + |LostTxJobs(s)| == 2
  {
    hide CutQueue, LogShape, RuBetweenTx, TxBetweenRx, Workers, RxToken, TxUpTo, Stamps, RuToken, SentInOrder, Turns;
    var pending := Pending(h.txAt, h.turn);
    PendingSize(c, h.txAt, h.turn, h.parked);
    TxJobsSplit(c, s, h, pending);
    BothSizes(pending, Exiting(s));
    BothSizes(TxJobs(s), LostTxJobs(s));
  }

  // TX jobs that have not handed over.
  function Pending(txAt: seq<nat>, turn: seq<nat>): set<nat> {
    set j | 0 <= j < |txAt| && j !in turn :: txAt[j]
  }

  lemma PendingSize(c: Config, txAt: seq<nat>, turn: seq<nat>, parked: int)
    requires Increasing(txAt) && Turns(c, turn, parked, |txAt|)
    ensures |Pending(txAt, turn)| == |txAt| - |turn|
  {
    hide Increasing;
    if parked < 0 {
      TailSize(txAt, |turn|);
      assert Pending(txAt, turn) == Tail(txAt, |turn|);
    } else {
      TailSize(txAt, |turn| + 1);
      NotInTail(txAt, |turn| + 1, parked);
      assert Pending(txAt, turn) == Tail(txAt, |turn| + 1) + {txAt[parked]};
    }
  }

  function Tail(txAt: seq<nat>, from: nat): set<nat> {
    set j | from <= j < |txAt| :: txAt[j]
  }

  lemma NotInTail(txAt: seq<nat>, from: nat, k: nat)
    requires Increasing(txAt) && k < from <= |txAt|
    ensures txAt[k] !in Tail(txAt, from)
  {
  }

  lemma {:induction false} TailSize(txAt: seq<nat>, from: nat)
    requires Increasing(txAt) && from <= |txAt|
    ensures |Tail(txAt, from)| == |txAt| - from
    decreases |txAt| - from
  {
    hide Increasing;
    if from < |txAt| {
      TailSize(txAt, from + 1);
      NotInTail(txAt, from + 1, from);
      assert Tail(txAt, from) == Tail(txAt, from + 1) + {txAt[from]};
    } else {
      assert Tail(txAt, from) == {};
    }
  }

  lemma TxJobsSplit(c: Config, s: State, h: Hist, pending: set<nat>)
    requires InvWith(c, s, h) && pending == Pending(h.txAt, h.turn)
    ensures TxJobs(s) + LostTxJobs(s) == pending + Exiting(s)
    ensures pending !! Exiting(s)
  {
    hide InvWith, Pending, Exiting, TxJobs, LostTxJobs;
    forall i | i in TxJobs(s) + LostTxJobs(s)
      ensures i in pending + Exiting(s)
    {
      TxJobPlace(c, s, h, i);
    }
    forall i | i in pending
      ensures i in TxJobs(s) + LostTxJobs(s) && i !in Exiting(s)
    {
      PendingIsTxJob(c, s, h, i);
    }
    forall i | i in Exiting(s)
      ensures i in TxJobs(s)
    {
      ExitingIsTxJob(c, s, h, i);
    }
  }

  lemma TxJobPlace(c: Config, s: State, h: Hist, i: nat)
    requires InvWith(c, s, h) && i in TxJobs(s) + LostTxJobs(s)
    ensures i in Pending(h.txAt, h.turn) || i in Exiting(s)
  {
    hide CutQueue, LogShape, Increasing, RuBetweenTx, TxBetweenRx, Workers, RxToken, TxUpTo, Stamps, RuToken, SentInOrder, Turns;
    HeadBound(c, s, h);
    var j := TxRank(c, s, h, i);
  }

  lemma PendingIsTxJob(c: Config, s: State, h: Hist, i: nat)
    requires InvWith(c, s, h) && i in Pending(h.txAt, h.turn)
    ensures i in TxJobs(s) + LostTxJobs(s) && i !in Exiting(s)
  {
    hide CutQueue, LogShape, Increasing, RuBetweenTx, TxBetweenRx, Workers, RxToken, TxUpTo, Stamps, RuToken, SentInOrder, Turns;
    HeadBound(c, s, h);
    LogPositions(c, s, h);
    LostBound(c, s, h);
    KindOf(c, s.log, h, i);
  }

  lemma ExitingIsTxJob(c: Config, s: State, h: Hist, i: nat)
    requires InvWith(c, s, h) && i in Exiting(s)
    ensures i in TxJobs(s)
  {
    hide InvWith;
    FitsRunning(c, s, h, i);
  }

  lemma TxRank(c: Config, s: State, h: Hist, i: nat) returns (j: nat)
    requires InvWith(c, s, h) && i < |s.log| && s.log[i].Tx?
    ensures j < |h.txAt| && h.txAt[j] == i
  {
    hide CutQueue, Increasing, RuBetweenTx, TxBetweenRx, Workers, RxToken, TxUpTo, TxTokens, Stamps, RuToken, SentInOrder, Turns;
    j := h.rank[i];
  }

  lemma RuConserved(c: Config, s: State, h: Hist)
    requires InvWith(c, s, h)
    ensures |s.ru| + |RuJobs(s)| + |RuHolders(s)| == 1
  {
    hide CutQueue, LogShape, Increasing, TxBetweenRx, RuBetweenTx, Workers, RxToken, TxUpTo, TxTokens, Stamps, SentInOrder, Turns;
    LogPositions(c, s, h);
    LostBound(c, s, h);
    forall i | i in RuJobs(s)
      ensures |h.ruAt| > 0 && i == h.ruAt[|h.ruAt| - 1]
    {
      var j := RuRank(c, s, h, i);
    }
    match h.place
    case Home =>
      assert RuJobs(s) == {} && RuHolders(s) == {};
    case Held(i) =>
      assert RuJobs(s) == {} && RuHolders(s) == {i};
    case Away =>
      var r := h.ruAt[|h.ruAt| - 1];
      KindOf(c, s.log, h, r);
      HeadBound(c, s, h);
      assert RuJobs(s) == {r} && RuHolders(s) == {};
  }

  lemma RuRank(c: Config, s: State, h: Hist, i: nat) returns (j: nat)
    requires InvWith(c, s, h) && i < |s.log| && s.log[i].Ru?
    ensures j < |h.ruAt| && h.ruAt[j] == i
  {
    hide CutQueue, Increasing, RuBetweenTx, TxBetweenRx, Workers, RxToken, TxUpTo, TxTokens, Stamps, RuToken, SentInOrder, Turns;
    j := h.rank[i];
  }
}
