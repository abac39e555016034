/**
 What every step of the slot pipeline keeps: tokens are conserved, jobs enter the pool in a fixed
 relative order, and the RU token visits the downlink slots in order. From this invariant follow
 ordered transmission (PipelineTheorems) and deadlock freedom (PipelineProgress).
 */
module PipelineInvariant {
  import opened SlotPipeline

  datatype RuPlace = Home | Held(i: nat) | Away

  /** Log positions of the n-th job of each kind, the kind-wise number of each log entry, and where
      the RU token is; `turn[n]` is the number of the TX job that handed over n-th, and `parked` that of
      a TX job that has been overtaken and has not handed over yet, or -1. */
  datatype Hist = Hist(
    rxAt: seq<nat>, txAt: seq<nat>, ruAt: seq<nat>, rank: seq<nat>, place: RuPlace, turn: seq<nat>, parked: int)

  predicate Finished(s: State, i: nat) {
    i < s.head && i !in s.running && i !in s.lost
  }

  predicate InPhase(s: State, i: nat, phase: Phase) {
    i in s.running && s.running[i] == phase
  }

  predicate InTx(s: State, i: nat) {
    i in s.running && (s.running[i].Waiting? || s.running[i].Holding?)
  }

  ghost predicate Ranked(log: seq<Job>, h: Hist) {
    && |h.rank| == |log|
    && forall i :: 0 <= i < |log| ==>
         match log[i]
         case Rx(_, _, _, _) => h.rank[i] < |h.rxAt| && h.rxAt[h.rank[i]] == i
         case Dec(_) => true
         case Tx(_, _) => h.rank[i] < |h.txAt| && h.txAt[h.rank[i]] == i
         case Ru(_, _, _) => h.rank[i] < |h.ruAt| && h.ruAt[h.rank[i]] == i
  }

  predicate Places(log: seq<Job>, rank: seq<nat>, at: seq<nat>, k: nat, job: Job) {
    k < |at| && at[k] < |log| && at[k] < |rank| && rank[at[k]] == k && log[at[k]] == job
  }

  // The n-th job of each kind.
  function RxJob(c: Config, k: nat): Job { Rx(k, k + c.ahead, c.time(k), c.blocks(k)) }
  ghost function TxJob(c: Config, j: nat): Job { Tx(Q(c, j), Expected(c, j).ts) }
  ghost function RuJob(c: Config, j: nat): Job { Ru(Q(c, j), Expected(c, j).ts, c.num(Q(c, j + 1))) }

  ghost predicate RxPlaced(c: Config, log: seq<Job>, h: Hist) {
    forall k {:trigger h.rxAt[k]} :: 0 <= k < |h.rxAt| ==> Places(log, h.rank, h.rxAt, k, RxJob(c, k))
  }

  ghost predicate TxPlaced(c: Config, log: seq<Job>, h: Hist) {
    forall j {:trigger h.txAt[j]} :: 0 <= j < |h.txAt| ==> Places(log, h.rank, h.txAt, j, TxJob(c, j))
  }

  ghost predicate RuPlaced(c: Config, log: seq<Job>, h: Hist) {
    && |h.turn| == |h.ruAt|
    && forall n {:trigger h.ruAt[n]} :: 0 <= n < |h.ruAt| ==> Places(log, h.rank, h.ruAt, n, RuJob(c, h.turn[n]))
  }

  ghost predicate LogShape(c: Config, log: seq<Job>, h: Hist) {
    Ranked(log, h) && RxPlaced(c, log, h) && TxPlaced(c, log, h) && RuPlaced(c, log, h)
  }

  function Lag(c: Config): nat {
    if c.workers == 1 then 1 else 2
  }

  predicate Increasing(q: seq<nat>) {
    forall k, l :: 0 <= k < l < |q| ==> q[k] < q[l]
  }

  // A TX job is pushed after its own RX job and before the next one.
  ghost predicate TxBetweenRx(c: Config, txAt: seq<nat>, rxAt: seq<nat>) {
    forall j, k :: 0 <= j < |txAt| && 0 <= k < |rxAt| ==>
      if k <= Q(c, j) - c.ahead then rxAt[k] < txAt[j] else txAt[j] < rxAt[k]
  }

  // At most `Lag` TX jobs have not handed over, and an RU job is pushed before the TX job `Lag` further on.
  predicate RuBetweenTx(c: Config, txAt: seq<nat>, ruAt: seq<nat>) {
    && |ruAt| <= |txAt| <= |ruAt| + Lag(c)
    && (forall j, l :: 0 <= j < |ruAt| && j + Lag(c) == l < |txAt| ==> ruAt[j] < txAt[l])
  }

  // The TX job whose slot number the RU token shows.
  function Upcoming(turn: seq<nat>, parked: int): nat {
    |turn| + if parked < 0 then 0 else 1
  }

  /** Who has handed over: all TX jobs up to some point, except for the parked one, whose slot number is
      also that of the job that overtook it. */
  ghost predicate Turns(c: Config, turn: seq<nat>, parked: int, tx: nat) {
    && |turn| <= tx
    && (forall j: nat :: j in turn ==> j < tx)
    && (forall m, n :: 0 <= m < n < |turn| ==> turn[m] != turn[n])
    && (if parked < 0 then forall j: nat :: j in turn <==> j < |turn|
        else
          && parked < |turn| < tx && c.workers != 1 && c.num(Q(c, parked)) == c.num(Q(c, parked + 1))
          && forall j: nat :: j in turn <==> j <= |turn| && j != parked)
    && (|turn| > 0 ==> c.num(Q(c, turn[|turn| - 1] + 1)) == c.num(Q(c, Upcoming(turn, parked))))
  }

  ghost function NextNum(c: Config, h: Hist): nat {
    c.num(Q(c, Upcoming(h.turn, h.parked)))
  }

  predicate Workers(c: Config, s: State) {
    && s.head <= |s.log|
    && |s.running| <= c.workers
    && (forall i :: i in s.running ==> i < s.head && Fits(s.log[i], s.running[i]))
    && (forall i :: i in s.dead ==> i < |s.log| && s.log[i].Dec?)
    && (forall i :: i in s.lost ==> i < |s.log| && !s.log[i].Ru? && i !in s.running)
    && (c.workers == 1 ==> s.lost == {} && !s.cut)
  }

  // A queue that is cut holds the RU job and nothing else.
  ghost predicate CutQueue(s: State, ruAt: seq<nat>) {
    s.cut ==> |ruAt| > 0 && forall k :: Waits(s, k) <==> k == ruAt[|ruAt| - 1]
  }

  // The one RX token is at home exactly when the last RX job is finished.
  predicate RxToken(s: State, rxAt: seq<nat>) {
    && s.rxTokens == (if |rxAt| > 0 && !Finished(s, rxAt[|rxAt| - 1]) then 0 else 1)
    && (forall k :: 0 <= k < |rxAt| - 1 ==> Finished(s, rxAt[k]))
  }

  predicate RxPassed(s: State, rxAt: seq<nat>) {
    |rxAt| == 0 || Finished(s, rxAt[|rxAt| - 1]) || InPhase(s, rxAt[|rxAt| - 1], RxExit)
  }

  predicate RxMatching(s: State, rxAt: seq<nat>) {
    |rxAt| > 0 && InPhase(s, rxAt[|rxAt| - 1], Matching)
  }

  // The first transmit slot whose TX job is still to be pushed, if it is to have one.
  function Frontier(c: Config, s: State, rxAt: seq<nat>): int {
    c.ahead + |rxAt| - (if RxPassed(s, rxAt) then 0 else 1)
  }

  // TX jobs have been pushed for exactly the downlink slots before f.
  ghost predicate TxUpTo(c: Config, tx: nat, f: int) {
    Q(c, tx) >= f && (forall j: nat :: j < tx ==> Q(c, j) < f)
  }

  function Exiting(s: State): set<nat> {
    set i | i in s.running && s.running[i] == TxExit
  }

  // Conservation of the two L1-TX tokens: in the FIFO, with a TX job not yet handed to the RU, or on
  // the way back.
  predicate TxTokens(s: State, txAt: seq<nat>, turn: seq<nat>) {
    && |turn| <= |txAt|
    && (forall j :: 0 <= j < |txAt| && j in turn ==>
          txAt[j] < s.head && txAt[j] !in s.lost && (txAt[j] in s.running ==> s.running[txAt[j]] == TxExit))
    && (forall j :: 0 <= j < |txAt| && j !in turn ==> txAt[j] >= s.head || InTx(s, txAt[j]) || txAt[j] in s.lost)
    && |s.l1| + (|txAt| - |turn|) + |Exiting(s)| == 2
  }

  // No stale stamp can be taken for the slot being matched.
  predicate Stamps(l1: seq<int>, matching: bool, f: int) {
    if matching then
      && (forall p :: 0 <= p < |l1| ==> l1[p] == IDLE || f - 1 <= l1[p] <= f)
      && (forall p :: 0 <= p < |l1| && l1[p] == f - 1 && l1[p] != IDLE ==> p == 0)
      && f in l1
    else
      && (forall p :: 0 <= p < |l1| ==> l1[p] == IDLE || f - 2 <= l1[p] < f)
      && (forall p :: 0 <= p < |l1| && l1[p] == f - 2 && l1[p] != IDLE ==> p == 0)
  }

  predicate LastFinished(s: State, ruAt: seq<nat>) {
    |ruAt| > 0 ==> Finished(s, ruAt[|ruAt| - 1])
  }

  // The one RU token: at home or held with the number of the next slot to send, or away with the last
  // RU job.
  predicate RuToken(s: State, ruAt: seq<nat>, place: RuPlace, next: nat) {
    var n := |ruAt|;
    && (forall j :: 0 <= j < n - 1 ==> Finished(s, ruAt[j]))
    && (forall i :: i in s.running && s.running[i].Holding? ==> place == Held(i))
    && (match place
        case Home => s.ru == [next] && LastFinished(s, ruAt) && |s.sent| == n
        case Held(i) => InPhase(s, i, Holding(next)) && s.ru == [] && LastFinished(s, ruAt) && |s.sent| == n
        case Away =>
          && s.ru == [] && n > 0 && !Finished(s, ruAt[n - 1])
          && |s.sent| == n - (if InPhase(s, ruAt[n - 1], RuExit) then 0 else 1))
  }

  // Transmissions follow the handovers.
  ghost predicate SentInOrder(c: Config, s: State, turn: seq<nat>) {
    |s.sent| <= |turn| && forall n :: 0 <= n < |s.sent| ==> s.sent[n] == Expected(c, turn[n])
  }

  ghost predicate InvWith(c: Config, s: State, h: Hist) {
    && |h.rxAt| == s.clock && |h.turn| == |h.ruAt|
    && LogShape(c, s.log, h)
    && Increasing(h.rxAt) && Increasing(h.txAt)
    && TxBetweenRx(c, h.txAt, h.rxAt)
    && RuBetweenTx(c, h.txAt, h.ruAt)
    && Workers(c, s)
    && RxToken(s, h.rxAt)
    && TxUpTo(c, |h.txAt|, Frontier(c, s, h.rxAt))
    && Turns(c, h.turn, h.parked, |h.txAt|)
    && TxTokens(s, h.txAt, h.turn)
    && Stamps(s.l1, RxMatching(s, h.rxAt), Frontier(c, s, h.rxAt))
    && RuToken(s, h.ruAt, h.place, NextNum(c, h))
    && CutQueue(s, h.ruAt)
    && SentInOrder(c, s, h.turn)
  }

  function NoHist(): Hist {
    Hist([], [], [], [], Home, [], -1)
  }

  // The parked job after TX job j has handed over.
  function NextParked(h: Hist, j: nat): int {
    if j == h.parked then -1 else if h.parked < 0 && j != |h.turn| then |h.turn| else h.parked
  }

  // The history after a step.
  ghost function Record(c: Config, s: State, h: Hist, step: Step): Hist
    requires Enabled(c, s, step)
  {
    match step
    case Tick => h.(rxAt := h.rxAt + [|s.log|], rank := h.rank + [s.clock])
    case Pick => h
    case Drop => h
    case Fail(_) => h
    case Work(i) =>
      match s.running[i]
      case Decoding(_, _) => if HandsOut(s.running[i]) then h.(rank := h.rank + [0]) else h
      case Matching =>
        if c.isDl(s.log[i].at) then h.(txAt := h.txAt + [|s.log|], rank := h.rank + [|h.txAt|]) else h
      case Waiting => h.(place := Held(i))
      case Holding(next) =>
        if next == c.num(s.log[i].at) && i < |h.rank| then Committed(s, h, h.rank[i]) else h.(place := Home)
      case RuExit => h.(place := Home)
      case _ => h
  }

  function Committed(s: State, h: Hist, j: nat): Hist {
    h.(ruAt := h.ruAt + [|s.log|], rank := h.rank + [|h.ruAt|], place := Away,
       turn := h.turn + [j], parked := NextParked(h, j))
  }
}

module PipelineSafety {
  import opened SlotPipeline
  import opened PipelineInvariant

  lemma TokensAtStart(c: Config)
    requires c.Valid()
    ensures InvWith(c, Init(c), NoHist())
  {
    hide Config.Valid, Init, CutQueue, LogShape, Increasing, TxBetweenRx, RuBetweenTx, Workers, RxToken, TxUpTo, TxTokens, Stamps, RuToken, SentInOrder, Turns;
    hide Frontier, RxMatching;
    NoJobs(c);
    TokensIn(c);
    WorkersIdle(c);
  }

  lemma NoJobs(c: Config)
    requires c.Valid()
    ensures var s, h := Init(c), NoHist();
            && LogShape(c, s.log, h) && Increasing([]) && TxBetweenRx(c, [], []) && RuBetweenTx(c, [], []) && Turns(c, [], -1, 0)
            && TxUpTo(c, 0, Frontier(c, s, []))
  {
    QIsDownlink(c, 0);
  }

  lemma TokensIn(c: Config)
    requires c.Valid()
    ensures var s := Init(c);
            && RxToken(s, []) && TxTokens(s, [], []) && RuToken(s, [], Home, NextNum(c, NoHist()))
            && Stamps(s.l1, RxMatching(s, []), Frontier(c, s, []))
  {
    assert Exiting(Init(c)) == {};
  }

  lemma WorkersIdle(c: Config)
    ensures var s := Init(c);
            Workers(c, s) && CutQueue(s, []) && SentInOrder(c, s, []) && s.clock == 0
  {
  }

  // ---- a step that only moves job i between phases leaves the other kinds alone ----

  ghost predicate Touches(s: State, s': State, i: nat) {
    && s'.head == s.head
    && (forall k :: k != i ==> (k in s'.running <==> k in s.running))
    && (forall k :: k != i && k in s.running ==> s'.running[k] == s.running[k])
    && (forall k: nat :: k < |s.log| ==> (k in s'.lost <==> k in s.lost))
  }

  predicate Inside(s: State, at: seq<nat>) {
    forall k :: 0 <= k < |at| ==> at[k] < |s.log|
  }

  // At most one job is pushed, and lost if the queue is cut.
  predicate AtMostPushes(s: State, s': State) {
    && s.log <= s'.log
    && if |s'.log| == |s.log| then s'.lost == s.lost
       else |s'.log| == |s.log| + 1 && s'.lost == if s.cut then s.lost + {|s.log|} else s.lost
  }

  predicate PhaseIsTxOrHold(s: State, i: nat) {
    i in s.running && (s.running[i].TxExit? || s.running[i].Holding?)
  }

  lemma KindOf(c: Config, log: seq<Job>, h: Hist, i: nat)
    requires LogShape(c, log, h) && i < |log|
    ensures i in h.rxAt ==> log[i].Rx?
    ensures i in h.txAt ==> log[i].Tx?
    ensures i in h.ruAt ==> log[i].Ru?
  {
  }

  // ---- one more job in the log ----

  lemma RxGrows(c: Config, log: seq<Job>, log': seq<Job>, h: Hist, h': Hist)
    requires RxPlaced(c, log, h) && log <= log' && h.rank <= h'.rank
    requires h'.rxAt == h.rxAt || (h'.rxAt == h.rxAt + [|log|] && Places(log', h'.rank, h'.rxAt, |h.rxAt|, RxJob(c, |h.rxAt|)))
    ensures RxPlaced(c, log', h')
  {
    hide RxJob;
    forall k | 0 <= k < |h'.rxAt|
      ensures Places(log', h'.rank, h'.rxAt, k, RxJob(c, k))
    {
      if k < |h.rxAt| {
        assert h'.rxAt[k] == h.rxAt[k];
        assert Places(log, h.rank, h.rxAt, k, RxJob(c, k));
      }
    }
  }

  lemma TxGrows(c: Config, log: seq<Job>, log': seq<Job>, h: Hist, h': Hist)
    requires TxPlaced(c, log, h) && log <= log' && h.rank <= h'.rank
    requires h'.txAt == h.txAt || (h'.txAt == h.txAt + [|log|] && Places(log', h'.rank, h'.txAt, |h.txAt|, TxJob(c, |h.txAt|)))
    ensures TxPlaced(c, log', h')
  {
    hide TxJob;
    forall k | 0 <= k < |h'.txAt|
      ensures Places(log', h'.rank, h'.txAt, k, TxJob(c, k))
    {
      if k < |h.txAt| {
        assert h'.txAt[k] == h.txAt[k];
        assert Places(log, h.rank, h.txAt, k, TxJob(c, k));
      }
    }
  }

  lemma RuGrows(c: Config, log: seq<Job>, log': seq<Job>, h: Hist, h': Hist)
    requires RuPlaced(c, log, h) && log <= log' && h.rank <= h'.rank
    requires || (h'.ruAt == h.ruAt && h'.turn == h.turn)
             || (h'.ruAt == h.ruAt + [|log|] && |h'.turn| == |h.turn| + 1 && h.turn <= h'.turn
                 && Places(log', h'.rank, h'.ruAt, |h.ruAt|, RuJob(c, h'.turn[|h.turn|])))
    ensures RuPlaced(c, log', h')
  {
    hide RuJob;
    forall n | 0 <= n < |h'.ruAt|
      ensures Places(log', h'.rank, h'.ruAt, n, RuJob(c, h'.turn[n]))
    {
      if n < |h.ruAt| {
        assert h'.ruAt[n] == h.ruAt[n] && h'.turn[n] == h.turn[n];
        assert Places(log, h.rank, h.ruAt, n, RuJob(c, h.turn[n]));
      }
    }
  }

  lemma RankedGrows(log: seq<Job>, job: Job, h: Hist, h': Hist, r: nat)
    requires Ranked(log, h) && h'.rank == h.rank + [r]
    requires h.rxAt <= h'.rxAt && h.txAt <= h'.txAt && h.ruAt <= h'.ruAt
    requires match job
             case Rx(_, _, _, _) => r < |h'.rxAt| && h'.rxAt[r] == |log|
             case Dec(_) => true
             case Tx(_, _) => r < |h'.txAt| && h'.txAt[r] == |log|
             case Ru(_, _, _) => r < |h'.ruAt| && h'.ruAt[r] == |log|
    ensures Ranked(log + [job], h')
  {
  }

  // Where the RU token is does not matter for the log.
  lemma PlaceFrame(c: Config, log: seq<Job>, h: Hist, place: RuPlace)
    requires LogShape(c, log, h)
    ensures LogShape(c, log, h.(place := place))
  {
    hide RxPlaced, TxPlaced, RuPlaced;
    var h' := h.(place := place);
    RxGrows(c, log, log, h, h');
    TxGrows(c, log, log, h, h');
    RuGrows(c, log, log, h, h');
  }

  // The log with one more job of the kind whose positions grew.
  lemma LogGrows(c: Config, log: seq<Job>, job: Job, h: Hist, h': Hist, r: nat)
    requires LogShape(c, log, h) && h'.rank == h.rank + [r]
    requires h'.rxAt == h.rxAt || (h'.rxAt == h.rxAt + [|log|] && r == |h.rxAt| && job == RxJob(c, r))
    requires h'.txAt == h.txAt || (h'.txAt == h.txAt + [|log|] && r == |h.txAt| && job == TxJob(c, r))
    requires || (h'.ruAt == h.ruAt && h'.turn == h.turn)
             || (h'.ruAt == h.ruAt + [|log|] && r == |h.ruAt| == |h.turn| && h.turn <= h'.turn
                 && |h'.turn| == r + 1 && job == RuJob(c, h'.turn[r]))
    requires match job
             case Rx(_, _, _, _) => h'.rxAt != h.rxAt
             case Dec(_) => true
             case Tx(_, _) => h'.txAt != h.txAt
             case Ru(_, _, _) => h'.ruAt != h.ruAt
    ensures LogShape(c, log + [job], h')
  {
    hide RxPlaced, TxPlaced, RuPlaced;
    assert |h.rank| == |log|;
    RankedGrows(log, job, h, h', r);
    hide Ranked;
    RxGrows(c, log, log + [job], h, h');
    TxGrows(c, log, log + [job], h, h');
    RuGrows(c, log, log + [job], h, h');
  }

  // Only code blocks lose their receiver.
  predicate DeadBlocks(s: State, s': State) {
    forall k :: k in s'.dead ==> k in s.dead || (k < |s.log| && s.log[k].Dec?)
  }

  // A job changing phase, or ending, keeps within the workers there are.
  lemma WorkersMove(c: Config, s: State, i: nat, s': State)
    requires Workers(c, s) && i in s.running && Touches(s, s', i) && AtMostPushes(s, s')
    requires s.cut && |s'.log| > |s.log| ==> !s'.log[|s.log|].Ru?
    requires s'.dead == s.dead || DeadBlocks(s, s')
    requires s'.cut ==> s.cut || c.workers != 1
    requires s'.running.Keys <= s.running.Keys && (i in s'.running ==> Fits(s.log[i], s'.running[i]))
    ensures Workers(c, s')
  {
    NotMore(s.running, s'.running);
    assert forall k :: k in s'.running ==> k in s.running && s'.log[k] == s.log[k];
  }

  lemma NotMore(running: map<nat, Phase>, running': map<nat, Phase>)
    requires running'.Keys <= running.Keys
    ensures |running'| <= |running|
  {
    assert |running.Keys - running'.Keys| == |running.Keys| - |running'.Keys|;
    assert |running'.Keys| == |running'| && |running.Keys| == |running|;
  }

  lemma RxFrame(s: State, s': State, rxAt: seq<nat>, i: nat)
    requires RxToken(s, rxAt) && Touches(s, s', i) && i !in rxAt && Inside(s, rxAt)
    requires s'.clock == s.clock && s'.rxTokens == s.rxTokens
    ensures RxToken(s', rxAt)
    ensures RxPassed(s', rxAt) == RxPassed(s, rxAt) && RxMatching(s', rxAt) == RxMatching(s, rxAt)
  {
  }

  lemma TxFrame(s: State, s': State, txAt: seq<nat>, turn: seq<nat>, i: nat)
    requires TxTokens(s, txAt, turn) && Touches(s, s', i) && i !in txAt && |s'.l1| == |s.l1| && Inside(s, txAt)
    requires !PhaseIsTxOrHold(s, i) && !PhaseIsTxOrHold(s', i)
    ensures TxTokens(s', txAt, turn)
  {
    assert Exiting(s') == Exiting(s);
  }

  lemma RuFrame(s: State, s': State, ruAt: seq<nat>, place: RuPlace, next: nat, i: nat)
    requires RuToken(s, ruAt, place, next) && Touches(s, s', i) && i !in ruAt && Inside(s, ruAt)
    requires s'.ru == s.ru && s'.sent == s.sent
    requires !PhaseIsTxOrHold(s, i) && (i in s'.running ==> !s'.running[i].Holding?)
    ensures RuToken(s', ruAt, place, next)
  {
  }

  // A queue that is cut only changes by what runs from it.
  lemma CutFrame(s: State, s': State, ruAt: seq<nat>)
    requires CutQueue(s, ruAt) && AtMostPushes(s, s')
    requires s'.head == s.head && s'.dead == s.dead && s'.cut == s.cut
    ensures CutQueue(s', ruAt)
  {
    if s.cut {
      forall k: nat
        ensures Waits(s', k) <==> Waits(s, k)
      {
      }
    }
  }

  // ---- ru_thread ----

  lemma TickKeeps(c: Config, s: State, h: Hist)
    requires c.Valid() && InvWith(c, s, h) && s.rxTokens > 0
    ensures InvWith(c, DoTick(c, s), Record(c, s, h, Tick))
  {
    var s' := DoTick(c, s);
    var h' := h.(rxAt := h.rxAt + [|s.log|], rank := h.rank + [s.clock]);
    assert s'.clock == |h'.rxAt|;
    hide CutQueue, LogShape, Increasing, TxBetweenRx, RuBetweenTx, Workers, RxToken, TxUpTo, TxTokens, Stamps, RuToken, SentInOrder, Turns;
    TickLog(c, s, h);
    LogPositions(c, s, h);
    IncreasingGrows(h.rxAt, |s.log|);
    TickTxBetweenRx(c, s, h);
    TickWorkers(c, s, h);
    TickRx(c, s, h);
    HeadBound(c, s, h);
    CutFrame(s, s', h.ruAt);
    hide DoTick, Frontier, RxMatching;
    assert InvWith(c, s', h');
  }

  lemma TickWorkers(c: Config, s: State, h: Hist)
    requires InvWith(c, s, h) && s.rxTokens > 0
    ensures Workers(c, DoTick(c, s))
  {
    hide CutQueue, LogShape, Increasing, TxBetweenRx, RuBetweenTx, RxToken, TxUpTo, TxTokens, Stamps, RuToken, SentInOrder, Turns;
  }

  lemma TickLog(c: Config, s: State, h: Hist)
    requires LogShape(c, s.log, h) && |h.rxAt| == s.clock && s.rxTokens > 0
    ensures LogShape(c, DoTick(c, s).log, h.(rxAt := h.rxAt + [|s.log|], rank := h.rank + [s.clock]))
  {
    hide LogShape;
    RxLogGrows(c, s.log, h);
  }

  lemma RxLogGrows(c: Config, log: seq<Job>, h: Hist)
    requires LogShape(c, log, h)
    ensures var k := |h.rxAt|;
            LogShape(c, log + [RxJob(c, k)], h.(rxAt := h.rxAt + [|log|], rank := h.rank + [k]))
  {
    hide LogShape;
    var k := |h.rxAt|;
    LogGrows(c, log, RxJob(c, k), h, h.(rxAt := h.rxAt + [|log|], rank := h.rank + [k]), k);
  }

  lemma IncreasingGrows(q: seq<nat>, x: nat)
    requires Increasing(q) && forall k :: 0 <= k < |q| ==> q[k] < x
    ensures Increasing(q + [x])
  {
  }

  lemma TickTxBetweenRx(c: Config, s: State, h: Hist)
    requires InvWith(c, s, h) && s.rxTokens > 0
    ensures TxBetweenRx(c, h.txAt, h.rxAt + [|s.log|])
  {
    hide CutQueue, Increasing, RuBetweenTx, Workers, TxTokens, Stamps, RuToken, SentInOrder, Turns;
    assert RxPassed(s, h.rxAt);
    var rxAt' := h.rxAt + [|s.log|];
    forall j, k | 0 <= j < |h.txAt| && 0 <= k < |rxAt'|
      ensures if k <= Q(c, j) - c.ahead then rxAt'[k] < h.txAt[j] else h.txAt[j] < rxAt'[k]
    {
      assert Q(c, j) < c.ahead + s.clock;
      if k < |h.rxAt| {
        assert rxAt'[k] == h.rxAt[k];
      }
    }
  }

  lemma TickRx(c: Config, s: State, h: Hist)
    requires InvWith(c, s, h) && s.rxTokens > 0
    ensures var s', rxAt' := DoTick(c, s), h.rxAt + [|s.log|];
            && RxToken(s', rxAt')
            && Frontier(c, s', rxAt') == Frontier(c, s, h.rxAt)
            && RxMatching(s', rxAt') == RxMatching(s, h.rxAt)
            && TxTokens(s', h.txAt, h.turn)
            && RuToken(s', h.ruAt, h.place, NextNum(c, h))
            && SentInOrder(c, s', h.turn)
  {
    LogPositions(c, s, h);
    TickRxToken(c, s, h);
    TickOthers(c, s, h);
  }

  lemma TickRxToken(c: Config, s: State, h: Hist)
    requires InvWith(c, s, h) && s.rxTokens > 0 && Inside(s, h.rxAt)
    ensures var s', rxAt' := DoTick(c, s), h.rxAt + [|s.log|];
            && RxToken(s', rxAt')
            && Frontier(c, s', rxAt') == Frontier(c, s, h.rxAt)
            && RxMatching(s', rxAt') == RxMatching(s, h.rxAt)
  {
    hide CutQueue, LogShape, Increasing, TxBetweenRx, RuBetweenTx, TxTokens, RuToken, SentInOrder, TxUpTo, Stamps, Turns;
  }

  lemma TickOthers(c: Config, s: State, h: Hist)
    requires InvWith(c, s, h) && s.rxTokens > 0 && Inside(s, h.txAt) && Inside(s, h.ruAt)
    ensures var s' := DoTick(c, s);
            && TxTokens(s', h.txAt, h.turn)
            && RuToken(s', h.ruAt, h.place, NextNum(c, h))
            && SentInOrder(c, s', h.turn)
  {
    hide CutQueue, LogShape, Increasing, TxBetweenRx, RuBetweenTx, RxToken, Workers, TxUpTo, Stamps, Turns;
    assert Exiting(DoTick(c, s)) == Exiting(s);
  }

  lemma SentFrame(c: Config, s: State, s': State, turn: seq<nat>)
    requires SentInOrder(c, s, turn) && s'.sent == s.sent
    ensures SentInOrder(c, s', turn)
  {
  }

  // ---- a worker takes a job ----

  lemma PickKeeps(c: Config, s: State, h: Hist)
    requires InvWith(c, s, h) && Waits(s, s.head) && |s.running| < c.workers
    ensures InvWith(c, DoPick(s), h)
  {
    hide CutQueue, LogShape, Increasing, TxBetweenRx, RuBetweenTx, Workers, RxToken, TxUpTo, TxTokens, Stamps, RuToken, SentInOrder, Turns;
    var s' := DoPick(s);
    PickTokens(c, s, h);
    PickRx(c, s, h);
    PickRu(c, s, h);
    PickCut(c, s, h);
    SentFrame(c, s, s', h.turn);
    assert InvWith(c, s', h);
  }

  // The only job a cut queue holds is the RU job; with it gone the queue is empty.
  lemma PickCut(c: Config, s: State, h: Hist)
    requires InvWith(c, s, h) && Waits(s, s.head)
    ensures CutQueue(DoPick(s), h.ruAt)
  {
    hide LogShape, Increasing, TxBetweenRx, RuBetweenTx, RxToken, Workers, TxUpTo, TxTokens, Stamps, RuToken, SentInOrder, Turns;
    forall k | s.cut
      ensures !Waits(DoPick(s), k)
    {
      assert Waits(DoPick(s), k) ==> Waits(s, k);
    }
  }

  lemma PickWorkers(c: Config, s: State, h: Hist)
    requires InvWith(c, s, h) && Waits(s, s.head) && |s.running| < c.workers
    ensures Workers(c, DoPick(s)) && s.head !in s.running
  {
    hide CutQueue, LogShape, Increasing, TxBetweenRx, RuBetweenTx, RxToken, TxUpTo, TxTokens, Stamps, RuToken, SentInOrder, Turns, SomeWaits;
  }

  lemma PickTokens(c: Config, s: State, h: Hist)
    requires InvWith(c, s, h) && Waits(s, s.head) && |s.running| < c.workers
    ensures Workers(c, DoPick(s))
    ensures TxTokens(DoPick(s), h.txAt, h.turn)
  {
    PickWorkers(c, s, h);
    hide CutQueue, LogShape, Workers, Increasing, TxBetweenRx, RuBetweenTx, RxToken, TxTokens, TxUpTo, Stamps, RuToken, SentInOrder, Turns, SomeWaits;
    KindOf(c, s.log, h, s.head);
    PickedTx(s, h.txAt, h.turn);
  }

  lemma PickedTx(s: State, txAt: seq<nat>, turn: seq<nat>)
    requires s.head < |s.log| && s.head !in s.running && TxTokens(s, txAt, turn)
    requires s.head in txAt ==> s.log[s.head].Tx?
    ensures TxTokens(DoPick(s), txAt, turn)
  {
    hide SomeWaits;
    var s' := DoPick(s);
    assert forall i :: i in s'.running <==> i in s.running || i == s.head;
    assert Exiting(s') == Exiting(s);
    forall j | 0 <= j < |txAt|
      ensures j in turn ==> txAt[j] < s'.head && (txAt[j] in s'.running ==> s'.running[txAt[j]] == TxExit)
      ensures j !in turn ==> txAt[j] >= s'.head || InTx(s', txAt[j]) || txAt[j] in s.lost
    {
      assert txAt[j] in txAt;
    }
  }

  lemma PickRx(c: Config, s: State, h: Hist)
    requires InvWith(c, s, h) && Waits(s, s.head) && |s.running| < c.workers
    ensures var s' := DoPick(s);
            && RxToken(s', h.rxAt) && Frontier(c, s', h.rxAt) == Frontier(c, s, h.rxAt)
            && RxMatching(s', h.rxAt) == RxMatching(s, h.rxAt)
  {
    hide CutQueue, LogShape, Increasing, TxBetweenRx, RuBetweenTx, TxUpTo, TxTokens, Stamps, RuToken, SentInOrder, Turns, SomeWaits;
    assert s.head !in s.running;
  }

  lemma PickRu(c: Config, s: State, h: Hist)
    requires InvWith(c, s, h) && Waits(s, s.head) && |s.running| < c.workers
    ensures RuToken(DoPick(s), h.ruAt, h.place, NextNum(c, h))
  {
    hide CutQueue, LogShape, Increasing, TxBetweenRx, RuBetweenTx, RxToken, TxTokens, TxUpTo, Stamps, SentInOrder, Turns, SomeWaits;
    var s' := DoPick(s);
    assert s.head !in s.running;
    forall k: nat
      ensures Finished(s', k) == Finished(s, k)
      ensures InPhase(s', k, RuExit) == InPhase(s, k, RuExit)
    {
    }
  }

  // ---- rx_func ----

  // The only unfinished RX job is the last one, and it is for the frontier slot.
  lemma RunningRx(c: Config, s: State, h: Hist, i: nat)
    requires InvWith(c, s, h) && i in s.running && s.log[i].Rx?
    ensures |h.rxAt| > 0 && i == h.rxAt[|h.rxAt| - 1] && i < |s.log| && i < s.head
    ensures s.log[i].at == c.ahead + |h.rxAt| - 1 && s.log[i].ts == c.time(s.log[i].at - c.ahead)
    ensures i !in h.txAt && i !in h.ruAt && s.rxTokens == 0 && h.place != Held(i)
    ensures RxPassed(s, h.rxAt) == s.running[i].RxExit? && RxMatching(s, h.rxAt) == s.running[i].Matching?
  {
    LastRxRuns(c, s, h, i);
    NotHeld(c, s, h, i);
    hide CutQueue, LogShape, Workers, Increasing, TxBetweenRx, RuBetweenTx, TxUpTo, TxTokens, Stamps, RuToken, SentInOrder, Turns;
    KindOf(c, s.log, h, i);
  }

  lemma LastRxRuns(c: Config, s: State, h: Hist, i: nat)
    requires InvWith(c, s, h) && i in s.running && s.log[i].Rx?
    ensures |h.rxAt| > 0 && i == h.rxAt[|h.rxAt| - 1] && i < |s.log| && i < s.head
    ensures s.log[i] == RxJob(c, |h.rxAt| - 1)
  {
    hide CutQueue, Increasing, TxBetweenRx, RuBetweenTx, TxUpTo, TxTokens, Stamps, RuToken, SentInOrder, TxPlaced, RuPlaced, Turns;
    var k := h.rank[i];
    assert h.rxAt[k] == i;
  }

  lemma NotHeld(c: Config, s: State, h: Hist, i: nat)
    requires InvWith(c, s, h) && i in s.running && s.log[i].Rx?
    ensures h.place != Held(i)
  {
    hide CutQueue, LogShape, Increasing, TxBetweenRx, RuBetweenTx, RxToken, TxUpTo, TxTokens, Stamps, SentInOrder, Turns;
  }

  // Moving the RX job to another phase keeps everything the other tokens are about.
  lemma RxJobFrame(c: Config, s: State, h: Hist, i: nat, phase: Phase, s': State)
    requires InvWith(c, s, h) && i in s.running && s.log[i].Rx? && Fits(s.log[i], phase)
    requires s' == s.(l1 := s'.l1, running := s.running[i := phase], log := s'.log, resp := s'.resp, dead := s'.dead,
                      lost := s'.lost, cut := s'.cut)
    requires AtMostPushes(s, s') && (|s'.log| > |s.log| ==> !s'.log[|s.log|].Ru?)
    requires s'.dead == s.dead || DeadBlocks(s, s')
    requires s'.cut ==> s.cut || c.workers != 1
    ensures Workers(c, s') && RxToken(s', h.rxAt) && SentInOrder(c, s', h.turn)
    ensures RuToken(s', h.ruAt, h.place, NextNum(c, h))
    ensures RxPassed(s', h.rxAt) == phase.RxExit? && RxMatching(s', h.rxAt) == phase.Matching?
    ensures Exiting(s') == Exiting(s)
  {
    hide CutQueue, LogShape, Increasing, TxBetweenRx, RuBetweenTx, Workers, RxToken, TxUpTo, TxTokens, Stamps, RuToken, SentInOrder, Turns, DeadBlocks;
    FitsRunning(c, s, h, i);
    RunningRx(c, s, h, i);
    LogPositions(c, s, h);
    assert s'.running.Keys == s.running.Keys;
    WorkersMove(c, s, i, s');
    RxMoves(s, s', h.rxAt, i, phase);
    RuFrame(s, s', h.ruAt, h.place, NextNum(c, h), i);
    SentFrame(c, s, s', h.turn);
  }

  lemma RxMoves(s: State, s': State, rxAt: seq<nat>, i: nat, phase: Phase)
    requires RxToken(s, rxAt) && i in s.running && s'.running == s.running[i := phase]
    requires s'.head == s.head && s'.rxTokens == s.rxTokens && |rxAt| > 0 && i == rxAt[|rxAt| - 1]
    requires AtMostPushes(s, s') && Inside(s, rxAt)
    ensures RxToken(s', rxAt)
    ensures RxPassed(s', rxAt) == phase.RxExit? && RxMatching(s', rxAt) == phase.Matching?
  {
  }

  // rx_func giving up on a transport block, which with one worker cannot happen.
  lemma FailKeeps(c: Config, s: State, h: Hist, i: nat)
    requires InvWith(c, s, h) && i in s.running && i < |s.log| && s.log[i].Rx? && s.running[i].Decoding?
    requires c.workers != 1
    ensures InvWith(c, DoFail(s, i), h)
  {
    hide CutQueue, LogShape, Increasing, TxBetweenRx, RuBetweenTx, Workers, RxToken, TxUpTo, TxTokens, Stamps, RuToken, SentInOrder, Turns;
    hide SomeWaits, LastIsWanted;
    RunningRx(c, s, h, i);
    var s' := DoFail(s, i);
    RxJobFrame(c, s, h, i, s'.running[i], s');
    TxJobsFrame(c, s, h, i, s');
    FailCut(c, s, h, i);
  }

  // Besides the code blocks of the slot being decoded, only the RU job can be in the queue.
  lemma FailCut(c: Config, s: State, h: Hist, i: nat)
    requires InvWith(c, s, h) && i in s.running && i < |s.log| && s.log[i].Rx? && s.running[i].Decoding?
    ensures CutQueue(DoFail(s, i), h.ruAt)
  {
    hide InvWith, LastIsWanted, DecJobs;
    var s' := DoFail(s, i);
    forall m: nat | Waits(s', m)
      ensures |h.ruAt| > 0 && m == h.ruAt[|h.ruAt| - 1]
    {
      assert Waits(s, m) && m !in DecJobs(s);
      OnlyRuWaits(c, s, h, i, m);
    }
    if s'.cut {
      CutNotEmpty(s, i);
      var k :| Waits(s', k);
      assert k == h.ruAt[|h.ruAt| - 1];
    }
  }

  lemma CutNotEmpty(s: State, i: nat)
    requires i in s.running && s.running[i].Decoding? && DoFail(s, i).cut
    ensures exists k :: Waits(DoFail(s, i), k)
  {
    hide LastIsWanted, DecJobs;
    var s' := s.(resp := 0, dead := s.dead + DecJobs(s), running := s.running[i := Decoding(s.running[i].todo, 0)]);
    var k :| Waits(s', k);
    assert Waits(DoFail(s, i), k);
  }

  lemma OnlyRuWaits(c: Config, s: State, h: Hist, i: nat, k: nat)
    requires InvWith(c, s, h) && i in s.running && i < |s.log| && s.log[i].Rx? && s.running[i].Decoding?
    requires Waits(s, k) && k !in DecJobs(s)
    ensures |h.ruAt| > 0 && k == h.ruAt[|h.ruAt| - 1]
  {
    hide InvWith;
    RunningRx(c, s, h, i);
    TxBeforeRx(c, s, h, i);
    RankOf(c, s, h, k);
    UnfinishedJob(c, s, h);
  }

  lemma RankOf(c: Config, s: State, h: Hist, k: nat)
    requires InvWith(c, s, h) && k < |s.log|
    ensures s.log[k].Rx? ==> exists r :: 0 <= r < |h.rxAt| && h.rxAt[r] == k
    ensures s.log[k].Tx? ==> exists r :: 0 <= r < |h.txAt| && h.txAt[r] == k
    ensures s.log[k].Ru? ==> exists r :: 0 <= r < |h.ruAt| && h.ruAt[r] == k
  {
    hide CutQueue, Increasing, TxBetweenRx, RuBetweenTx, Workers, RxToken, TxUpTo, TxTokens, Stamps, RuToken, SentInOrder, Turns, RxPlaced, TxPlaced, RuPlaced;
    var r := h.rank[k];
  }

  lemma UnfinishedJob(c: Config, s: State, h: Hist)
    requires InvWith(c, s, h)
    ensures forall k :: 0 <= k < |h.rxAt| - 1 ==> Finished(s, h.rxAt[k])
    ensures forall k :: 0 <= k < |h.ruAt| - 1 ==> Finished(s, h.ruAt[k])
  {
    hide CutQueue, LogShape, Increasing, TxBetweenRx, RuBetweenTx, Workers, TxUpTo, TxTokens, Stamps, SentInOrder, Turns;
  }

  // All TX jobs were pushed before the RX job that is decoding, and have been picked or lost.
  lemma TxBeforeRx(c: Config, s: State, h: Hist, i: nat)
    requires InvWith(c, s, h) && i in s.running && i < |s.log| && s.log[i].Rx? && s.running[i].Decoding?
    ensures forall j :: 0 <= j < |h.txAt| ==> h.txAt[j] < i < s.head
  {
    RunningRx(c, s, h, i);
    hide CutQueue, LogShape, Increasing, RuBetweenTx, Workers, RxToken, TxTokens, Stamps, RuToken, SentInOrder, Turns, RxPassed;
  }

  // The queue passing over a job that is not in it.
  lemma DropKeeps(c: Config, s: State, h: Hist)
    requires InvWith(c, s, h) && s.head < |s.log| && !Waits(s, s.head)
    ensures InvWith(c, s.(head := s.head + 1), h)
  {
    hide CutQueue, LogShape, Increasing, TxBetweenRx, RuBetweenTx, Workers, RxToken, TxUpTo, TxTokens, Stamps, RuToken, SentInOrder, Turns;
    var s' := s.(head := s.head + 1);
    Dropped(c, s, h);
    KindOf(c, s.log, h, s.head);
    DropTx(s, h.txAt, h.turn);
    DropRx(s, h.rxAt);
    DropRu(s, h.ruAt, h.place, NextNum(c, h));
    DropCut(s, h.ruAt);
    SentFrame(c, s, s', h.turn);
  }

  lemma Dropped(c: Config, s: State, h: Hist)
    requires InvWith(c, s, h) && s.head < |s.log| && !Waits(s, s.head)
    ensures s.log[s.head].Dec? || (s.head in s.lost && !s.log[s.head].Ru?)
    ensures s.head !in s.running && Workers(c, s.(head := s.head + 1))
  {
    hide CutQueue, LogShape, Increasing, TxBetweenRx, RuBetweenTx, RxToken, TxUpTo, TxTokens, Stamps, RuToken, SentInOrder, Turns;
  }

  lemma DropCut(s: State, ruAt: seq<nat>)
    requires CutQueue(s, ruAt) && !Waits(s, s.head)
    ensures CutQueue(s.(head := s.head + 1), ruAt)
  {
    var s' := s.(head := s.head + 1);
    forall k: nat
      ensures Waits(s', k) <==> Waits(s, k)
    {
      if k == s.head {
        assert !Waits(s, k);
      }
    }
  }

  lemma DropTx(s: State, txAt: seq<nat>, turn: seq<nat>)
    requires TxTokens(s, txAt, turn) && (s.head !in txAt || s.head in s.lost)
    ensures TxTokens(s.(head := s.head + 1), txAt, turn)
  {
    assert Exiting(s.(head := s.head + 1)) == Exiting(s);
  }

  lemma DropRx(s: State, rxAt: seq<nat>)
    requires RxToken(s, rxAt) && (s.head !in rxAt || s.head in s.lost)
    ensures var s' := s.(head := s.head + 1);
            RxToken(s', rxAt) && RxPassed(s', rxAt) == RxPassed(s, rxAt) && RxMatching(s', rxAt) == RxMatching(s, rxAt)
  {
  }

  lemma DropRu(s: State, ruAt: seq<nat>, place: RuPlace, next: nat)
    requires RuToken(s, ruAt, place, next) && s.head !in ruAt
    ensures RuToken(s.(head := s.head + 1), ruAt, place, next)
  {
  }

  // rx_func handing out code blocks and collecting results.
  lemma DecodeKeeps(c: Config, s: State, h: Hist, i: nat)
    requires InvWith(c, s, h) && i in s.running && i < |s.log| && s.log[i].Rx? && s.running[i].Decoding?
    requires Collects(s.running[i]) ==> s.resp > 0
    ensures InvWith(c, DoDecode(s, i), if HandsOut(s.running[i]) then h.(rank := h.rank + [0]) else h)
  {
    hide CutQueue, LogShape, Increasing, TxBetweenRx, RuBetweenTx, Workers, RxToken, TxUpTo, TxTokens, Stamps, RuToken, SentInOrder, Turns;
    RunningRx(c, s, h, i);
    var s' := DoDecode(s, i);
    RxJobFrame(c, s, h, i, s'.running[i], s');
    TxJobsFrame(c, s, h, i, s');
    HeadBound(c, s, h);
    CutFrame(s, s', h.ruAt);
    if HandsOut(s.running[i]) {
      LogGrows(c, s.log, Dec(s.log[i].n), h, h.(rank := h.rank + [0]), 0);
    }
  }

  lemma ScheduleKeeps(c: Config, s: State, h: Hist, i: nat)
    requires c.Valid() && InvWith(c, s, h) && i in s.running && s.running[i] == Scheduling && |s.l1| > 0 && s.log[i].Rx?
    ensures InvWith(c, DoSchedule(s, i), h)
  {
    hide CutQueue, LogShape, Increasing, TxBetweenRx, RuBetweenTx, Workers, RxToken, TxUpTo, TxTokens, Stamps, RuToken, SentInOrder, Turns;
    RunningRx(c, s, h, i);
    var s' := DoSchedule(s, i);
    RxJobFrame(c, s, h, i, Matching, s');
    ScheduleTokens(c, s, h, i);
    CutFrame(s, s', h.ruAt);
    assert InvWith(c, s', h);
  }

  lemma ScheduleTokens(c: Config, s: State, h: Hist, i: nat)
    requires c.Valid() && InvWith(c, s, h) && i in s.running && s.running[i] == Scheduling && |s.l1| > 0 && s.log[i].Rx?
    ensures i < |s.log|
    ensures TxTokens(DoSchedule(s, i), h.txAt, h.turn)
    ensures Stamps(s.l1[1..] + [s.log[i].at], true, Frontier(c, s, h.rxAt))
  {
    hide CutQueue, LogShape, Increasing, TxBetweenRx, RuBetweenTx, Workers, RxToken, TxUpTo, RuToken, SentInOrder, Turns;
    RunningRx(c, s, h, i);
    var s' := DoSchedule(s, i);
    assert Exiting(s') == Exiting(s);
    assert (s.l1[1..] + [s.log[i].at])[|s.l1| - 1] == s.log[i].at;
  }

  // The first token showing the slot number of f carries exactly f.
  lemma StampFound(c: Config, l1: seq<int>, f: int)
    requires c.Valid() && Stamps(l1, true, f) && f >= 1
    ensures FindStamp(c, l1, f) < |l1| && l1[FindStamp(c, l1, f)] == f
  {
    var p := FindStamp(c, l1, f);
    var q :| 0 <= q < |l1| && l1[q] == f;
    assert SlotField(c, l1[q]) == c.num(f);
    assert p <= q;
    assert c.num(f - 1) != c.num(f);
  }

  lemma StampsAfterMatch(l1: seq<int>, f: int, p: nat)
    requires Stamps(l1, true, f) && |l1| <= 2 && p < |l1|
    ensures Stamps(l1, false, f + 1) && Stamps(TakeAt(l1, p), false, f + 1)
  {
    var rest := TakeAt(l1, p);
    assert forall q :: 0 <= q < |rest| ==> rest[q] in l1;
  }

  lemma UplinkFrontier(c: Config, tx: nat, f: int)
    requires c.Valid() && TxUpTo(c, tx, f) && !c.isDl(f)
    ensures TxUpTo(c, tx, f + 1)
  {
    QIsDownlink(c, tx);
  }

  lemma DownlinkFrontier(c: Config, tx: nat, f: int)
    requires c.Valid() && TxUpTo(c, tx, f) && c.isDl(f) && c.ahead <= f
    ensures Q(c, tx) == f && TxUpTo(c, tx + 1, f + 1)
  {
    QIsDownlink(c, tx);
    var before := if tx == 0 then c.ahead - 1 else Q(c, tx - 1);
    assert Q(c, tx) == c.nextDl(before) && before < f;
    assert !(before < f < c.nextDl(before));
  }

  lemma MatchUplinkKeeps(c: Config, s: State, h: Hist, i: nat)
    requires c.Valid() && InvWith(c, s, h) && i in s.running && s.running[i] == Matching && s.log[i].Rx?
    requires !c.isDl(s.log[i].at)
    ensures InvWith(c, s.(running := s.running[i := RxExit]), h)
  {
    hide CutQueue, LogShape, Increasing, TxBetweenRx, RuBetweenTx, Workers, RxToken, TxUpTo, TxTokens, Stamps, RuToken, SentInOrder, Turns;
    var s' := s.(running := s.running[i := RxExit]);
    RunningRx(c, s, h, i);
    RxJobFrame(c, s, h, i, RxExit, s');
    TxJobsFrame(c, s, h, i, s');
    var p := MatchedToken(c, s, h, i);
    StampsAfterMatch(s.l1, s.log[i].at, p);
    UplinkFrontier(c, |h.txAt|, s.log[i].at);
    CutFrame(s, s', h.ruAt);
    assert InvWith(c, s', h);
  }

  // While the RX job is matching, its stamped token is in the FIFO.
  lemma MatchedToken(c: Config, s: State, h: Hist, i: nat) returns (p: nat)
    requires c.Valid() && InvWith(c, s, h) && i in s.running && s.running[i] == Matching && s.log[i].Rx?
    ensures i < |s.log| && Stamps(s.l1, true, s.log[i].at) && s.log[i].at >= 1
    ensures p == FindStamp(c, s.l1, s.log[i].at) < |s.l1| <= 2 && s.l1[p] == s.log[i].at
    ensures |h.txAt| < |h.ruAt| + 2
  {
    hide CutQueue, LogShape, Increasing, TxBetweenRx, RuBetweenTx, Workers, RxToken, TxUpTo, Stamps, RuToken, SentInOrder, Turns;
    RunningRx(c, s, h, i);
    StampFound(c, s.l1, s.log[i].at);
    p := FindStamp(c, s.l1, s.log[i].at);
  }

  // The RX job moving on leaves the TX jobs alone.
  lemma TxJobsFrame(c: Config, s: State, h: Hist, i: nat, s': State)
    requires InvWith(c, s, h) && i in s.running && s.log[i].Rx? && Touches(s, s', i) && |s'.l1| == |s.l1|
    requires !PhaseIsTxOrHold(s', i)
    ensures TxTokens(s', h.txAt, h.turn)
  {
    hide CutQueue, LogShape, Increasing, TxBetweenRx, RuBetweenTx, Workers, RxToken, TxUpTo, TxTokens, Stamps, RuToken, SentInOrder, Turns;
    RunningRx(c, s, h, i);
    assert !PhaseIsTxOrHold(s, i) by { FitsRunning(c, s, h, i); }
    LogPositions(c, s, h);
    TxFrame(s, s', h.txAt, h.turn, i);
  }

  lemma FitsRunning(c: Config, s: State, h: Hist, i: nat)
    requires InvWith(c, s, h) && i in s.running
    ensures i < s.head <= |s.log| && Fits(s.log[i], s.running[i]) && i !in s.lost
  {
    hide CutQueue, LogShape, Increasing, TxBetweenRx, RuBetweenTx, RxToken, TxUpTo, TxTokens, Stamps, RuToken, SentInOrder, Turns;
  }

  lemma MatchDownlinkKeeps(c: Config, s: State, h: Hist, i: nat)
    requires c.Valid() && InvWith(c, s, h) && i in s.running && s.running[i] == Matching && s.log[i].Rx?
    requires c.isDl(s.log[i].at)
    ensures CanWork(c, s, i)
    ensures InvWith(c, DoMatch(c, s, i), WithTx(s, h))
  {
    hide CutQueue, LogShape, Increasing, TxBetweenRx, RuBetweenTx, Workers, RxToken, TxUpTo, TxTokens, Stamps, RuToken, SentInOrder, Turns, Frontier, RxPassed, RxMatching;
    MatchCanWork(c, s, h, i);
    var s' := DoMatch(c, s, i);
    MatchRxSide(c, s, h, i, s');
    MatchTxSide(c, s, h, i, s');
    hide DoMatch;
    assert InvWith(c, s', WithTx(s, h));
  }

  // The history with one more TX job.
  function WithTx(s: State, h: Hist): Hist {
    h.(txAt := h.txAt + [|s.log|], rank := h.rank + [|h.txAt|])
  }

  lemma MatchCanWork(c: Config, s: State, h: Hist, i: nat)
    requires c.Valid() && InvWith(c, s, h) && i in s.running && s.running[i] == Matching && s.log[i].Rx?
    ensures CanWork(c, s, i)
  {
    hide CutQueue, LogShape, Increasing, TxBetweenRx, RuBetweenTx, Workers, RxToken, TxUpTo, TxTokens, Stamps, RuToken, SentInOrder, Turns;
    FitsRunning(c, s, h, i);
    var p := MatchedToken(c, s, h, i);
  }

  lemma MatchRxSide(c: Config, s: State, h: Hist, i: nat, s': State)
    requires CanWork(c, s, i) && s.running[i] == Matching && s.log[i].Rx? && c.isDl(s.log[i].at) && s' == DoMatch(c, s, i)
    requires c.Valid() && InvWith(c, s, h)
    ensures Workers(c, s') && RxToken(s', h.rxAt) && SentInOrder(c, s', h.turn) && CutQueue(s', h.ruAt)
    ensures s'.clock == s.clock
    ensures RuToken(s', h.ruAt, h.place, NextNum(c, h))
    ensures Stamps(s'.l1, RxMatching(s', h.rxAt), Frontier(c, s', h.rxAt))
    ensures TxUpTo(c, |h.txAt| + 1, Frontier(c, s', h.rxAt))
  {
    hide CutQueue, LogShape, Increasing, TxBetweenRx, RuBetweenTx, Workers, RxToken, TxUpTo, TxTokens, Stamps, RuToken, SentInOrder, Turns, NextNum;
    MatchPushes(c, s, i);
    hide DoMatch, AtMostPushes, FindStamp;
    RunningRx(c, s, h, i);
    var p := MatchedToken(c, s, h, i);
    RxJobFrame(c, s, h, i, RxExit, s');
    StampsAfterMatch(s.l1, s.log[i].at, p);
    DownlinkFrontier(c, |h.txAt|, s.log[i].at);
    CutFrame(s, s', h.ruAt);
  }

  lemma MatchTxSide(c: Config, s: State, h: Hist, i: nat, s': State)
    requires CanWork(c, s, i) && s.running[i] == Matching && s.log[i].Rx? && c.isDl(s.log[i].at) && s' == DoMatch(c, s, i)
    requires c.Valid() && InvWith(c, s, h)
    ensures LogShape(c, s'.log, WithTx(s, h)) && Increasing(h.txAt + [|s.log|])
    ensures TxBetweenRx(c, h.txAt + [|s.log|], h.rxAt) && RuBetweenTx(c, h.txAt + [|s.log|], h.ruAt)
    ensures TxTokens(s', h.txAt + [|s.log|], h.turn) && Turns(c, h.turn, h.parked, |h.txAt| + 1)
  {
    hide CutQueue, LogShape, Increasing, TxBetweenRx, RuBetweenTx, Workers, RxToken, TxUpTo, TxTokens, Stamps, RuToken, SentInOrder, Turns, NextNum;
    MatchPushes(c, s, i);
    hide DoMatch, AtMostPushes, FindStamp;
    RunningRx(c, s, h, i);
    var p := MatchedToken(c, s, h, i);
    DownlinkFrontier(c, |h.txAt|, s.log[i].at);
    PushTxLog(c, s, h, s');
    PushTxOrder(c, s, h, i);
    PushTxTokens(c, s, h, i, s');
    TurnsBound(c, h.turn, h.parked, |h.txAt|);
  }

  lemma MatchPushes(c: Config, s: State, i: nat)
    requires CanWork(c, s, i) && s.running[i].Matching? && c.isDl(s.log[i].at)
    ensures var s', p := DoMatch(c, s, i), FindStamp(c, s.l1, s.log[i].at);
            && AtMostPushes(s, s')
            && s' == s.(l1 := TakeAt(s.l1, p), running := s.running[i := RxExit], lost := s'.lost,
                        log := s.log + [Tx(s.l1[p], s.log[i].ts)])
  {
  }

  lemma PushTxLog(c: Config, s: State, h: Hist, s': State)
    requires InvWith(c, s, h)
    requires s'.log == s.log + [Tx(Q(c, |h.txAt|), Expected(c, |h.txAt|).ts)]
    ensures LogShape(c, s'.log, h.(txAt := h.txAt + [|s.log|], rank := h.rank + [|h.txAt|]))
    ensures Increasing(h.txAt + [|s.log|])
  {
    LogPositions(c, s, h);
    hide CutQueue, LogShape, Increasing, TxBetweenRx, RuBetweenTx, Workers, RxToken, TxUpTo, TxTokens, Stamps, RuToken, SentInOrder, Turns;
    IncreasingGrows(h.txAt, |s.log|);
    var h' := h.(txAt := h.txAt + [|s.log|], rank := h.rank + [|h.txAt|]);
    LogGrows(c, s.log, TxJob(c, |h.txAt|), h, h', |h.txAt|);
  }

  lemma PushTxOrder(c: Config, s: State, h: Hist, i: nat)
    requires c.Valid() && InvWith(c, s, h) && i in s.running && s.running[i] == Matching && s.log[i].Rx?
    requires s.log[i].at == Q(c, |h.txAt|)
    ensures TxBetweenRx(c, h.txAt + [|s.log|], h.rxAt)
    ensures RuBetweenTx(c, h.txAt + [|s.log|], h.ruAt)
  {
    hide CutQueue, LogShape, Increasing, TxBetweenRx, RuBetweenTx, Workers, RxToken, TxUpTo, TxTokens, Stamps, RuToken, SentInOrder, Turns;
    RunningRx(c, s, h, i);
    var p := MatchedToken(c, s, h, i);
    LogPositions(c, s, h);
    LagHolds(c, s, h);
    if c.workers == 1 {
      SoleWorkerOnRx(c, s, h, i);
    }
    TxComesLast(c, h.txAt, h.rxAt, |s.log|);
    RuComesBefore(c, h.txAt, h.ruAt, |s.log|);
  }

  lemma TxComesLast(c: Config, txAt: seq<nat>, rxAt: seq<nat>, at: nat)
    requires TxBetweenRx(c, txAt, rxAt) && Q(c, |txAt|) == c.ahead + |rxAt| - 1
    requires forall k :: 0 <= k < |rxAt| ==> rxAt[k] < at
    ensures TxBetweenRx(c, txAt + [at], rxAt)
  {
    hide Q;
  }

  lemma RuComesBefore(c: Config, txAt: seq<nat>, ruAt: seq<nat>, at: nat)
    requires RuBetweenTx(c, txAt, ruAt) && |txAt| < |ruAt| + Lag(c)
    requires forall k :: 0 <= k < |ruAt| ==> ruAt[k] < at
    ensures RuBetweenTx(c, txAt + [at], ruAt)
  {
  }

  lemma LogPositions(c: Config, s: State, h: Hist)
    requires InvWith(c, s, h)
    ensures forall k :: 0 <= k < |h.rxAt| ==> h.rxAt[k] < |s.log|
    ensures forall k :: 0 <= k < |h.txAt| ==> h.txAt[k] < |s.log|
    ensures forall k :: 0 <= k < |h.ruAt| ==> h.ruAt[k] < |s.log|
  {
    hide CutQueue, Increasing, TxBetweenRx, RuBetweenTx, Workers, RxToken, TxUpTo, TxTokens, Stamps, RuToken, SentInOrder, Turns;
  }

  // With one worker, an RX job runs only when every TX job pushed so far has handed over.
  lemma SoleWorkerOnRx(c: Config, s: State, h: Hist, i: nat)
    requires c.Valid() && InvWith(c, s, h) && c.workers == 1
    requires i in s.running && s.log[i].Rx? && !s.running[i].RxExit?
    ensures |h.txAt| == |h.ruAt|
  {
    hide CutQueue, LogShape, Increasing, RuBetweenTx, Workers, RxToken, Stamps, RuToken, SentInOrder, Turns;
    SoleLosesNothing(c, s, h);
    FitsRunning(c, s, h, i);
    RunningRx(c, s, h, i);
    TurnsBound(c, h.turn, h.parked, |h.txAt|);
    if |h.ruAt| < |h.txAt| {
      var j := |h.txAt| - 1;
      assert Q(c, j) < c.ahead + |h.rxAt| - 1;
      assert h.txAt[j] < h.rxAt[|h.rxAt| - 1];
      assert h.txAt[j] in s.running && h.txAt[j] != i;
      OneRunning(c, s, h, i, h.txAt[j]);
    }
  }

  lemma SoleLosesNothing(c: Config, s: State, h: Hist)
    requires InvWith(c, s, h)
    ensures c.workers == 1 ==> s.lost == {} && !s.cut
  {
    hide CutQueue, LogShape, Increasing, TxBetweenRx, RuBetweenTx, RxToken, TxUpTo, TxTokens, Stamps, RuToken, SentInOrder, Turns;
  }

  lemma OneRunning(c: Config, s: State, h: Hist, i: nat, k: nat)
    requires InvWith(c, s, h) && c.workers == 1 && i in s.running && k in s.running
    ensures i == k
  {
    hide CutQueue, LogShape, Increasing, TxBetweenRx, RuBetweenTx, RxToken, TxUpTo, TxTokens, Stamps, RuToken, SentInOrder, Turns;
    var both := {i, k};
    assert |s.running.Keys - both| == |s.running.Keys| - |both|;
  }

  lemma PushTxTokens(c: Config, s: State, h: Hist, i: nat, s': State)
    requires InvWith(c, s, h) && i in s.running && s.log[i].Rx?
    requires s' == s.(l1 := s'.l1, running := s.running[i := RxExit], log := s'.log, lost := s'.lost)
    requires AtMostPushes(s, s') && |s'.l1| == |s.l1| - 1
    ensures TxTokens(s', h.txAt + [|s.log|], h.turn)
  {
    hide CutQueue, LogShape, Increasing, TxBetweenRx, RuBetweenTx, Workers, RxToken, TxUpTo, Stamps, RuToken, SentInOrder, Turns;
    FitsRunning(c, s, h, i);
    RunningRx(c, s, h, i);
    TurnsBound(c, h.turn, h.parked, |h.txAt|);
    assert Exiting(s') == Exiting(s);
  }

  // ---- tx_func ----

  // A running TX job that looks for the RU token has not handed over.
  lemma RunningTx(c: Config, s: State, h: Hist, i: nat) returns (j: nat)
    requires InvWith(c, s, h) && InTx(s, i)
    ensures i < |s.log| && i < s.head && j < |h.txAt| && j !in h.turn && i == h.txAt[j]
    ensures i < |h.rank| && j == h.rank[i]
    ensures s.log[i] == Tx(Q(c, j), Expected(c, j).ts)
    ensures i !in h.rxAt && i !in h.ruAt
  {
    hide CutQueue, Increasing, TxBetweenRx, RuBetweenTx, Workers, RxToken, TxUpTo, Stamps, RuToken, SentInOrder, Turns;
    FitsRunning(c, s, h, i);
    KindOf(c, s.log, h, i);
    j := h.rank[i];
  }

  // A TX job that finds its slot number on the RU token takes its turn.
  lemma TurnTaken(c: Config, h: Hist, tx: nat, j: nat)
    requires Turns(c, h.turn, h.parked, tx) && j < tx <= |h.turn| + Lag(c) && j !in h.turn
    requires c.num(Q(c, j)) == c.num(Q(c, Upcoming(h.turn, h.parked)))
    ensures Turns(c, h.turn + [j], NextParked(h, j), tx)
    ensures c.num(Q(c, j + 1)) == c.num(Q(c, Upcoming(h.turn + [j], NextParked(h, j))))
  {
    var turn, parked := h.turn, h.parked;
    var t := |turn|;
    QNext(c, j);
    QNext(c, t);
    if parked >= 0 {
      QNext(c, parked);
    }
    hide Q;
    assert (turn + [j])[t] == j;
    assert forall k: nat :: k in turn + [j] <==> k in turn || k == j;
  }

  lemma TurnsBound(c: Config, turn: seq<nat>, parked: int, tx: nat)
    requires Turns(c, turn, parked, tx)
    ensures Turns(c, turn, parked, tx + 1) && tx !in turn
    ensures c.workers == 1 && |turn| < tx ==> tx - 1 !in turn
    ensures |turn| > 0 ==> c.num(Q(c, turn[|turn| - 1] + 1)) == c.num(Q(c, Upcoming(turn, parked)))
  {
  }

  lemma QNext(c: Config, j: nat)
    ensures Q(c, j + 1) == c.nextDl(Q(c, j))
  {
  }

  // Moving a TX job to another phase keeps everything the RX token is about.
  lemma TxJobFrame(c: Config, s: State, h: Hist, i: nat, s': State)
    requires InvWith(c, s, h) && i in s.running && i < |s.log| && s.log[i].Tx?
    requires s' == s.(l1 := s'.l1, ru := s'.ru, running := s'.running, log := s'.log)
    requires s.log <= s'.log && |s'.log| <= |s.log| + 1 && (s'.log == s.log || !s.cut)
    requires Touches(s, s', i) && s'.running.Keys <= s.running.Keys
    requires i in s'.running ==> Fits(s.log[i], s'.running[i])
    ensures Workers(c, s') && SentInOrder(c, s', h.turn)
    ensures RxToken(s', h.rxAt) && Frontier(c, s', h.rxAt) == Frontier(c, s, h.rxAt)
    ensures RxMatching(s', h.rxAt) == RxMatching(s, h.rxAt)
  {
    hide CutQueue, LogShape, Increasing, TxBetweenRx, RuBetweenTx, Workers, RxToken, TxUpTo, TxTokens, Stamps, RuToken, Turns;
    KindOf(c, s.log, h, i);
    LogPositions(c, s, h);
    RxFrame(s, s', h.rxAt, i);
    WorkersMove(c, s, i, s');
  }

  lemma PullKeeps(c: Config, s: State, h: Hist, i: nat)
    requires InvWith(c, s, h) && i in s.running && s.running[i] == Waiting && |s.ru| > 0
    ensures InvWith(c, DoPull(s, i), h.(place := Held(i)))
  {
    hide CutQueue, LogShape, Increasing, TxBetweenRx, RuBetweenTx, Workers, RxToken, TxUpTo, TxTokens, Stamps, RuToken, SentInOrder, Turns;
    FitsRunning(c, s, h, i);
    var j := RunningTx(c, s, h, i);
    var s' := DoPull(s, i);
    TxJobFrame(c, s, h, i, s');
    TxPhaseChange(c, s, h, i, s');
    PullRu(c, s, h, i);
    PlaceFrame(c, s.log, h, Held(i));
    CutFrame(s, s', h.ruAt);
    assert InvWith(c, s', h.(place := Held(i)));
  }

  lemma TxPhaseChange(c: Config, s: State, h: Hist, i: nat, s': State)
    requires InvWith(c, s, h) && InTx(s, i) && InTx(s', i) && Touches(s, s', i) && s'.l1 == s.l1 && s'.lost == s.lost
    ensures TxTokens(s', h.txAt, h.turn)
  {
    hide CutQueue, LogShape, Increasing, TxBetweenRx, RuBetweenTx, Workers, RxToken, TxUpTo, Stamps, RuToken, SentInOrder, Turns;
    var j := RunningTx(c, s, h, i);
    assert Exiting(s') == Exiting(s);
  }

  lemma PullRu(c: Config, s: State, h: Hist, i: nat)
    requires InvWith(c, s, h) && i in s.running && s.running[i] == Waiting && |s.ru| > 0
    ensures RuToken(DoPull(s, i), h.ruAt, Held(i), NextNum(c, h))
  {
    hide CutQueue, LogShape, Increasing, TxBetweenRx, RuBetweenTx, Workers, RxToken, TxUpTo, TxTokens, Stamps, SentInOrder, Turns;
    var j := RunningTx(c, s, h, i);
  }

  // The token the job holds shows the number of the next slot to send.
  lemma HeldToken(c: Config, s: State, h: Hist, i: nat)
    requires InvWith(c, s, h) && i in s.running && s.running[i].Holding?
    ensures h.place == Held(i) && s.running[i].next == NextNum(c, h)
  {
    hide CutQueue, LogShape, Increasing, TxBetweenRx, RuBetweenTx, Workers, RxToken, TxUpTo, TxTokens, Stamps, SentInOrder, Turns;
  }

  lemma GiveBackKeeps(c: Config, s: State, h: Hist, i: nat)
    requires InvWith(c, s, h) && i in s.running && s.running[i].Holding?
    ensures InvWith(c, s.(ru := s.ru + [s.running[i].next], running := s.running[i := Waiting]), h.(place := Home))
  {
    hide CutQueue, LogShape, Increasing, TxBetweenRx, RuBetweenTx, Workers, RxToken, TxUpTo, TxTokens, Stamps, RuToken, SentInOrder, Turns;
    FitsRunning(c, s, h, i);
    var j := RunningTx(c, s, h, i);
    HeldToken(c, s, h, i);
    var s' := s.(ru := s.ru + [s.running[i].next], running := s.running[i := Waiting]);
    TxJobFrame(c, s, h, i, s');
    TxPhaseChange(c, s, h, i, s');
    GiveBackRu(c, s, h, i, s');
    PlaceFrame(c, s.log, h, Home);
    CutFrame(s, s', h.ruAt);
    assert InvWith(c, s', h.(place := Home));
  }

  lemma GiveBackRu(c: Config, s: State, h: Hist, i: nat, s': State)
    requires InvWith(c, s, h) && i in s.running && s.running[i].Holding?
    requires s' == s.(ru := s.ru + [s.running[i].next], running := s.running[i := Waiting])
    ensures RuToken(s', h.ruAt, Home, NextNum(c, h))
  {
    hide CutQueue, LogShape, Increasing, TxBetweenRx, RuBetweenTx, Workers, RxToken, TxUpTo, TxTokens, Stamps, SentInOrder, Turns;
    var j := RunningTx(c, s, h, i);
  }

  lemma CommitKeeps(c: Config, s: State, h: Hist, i: nat)
    requires c.Valid() && InvWith(c, s, h)
    requires i in s.running && s.running[i].Holding? && i < |s.log| && s.running[i].next == c.num(s.log[i].at)
    ensures CanWork(c, s, i) && i < |h.rank| && InvWith(c, DoHold(c, s, i), Committed(s, h, h.rank[i]))
  {
    hide CutQueue, LogShape, Increasing, TxBetweenRx, RuBetweenTx, Workers, RxToken, TxUpTo, TxTokens, Stamps, RuToken, SentInOrder, Turns;
    hide Frontier, RxMatching;
    FitsRunning(c, s, h, i);
    var j := RunningTx(c, s, h, i);
    NotCut(c, s, h, i);
    var s', h' := DoHold(c, s, i), Committed(s, h, j);
    HandsOver(c, s, i);
    hide DoHold, NextNum;
    CommitOrder(c, s, h, i, j, s');
    CommitTokens(c, s, h, i, j, s');
    WholeQueue(s', h'.ruAt);
    SentLater(c, s', h.turn, j);
    assert InvWith(c, s', h');
  }

  lemma HandsOver(c: Config, s: State, i: nat)
    requires CanWork(c, s, i) && s.running[i].Holding? && s.running[i].next == c.num(s.log[i].at) && !s.cut
    ensures var job := s.log[i];
            DoHold(c, s, i) == s.(running := s.running[i := TxExit],
                                  log := s.log + [Ru(job.at, job.ts, c.num(c.nextDl(job.at)))])
  {
  }

  // The RU job takes its place among the others.
  lemma CommitOrder(c: Config, s: State, h: Hist, i: nat, j: nat, s': State)
    requires i in s.running && s.running[i].Holding? && s.running[i].next == c.num(Q(c, j))
    requires j < |h.txAt| && j !in h.turn && |h.turn| == |h.ruAt|
    requires s'.log == s.log + [RuJob(c, j)]
    requires InvWith(c, s, h)
    ensures var h' := Committed(s, h, j);
            && LogShape(c, s'.log, h') && RuBetweenTx(c, h.txAt, h'.ruAt)
            && Turns(c, h'.turn, h'.parked, |h.txAt|) && c.num(Q(c, j + 1)) == NextNum(c, h')
  {
    hide CutQueue, LogShape, Increasing, TxBetweenRx, RuBetweenTx, Workers, RxToken, TxUpTo, TxTokens, Stamps, RuToken, SentInOrder, Turns;
    HeldToken(c, s, h, i);
    LagHolds(c, s, h);
    TurnTaken(c, h, |h.txAt|, j);
    PushRuLog(c, s, h, Committed(s, h, j), j);
    PushRuOrder(c, s, h, j);
  }

  lemma CommitTokens(c: Config, s: State, h: Hist, i: nat, j: nat, s': State)
    requires i in s.running && s.running[i].Holding? && i < |s.log| && s.log[i].Tx? && !s.cut
    requires j < |h.txAt| && j !in h.turn && i == h.txAt[j]
    requires s' == s.(running := s.running[i := TxExit], log := s.log + [RuJob(c, j)])
    requires InvWith(c, s, h)
    ensures Workers(c, s') && RxToken(s', h.rxAt) && SentInOrder(c, s', h.turn)
    ensures Frontier(c, s', h.rxAt) == Frontier(c, s, h.rxAt) && RxMatching(s', h.rxAt) == RxMatching(s, h.rxAt)
    ensures TxTokens(s', h.txAt, h.turn + [j])
    ensures forall next :: RuToken(s', h.ruAt + [|s.log|], Away, next)
  {
    hide CutQueue, LogShape, Increasing, TxBetweenRx, RuBetweenTx, Workers, RxToken, TxUpTo, TxTokens, Stamps, RuToken, SentInOrder, Turns, RuJob;
    TxJobFrame(c, s, h, i, s');
    CommitTxTokens(c, s, h, i, j, s');
    forall next
      ensures RuToken(s', h.ruAt + [|s.log|], Away, next)
    {
      CommitRu(c, s, h, i, s', next);
    }
  }

  // The RU token in a hand, its job is not in the queue.
  lemma NotCut(c: Config, s: State, h: Hist, i: nat)
    requires InvWith(c, s, h) && i in s.running && s.running[i].Holding?
    ensures !s.cut
  {
    HeldToken(c, s, h, i);
    CutHolds(c, s, h);
    hide CutQueue, LogShape, Increasing, TxBetweenRx, RuBetweenTx, Workers, RxToken, TxUpTo, TxTokens, Stamps, SentInOrder, Turns;
  }

  lemma WholeQueue(s: State, ruAt: seq<nat>)
    requires !s.cut
    ensures CutQueue(s, ruAt)
  {
  }

  lemma CutHolds(c: Config, s: State, h: Hist)
    requires InvWith(c, s, h)
    ensures s.cut ==> |h.ruAt| > 0 && Waits(s, h.ruAt[|h.ruAt| - 1])
    ensures s.cut ==> forall k: nat :: Waits(s, k) ==> k == h.ruAt[|h.ruAt| - 1]
  {
    hide LogShape, Increasing, TxBetweenRx, RuBetweenTx, Workers, RxToken, TxUpTo, TxTokens, Stamps, RuToken, SentInOrder, Turns;
  }

  lemma LagHolds(c: Config, s: State, h: Hist)
    requires InvWith(c, s, h)
    ensures |h.ruAt| <= |h.txAt| <= |h.ruAt| + Lag(c)
  {
    hide CutQueue, LogShape, Increasing, TxBetweenRx, Workers, RxToken, TxUpTo, TxTokens, Stamps, RuToken, SentInOrder, Turns;
  }

  lemma SentLater(c: Config, s: State, turn: seq<nat>, j: nat)
    requires SentInOrder(c, s, turn)
    ensures SentInOrder(c, s, turn + [j])
  {
  }

  lemma PushRuLog(c: Config, s: State, h: Hist, h': Hist, j: nat)
    requires LogShape(c, s.log, h) && |h.turn| == |h.ruAt|
    requires h' == h.(ruAt := h.ruAt + [|s.log|], rank := h.rank + [|h.ruAt|], place := Away, turn := h.turn + [j], parked := h'.parked)
    ensures LogShape(c, s.log + [RuJob(c, j)], h')
  {
    hide LogShape, Q, Expected;
    LogGrows(c, s.log, RuJob(c, j), h, h', |h.ruAt|);
  }

  lemma PushRuOrder(c: Config, s: State, h: Hist, j: nat)
    requires InvWith(c, s, h) && j < |h.txAt| && j !in h.turn
    ensures RuBetweenTx(c, h.txAt, h.ruAt + [|s.log|])
  {
    hide CutQueue, LogShape, Increasing, TxBetweenRx, Workers, RxToken, TxUpTo, TxTokens, Stamps, RuToken, SentInOrder;
    LogPositions(c, s, h);
  }

  lemma CommitTxTokens(c: Config, s: State, h: Hist, i: nat, j: nat, s': State)
    requires InvWith(c, s, h) && InTx(s, i) && j < |h.txAt| && j !in h.turn && i == h.txAt[j]
    requires s' == s.(log := s'.log, running := s.running[i := TxExit])
    ensures TxTokens(s', h.txAt, h.turn + [j])
  {
    hide CutQueue, LogShape, TxBetweenRx, RuBetweenTx, Workers, RxToken, TxUpTo, Stamps, RuToken, SentInOrder;
    FitsRunning(c, s, h, i);
    assert Exiting(s') == Exiting(s) + {i};
    assert i !in Exiting(s);
    assert forall k: nat :: k in h.turn + [j] <==> k in h.turn || k == j;
  }

  lemma CommitRu(c: Config, s: State, h: Hist, i: nat, s': State, next: nat)
    requires InvWith(c, s, h) && i in s.running && s.running[i].Holding?
    requires s' == s.(log := s'.log, running := s.running[i := TxExit])
    ensures RuToken(s', h.ruAt + [|s.log|], Away, next)
  {
    hide CutQueue, LogShape, Increasing, TxBetweenRx, RuBetweenTx, Workers, RxToken, TxUpTo, TxTokens, Stamps, SentInOrder, Turns;
    var j := RunningTx(c, s, h, i);
    HeadBound(c, s, h);
    LogPositions(c, s, h);
    assert forall k :: 0 <= k < |h.ruAt| ==> Finished(s, h.ruAt[k]);
    assert |s.log| !in s.running;
  }

  lemma HeadBound(c: Config, s: State, h: Hist)
    requires InvWith(c, s, h)
    ensures s.head <= |s.log| && forall i :: i in s.running ==> i < s.head
  {
    hide CutQueue, LogShape, Increasing, TxBetweenRx, RuBetweenTx, RxToken, TxUpTo, TxTokens, Stamps, RuToken, SentInOrder, Turns;
  }

  lemma ReturnTxKeeps(c: Config, s: State, h: Hist, i: nat)
    requires InvWith(c, s, h) && i in s.running && s.running[i] == TxExit && i < |s.log| && s.log[i].Tx?
    ensures InvWith(c, DoReturn(s, i), h)
  {
    hide CutQueue, LogShape, Increasing, TxBetweenRx, RuBetweenTx, Workers, RxToken, TxUpTo, TxTokens, Stamps, RuToken, SentInOrder, Turns;
    var s' := DoReturn(s, i);
    TxJobFrame(c, s, h, i, s');
    ReturnTxTokens(c, s, h, i);
    ReturnTxRu(c, s, h, i);
    StampsIdle(s.l1, RxMatching(s, h.rxAt), Frontier(c, s, h.rxAt));
    CutFrame(s, s', h.ruAt);
    assert InvWith(c, s', h);
  }

  lemma StampsIdle(l1: seq<int>, matching: bool, f: int)
    requires Stamps(l1, matching, f)
    ensures Stamps(l1 + [IDLE], matching, f)
  {
  }

  lemma ReturnTxTokens(c: Config, s: State, h: Hist, i: nat)
    requires InvWith(c, s, h) && i in s.running && s.running[i] == TxExit && i < |s.log| && s.log[i].Tx?
    ensures TxTokens(DoReturn(s, i), h.txAt, h.turn)
  {
    hide CutQueue, LogShape, Increasing, TxBetweenRx, RuBetweenTx, Workers, RxToken, TxUpTo, Stamps, RuToken, SentInOrder, Turns;
    assert Exiting(DoReturn(s, i)) == Exiting(s) - {i};
    assert i in Exiting(s);
  }

  lemma ReturnTxRu(c: Config, s: State, h: Hist, i: nat)
    requires InvWith(c, s, h) && i in s.running && s.running[i] == TxExit && i < |s.log| && s.log[i].Tx?
    ensures RuToken(DoReturn(s, i), h.ruAt, h.place, NextNum(c, h))
  {
    hide CutQueue, LogShape, Increasing, TxBetweenRx, RuBetweenTx, Workers, RxToken, TxUpTo, TxTokens, Stamps, SentInOrder, Turns;
    KindOf(c, s.log, h, i);
  }

  // ---- ru_tx_func, and rx_func returning its token ----

  lemma ReturnRxKeeps(c: Config, s: State, h: Hist, i: nat)
    requires InvWith(c, s, h) && i in s.running && s.running[i] == RxExit && i < |s.log| && s.log[i].Rx?
    ensures InvWith(c, DoReturn(s, i), h)
  {
    hide CutQueue, LogShape, Increasing, TxBetweenRx, RuBetweenTx, Workers, RxToken, TxUpTo, TxTokens, Stamps, RuToken, SentInOrder, Turns;
    var s' := DoReturn(s, i);
    RunningRx(c, s, h, i);
    ReturnRxToken(c, s, h, i);
    TxJobsFrame(c, s, h, i, s');
    LogPositions(c, s, h);
    RuFrame(s, s', h.ruAt, h.place, NextNum(c, h), i);
    SentFrame(c, s, s', h.turn);
    WorkersMove(c, s, i, s');
    CutFrame(s, s', h.ruAt);
    assert InvWith(c, s', h);
  }

  lemma ReturnRxToken(c: Config, s: State, h: Hist, i: nat)
    requires InvWith(c, s, h) && i in s.running && s.running[i] == RxExit && i < |s.log| && s.log[i].Rx?
    ensures var s' := DoReturn(s, i);
            RxToken(s', h.rxAt) && RxPassed(s, h.rxAt) && RxPassed(s', h.rxAt)
            && !RxMatching(s, h.rxAt) && !RxMatching(s', h.rxAt)
  {
    hide CutQueue, LogShape, Increasing, TxBetweenRx, RuBetweenTx, Workers, TxUpTo, TxTokens, Stamps, RuToken, SentInOrder, Turns;
    FitsRunning(c, s, h, i);
    RunningRx(c, s, h, i);
  }

  // A worker putting the result of a code block into the response FIFO.
  lemma ReturnDecKeeps(c: Config, s: State, h: Hist, i: nat)
    requires InvWith(c, s, h) && i in s.running && s.running[i] == Decoded && i < |s.log| && s.log[i].Dec?
    ensures InvWith(c, DoReturn(s, i), h)
  {
    hide CutQueue, LogShape, Increasing, TxBetweenRx, RuBetweenTx, Workers, RxToken, TxUpTo, TxTokens, Stamps, RuToken, SentInOrder, Turns, NextNum;
    var s' := DoReturn(s, i);
    ResultOnly(s, i);
    KindOf(c, s.log, h, i);
    LogPositions(c, s, h);
    hide DoReturn, Touches, AtMostPushes;
    RxFrame(s, s', h.rxAt, i);
    TxFrame(s, s', h.txAt, h.turn, i);
    RuFrame(s, s', h.ruAt, h.place, NextNum(c, h), i);
    SentFrame(c, s, s', h.turn);
    CutFrame(s, s', h.ruAt);
    WorkersMove(c, s, i, s');
    hide RxPassed, RxMatching;
  }

  lemma ResultOnly(s: State, i: nat)
    requires i in s.running && s.running[i] == Decoded && i < |s.log| && s.log[i].Dec?
    ensures var s' := DoReturn(s, i);
            && s' == s.(resp := s'.resp, running := s.running - {i})
            && Touches(s, s', i) && AtMostPushes(s, s') && !PhaseIsTxOrHold(s, i) && !PhaseIsTxOrHold(s', i)
  {
  }

  // The only unfinished RU job is the last one.
  lemma RunningRu(c: Config, s: State, h: Hist, i: nat)
    requires InvWith(c, s, h) && i in s.running && i < |s.log| && s.log[i].Ru?
    ensures var n := |h.ruAt|;
            && n > 0 && i == h.ruAt[n - 1] && i < s.head && h.place == Away && s.ru == []
            && |h.turn| == n && s.log[i] == RuJob(c, h.turn[n - 1]) && s.log[i].next == NextNum(c, h)
            && |s.sent| == n - (if s.running[i].RuExit? then 0 else 1)
    ensures i !in h.rxAt && i !in h.txAt
  {
    hide CutQueue, Increasing, TxBetweenRx, RuBetweenTx, Workers, RxToken, TxUpTo, TxTokens, Stamps, SentInOrder, Turns;
    KindOf(c, s.log, h, i);
    HeadBound(c, s, h);
    TurnsBound(c, h.turn, h.parked, |h.txAt|);
  }

  lemma RuJobFrame(c: Config, s: State, h: Hist, i: nat, s': State)
    requires InvWith(c, s, h) && i in s.running && i < |s.log| && s.log[i].Ru?
    requires s' == s.(ru := s'.ru, sent := s'.sent, running := s'.running) && Touches(s, s', i)
    requires !PhaseIsTxOrHold(s', i)
    ensures RxToken(s', h.rxAt) && Frontier(c, s', h.rxAt) == Frontier(c, s, h.rxAt)
    ensures RxMatching(s', h.rxAt) == RxMatching(s, h.rxAt)
    ensures TxTokens(s', h.txAt, h.turn)
  {
    hide CutQueue, LogShape, Increasing, TxBetweenRx, RuBetweenTx, Workers, RxToken, TxUpTo, TxTokens, Stamps, RuToken, SentInOrder, Turns;
    RunningRu(c, s, h, i);
    FitsRunning(c, s, h, i);
    LogPositions(c, s, h);
    RxFrame(s, s', h.rxAt, i);
    TxFrame(s, s', h.txAt, h.turn, i);
  }

  lemma SendKeeps(c: Config, s: State, h: Hist, i: nat)
    requires InvWith(c, s, h) && i in s.running && s.running[i] == Sending && i < |s.log| && s.log[i].Ru?
    ensures InvWith(c, DoSend(s, i), h)
  {
    hide CutQueue, LogShape, Increasing, TxBetweenRx, RuBetweenTx, Workers, RxToken, TxUpTo, TxTokens, Stamps, RuToken, SentInOrder, Turns;
    var s' := DoSend(s, i);
    RunningRu(c, s, h, i);
    RuJobFrame(c, s, h, i, s');
    SendRu(c, s, h, i);
    SendWorkers(c, s, h, i);
    CutFrame(s, s', h.ruAt);
    assert InvWith(c, s', h);
  }

  lemma SendRu(c: Config, s: State, h: Hist, i: nat)
    requires InvWith(c, s, h) && i in s.running && s.running[i] == Sending && i < |s.log| && s.log[i].Ru?
    ensures RuToken(DoSend(s, i), h.ruAt, h.place, NextNum(c, h))
  {
    hide CutQueue, LogShape, Increasing, TxBetweenRx, RuBetweenTx, Workers, RxToken, TxUpTo, TxTokens, Stamps, SentInOrder, Turns;
    RunningRu(c, s, h, i);
  }

  lemma SendWorkers(c: Config, s: State, h: Hist, i: nat)
    requires InvWith(c, s, h) && i in s.running && s.running[i] == Sending && i < |s.log| && s.log[i].Ru?
    ensures Workers(c, DoSend(s, i)) && SentInOrder(c, DoSend(s, i), h.turn)
  {
    hide CutQueue, LogShape, Increasing, TxBetweenRx, RuBetweenTx, RxToken, TxUpTo, TxTokens, Stamps, RuToken, Turns;
    RunningRu(c, s, h, i);
    assert DoSend(s, i).running.Keys == s.running.Keys;
    WorkersMove(c, s, i, DoSend(s, i));
  }

  lemma ReturnRuKeeps(c: Config, s: State, h: Hist, i: nat)
    requires InvWith(c, s, h) && i in s.running && s.running[i] == RuExit && i < |s.log| && s.log[i].Ru?
    ensures InvWith(c, DoReturn(s, i), h.(place := Home))
  {
    hide CutQueue, LogShape, Increasing, TxBetweenRx, RuBetweenTx, Workers, RxToken, TxUpTo, TxTokens, Stamps, RuToken, SentInOrder, Turns;
    var s' := DoReturn(s, i);
    RunningRu(c, s, h, i);
    RuJobFrame(c, s, h, i, s');
    ReturnRuToken(c, s, h, i);
    WorkersMove(c, s, i, s');
    SentFrame(c, s, s', h.turn);
    PlaceFrame(c, s.log, h, Home);
    CutFrame(s, s', h.ruAt);
    assert InvWith(c, s', h.(place := Home));
  }

  lemma ReturnRuToken(c: Config, s: State, h: Hist, i: nat)
    requires InvWith(c, s, h) && i in s.running && s.running[i] == RuExit && i < |s.log| && s.log[i].Ru?
    ensures RuToken(DoReturn(s, i), h.ruAt, Home, NextNum(c, h))
  {
    hide CutQueue, LogShape, Increasing, TxBetweenRx, RuBetweenTx, Workers, RxToken, TxUpTo, TxTokens, Stamps, SentInOrder, Turns;
    FitsRunning(c, s, h, i);
    RunningRu(c, s, h, i);
  }

  /** Every step of every interleaving keeps the invariant. */
  lemma TokensKept(c: Config, s: State, h: Hist, step: Step)
    requires Enabled(c, s, step) && (step.Fail? ==> c.workers != 1)
    requires c.Valid() && InvWith(c, s, h)
    ensures InvWith(c, Apply(c, s, step), Record(c, s, h, step))
  {
    hide InvWith;
    match step
    case Tick => TickKeeps(c, s, h);
    case Pick => PickKeeps(c, s, h);
    case Drop => DropKeeps(c, s, h);
    case Fail(i) => FailKeeps(c, s, h, i);
    case Work(i) =>
      match s.running[i]
      case Decoding(_, _) => DecodeKeeps(c, s, h, i);
      case Decoded => ReturnDecKeeps(c, s, h, i);
      case Scheduling => ScheduleKeeps(c, s, h, i);
      case Matching =>
        if c.isDl(s.log[i].at) {
          MatchDownlinkKeeps(c, s, h, i);
        } else {
          MatchUplinkKeeps(c, s, h, i);
        }
      case RxExit => ReturnRxKeeps(c, s, h, i);
      case Waiting => PullKeeps(c, s, h, i);
      case Holding(next) =>
        if next == c.num(s.log[i].at) {
          CommitKeeps(c, s, h, i);
        } else {
          GiveBackKeeps(c, s, h, i);
        }
      case TxExit => ReturnTxKeeps(c, s, h, i);
      case Sending => SendKeeps(c, s, h, i);
      case RuExit => ReturnRuKeeps(c, s, h, i);
  }
}
