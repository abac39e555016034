/**
 The gNB slot pipeline as a transition system. ru_thread hands slots to rx_func, which has the code
 blocks received in its slot decoded by the same pool and waits for the results, then stamps a
 transmit token and hands it to tx_func, which hands the one radio token to ru_tx_func. The tokens
 (one RX, two L1-TX, one RU-TX) live in response FIFOs and are returned there by the worker that
 finishes the job. All interleavings of ru_thread and `workers` pool threads are steps of `Next`.

 The pool's incoming FIFO is kept with its history: `log` holds every job ever pushed and the queue
 is `log[head..]`. A running job is named by its log position. Transmit slots are absolute indices;
 the source compares only slot numbers, and so do the steps.
 */
module SlotPipeline {
  /** `ahead` is sf_ahead in slots, `time` the transmit timestamp ru_thread computes for its n-th slot,
      `blocks` the numbers of code blocks of the transport blocks to be decoded in it, in order.
      The slot calendar is given by three functions of the absolute slot: may it carry downlink, its
      slot number, and the next downlink-capable slot. PipelineTheorems builds it from a TDD pattern. */
  datatype Config = Config(
    workers: nat, ahead: nat, isDl: int -> bool, num: int -> nat, nextDl: int -> int, time: int -> int,
    blocks: int -> seq<nat>)
  {
    ghost predicate Valid() {
      && workers >= 1
      && ahead >= 1
      && (forall at :: at < nextDl(at) && isDl(nextDl(at)))
      && (forall at, m :: at < m < nextDl(at) ==> !isDl(m))
      && (forall at, next :: at >= 0 && next == at + 1 ==> num(at) != num(next))
    }

    // The n-th slot received has something to decode.
    predicate Decodes(n: int) {
      HasBlocks(blocks(n))
    }
  }

  predicate HasBlocks(blocks: seq<nat>) {
    exists b :: 0 <= b < |blocks| && blocks[b] > 0
  }

  /** A pool job: a token with its payload, which is RX for the n-th slot, L1-TX, or RU-TX, or a code
      block of the n-th slot to decode. The RU token carries `next`, the slot number its following
      user must have. */
  datatype Job =
    | Rx(n: nat, at: int, ts: int, blocks: seq<nat>)
    | Dec(n: nat)
    | Tx(at: int, ts: int)
    | Ru(at: int, ts: int, next: nat)

  /** Where a worker stands inside the job's function. */
  datatype Phase =
    | Decoding(todo: seq<nat>, left: nat)
                            // rx_func with these code blocks to hand out and these results to collect
    | Decoded               // a code block is decoded, its result is not in the response FIFO yet
    | Scheduling            // rx_func inside NR_UL_indication, about to pull an L1-TX token
    | Matching              // rx_func looking for the token stamped with its slot
    | RxExit                // rx_func has returned, the RX token is not back yet
    | Waiting               // tx_func about to pull the RU token
    | Holding(next: nat)    // tx_func has the RU token in hand
    | TxExit                // tx_func has returned, the L1-TX token is not back yet
    | Sending               // ru_tx_func before its samples leave
    | RuExit                // ru_tx_func has returned, the RU token is not back yet

  datatype Transmission = Transmission(at: int, ts: int)

  const IDLE := -1

  datatype State = State(
    log: seq<Job>,
    head: nat,
    running: map<nat, Phase>,
    dead: set<nat>,          // code blocks, queued or being decoded, of which nobody wants the result
    cut: bool,               // the queue's pointer to its last job is wrong
    lost: set<nat>,          // jobs pushed while it was
    rxTokens: nat,           // tokens in resp_L1
    resp: nat,               // results in respDecode
    l1: seq<int>,            // stamps of the tokens in resp_L1_tx, IDLE or an absolute slot
    ru: seq<nat>,            // next_slot of the tokens in resp_RU_tx
    clock: nat,              // slots ru_thread has handed over
    sent: seq<Transmission>) // what the radio got, in order

  // `Fail` is rx_func collecting the result of a code block that could not be decoded, before the last
  // one of its transport block; `Drop` passes over a job that is not in the queue any more or never was.
  datatype Step = Tick | Pick | Drop | Work(i: nat) | Fail(i: nat)

  // The `slot` field of an L1-TX token.
  function SlotField(c: Config, stamp: int): int
  {
    if stamp < 0 then -1 else c.num(stamp)
  }

  ghost function FirstNext(c: Config): nat
  {
    c.num(c.nextDl(c.ahead - 1))
  }

  // init_gNB_Tpool
  ghost function Init(c: Config): State
  {
    State([], 0, map[], {}, false, {}, 1, 0, [IDLE, IDLE], [FirstNext(c)], 0, [])
  }

  function StartPhase(job: Job): Phase {
    match job
    case Rx(_, _, _, blocks) => Decoding(blocks, 0)
    case Dec(_) => Decoded
    case Tx(_, _) => Waiting
    case Ru(_, _, _) => Sending
  }

  // Position of the first token whose slot field is the wanted slot number, or |l1|.
  function FindStamp(c: Config, l1: seq<int>, at: int): (p: nat)
    ensures p <= |l1|
    ensures forall q :: 0 <= q < p ==> SlotField(c, l1[q]) != c.num(at)
    ensures p < |l1| ==> SlotField(c, l1[p]) == c.num(at)
  {
    if l1 == [] then 0
    else if SlotField(c, l1[0]) == c.num(at) then 0
    else 1 + FindStamp(c, l1[1..], at)
  }

  // The FIFO after the tokens before position p went round to the back and the one at p was taken.
  function TakeAt<T>(fifo: seq<T>, p: nat): seq<T>
    requires p < |fifo|
  {
    fifo[p + 1..] + fifo[..p]
  }

  predicate Fits(job: Job, phase: Phase) {
    match phase
    case Decoding(_, _) => job.Rx?
    case Decoded => job.Dec?
    case Scheduling => job.Rx?
    case Matching => job.Rx?
    case RxExit => job.Rx?
    case Waiting => job.Tx?
    case Holding(_) => job.Tx?
    case TxExit => job.Tx?
    case Sending => job.Ru?
    case RuExit => job.Ru?
  }

  // rx_func hands out all code blocks of a transport block before it collects their results.
  predicate HandsOut(phase: Phase) {
    phase.Decoding? && phase.todo != [] && phase.todo[0] > 0
  }

  predicate Collects(phase: Phase) {
    phase.Decoding? && !HandsOut(phase) && phase.left > 0
  }

  predicate CanWork(c: Config, s: State, i: nat)
  {
    && i in s.running && i < |s.log| && Fits(s.log[i], s.running[i])
    && (Collects(s.running[i]) ==> s.resp > 0)
    && (s.running[i].Scheduling? ==> |s.l1| > 0)
    && (s.running[i].Matching? && c.isDl(s.log[i].at) ==> FindStamp(c, s.l1, s.log[i].at) < |s.l1|)
    && (s.running[i].Waiting? ==> |s.ru| > 0)
  }

  // The job at log position i is in the queue.
  predicate Waits(s: State, i: nat) {
    s.head <= i < |s.log| && i !in s.dead && i !in s.lost
  }

  ghost predicate SomeWaits(s: State) {
    exists i :: Waits(s, i)
  }

  predicate Live(s: State, i: nat) {
    i < |s.log| && (i >= s.head || i in s.running)
  }

  // The code blocks in the pool whose results are wanted.
  function DecJobs(s: State): set<nat> {
    set i | 0 <= i < |s.log| && Live(s, i) && s.log[i].Dec? && i !in s.dead && i !in s.lost
  }

  // rx_func collects the result of a code block that could not be decoded.
  predicate CanFail(c: Config, s: State, i: nat) {
    CanWork(c, s, i) && Collects(s.running[i]) && s.running[i].left > 1
  }

  // The assertion of nr_postDecode: the other code blocks of the transport block are all found, as jobs or
  // as results. Where it does not hold the process ends, and there is no step.
  predicate AddsUp(s: State, i: nat)
    requires i in s.running && s.running[i].Decoding?
  {
    |DecJobs(s)| + s.resp == s.running[i].left
  }

  predicate Enabled(c: Config, s: State, step: Step)
  {
    match step
    case Tick => s.rxTokens > 0
    case Pick => Waits(s, s.head) && |s.running| < c.workers
    case Drop => s.head < |s.log| && !Waits(s, s.head)
    case Work(i) => CanWork(c, s, i)
    case Fail(i) => CanFail(c, s, i) && AddsUp(s, i)
  }

  // pushTpool: a job pushed onto a cut queue is linked to one that is not there any more.
  function Push(s: State, job: Job): State {
    s.(log := s.log + [job], lost := if s.cut then s.lost + {|s.log|} else s.lost)
  }

  // One turn of ru_thread: a slot has been received, the RX token is filled and pushed.
  function DoTick(c: Config, s: State): State
    requires s.rxTokens > 0
  {
    Push(s.(rxTokens := s.rxTokens - 1, clock := s.clock + 1),
         Rx(s.clock, s.clock + c.ahead, c.time(s.clock), c.blocks(s.clock)))
  }

  // A pool thread takes the oldest waiting job. Running empty repairs the queue.
  ghost function DoPick(s: State): State
    requires s.head < |s.log|
  {
    var s' := s.(running := s.running[s.head := StartPhase(s.log[s.head])], head := s.head + 1);
    s'.(cut := s.cut && SomeWaits(s'))
  }

  // nr_ulsch_procedures, one transport block after the other: hand out its code blocks, collect as many
  // results, go on to the next.
  function DoDecode(s: State, i: nat): State
    requires i in s.running && i < |s.log| && s.log[i].Rx? && s.running[i].Decoding?
    requires Collects(s.running[i]) ==> s.resp > 0
  {
    var Decoding(todo, left) := s.running[i];
    if HandsOut(s.running[i]) then
      Push(s.(running := s.running[i := Decoding([todo[0] - 1] + todo[1..], left + 1)]), Dec(s.log[i].n))
    else if left > 0 then
      s.(resp := s.resp - 1, running := s.running[i := Decoding(todo, left - 1)])
    else if todo != [] then
      s.(running := s.running[i := Decoding(todo[1..], 0)])
    else
      s.(running := s.running[i := Scheduling])
  }

  // The last job in the queue is one of those code blocks.
  ghost predicate LastIsWanted(s: State) {
    exists k :: k in DecJobs(s) && Waits(s, k) && forall i :: Waits(s, i) ==> i <= k
  }

  // nr_postDecode on a failed code block: the other ones of the transport block are taken out of the
  // queue, or their results thrown away, by the worker or from the response FIFO. Taking the last job
  // out of a queue in which another one stays cuts the queue.
  ghost function DoFail(s: State, i: nat): State
    requires i in s.running && s.running[i].Decoding?
  {
    var s' := s.(resp := 0, dead := s.dead + DecJobs(s), running := s.running[i := Decoding(s.running[i].todo, 0)]);
    s'.(cut := SomeWaits(s') && (s.cut || LastIsWanted(s)))
  }

  // nr_schedule_response: the front token, whatever it holds, is stamped and goes to the back.
  function DoSchedule(s: State, i: nat): State
    requires i in s.running && i < |s.log| && s.log[i].Rx? && |s.l1| > 0
  {
    s.(l1 := s.l1[1..] + [s.log[i].at], running := s.running[i := Matching])
  }

  // The end of rx_func: for a downlink slot, find the stamped token and start tx_func on it.
  function DoMatch(c: Config, s: State, i: nat): State
    requires CanWork(c, s, i) && s.running[i].Matching?
  {
    var job := s.log[i];
    if c.isDl(job.at) then
      var p := FindStamp(c, s.l1, job.at);
      var stamp := s.l1[p];
      Push(s.(l1 := TakeAt(s.l1, p), running := s.running[i := RxExit]), Tx(stamp, job.ts))
    else
      s.(running := s.running[i := RxExit])
  }

  function DoPull(s: State, i: nat): State
    requires i in s.running && |s.ru| > 0
  {
    s.(ru := s.ru[1..], running := s.running[i := Holding(s.ru[0])])
  }

  // tx_func with the RU token in hand: use it if it waits for this slot, else put it back.
  ghost function DoHold(c: Config, s: State, i: nat): State
    requires CanWork(c, s, i) && s.running[i].Holding?
  {
    var job := s.log[i];
    if s.running[i].next == c.num(job.at) then
      Push(s.(running := s.running[i := TxExit]), Ru(job.at, job.ts, c.num(c.nextDl(job.at))))
    else
      s.(ru := s.ru + [s.running[i].next], running := s.running[i := Waiting])
  }

  function DoSend(s: State, i: nat): State
    requires i in s.running && i < |s.log| && s.log[i].Ru?
  {
    s.(sent := s.sent + [Transmission(s.log[i].at, s.log[i].ts)], running := s.running[i := RuExit])
  }

  // The worker returns the token to its response FIFO and becomes free.
  function DoReturn(s: State, i: nat): State
    requires i in s.running && i < |s.log|
  {
    var s' := s.(running := s.running - {i});
    match s.log[i]
    case Rx(_, _, _, _) => s'.(rxTokens := s.rxTokens + 1)
    case Dec(_) => if i in s.dead then s' else s'.(resp := s.resp + 1)
    case Tx(_, _) => s'.(l1 := s.l1 + [IDLE])
    case Ru(_, _, next) => s'.(ru := s.ru + [next])
  }

  ghost function DoWork(c: Config, s: State, i: nat): State
    requires CanWork(c, s, i)
  {
    match s.running[i]
    case Decoding(_, _) => DoDecode(s, i)
    case Scheduling => DoSchedule(s, i)
    case Matching => DoMatch(c, s, i)
    case Waiting => DoPull(s, i)
    case Holding(_) => DoHold(c, s, i)
    case Sending => DoSend(s, i)
    case _ => DoReturn(s, i)
  }

  ghost function Apply(c: Config, s: State, step: Step): State
    requires Enabled(c, s, step)
  {
    match step
    case Tick => DoTick(c, s)
    case Pick => DoPick(s)
    case Drop => s.(head := s.head + 1)
    case Work(i) => DoWork(c, s, i)
    case Fail(i) => DoFail(s, i)
  }

  ghost predicate Next(c: Config, s: State, s': State)
  {
    exists step :: Enabled(c, s, step) && s' == Apply(c, s, step)
  }

  ghost predicate IsRun(c: Config, run: seq<State>)
  {
    && |run| > 0 && run[0] == Init(c)
    && (forall k :: 0 <= k < |run| - 1 ==> Next(c, run[k], run[k + 1]))
  }

  ghost predicate Reachable(c: Config, s: State)
  {
    exists run :: IsRun(c, run) && run[|run| - 1] == s
  }

  lemma StepStaysReachable(c: Config, s: State, step: Step)
    requires Reachable(c, s) && Enabled(c, s, step)
    ensures Reachable(c, Apply(c, s, step))
  {
    var run :| IsRun(c, run) && run[|run| - 1] == s;
    var longer := run + [Apply(c, s, step)];
    forall k | 0 <= k < |longer| - 1
      ensures Next(c, longer[k], longer[k + 1])
    {
      if k < |run| - 1 {
        assert longer[k] == run[k] && longer[k + 1] == run[k + 1];
      }
    }
    assert IsRun(c, longer);
  }

  /** The downlink-capable slots from the first look-ahead slot on, in order. */
  ghost function Q(c: Config, j: nat): int {
    if j == 0 then c.nextDl(c.ahead - 1) else c.nextDl(Q(c, j - 1))
  }

  // What the radio must get at position j.
  ghost function Expected(c: Config, j: nat): Transmission {
    Transmission(Q(c, j), c.time(Q(c, j) - c.ahead))
  }

  lemma {:induction false} QIsDownlink(c: Config, j: nat)
    requires c.Valid()
    ensures c.ahead <= Q(c, j) && c.isDl(Q(c, j)) && Q(c, j) < Q(c, j + 1)
  {
    if j > 0 {
      QIsDownlink(c, j - 1);
    }
  }

  lemma {:induction false} QIncreases(c: Config, j: nat, k: nat)
    requires c.Valid() && j < k
    ensures Q(c, j) < Q(c, k)
    decreases k - j
  {
    QIsDownlink(c, j);
    if j + 1 < k {
      QIncreases(c, j + 1, k);
    }
  }

  /** `Q` skips nothing: every downlink-capable look-ahead slot is enumerated. */
  lemma QCoversDownlink(c: Config, at: int)
    requires c.Valid() && c.ahead <= at && c.isDl(at)
    ensures exists j: nat :: Q(c, j) == at
  {
    var j := 0;
    while Q(c, j) < at
      invariant Q(c, j) <= at
      decreases at - Q(c, j)
    {
      assert Q(c, j + 1) == c.nextDl(Q(c, j));
      j := j + 1;
    }
  }
}
