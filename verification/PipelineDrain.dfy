/**
 The pipeline can always finish: from every reachable state some run of the pool alone, without another
 slot from ru_thread, ends with every downlink slot handed over so far transmitted, in order.
 */
module PipelineDrain {
  import opened SlotPipeline
  import opened PipelineInvariant
  import opened PipelineSafety
  import opened PipelineDecoding
  import opened PipelineProgress
  import opened PipelineTheorems

  // ---- the work left in the pool ----

  function Blocks(todo: seq<nat>): nat {
    if todo == [] then 0 else todo[0] + Blocks(todo[1..])
  }

  function PhaseWeight(c: Config, job: Job, phase: Phase): nat {
    match phase
    case Decoding(todo, left) => 13 + 4 * Blocks(todo) + |todo| + left
    case Decoded => 1
    case Scheduling => 12
    case Matching => 11
    case RxExit => 1
    case Waiting => 7
    case Holding(next) => if job.Tx? && next == c.num(job.at) then 6 else 7
    case TxExit => 1
    case Sending => 2
    case RuExit => 1
  }

  function WeightAt(c: Config, s: State, i: nat): nat
    requires i < |s.log|
  {
    if i >= s.head then 1 + PhaseWeight(c, s.log[i], StartPhase(s.log[i]))
    else if i in s.running then PhaseWeight(c, s.log[i], s.running[i])
    else 0
  }

  function Load(c: Config, s: State, n: nat): nat
    requires n <= |s.log|
  {
    if n == 0 then 0 else Load(c, s, n - 1) + WeightAt(c, s, n - 1)
  }

  // Only the job at i has a different weight.
  lemma {:induction false} LoadMoves(c: Config, s: State, s': State, i: nat, n: nat)
    requires n <= |s.log| <= |s'.log| && i < |s.log|
    requires forall k :: 0 <= k < n && k != i ==> WeightAt(c, s', k) == WeightAt(c, s, k)
    ensures Load(c, s', n) == Load(c, s, n) + if i < n then WeightAt(c, s', i) - WeightAt(c, s, i) else 0
  {
    if n > 0 {
      LoadMoves(c, s, s', i, n - 1);
    }
  }

  // The job at i moved on, and at most one job was pushed.
  lemma LoadOf(c: Config, s: State, s': State, i: nat)
    requires i < |s.log| && s.log <= s'.log && |s'.log| <= |s.log| + 1
    requires forall k :: 0 <= k < |s.log| && k != i ==> WeightAt(c, s', k) == WeightAt(c, s, k)
    ensures Load(c, s', |s'.log|) == Load(c, s, |s.log|) + WeightAt(c, s', i) - WeightAt(c, s, i)
                                     + if |s'.log| > |s.log| then WeightAt(c, s', |s.log|) else 0
  {
    LoadMoves(c, s, s', i, |s.log|);
  }

  predicate Sound(s: State) {
    s.head <= |s.log| && forall i :: i in s.running ==> i < s.head && Fits(s.log[i], s.running[i])
  }

  lemma OthersStay(c: Config, s: State, s': State, i: nat)
    requires Sound(s) && i < |s.log| && s.log <= s'.log && s.head <= s'.head <= (if i == s.head then i + 1 else s.head)
    requires forall k :: k != i ==> (k in s'.running <==> k in s.running)
    requires forall k :: k != i && k in s.running ==> s'.running[k] == s.running[k]
    ensures forall k :: 0 <= k < |s.log| && k != i ==> WeightAt(c, s', k) == WeightAt(c, s, k)
  {
    hide PhaseWeight;
  }

  lemma PickLoad(c: Config, s: State)
    requires Sound(s) && s.head < |s.log|
    ensures Load(c, DoPick(s), |s.log|) == Load(c, s, |s.log|) - 1
  {
    hide PhaseWeight, Load;
    OthersStay(c, s, DoPick(s), s.head);
    LoadOf(c, s, DoPick(s), s.head);
  }

  lemma DropLoad(c: Config, s: State)
    requires Sound(s) && s.head < |s.log|
    ensures Load(c, s.(head := s.head + 1), |s.log|) < Load(c, s, |s.log|)
  {
    hide Load;
    OthersStay(c, s, s.(head := s.head + 1), s.head);
    LoadOf(c, s, s.(head := s.head + 1), s.head);
  }

  lemma FailLoad(c: Config, s: State, i: nat)
    requires Sound(s) && i in s.running && s.running[i].Decoding? && s.running[i].left > 0
    ensures Load(c, DoFail(s, i), |s.log|) < Load(c, s, |s.log|)
  {
    hide Load, DecJobs;
    OthersStay(c, s, DoFail(s, i), i);
    LoadOf(c, s, DoFail(s, i), i);
  }

  lemma DecodeLoad(c: Config, s: State, i: nat)
    requires Sound(s) && CanWork(c, s, i) && s.running[i].Decoding?
    ensures var s' := DoDecode(s, i);
            Load(c, s', |s'.log|) < Load(c, s, |s.log|)
  {
    hide Load;
    OthersStay(c, s, DoDecode(s, i), i);
    LoadOf(c, s, DoDecode(s, i), i);
    var todo := s.running[i].todo;
    assert HandsOut(s.running[i]) ==> ([todo[0] - 1] + todo[1..])[1..] == todo[1..];
  }

  /** A step of the pool leaves less work, unless the RU token just goes round. */
  lemma StepLoad(c: Config, s: State, step: Step)
    requires Sound(s) && Enabled(c, s, step) && !step.Tick?
    ensures var s' := Apply(c, s, step);
            && Load(c, s', |s'.log|) <= Load(c, s, |s.log|)
            && (!Spins(c, s, step) ==> Load(c, s', |s'.log|) < Load(c, s, |s.log|))
  {
    hide Load;
    match step
    case Pick => PickLoad(c, s);
    case Drop => DropLoad(c, s);
    case Fail(i) => FailLoad(c, s, i);
    case Work(i) =>
      if s.running[i].Decoding? {
        DecodeLoad(c, s, i);
      } else {
        WorkLoad(c, s, i);
      }
  }

  lemma WorkLoad(c: Config, s: State, i: nat)
    requires Sound(s) && CanWork(c, s, i) && !s.running[i].Decoding?
    ensures var s' := DoWork(c, s, i);
            && Load(c, s', |s'.log|) <= Load(c, s, |s.log|)
            && (!Spins(c, s, Work(i)) ==> Load(c, s', |s'.log|) < Load(c, s, |s.log|))
  {
    hide Load, Spins, WeightAt;
    WorkWeight(c, s, i);
    WorkTouches(c, s, i);
    hide DoWork;
    OthersStay(c, s, DoWork(c, s, i), i);
    LoadOf(c, s, DoWork(c, s, i), i);
  }

  lemma WorkTouches(c: Config, s: State, i: nat)
    requires Sound(s) && CanWork(c, s, i) && !s.running[i].Decoding?
    ensures var s' := DoWork(c, s, i);
            && s.log <= s'.log && |s'.log| <= |s.log| + 1 && s'.head == s.head
            && (forall k :: k != i ==> (k in s'.running <==> k in s.running))
            && forall k :: k != i && k in s.running ==> s'.running[k] == s.running[k]
  {
  }

  // A job that moves on weighs less, together with the one it pushes.
  lemma WorkWeight(c: Config, s: State, i: nat)
    requires Sound(s) && CanWork(c, s, i) && !s.running[i].Decoding?
    ensures var s' := DoWork(c, s, i);
            var left := WeightAt(c, s', i) + if |s'.log| > |s.log| then WeightAt(c, s', |s.log|) else 0;
            left <= WeightAt(c, s, i) && (!Spins(c, s, Work(i)) ==> left < WeightAt(c, s, i))
  {
  }

  // ---- some step of the pool is always possible while there is work ----

  predicate Idle(s: State) {
    s.head == |s.log| && s.running == map[]
  }

  // A step of the pool that makes headway, at the latest after a token has been put back.
  ghost predicate PoolMoves(c: Config, s: State) {
    || (exists step: Step :: !step.Tick? && Productive(c, s, step))
    || (exists i, k :: PutsBack(c, s, Work(i)) && Productive(c, Apply(c, s, Work(i)), Work(k)))
  }

  lemma PoolGoesOn(c: Config, s: State, h: Hist)
    requires c.Valid() && FullInv(c, s, h) && OrderSafe(c) && DeadlockSafe(c) && JobsSafe(c) && !Idle(s)
    ensures PoolMoves(c, s)
  {
    hide InvWith, Segments, TwoWorkers, OrderSafe, DeadlockSafe, Blocked, Q, Config.Valid, Productive, AfterCut, NothingLost, JobsSafe;
    LosesNothing(c, s, h);
    if !Blocked(c, s) {
      BlockedOtherwise(c, s, h);
    } else {
      var j: nat;
      if s.rxTokens == 0 {
        j := TokenTaker(c, s, h);
      } else {
        j := LastTaker(c, s, h);
      }
      TakesToken(c, s, h, j);
      if i :| Productive(c, s, Work(i)) {
        assert !Work(i).Tick? && Productive(c, s, Work(i));
      }
    }
  }

  lemma LosesNothing(c: Config, s: State, h: Hist)
    requires JobsSafe(c) && FullInv(c, s, h)
    ensures s.lost == {} && !s.cut
  {
    hide InvWith, Segments, TwoWorkers, AfterCut, InTurn, JobsSafe;
  }

  // With the RX token at home, what blocks the pool are TX jobs, of which the first open one can go on.
  lemma LastTaker(c: Config, s: State, h: Hist) returns (j: nat)
    requires c.Valid() && FullInv(c, s, h) && OrderSafe(c) && Blocked(c, s) && s.rxTokens > 0 && !Idle(s)
    ensures Open(h, j) && InTx(s, h.txAt[j]) && c.num(Q(c, j)) == NextNum(c, h) && h.place != Away
  {
    hide InvWith, Segments, TwoWorkers, OrderSafe, Q, Config.Valid, AfterCut, NothingLost;
    HasWorkers(c);
    var i := SomeRunning(c, s);
    var u := OnlyTx(c, s, h, i);
    j := |h.turn|;
    TurnsOf(c, s, h);
    LagHolds(c, s, h);
    FirstIsOpen(c, h);
    EarlierOpen(c, s, h, j, u);
    if h.place == Away {
      AwayQueued(c, s, h);
      LogPositions(c, s, h);
      RuFirst(c, s, h, i);
      var k := OtherRunning(s, i);
      RuFirst(c, s, h, k);
      assert false;
    }
  }

  lemma HasWorkers(c: Config)
    requires c.Valid()
    ensures c.workers >= 1
  {
  }

  lemma OnlyTx(c: Config, s: State, h: Hist, i: nat) returns (u: nat)
    requires InvWith(c, s, h) && Blocked(c, s) && s.rxTokens > 0 && i in s.running
    ensures Open(h, u) && i == h.txAt[u] < s.head
  {
    hide InvWith;
    FitsRunning(c, s, h, i);
    if s.log[i].Rx? {
      RunningRx(c, s, h, i);
      assert false;
    }
    u := RunningTx(c, s, h, i);
  }

  lemma EarlierOpen(c: Config, s: State, h: Hist, j: nat, u: nat)
    requires InvWith(c, s, h) && s.lost == {} && Open(h, j) && Open(h, u) && j <= u && h.txAt[u] < s.head
    ensures InTx(s, h.txAt[j])
  {
    hide CutQueue, LogShape, TxBetweenRx, RuBetweenTx, Workers, RxToken, TxUpTo, Stamps, RuToken, SentInOrder, Turns;
    assert h.txAt[j] <= h.txAt[u];
  }

  // In front of a queued RU job only the first open TX job can be running, and not with one worker.
  lemma RuFirst(c: Config, s: State, h: Hist, i: nat)
    requires c.Valid() && FullInv(c, s, h) && h.parked < 0 && Blocked(c, s) && s.rxTokens > 0 && i in s.running
    requires |h.ruAt| > 0 && h.ruAt[|h.ruAt| - 1] >= s.head && s.head < |s.log|
    ensures |h.turn| < |h.txAt| && i == h.txAt[|h.turn|] && |s.running| >= 2
  {
    hide InvWith, Segments, TwoWorkers, InTurn, Config.Valid, AfterCut, NothingLost;
    HasWorkers(c);
    var u := OnlyTx(c, s, h, i);
    LagHolds(c, s, h);
    TurnsOf(c, s, h);
    TxOrder(c, s, h, u);
    RuInFront(c, s, h);
    FirstIsOpen(c, h);
    OpenFrom(c, h, u);
  }

  lemma RuInFront(c: Config, s: State, h: Hist)
    requires InvWith(c, s, h) && |h.ruAt| > 0
    ensures |h.ruAt| - 1 + Lag(c) < |h.txAt| ==> h.ruAt[|h.ruAt| - 1] < h.txAt[|h.ruAt| - 1 + Lag(c)]
  {
    hide CutQueue, LogShape, Increasing, TxBetweenRx, Workers, RxToken, TxUpTo, TxTokens, Stamps, RuToken, SentInOrder, Turns, Lag;
  }

  lemma OpenFrom(c: Config, h: Hist, u: nat)
    requires Turns(c, h.turn, h.parked, |h.txAt|) && h.parked < 0 && Open(h, u)
    ensures u >= |h.turn|
  {
  }

  // ---- the run ----

  ghost predicate Leads(c: Config, s: State, s': State) {
    exists run: seq<State> ::
      && |run| > 0 && run[0] == s && run[|run| - 1] == s'
      && forall k :: 0 <= k < |run| - 1 ==> Next(c, run[k], run[k + 1])
  }

  lemma LeadsNowhere(c: Config, s: State)
    ensures Leads(c, s, s)
  {
    var run := [s];
    assert run[0] == s && run[|run| - 1] == s;
  }

  lemma LeadsStep(c: Config, s: State, step: Step, s': State)
    requires Enabled(c, s, step) && Leads(c, Apply(c, s, step), s')
    ensures Leads(c, s, s')
  {
    var rest: seq<State> :|
      && |rest| > 0 && rest[0] == Apply(c, s, step) && rest[|rest| - 1] == s'
      && forall k :: 0 <= k < |rest| - 1 ==> Next(c, rest[k], rest[k + 1]);
    var run := [s] + rest;
    forall k | 0 <= k < |run| - 1
      ensures Next(c, run[k], run[k + 1])
    {
      if k > 0 {
        assert run[k] == rest[k - 1] && run[k + 1] == rest[k - 1 + 1];
      }
    }
    assert run[0] == s && run[|run| - 1] == s';
  }

  // Some steps of the pool that leave less work.
  lemma Onward(c: Config, s: State, h: Hist) returns (s': State, h': Hist)
    requires !Idle(s)
    requires c.Valid() && FullInv(c, s, h) && OrderSafe(c) && DeadlockSafe(c) && JobsSafe(c)
    ensures FullInv(c, s', h') && s'.clock == s.clock && Sound(s) && Sound(s') && Load(c, s', |s'.log|) < Load(c, s, |s.log|)
    ensures forall end :: Leads(c, s', end) ==> Leads(c, s, end)
  {
    hide FullInv, OrderSafe, DeadlockSafe, JobsSafe, Config.Valid, Load, Leads, Productive;
    PoolGoesOn(c, s, h);
    if step: Step :| !step.Tick? && Productive(c, s, step) {
      s', h' := TakeStep(c, s, h, step);
    } else {
      var i, k :| PutsBack(c, s, Work(i)) && Productive(c, Apply(c, s, Work(i)), Work(k));
      s', h' := PutBackThenTake(c, s, h, i, k);
    }
  }

  lemma TakeStep(c: Config, s: State, h: Hist, step: Step) returns (s': State, h': Hist)
    requires !step.Tick? && Productive(c, s, step)
    requires c.Valid() && FullInv(c, s, h)
    ensures FullInv(c, s', h') && s'.clock == s.clock && Sound(s) && Sound(s') && Load(c, s', |s'.log|) < Load(c, s, |s.log|)
    ensures forall end :: Leads(c, s', end) ==> Leads(c, s, end)
  {
    hide FullInv, Config.Valid, Load, Leads, Productive;
    IsSound(c, s, h);
    ProductiveLoad(c, s, step);
    s', h' := Apply(c, s, step), Record(c, s, h, step);
    StepKeeps(c, s, h, step);
    IsSound(c, s', h');
    forall end | Leads(c, s', end)
      ensures Leads(c, s, end)
    {
      LeadsStep(c, s, step, end);
    }
  }

  lemma PutBackThenTake(c: Config, s: State, h: Hist, i: nat, k: nat) returns (s': State, h': Hist)
    requires PutsBack(c, s, Work(i)) && Productive(c, Apply(c, s, Work(i)), Work(k))
    requires c.Valid() && FullInv(c, s, h)
    ensures FullInv(c, s', h') && s'.clock == s.clock && Sound(s) && Sound(s') && Load(c, s', |s'.log|) < Load(c, s, |s.log|)
    ensures forall end :: Leads(c, s', end) ==> Leads(c, s, end)
  {
    hide FullInv, Config.Valid, Load, Leads, Productive;
    IsSound(c, s, h);
    StepLoad(c, s, Work(i));
    var s1 := Apply(c, s, Work(i));
    StepKeeps(c, s, h, Work(i));
    s', h' := TakeStep(c, s1, Record(c, s, h, Work(i)), Work(k));
    forall end | Leads(c, s', end)
      ensures Leads(c, s, end)
    {
      LeadsStep(c, s, Work(i), end);
    }
  }

  // The pool runs until there is nothing left to do.
  lemma {:induction false} RunDry(c: Config, s: State, h: Hist) returns (s': State, h': Hist)
    requires s.head <= |s.log|
    requires c.Valid() && FullInv(c, s, h) && OrderSafe(c) && DeadlockSafe(c) && JobsSafe(c)
    ensures Leads(c, s, s') && FullInv(c, s', h') && Idle(s') && s'.clock == s.clock
    decreases Load(c, s, |s.log|)
  {
    hide FullInv, OrderSafe, DeadlockSafe, JobsSafe, Config.Valid, Load, Leads;
    if Idle(s) {
      s', h' := s, h;
      LeadsNowhere(c, s);
    } else {
      var s1, h1 := Onward(c, s, h);
      s', h' := RunDry(c, s1, h1);
    }
  }

  lemma ProductiveLoad(c: Config, s: State, step: Step)
    requires Sound(s) && !step.Tick? && Productive(c, s, step)
    ensures Enabled(c, s, step) && Apply(c, s, step).clock == s.clock
    ensures Load(c, Apply(c, s, step), |Apply(c, s, step).log|) < Load(c, s, |s.log|)
  {
    StepLoad(c, s, step);
  }

  lemma IsSound(c: Config, s: State, h: Hist)
    requires FullInv(c, s, h)
    ensures Sound(s)
  {
    AllFit(c, s, h);
  }

  // With nothing left to do, everything handed over has been sent.
  lemma IdleHasSent(c: Config, s: State, h: Hist)
    requires c.Valid() && InvWith(c, s, h) && Idle(s) && s.lost == {}
    ensures |s.sent| == |h.turn| == |h.txAt| && forall j: nat :: Starter(c, j) < s.clock ==> j < |s.sent|
  {
    PushedUpTo(c, s, h);
    IdleTokens(c, s, h);
    hide InvWith, Q, Config.Valid, RxPassed;
    forall j: nat | Starter(c, j) < s.clock
      ensures j < |s.sent|
    {
      if |h.txAt| <= j {
        StarterOrder(c, |h.txAt|, j);
      }
    }
  }

  lemma IdleTokens(c: Config, s: State, h: Hist)
    requires c.Valid() && InvWith(c, s, h) && Idle(s) && s.lost == {}
    ensures |s.sent| == |h.turn| == |h.txAt| && |h.rxAt| == s.clock && Starter(c, |h.txAt|) >= |h.rxAt|
  {
    IdleSent(c, s, h);
    IdleRx(c, s, h);
    hide CutQueue, LogShape, Increasing, TxBetweenRx, RuBetweenTx, Workers, RxToken, TxTokens, Stamps, RuToken, SentInOrder, Turns, Q, RxPassed;
  }

  lemma IdleRx(c: Config, s: State, h: Hist)
    requires InvWith(c, s, h) && Idle(s) && s.lost == {}
    ensures RxPassed(s, h.rxAt)
  {
    LogPositions(c, s, h);
    hide CutQueue, LogShape, Increasing, TxBetweenRx, RuBetweenTx, Workers, RxToken, TxUpTo, TxTokens, Stamps, RuToken, SentInOrder, Turns;
  }

  lemma IdleSent(c: Config, s: State, h: Hist)
    requires InvWith(c, s, h) && Idle(s) && s.lost == {}
    ensures |s.sent| == |h.turn| == |h.txAt|
  {
    LogPositions(c, s, h);
    hide CutQueue, LogShape, Increasing, TxBetweenRx, RuBetweenTx, Workers, RxToken, TxUpTo, Stamps, SentInOrder;
    FirstIsOpenIfAny(c, h);
    assert h.place == Home;
  }

  lemma FirstIsOpenIfAny(c: Config, h: Hist)
    requires Turns(c, h.turn, h.parked, |h.txAt|)
    ensures |h.turn| < |h.txAt| ==> Open(h, FirstOpen(h))
  {
  }

  /** Whatever has happened so far, the pool can still get every downlink slot that ru_thread has handed
      over transmitted, in order and with its timestamp, without waiting for another one. */
  lemma EverythingCanBeSent(c: Config, s: State) returns (s': State)
    requires c.Valid() && OrderSafe(c) && DeadlockSafe(c) && JobsSafe(c) && Reachable(c, s)
    ensures Leads(c, s, s') && s'.clock == s.clock
    ensures forall j: nat :: Starter(c, j) < s.clock ==> j < |s'.sent| && s'.sent[j] == Expected(c, j)
  {
    hide FullInv, Reachable, OrderSafe, DeadlockSafe, Config.Valid, Leads, Idle, Expected, Q, JobsSafe;
    ReachableKeeps(c, s);
    var h :| FullInv(c, s, h);
    IsSound(c, s, h);
    var h';
    s', h' := RunDry(c, s, h);
    HasTokens(c, s', h');
    LosesNothing(c, s', h');
    IdleHasSent(c, s', h');
    SentIsExpected(c, s', h');
  }
}
