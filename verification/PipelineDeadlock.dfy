/**
 The converse of deadlock freedom: where `DeadlockSafe` or `JobsSafe` fails there is a run into a state that
 nothing but the RU token going round can ever leave. Either an rx_func waits for its code blocks, which
 are queued behind, and the other worker, if there is one, is on a tx_func that waits for the RU token; or
 a job has been lost, and the queue is empty.
 */
module PipelineDeadlock {
  import opened SlotPipeline
  import opened PipelineInvariant
  import opened PipelineSafety
  import opened PipelineDecoding
  import opened PipelineProgress
  import opened PipelineTheorems
  import opened PipelineRuns
  import opened PipelineCut

  // No RU token in the FIFO or in a hand shows the slot number of the TX job at log position k.
  ghost predicate NotForMe(c: Config, s: State, k: nat) {
    && k < |s.log| && s.log[k].Tx?
    && (forall x :: x in s.ru ==> x != c.num(s.log[k].at))
    && (forall l :: l in s.running && s.running[l].Holding? ==> s.running[l].next != c.num(s.log[k].at))
  }

  /** ru_thread waits for the RX token, no worker can take another job, and all that have one wait for
      something that only a queued job, or none at all, can bring. */
  ghost predicate Frozen(c: Config, s: State) {
    && s.rxTokens == 0 && s.resp == 0 && (s.head == |s.log| || (Waits(s, s.head) && |s.running| >= c.workers))
    && (forall k :: k in s.running ==> Collects(s.running[k]) || (InTx(s, k) && NotForMe(c, s, k)))
  }

  lemma FrozenStep(c: Config, s: State, step: Step)
    requires Frozen(c, s) && Enabled(c, s, step)
    ensures Spins(c, s, step) && Frozen(c, Apply(c, s, step)) && Apply(c, s, step).sent == s.sent
  {
    assert step.Work?;
    TokenGoesRound(c, s, step.i);
  }

  // Taking the token that shows another number, or putting it back.
  lemma TokenGoesRound(c: Config, s: State, i: nat)
    requires Frozen(c, s) && CanWork(c, s, i)
    ensures Spins(c, s, Work(i)) && Frozen(c, DoWork(c, s, i)) && DoWork(c, s, i).sent == s.sent
  {
    var s' := DoWork(c, s, i);
    assert NotForMe(c, s, i) && InTx(s, i);
    assert s'.running.Keys == s.running.Keys;
    assert |s'.running.Keys| == |s'.running| && |s.running.Keys| == |s.running|;
    if s.running[i].Waiting? {
      assert s.ru[0] in s.ru && forall x :: x in s'.ru ==> x in s.ru;
    } else {
      assert forall x :: x in s'.ru ==> x in s.ru || x == s.running[i].next;
    }
    forall k | k in s'.running && InTx(s', k)
      ensures NotForMe(c, s', k)
    {
      assert NotForMe(c, s, k);
    }
  }

  lemma FrozenIsStuck(c: Config, s: State)
    requires Frozen(c, s)
    ensures !CanProgress(c, s)
  {
    hide Frozen;
    forall step | Enabled(c, s, step)
      ensures Spins(c, s, step) && Frozen(c, Apply(c, s, step))
    {
      FrozenStep(c, s, step);
    }
    forall back, step | PutsBack(c, s, back) && Enabled(c, Apply(c, s, back), step)
      ensures Spins(c, Apply(c, s, back), step)
    {
      FrozenStep(c, Apply(c, s, back), step);
    }
  }

  /** From a frozen state on, no run ever makes headway, and nothing is transmitted any more. */
  lemma {:induction false} FrozenForever(c: Config, run: seq<State>, k: nat)
    requires |run| > 0 && Frozen(c, run[0]) && k < |run|
    requires forall n :: 0 <= n < |run| - 1 ==> Next(c, run[n], run[n + 1])
    ensures Frozen(c, run[k]) && !CanProgress(c, run[k]) && run[k].sent == run[0].sent
  {
    hide Frozen, CanProgress;
    if k > 0 {
      FrozenForever(c, run, k - 1);
      assert Next(c, run[k - 1], run[k - 1 + 1]);
      var step :| Enabled(c, run[k - 1], step) && run[k] == Apply(c, run[k - 1], step);
      FrozenStep(c, run[k - 1], step);
    }
    FrozenIsStuck(c, run[k]);
  }

  // rx_func hands out the code blocks of the first transport block that has any.
  lemma {:induction false} HandOutAll(c: Config, s: State, i: nat) returns (s': State)
    requires Reachable(c, s) && i in s.running && i < |s.log| && s.log[i].Rx? && s.running[i].Decoding? && !s.cut
    requires s.running[i].left > 0 || HasBlocks(s.running[i].todo)
    ensures Reachable(c, s') && s.log <= s'.log
    ensures i in s'.running && s' == s.(log := s'.log, running := s.running[i := s'.running[i]])
    ensures Collects(s'.running[i])
    decreases |s.running[i].todo|, if s.running[i].todo == [] then 0 else s.running[i].todo[0]
  {
    hide Reachable;
    if Collects(s.running[i]) {
      s' := s;
      assert s.running[i := s.running[i]] == s.running;
    } else {
      StepStaysReachable(c, s, Work(i));
      StillToDecode(s, i);
      var s1 := DoDecode(s, i);
      s' := HandOutAll(c, s1, i);
      assert s'.running == s.running[i := s'.running[i]];
    }
  }

  // A worker takes the queued RX job of a slot to be decoded and waits for its code blocks.
  lemma TakeAndWait(c: Config, s: State) returns (s': State)
    requires Reachable(c, s) && s.head < |s.log| && |s.running| < c.workers && s.head !in s.running
    requires Clean(s) && s.log[s.head].Rx? && HasBlocks(s.log[s.head].blocks)
    ensures Reachable(c, s') && s.log <= s'.log && s.head in s'.running && Collects(s'.running[s.head])
    ensures s' == s.(log := s'.log, head := s.head + 1, running := s.running[s.head := s'.running[s.head]])
    ensures |s'.running| == |s.running| + 1
  {
    hide Reachable;
    var i := s.head;
    StepStaysReachable(c, s, Pick);
    var s1 := DoPick(s);
    s' := HandOutAll(c, s1, i);
    assert s'.running == s.running[i := s'.running[i]];
    OneMore(s.running, i, s'.running[i]);
  }

  lemma SoleWorkerFreezes(c: Config, n: nat) returns (s: State)
    requires c.Valid() && c.workers == 1 && c.Decodes(n) && forall k: nat :: k < n ==> !c.Decodes(k)
    ensures Reachable(c, s) && Frozen(c, s)
  {
    hide Config.Valid, Reachable, Stamps, Q, TxUpTo;
    var m: nat;
    s, m := QuietAt(c, n);
    StepStaysReachable(c, s, Tick);
    s := TakeAndWait(c, DoTick(c, s));
  }

  lemma HasSomething(c: Config, n: int)
    requires c.Decodes(n)
    ensures HasBlocks(c.blocks(n))
  {
  }

  // With slot p parked and the RU token gone on to another number, the next slot to be decoded freezes.
  lemma LeftBehindFreezes(c: Config, p: nat, t: nat, m: nat) returns (s: State)
    requires c.Valid() && c.workers == 2 && LeftBehind(c, p, t, m)
    ensures Reachable(c, s) && Frozen(c, s)
  {
    hide Config.Valid, Config.Decodes, Reachable, Stamps, Q, HasBlocks;
    StarterOrder(c, p, t);
    NoDownlinkBetween(c, t);
    s := ParkedRun(c, p, t);
    var i :| i < |s.log| && s.running == map[i := Waiting] && s.log[i].Tx? && s.log[i].at == Q(c, p);
    s := PassUplink(c, s, m - Starter(c, t) - 1);
    StepStaysReachable(c, s, Tick);
    var s1 := DoTick(c, s);
    HasSomething(c, m);
    s := TakeAndWait(c, s1);
    assert s.log[i] == s1.log[i];
  }

  // Slots j and j + 1 under way, with the RX job of the next slot queued.
  lemma BothUnderWay(c: Config, j: nat) returns (s: State, a: nat)
    requires c.Valid() && c.workers == 2 && HeldUp(c, j)
    ensures Reachable(c, s) && 0 < s.head == |s.log| - 1
    ensures a < s.head - 1 && s.log[a].Tx? && s.log[a].at == Q(c, j) && s.log[s.head - 1].Tx?
    ensures s.running == map[a := Waiting, s.head - 1 := Waiting] && s.ru == [c.num(Q(c, j))]
    ensures s.rxTokens == 0 && s.resp == 0 && Clean(s) && s.log[s.head].Rx? && HasBlocks(s.log[s.head].blocks)
  {
    hide Config.Valid, Config.Decodes, Reachable, Stamps, Q, HasBlocks;
    StarterOrder(c, j, j + 1);
    QIncreasing(c, j);
    QIsDownlink(c, j + 1);
    NoDownlinkBetween(c, j);
    s := ParkTx(c, j);
    a :| a < |s.log| && s.running == map[a := Waiting] && s.log[a].Tx? && s.log[a].at == Q(c, j);
    var s1 := PassUplink(c, s, Q(c, j + 1) - Q(c, j) - 1);
    var s2 := ReceiveSlot(c, s1);
    assert s2.log[a] == s1.log[a] == s.log[a];
    HasSomething(c, Starter(c, j + 1) + 1);
    s := NextSlotQueued(c, s2, a);
  }

  // The TX job in the queue is taken once the next slot has been received.
  lemma NextSlotQueued(c: Config, s: State, a: nat) returns (s': State)
    requires Reachable(c, s) && s.rxTokens == 1 && Clean(s) && s.head == |s.log| - 1 && s.log[s.head].Tx?
    requires c.workers == 2 && a < s.head && s.running == map[a := Waiting]
    ensures Reachable(c, s')
    ensures s' == s.(rxTokens := 0, clock := s.clock + 1, head := s.head + 1, running := map[a := Waiting, s.head := Waiting],
                     log := s.log + [Rx(s.clock, s.clock + c.ahead, c.time(s.clock), c.blocks(s.clock))])
  {
    hide Reachable;
    StepStaysReachable(c, s, Tick);
    var s1 := DoTick(c, s);
    StepStaysReachable(c, s1, Pick);
    s' := DoPick(s1);
    assert s'.running == map[a := Waiting, s.head := Waiting];
  }

  // Slot j hands over, its RU job ends up behind that RX job, and the free worker takes the latter.
  lemma HeldUpFreezes(c: Config, j: nat) returns (s: State)
    requires c.Valid() && c.workers == 2 && HeldUp(c, j)
    ensures Reachable(c, s) && Frozen(c, s)
  {
    hide Config.Valid, Config.Decodes, Reachable, Q, HasBlocks, HeldUp;
    var s0, a := BothUnderWay(c, j);
    var b := s0.head - 1;
    var s1 := HandOver(c, s0, a);
    assert s1.running == map[b := Waiting];
    assert s1.log[s1.head] == s0.log[s0.head] && s1.log[b] == s0.log[b];
    s := TakeAndWait(c, s1);
    assert s.log[b] == s1.log[b];
  }

  // The first slot to be decoded.
  lemma FirstDecoded(c: Config, n: nat) returns (m: nat)
    requires c.Decodes(n)
    ensures c.Decodes(m) && forall k: nat :: k < m ==> !c.Decodes(k)
  {
    m := 0;
    while !c.Decodes(m)
      invariant m <= n && forall k: nat :: k < m ==> !c.Decodes(k)
      decreases n - m
    {
      m := m + 1;
    }
  }

  lemma LostJobFreezes(c: Config, n: nat, f: nat) returns (s: State)
    requires c.Valid() && Cuttable(c, n, f)
    ensures Reachable(c, s) && Frozen(c, s)
  {
    hide Reachable, Config.Valid, Cuttable;
    s := LosesJob(c, n, f);
  }

  lemma Freezes(c: Config) returns (s: State)
    requires c.Valid() && !(DeadlockSafe(c) && JobsSafe(c))
    ensures Reachable(c, s) && Frozen(c, s)
  {
    hide Reachable, Frozen, HeldUp, LeftBehind, Config.Decodes, Cuttable;
    if n: nat, f: nat :| Cuttable(c, n, f) {
      s := LostJobFreezes(c, n, f);
    } else if c.workers == 1 {
      var n: nat :| c.Decodes(n);
      n := FirstDecoded(c, n);
      s := SoleWorkerFreezes(c, n);
    } else if j: nat :| HeldUp(c, j) {
      s := HeldUpFreezes(c, j);
    } else {
      var p: nat, t: nat, m: nat :| LeftBehind(c, p, t, m);
      s := LeftBehindFreezes(c, p, t, m);
    }
  }

  /** Exactly when the pipeline cannot get stuck, in any interleaving: no job can be lost, and the workers
      suffice for what waits for what. */
  lemma DeadlockFreeExactly(c: Config)
    requires c.Valid()
    ensures DeadlockSafe(c) && JobsSafe(c) <==> forall s :: Reachable(c, s) ==> CanProgress(c, s)
    ensures !(DeadlockSafe(c) && JobsSafe(c)) <==> exists s :: Reachable(c, s) && Frozen(c, s)
  {
    hide DeadlockSafe, JobsSafe, Reachable, CanProgress, Frozen, Config.Valid;
    forall s | DeadlockSafe(c) && JobsSafe(c) && Reachable(c, s)
      ensures CanProgress(c, s) && !Frozen(c, s)
    {
      NoJobLost(c, s);
      ProgressUntilLost(c, s);
      if Frozen(c, s) {
        FrozenIsStuck(c, s);
      }
    }
    if !(DeadlockSafe(c) && JobsSafe(c)) {
      var s := Freezes(c);
      FrozenIsStuck(c, s);
    }
  }
}
