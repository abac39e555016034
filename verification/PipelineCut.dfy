/**
 Runs in which the queue is cut: rx_func gives up on a transport block while an RU job is queued among its
 code blocks, and what is pushed before that job is picked is lost. They exist exactly where `JobsSafe`
 says so.
 */
module PipelineCut {
  import opened SlotPipeline
  import opened PipelineInvariant
  import opened PipelineSafety
  import opened PipelineDecoding
  import opened PipelineTheorems
  import opened PipelineRuns

  // The downlink slots between whose starters slot n is received.
  lemma Surrounded(c: Config, n: nat) returns (j: nat)
    requires c.Valid() && Starter(c, 0) < n
    ensures Starter(c, j) < n <= Starter(c, j + 1)
  {
    hide Config.Valid, Q;
    j := 0;
    while Starter(c, j + 1) < n
      invariant Starter(c, j) < n
      decreases n - Starter(c, j)
    {
      QIncreasing(c, j);
      j := j + 1;
    }
  }

  // The tx_func of downlink slot j stands before the RU token while slot n is received.
  ghost predicate Beside(c: Config, j: nat, n: nat) {
    && Starter(c, j) < n <= Starter(c, j + 1)
    && c.workers >= 2 && (c.workers == 2 ==> NoneDecodes(c, Starter(c, j), n - 1))
  }

  // And rx_func, behind it, has come to the transport block at index f.
  ghost predicate AtBlock(c: Config, s: State, j: nat, n: nat, f: nat, a: nat, i: nat) {
    && f <= |c.blocks(n)| && a < i < s.head == |s.log| && Clean(s)
    && s.log[a] == TxJob(c, j) && s.ru == [c.num(Q(c, j))] && s.log[i] == RxJob(c, n)
    && s.running == map[a := Waiting, i := Decoding(c.blocks(n)[f..], 0)]
    && s.resp == s.rxTokens == 0 && s.clock == n + 1 && |s.l1| == 1 && Stamps(s.l1, false, c.ahead + n)
    && |s.sent| == j && SentExpected(c, s)
  }

  lemma RxBesideTx(c: Config, j: nat, n: nat) returns (s: State, a: nat, i: nat)
    requires c.Valid() && Beside(c, j, n)
    ensures Reachable(c, s) && AtBlock(c, s, j, n, 0, a, i)
  {
    hide Config.Valid, Config.Decodes, Reachable, Stamps, Q;
    NoDownlinkBetween(c, j);
    StarterOrder(c, j, j);
    s := ParkTx(c, j);
    a :| a < |s.log| && s.running == map[a := Waiting] && s.log[a] == TxJob(c, j);
    var s1 := PassUplink(c, s, n - Starter(c, j) - 1);
    StepStaysReachable(c, s1, Tick);
    var s2 := DoTick(c, s1);
    StepStaysReachable(c, s2, Pick);
    i := s2.head;
    assert s2.log[a] == s.log[a];
    s := DoPick(s2);
    assert s.running == map[a := Waiting, i := Decoding(c.blocks(n), 0)];
    assert c.blocks(n)[0..] == c.blocks(n);
  }

  lemma ComeToBlock(c: Config, s: State, j: nat, n: nat, f: nat, a: nat, i: nat) returns (s': State)
    requires Reachable(c, s) && AtBlock(c, s, j, n, 0, a, i) && f <= |c.blocks(n)|
    requires c.workers >= 3 || forall b :: 0 <= b < f ==> c.blocks(n)[b] == 0
    ensures Reachable(c, s') && AtBlock(c, s', j, n, f, a, i)
  {
    hide Config.Valid, Reachable, Stamps, Q;
    var blocks := c.blocks(n);
    assert blocks[0..] == blocks;
    TwoRun(s.running, a, i);
    s' := DecodeUpTo(c, s, i, f);
    assert s'.running == map[a := Waiting, i := Decoding(blocks[f..], 0)];
    assert s'.log[a] == s.log[a] && s'.log[i] == s.log[i];
  }

  lemma TwoRun(running: map<nat, Phase>, a: nat, i: nat)
    requires a != i && running.Keys == {a, i}
    ensures |running| == 2
  {
    assert |running.Keys| == |running|;
  }

  // rx_func hands out the code blocks of its first transport block without any being decoded.
  lemma {:induction false} HandOutBlock(c: Config, s: State, i: nat) returns (s': State)
    requires Reachable(c, s) && i in s.running && i < |s.log| && s.log[i].Rx? && s.running[i].Decoding?
    requires s.running[i].todo != [] && !s.cut
    ensures Reachable(c, s') && s.log <= s'.log && |s'.log| == |s.log| + s.running[i].todo[0]
    ensures forall k :: |s.log| <= k < |s'.log| ==> s'.log[k].Dec?
    ensures var Decoding(todo, left) := s.running[i];
            s' == s.(log := s'.log, running := s.running[i := Decoding([0] + todo[1..], left + todo[0])])
    decreases s.running[i].todo[0]
  {
    hide Reachable;
    var todo, left := s.running[i].todo, s.running[i].left;
    s' := s;
    if todo[0] > 0 {
      StepStaysReachable(c, s, Work(i));
      s' := HandOutBlock(c, DoDecode(s, i), i);
    }
    assert todo[0] == 0 ==> [0] + todo[1..] == todo;
    assert s'.running == s.running[i := Decoding([0] + todo[1..], left + todo[0])];
  }

  // The first code block waits in front of the RU job, the others behind it.
  ghost predicate RuAmongBlocks(c: Config, s: State, j: nat, n: nat, f: nat, i: nat, d: nat) {
    && f < |c.blocks(n)| && i < d == s.head < |s.log| - 1 == d + c.blocks(n)[f] && Clean(s) && LostBlocks(s) == {}
    && s.log[i] == RxJob(c, n) && s.log[d].Dec? && s.log[d + 1] == RuJob(c, j)
    && (forall k :: d + 1 < k < |s.log| ==> s.log[k].Dec?)
    && s.running == map[i := Decoding([0] + c.blocks(n)[f + 1..], c.blocks(n)[f])]
    && s.resp == s.rxTokens == 0 && s.clock == n + 1 && |s.l1| == 2 && Stamps(s.l1, false, c.ahead + n)
    && s.ru == [] && |s.sent| == j && SentExpected(c, s)
  }

  lemma HandOverAmong(c: Config, s: State, j: nat, n: nat, f: nat, a: nat, i: nat) returns (s': State)
    requires c.Valid() && Reachable(c, s) && AtBlock(c, s, j, n, f, a, i) && f < |c.blocks(n)| && c.blocks(n)[f] > 0
    ensures Reachable(c, s') && RuAmongBlocks(c, s', j, n, f, i, |s.log|)
  {
    hide Reachable, Stamps, Q, LostBlocks, DecJobs, Config.Valid;
    var blocks, d := c.blocks(n), |s.log|;
    CodeBlocksConserved(c, s);
    StepStaysReachable(c, s, Work(i));
    var s1 := DoDecode(s, i);
    assert s1.running == map[a := Waiting, i := Decoding([blocks[f] - 1] + blocks[f + 1..], 1)];
    assert s1.log[a] == s.log[a];
    var s2 := HandOver(c, s1, a);
    QSucc(c, j);
    StampsIdle(s.l1, false, c.ahead + n);
    assert s2.running == map[i := Decoding([blocks[f] - 1] + blocks[f + 1..], 1)];
    assert s2.log[i] == s.log[i] && s2.log[d].Dec? && s2.log[d + 1] == RuJob(c, j);
    s' := HandOutBlock(c, s2, i);
    assert s'.log[i] == s2.log[i] && s'.log[d] == s2.log[d] && s'.log[d + 1] == s2.log[d + 1];
    assert s'.running == map[i := Decoding([0] + blocks[f + 1..], blocks[f])];
    SameLost(s, s');
  }

  lemma SameLost(s: State, s': State)
    requires Clean(s) && s.head <= |s.log| && s.log <= s'.log && s'.lost == s.lost
    ensures LostBlocks(s') == LostBlocks(s)
  {
  }

  /** The queue has been cut: nothing but the RU job of downlink slot j waits in it, and rx_func has given up
      on the transport block at index f of the n-th slot. */
  ghost predicate CutAt(c: Config, s: State, j: nat, n: nat, f: nat, i: nat, r: nat) {
    && f < |c.blocks(n)| && i < r == s.head < |s.log| && s.cut && (forall k: nat :: Waits(s, k) <==> k == r)
    && s.log[i] == RxJob(c, n) && s.log[r] == RuJob(c, j)
    && s.running == map[i := Decoding([0] + c.blocks(n)[f + 1..], 0)]
    && s.resp == s.rxTokens == 0 && s.clock == n + 1 && |s.l1| == 2 && Stamps(s.l1, false, c.ahead + n)
    && s.ru == [] && |s.sent| == j && SentExpected(c, s)
  }

  // The first code block is decoded, in vain.
  lemma DecodeFirst(c: Config, s: State, i: nat, d: nat) returns (s': State)
    requires Reachable(c, s) && s.head == d < |s.log| && s.log[d].Dec? && Clean(s) && i < d
    requires s.running.Keys == {i} && c.workers >= 2
    ensures Reachable(c, s') && s' == s.(head := d + 1, resp := s.resp + 1)
  {
    hide Reachable;
    assert |s.running.Keys| == |s.running|;
    StepStaysReachable(c, s, Pick);
    var s1 := DoPick(s);
    StepStaysReachable(c, s1, Work(d));
    s' := DoReturn(s1, d);
    assert s'.running == s.running;
  }

  lemma GiveUpBlock(c: Config, s: State, j: nat, n: nat, f: nat, i: nat, d: nat) returns (s': State)
    requires c.Valid() && Reachable(c, s) && RuAmongBlocks(c, s, j, n, f, i, d)
    requires c.workers >= 2 && c.blocks(n)[f] >= 2
    ensures Reachable(c, s') && CutAt(c, s', j, n, f, i, d + 1)
  {
    hide Config.Valid, Reachable, Stamps, Q, DoFail, AddsUp, DecJobs, LostBlocks;
    assert s.running.Keys == {i};
    var s1 := DecodeFirst(c, s, i, d);
    SameLost(s, s1);
    GivingUpAddsUp(c, s1, i);
    StepStaysReachable(c, s1, Fail(i));
    s' := DoFail(s1, i);
    FailCuts(s1, i, d + 1);
  }

  // With the RU job in front of the last code block.
  lemma FailCuts(s: State, i: nat, r: nat)
    requires i in s.running && s.running == map[i := s.running[i]] && s.running[i].Decoding? && i < r
    requires s.head == r < |s.log| - 1 && Clean(s) && s.log[r].Ru? && forall k :: r < k < |s.log| ==> s.log[k].Dec?
    ensures var s' := DoFail(s, i);
            && s' == s.(resp := 0, dead := s'.dead, cut := true, running := map[i := Decoding(s.running[i].todo, 0)])
            && forall k: nat :: Waits(s', k) <==> k == r
  {
    var s' := s.(resp := 0, dead := s.dead + DecJobs(s), running := s.running[i := Decoding(s.running[i].todo, 0)]);
    forall k: nat
      ensures Waits(s', k) <==> k == r
    {
      assert k > r && k < |s.log| ==> k in DecJobs(s);
    }
    assert Waits(s', r);
    var last := |s.log| - 1;
    assert last in DecJobs(s) && Waits(s, last);
    forall k: nat
      ensures Waits(DoFail(s, i), k) <==> Waits(s', k)
    {
    }
    assert s'.running == map[i := Decoding(s.running[i].todo, 0)];
  }

  /** Where the condition on the traffic fails there is a run that cuts the queue. */
  lemma CutRun(c: Config, j: nat, n: nat, f: nat) returns (s: State, i: nat, r: nat)
    requires c.Valid() && Beside(c, j, n) && f < |c.blocks(n)| && c.blocks(n)[f] >= 2
    requires c.workers >= 3 || FirstOf(c.blocks(n), f)
    ensures Reachable(c, s) && CutAt(c, s, j, n, f, i, r)
  {
    hide Config.Valid, Reachable, Beside, AtBlock, RuAmongBlocks, CutAt;
    AtLeastTwoWorkers(c, j, n);
    var a: nat;
    s, a, i := RxBesideTx(c, j, n);
    s := ComeToBlock(c, s, j, n, f, a, i);
    var d := |s.log|;
    s := HandOverAmong(c, s, j, n, f, a, i);
    s := GiveUpBlock(c, s, j, n, f, i, d);
    r := d + 1;
  }

  lemma AtLeastTwoWorkers(c: Config, j: nat, n: nat)
    requires Beside(c, j, n)
    ensures c.workers >= 2
  {
  }

  // Every slot that can cut the queue is received beside some tx_func.
  lemma CuttableBeside(c: Config, n: nat, f: nat) returns (j: nat)
    requires c.Valid() && Cuttable(c, n, f)
    ensures Beside(c, j, n)
  {
    hide Config.Valid, Q, Config.Decodes;
    if c.workers == 2 {
      j :| RightBehind(c, j, n);
    } else {
      j := Surrounded(c, n);
    }
  }

  // The queue passes over what is not in it.
  lemma {:induction false} DropAll(c: Config, s: State) returns (s': State)
    requires Reachable(c, s) && s.head <= |s.log| && forall k: nat :: !Waits(s, k)
    ensures Reachable(c, s') && s' == s.(head := |s.log|)
    decreases |s.log| - s.head
  {
    hide Reachable;
    s' := s;
    if s.head < |s.log| {
      StepStaysReachable(c, s, Drop);
      var s1 := s.(head := s.head + 1);
      assert forall k: nat :: Waits(s1, k) ==> Waits(s, k);
      s' := DropAll(c, s1);
    }
  }

  /** The RU job is picked, which repairs the queue, and sent; what was lost is passed over. */
  lemma SendLast(c: Config, s: State, r: nat) returns (s': State)
    requires Reachable(c, s) && s.head == r < |s.log| && s.log[r].Ru? && (forall k: nat :: Waits(s, k) <==> k == r)
    requires s.ru == [] && |s.running| < c.workers && r !in s.running
    ensures Reachable(c, s')
    ensures var job := s.log[r];
            s' == s.(head := |s.log|, cut := false, sent := s.sent + [Transmission(job.at, job.ts)], ru := [job.next])
  {
    hide Reachable;
    StepStaysReachable(c, s, Pick);
    var s1 := DoPick(s);
    PickEmpties(s, r);
    StepStaysReachable(c, s1, Work(r));
    var s2 := DoSend(s1, r);
    StepStaysReachable(c, s2, Work(r));
    var s3 := DoReturn(s2, r);
    assert s3.running == s.running;
    assert forall k: nat :: Waits(s3, k) <==> Waits(s1, k);
    s' := DropAll(c, s3);
  }

  lemma PickEmpties(s: State, r: nat)
    requires s.head == r < |s.log| && forall k: nat :: Waits(s, k) <==> k == r
    ensures var s' := DoPick(s);
            && s' == s.(running := s.running[r := StartPhase(s.log[r])], head := r + 1, cut := false)
            && forall k: nat :: !Waits(s', k)
  {
    var s1 := s.(running := s.running[r := StartPhase(s.log[r])], head := r + 1);
    assert forall k: nat :: Waits(s1, k) ==> Waits(s, k) && k != r;
    forall k: nat
      ensures !Waits(DoPick(s), k)
    {
      assert !Waits(s1, k);
    }
  }

  // rx_func passes over transport blocks without code blocks.
  lemma {:induction false} SkipBlocks(c: Config, s: State, i: nat, k: nat) returns (s': State)
    requires Reachable(c, s) && i in s.running && i < |s.log| && s.log[i].Rx? && s.running[i].Decoding?
    requires s.running[i].left == 0 && k <= |s.running[i].todo| && forall b :: 0 <= b < k ==> s.running[i].todo[b] == 0
    ensures Reachable(c, s') && s' == s.(running := s.running[i := Decoding(s.running[i].todo[k..], 0)])
    decreases k
  {
    hide Reachable;
    var todo := s.running[i].todo;
    s' := s;
    if k > 0 {
      StepStaysReachable(c, s, Work(i));
      var s1 := DoDecode(s, i);
      assert s1.running[i].todo[k - 1..] == todo[k..];
      s' := SkipBlocks(c, s1, i, k - 1);
    } else {
      assert todo[0..] == todo;
    }
    assert s'.running == s.running[i := Decoding(todo[k..], 0)];
  }

  // A slot whose last code blocks have been given up is finished on the cut queue.
  ghost predicate SlotLost(c: Config, s: State, j: nat, n: nat, r: nat) {
    && s.head == r < |s.log| && s.cut && (forall k: nat :: Waits(s, k) <==> k == r) && s.log[r] == RuJob(c, j)
    && s.running == map[] && s.resp == 0 && s.rxTokens == 1 && s.clock == n + 1 && s.ru == []
    && |s.l1| == (if c.isDl(c.ahead + n) then 1 else 2) && Stamps(s.l1, false, c.ahead + n + 1)
    && |s.sent| == j && SentExpected(c, s)
  }

  lemma FinishSlot(c: Config, s: State, j: nat, n: nat, f: nat, i: nat, r: nat) returns (s': State)
    requires c.Valid() && Reachable(c, s) && CutAt(c, s, j, n, f, i, r) && LastOf(c.blocks(n), f)
    ensures Reachable(c, s') && SlotLost(c, s', j, n, r)
  {
    hide Config.Valid, Reachable, Stamps, Q, Waits;
    AheadIsPositive(c);
    ScheduledStamp(s.l1, c.ahead + n);
    var s1 := ToMatching(c, s, i);
    s' := EndSlot(c, s1, i);
    assert s'.running == map[];
    QueueAsBefore(s, s');
    assert s'.log[r] == s.log[r];
  }

  lemma ToMatching(c: Config, s: State, i: nat) returns (s': State)
    requires Reachable(c, s) && i < |s.log| && s.log[i].Rx? && i in s.running && s.running[i].Decoding? && |s.l1| > 0
    requires s.running == map[i := s.running[i]] && s.running[i].left == 0
    requires forall b :: 0 <= b < |s.running[i].todo| ==> s.running[i].todo[b] == 0
    ensures Reachable(c, s') && s' == s.(running := map[i := Matching], l1 := s.l1[1..] + [s.log[i].at])
  {
    hide Reachable;
    var s1 := SkipBlocks(c, s, i, |s.running[i].todo|);
    StepStaysReachable(c, s1, Work(i));
    var s2 := DoDecode(s1, i);
    StepStaysReachable(c, s2, Work(i));
    s' := DoSchedule(s2, i);
    assert s'.running == map[i := Matching];
  }

  // Jobs pushed onto a cut queue do not wait in it.
  lemma QueueAsBefore(s: State, s': State)
    requires s.log <= s'.log && s'.head == s.head && s'.dead == s.dead && s.lost <= s'.lost
    requires forall k :: k in s'.lost ==> k in s.lost || k >= |s.log|
    requires forall k :: |s.log| <= k < |s'.log| ==> k in s'.lost
    ensures forall k: nat :: Waits(s', k) <==> Waits(s, k)
  {
  }

  // rx_func hands out the code blocks of the next transport block, which are all lost.
  lemma {:induction false} HandOutLost(c: Config, s: State, i: nat) returns (s': State)
    requires Reachable(c, s) && i in s.running && i < |s.log| && s.log[i].Rx? && s.running[i].Decoding?
    requires s.cut && s.head <= |s.log| && (s.running[i].left > 0 || HasBlocks(s.running[i].todo))
    ensures Reachable(c, s') && s.log <= s'.log && i in s'.running && Collects(s'.running[i])
    ensures s' == s.(log := s'.log, lost := s'.lost, running := s.running[i := s'.running[i]])
    ensures s.lost <= s'.lost && (s.running[i].left == 0 ==> s'.lost != {})
    ensures forall k: nat :: Waits(s', k) <==> Waits(s, k)
    decreases |s.running[i].todo|, if s.running[i].todo == [] then 0 else s.running[i].todo[0]
  {
    hide Reachable;
    if Collects(s.running[i]) {
      s' := s;
      assert s.running[i := s.running[i]] == s.running;
    } else {
      StepStaysReachable(c, s, Work(i));
      StillToDecode(s, i);
      var s1 := DoDecode(s, i);
      QueueAsBefore(s, s1);
      assert HandsOut(s.running[i]) ==> |s.log| in s1.lost;
      s' := HandOutLost(c, s1, i);
      assert s'.running == s.running[i := s'.running[i]];
    }
  }

  lemma StillToDecode(s: State, i: nat)
    requires i in s.running && i < |s.log| && s.log[i].Rx? && ToDecode(s.running[i]) && !Collects(s.running[i])
    ensures ToDecode(DoDecode(s, i).running[i])
  {
    var todo := s.running[i].todo;
    if !HandsOut(s.running[i]) {
      var b :| 0 <= b < |todo| && todo[b] > 0;
      assert todo[1..][b - 1] > 0;
    }
  }

  // Code blocks of the next transport block are lost: rx_func waits for them.
  lemma LosesBlock(c: Config, s: State, j: nat, n: nat, f: nat, i: nat, r: nat) returns (s': State)
    requires c.workers >= 2 && Reachable(c, s) && CutAt(c, s, j, n, f, i, r) && HasBlocks(s.running[i].todo)
    ensures Reachable(c, s') && s'.lost != {} && s'.head == |s'.log| && s'.rxTokens == s'.resp == 0
    ensures forall k :: k in s'.running ==> Collects(s'.running[k])
  {
    hide Reachable, Q, SentExpected, Stamps, HasBlocks, Waits;
    var s1 := HandOutLost(c, s, i);
    assert s1.log[r] == s.log[r] && s1.running.Keys == {i};
    assert |s1.running.Keys| == |s1.running|;
    s' := SendLast(c, s1, r);
  }

  // There are none: the RX job of the next slot is lost.
  lemma LosesSlot(c: Config, s: State, j: nat, n: nat, r: nat) returns (s': State)
    requires c.workers >= 2 && Reachable(c, s) && SlotLost(c, s, j, n, r)
    ensures Reachable(c, s') && s'.lost != {} && s'.head == |s'.log| && s'.rxTokens == s'.resp == 0 && s'.running == map[]
  {
    hide Reachable, Q, SentExpected, Stamps;
    StepStaysReachable(c, s, Tick);
    var s1 := DoTick(c, s);
    assert |s.log| in s1.lost;
    QueueAsBefore(s, s1);
    s' := SendLast(c, s1, r);
  }

  /** And in the end nothing moves any more: the RX token is lost, or rx_func waits for code blocks that are. */
  lemma LosesJob(c: Config, n: nat, f: nat) returns (s: State)
    requires c.Valid() && Cuttable(c, n, f)
    ensures Reachable(c, s) && s.lost != {} && s.head == |s.log| && s.rxTokens == s.resp == 0
    ensures forall k :: k in s.running ==> Collects(s.running[k])
  {
    hide Config.Valid, Reachable, Beside, SlotLost;
    var j := CuttableBeside(c, n, f);
    AtLeastTwoWorkers(c, j, n);
    var s0, i, r := CutRun(c, j, n, f);
    if HasBlocks(s0.running[i].todo) {
      s := LosesBlock(c, s0, j, n, f, i, r);
    } else {
      assert forall b :: f < b < |c.blocks(n)| ==> c.blocks(n)[b] == s0.running[i].todo[b - f];
      var s1 := FinishSlot(c, s0, j, n, f, i, r);
      s := LosesSlot(c, s1, j, n, r);
    }
  }

  /** Exactly when no job is ever lost, in any interleaving. */
  lemma NoJobLostExactly(c: Config)
    requires c.Valid()
    ensures JobsSafe(c) <==> forall s :: Reachable(c, s) ==> s.lost == {}
  {
    hide Reachable, Cuttable, Config.Valid;
    if JobsSafe(c) {
      forall s | Reachable(c, s)
        ensures s.lost == {}
      {
        NoJobLost(c, s);
      }
    } else {
      var n: nat, f: nat :| Cuttable(c, n, f);
      var s := LosesJob(c, n, f);
    }
  }

  // ---- the assertion on the number of code blocks taken away ----

  // The transport block given up is followed by another one with two code blocks.
  ghost predicate FollowedByTwo(c: Config, n: nat, f: nat, g: nat) {
    && Cuttable(c, n, f) && f < g < |c.blocks(n)| && c.blocks(n)[g] >= 2
    && forall b :: f < b < g ==> c.blocks(n)[b] == 0
  }

  lemma MissingMeansFollowed(c: Config, s: State, i: nat)
    requires c.Valid() && Reachable(c, s) && CanFail(c, s, i) && !AddsUp(s, i)
    ensures exists n: nat, f: nat, g: nat :: FollowedByTwo(c, n, f, g)
  {
    hide Config.Valid, Reachable, InvWith, TwoWorkers, InTurn, NothingLost, DecJobs, LostBlocks, Cuttable, LastIsBehind, AddsUp;
    GivingUpAddsUp(c, s, i);
    ReachableKeeps(c, s);
    var h :| FullInv(c, s, h);
    FitsRunning(c, s, h, i);
    RunningRx(c, s, h, i);
    var n := |h.rxAt| - 1;
    var f := CutMeansCuttable(c, s, h);
    var g := Current(c.blocks(n), s.running[i]);
    assert FollowedByTwo(c, n, f, g);
  }

  // Further code blocks of the transport block are handed out and decoded, but not collected.
  lemma {:induction false} DecodeHanded(c: Config, s: State, i: nat) returns (s': State)
    requires Reachable(c, s) && i in s.running && i < |s.log| && s.log[i].Rx? && s.running[i].Decoding?
    requires s.running[i].todo != [] && c.workers >= 2 && s.running.Keys == {i}
    requires Clean(s) && s.head == |s.log|
    ensures Reachable(c, s') && s.log <= s'.log
    ensures var Decoding(todo, left) := s.running[i];
            s' == s.(log := s'.log, head := |s'.log|, resp := s.resp + todo[0],
                     running := map[i := Decoding([0] + todo[1..], left + todo[0])])
    decreases s.running[i].todo[0]
  {
    hide Reachable;
    var todo := s.running[i].todo;
    s' := s;
    if todo[0] > 0 {
      assert |s.running.Keys| == |s.running|;
      var s1 := DecodeOne(c, s, i);
      s' := DecodeHanded(c, s1, i);
    } else {
      assert [0] + todo[1..] == todo;
    }
    assert s'.running == map[i := s'.running[i]];
  }

  // A queue passed over completely is whole again.
  lemma WholeAgain(c: Config, s: State)
    requires c.Valid() && Reachable(c, s) && !s.cut && s.head == |s.log|
    ensures Clean(s)
  {
    hide Config.Valid, Reachable, InvWith, Segments, TwoWorkers, AfterCut, InTurn, NothingLost;
    ReachableKeeps(c, s);
    var h :| FullInv(c, s, h);
    LostBound(c, s, h);
  }

  // One of two code blocks is lost, the queue repaired, and the other one decoded.
  lemma LosesOneOfTwo(c: Config, n: nat, f: nat, g: nat) returns (s: State, i: nat)
    requires c.Valid() && FollowedByTwo(c, n, f, g)
    ensures Reachable(c, s) && CanFail(c, s, i) && !AddsUp(s, i)
  {
    hide Config.Valid, Reachable, Q, Config.Decodes, SentExpected, Stamps, Beside;
    var j := CuttableBeside(c, n, f);
    var r: nat;
    AtLeastTwoWorkers(c, j, n);
    s, i, r := CutRun(c, j, n, f);
    var s1 := ToNextBlock(c, s, i, c.blocks(n), f, g);
    StepStaysReachable(c, s1, Work(i));
    var s2 := DoDecode(s1, i);
    var p := |s1.log|;
    QueueAsBefore(s, s1);
    QueueAsBefore(s1, s2);
    assert s2.running.Keys == {i} && |s2.running.Keys| == |s2.running|;
    assert s2.log[r] == s1.log[r];
    var s3 := SendLast(c, s2, r);
    WholeAgain(c, s3);
    s := DecodeHanded(c, s3, i);
    assert s.log[p].Dec? && p in s.lost;
    assert LostBlocks(s) != {} by { assert p in LostBlocks(s); }
    GivingUpAddsUp(c, s, i);
  }

  lemma ToNextBlock(c: Config, s: State, i: nat, blocks: seq<nat>, f: nat, g: nat) returns (s': State)
    requires Reachable(c, s) && i < |s.log| && s.log[i].Rx? && f < g < |blocks| && forall b :: f < b < g ==> blocks[b] == 0
    requires s.running == map[i := Decoding([0] + blocks[f + 1..], 0)]
    ensures Reachable(c, s') && s' == s.(running := map[i := Decoding(blocks[g..], 0)])
  {
    hide Reachable;
    var todo := s.running[i].todo;
    assert forall b :: 0 < b < |todo| ==> todo[b] == blocks[f + b];
    s' := SkipBlocks(c, s, i, g - f);
    assert todo[g - f..] == blocks[g..];
    assert s'.running == map[i := Decoding(blocks[g..], 0)];
  }

  /** Exactly when the assertion of nr_postDecode on the number of code blocks taken away never fails. */
  lemma AssertionExactly(c: Config)
    requires c.Valid()
    ensures (forall n: nat, f: nat, g: nat :: !FollowedByTwo(c, n, f, g)) <==>
              forall s, i :: Reachable(c, s) && CanFail(c, s, i) ==> AddsUp(s, i)
  {
    hide Reachable, FollowedByTwo, Config.Valid, DecJobs;
    if n: nat, f: nat, g: nat :| FollowedByTwo(c, n, f, g) {
      var s, i := LosesOneOfTwo(c, n, f, g);
    } else {
      forall s, i | Reachable(c, s) && CanFail(c, s, i)
        ensures AddsUp(s, i)
      {
        if !AddsUp(s, i) {
          MissingMeansFollowed(c, s, i);
        }
      }
    }
  }
}
