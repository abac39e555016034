/**
 Particular runs of the pipeline, for the converses of ordered transmission and deadlock freedom: slots
 received one by one, each transmitted before the next or with a tx_func standing in front of the RU
 token.
 */
module PipelineRuns {
  import opened SlotPipeline
  import opened PipelineInvariant
  import opened PipelineSafety
  import opened PipelineDecoding

  // The queue is whole, and holds every job from its head on.
  ghost predicate Clean(s: State) {
    !s.cut && (forall k :: k in s.dead ==> k < s.head) && forall k :: k in s.lost ==> k < s.head
  }

  // Ready for the next slot: nothing queued, and any running job was picked before.
  ghost predicate Ready(c: Config, s: State) {
    && s.rxTokens == 1 && s.resp == 0 && Clean(s) && s.head == |s.log|
    && |s.running| < c.workers && (forall i :: i in s.running ==> i < s.head)
    && 1 <= |s.l1| <= 2 && Stamps(s.l1, false, c.ahead + s.clock)
  }

  // A worker is free for code blocks while rx_func waits, or there are none.
  predicate CanDecode(c: Config, s: State) {
    |s.running| + 1 < c.workers || !c.Decodes(s.clock)
  }

  // One code block handed out and decoded by a free worker.
  lemma DecodeOne(c: Config, s: State, i: nat) returns (s': State)
    requires Reachable(c, s) && CanWork(c, s, i) && HandsOut(s.running[i])
    requires s.head == |s.log| && |s.running| < c.workers && forall k :: k in s.running ==> k < s.head
    requires Clean(s)
    ensures Reachable(c, s') && s.log <= s'.log
    ensures var todo := s.running[i].todo;
            s' == s.(log := s'.log, head := |s'.log|, resp := s.resp + 1,
                     running := s.running[i := Decoding([todo[0] - 1] + todo[1..], s.running[i].left + 1)])
  {
    hide Reachable;
    var d := |s.log|;
    StepStaysReachable(c, s, Work(i));
    var s1 := DoDecode(s, i);
    StepStaysReachable(c, s1, Pick);
    var s2 := DoPick(s1);
    assert s2.running == s1.running[d := Decoded];
    StepStaysReachable(c, s2, Work(d));
    s' := DoReturn(s2, d);
    assert s'.running == s1.running;
  }

  // rx_func through its first transport block, each code block decoded as soon as it is handed out.
  lemma {:induction false} DecodeBlock(c: Config, s: State, i: nat) returns (s': State)
    requires Reachable(c, s) && i in s.running && i < |s.log| && s.log[i].Rx? && s.running[i].Decoding?
    requires s.running[i].todo != [] && s.resp == s.running[i].left
    requires Clean(s) && s.head == |s.log| && forall k :: k in s.running ==> k < s.head
    requires |s.running| < c.workers || s.running[i].todo[0] == 0
    ensures Reachable(c, s') && s.log <= s'.log
    ensures s' == s.(log := s'.log, head := |s'.log|, resp := 0, running := s.running[i := Decoding(s.running[i].todo[1..], 0)])
    decreases s.running[i].todo[0], s.running[i].left
  {
    hide Reachable;
    var todo, left := s.running[i].todo, s.running[i].left;
    if todo[0] > 0 {
      var s1 := DecodeOne(c, s, i);
      s' := DecodeBlock(c, s1, i);
    } else {
      StepStaysReachable(c, s, Work(i));
      s' := DoDecode(s, i);
      if left > 0 {
        s' := DecodeBlock(c, s', i);
      }
    }
    assert s'.running == s.running[i := Decoding(todo[1..], 0)];
  }

  // The transport blocks up to index f.
  lemma {:induction false} DecodeUpTo(c: Config, s: State, i: nat, f: nat) returns (s': State)
    requires Reachable(c, s) && i in s.running && i < |s.log| && s.log[i].Rx? && s.running[i].Decoding?
    requires s.resp == s.running[i].left == 0 && f <= |s.running[i].todo|
    requires Clean(s) && s.head == |s.log| && forall k :: k in s.running ==> k < s.head
    requires |s.running| < c.workers || forall b :: 0 <= b < f ==> s.running[i].todo[b] == 0
    ensures Reachable(c, s') && s.log <= s'.log
    ensures s' == s.(log := s'.log, head := |s'.log|, running := s.running[i := Decoding(s.running[i].todo[f..], 0)])
    decreases f
  {
    hide Reachable;
    s' := s;
    if f > 0 {
      s' := DecodeBlock(c, s, i);
      assert s'.running[i].todo[f - 1..] == s.running[i].todo[f..];
      s' := DecodeUpTo(c, s', i, f - 1);
    }
    assert s'.running == s.running[i := Decoding(s.running[i].todo[f..], 0)];
  }

  // rx_func through all the code blocks of its slot.
  lemma DecodeSlot(c: Config, s: State, i: nat) returns (s': State)
    requires Reachable(c, s) && i in s.running && i < |s.log| && s.log[i].Rx? && s.running[i].Decoding?
    requires s.resp == s.running[i].left == 0
    requires Clean(s) && s.head == |s.log| && forall k :: k in s.running ==> k < s.head
    requires |s.running| < c.workers || !HasBlocks(s.running[i].todo)
    ensures Reachable(c, s') && s.log <= s'.log
    ensures s' == s.(log := s'.log, head := |s'.log|, running := s.running[i := Scheduling])
  {
    hide Reachable;
    var s1 := DecodeUpTo(c, s, i, |s.running[i].todo|);
    StepStaysReachable(c, s1, Work(i));
    s' := DoDecode(s1, i);
    assert s'.running == s.running[i := Scheduling];
  }

  // ru_thread hands over a slot, rx_func has its code blocks decoded and stamps the front token.
  lemma StartSlot(c: Config, s: State) returns (s': State)
    requires c.Valid() && Reachable(c, s) && Ready(c, s) && CanDecode(c, s)
    ensures Reachable(c, s') && |s.log| < |s'.log| && s.log <= s'.log
    ensures var at := c.ahead + s.clock;
            && s' == s.(rxTokens := 0, log := s'.log, head := |s'.log|,
                        running := s.running[|s.log| := Matching], l1 := s.l1[1..] + [at], clock := s.clock + 1)
            && s'.log[|s.log|] == Rx(s.clock, at, c.time(s.clock), c.blocks(s.clock))
  {
    hide Config.Valid, Reachable, Stamps;
    var i := |s.log|;
    StepStaysReachable(c, s, Tick);
    var s1 := DoTick(c, s);
    StepStaysReachable(c, s1, Pick);
    var s2 := DoPick(s1);
    assert s2.running == s.running[i := Decoding(c.blocks(s.clock), 0)];
    assert |s2.running| == |s.running| + 1 by { OneMore(s.running, i, s2.running[i]); }
    var s3 := DecodeSlot(c, s2, i);
    assert s3.log[i] == s2.log[i];
    StepStaysReachable(c, s3, Work(i));
    s' := DoSchedule(s3, i);
    assert s'.running == s.running[i := Matching];
  }

  lemma OneMore(running: map<nat, Phase>, i: nat, phase: Phase)
    requires i !in running
    ensures |running[i := phase]| == |running| + 1
  {
    assert running[i := phase].Keys == running.Keys + {i};
    assert |running.Keys| == |running| && |running[i := phase].Keys| == |running[i := phase]|;
  }

  // rx_func starts tx_func for a downlink slot and returns its token.
  lemma EndSlot(c: Config, s: State, i: nat) returns (s': State)
    requires c.Valid() && Reachable(c, s) && i in s.running && s.running[i] == Matching
    requires i < |s.log| && s.log[i].Rx? && s.log[i].at >= 1 && s.rxTokens == 0
    requires Stamps(s.l1, true, s.log[i].at) && |s.l1| <= 2
    ensures Reachable(c, s')
    ensures var job, f := s.log[i], s.log[i].at;
            && s' == s.(rxTokens := 1, running := s.running - {i}, l1 := s'.l1,
                        log := s.log + (if c.isDl(f) then [Tx(f, job.ts)] else []),
                        lost := s'.lost)
            && |s'.l1| == |s.l1| - (if c.isDl(f) then 1 else 0) && Stamps(s'.l1, false, f + 1)
    ensures s'.lost == if s.cut && c.isDl(s.log[i].at) then s.lost + {|s.log|} else s.lost
  {
    hide Config.Valid, Reachable, Stamps;
    var s1 := MatchSlot(c, s, i);
    StepStaysReachable(c, s1, Work(i));
    s' := DoReturn(s1, i);
    assert s'.running == s.running - {i};
  }

  lemma MatchSlot(c: Config, s: State, i: nat) returns (s': State)
    requires c.Valid() && Reachable(c, s) && i in s.running && s.running[i] == Matching
    requires i < |s.log| && s.log[i].Rx? && s.log[i].at >= 1
    requires Stamps(s.l1, true, s.log[i].at) && |s.l1| <= 2
    ensures Reachable(c, s')
    ensures var job, f := s.log[i], s.log[i].at;
            && s' == s.(running := s.running[i := RxExit], l1 := s'.l1, lost := s'.lost,
                        log := s.log + (if c.isDl(f) then [Tx(f, job.ts)] else []))
            && |s'.l1| == |s.l1| - (if c.isDl(f) then 1 else 0) && Stamps(s'.l1, false, f + 1)
    ensures s'.lost == if s.cut && c.isDl(s.log[i].at) then s.lost + {|s.log|} else s.lost
  {
    hide Config.Valid, Reachable, Stamps;
    var p := FindStamp(c, s.l1, s.log[i].at);
    StampFound(c, s.l1, s.log[i].at);
    StampsAfterMatch(s.l1, s.log[i].at, p);
    StepStaysReachable(c, s, Work(i));
    s' := DoMatch(c, s, i);
  }

  /** One slot received, with everything else standing still. */
  lemma ReceiveSlot(c: Config, s: State) returns (s': State)
    requires c.Valid() && Reachable(c, s) && Ready(c, s) && CanDecode(c, s)
    ensures Reachable(c, s') && s.log <= s'.log && s.head <= s'.head && s'.resp == 0 && Clean(s')
    ensures s'.running == s.running && s'.rxTokens == 1 && s'.ru == s.ru && s'.sent == s.sent
    ensures s'.clock == s.clock + 1 && Stamps(s'.l1, false, c.ahead + s'.clock)
    ensures var at, ts := c.ahead + s.clock, c.time(s.clock);
            if c.isDl(at) then
              && 0 < |s'.log| == s'.head + 1 && s'.log[s'.head] == Tx(at, ts) && |s'.l1| == |s.l1| - 1
            else
              s'.head == |s'.log| && |s'.l1| == |s.l1|
  {
    hide Config.Valid, Reachable, Stamps;
    AheadIsPositive(c);
    ScheduledStamp(s.l1, c.ahead + s.clock);
    var at := c.ahead + s.clock;
    var tx := if c.isDl(at) then [Tx(at, c.time(s.clock))] else [];
    var s1 := StartSlot(c, s);
    s' := EndSlot(c, s1, |s.log|);
    SlotOver(s, s1, s', tx);
    hide Clean, CanDecode;
  }

  // Between slots the pool is as it was, but for the jobs in the log.
  lemma SlotOver(s: State, s1: State, s': State, tx: seq<Job>)
    requires Clean(s) && s.head == |s.log| && |s.log| !in s.running && s.log <= s1.log
    requires s1 == s.(rxTokens := 0, log := s1.log, head := |s1.log|, running := s.running[|s.log| := Matching], l1 := s1.l1,
                      clock := s.clock + 1)
    requires s' == s1.(rxTokens := 1, running := s1.running - {|s.log|}, l1 := s'.l1, log := s1.log + tx, lost := s1.lost)
    ensures Clean(s') && s'.running == s.running && s.log <= s'.log && s.head <= s'.head == |s'.log| - |tx|
  {
  }

  lemma AheadIsPositive(c: Config)
    requires c.Valid()
    ensures c.ahead >= 1 && c.workers >= 1
  {
  }

  lemma ScheduledStamp(l1: seq<int>, at: int)
    requires 1 <= |l1| <= 2 && Stamps(l1, false, at)
    ensures Stamps(l1[1..] + [at], true, at)
  {
    assert (l1[1..] + [at])[|l1| - 1] == at;
  }

  /** The queued TX job run to the end, radio included, on one worker. */
  lemma TransmitSlot(c: Config, s: State) returns (s': State)
    requires c.Valid() && Reachable(c, s)
    requires s.head == |s.log| - 1 && s.log[s.head].Tx? && s.ru == [c.num(s.log[s.head].at)]
    requires Clean(s) && |s.running| < c.workers && (forall i :: i in s.running ==> i < s.head)
    ensures Reachable(c, s')
    ensures var job := s.log[s.head];
            && s'.sent == s.sent + [Transmission(job.at, job.ts)]
            && s'.ru == [c.num(c.nextDl(job.at))] && s'.l1 == s.l1 + [IDLE]
    ensures s'.running == s.running && s'.rxTokens == s.rxTokens && s'.resp == s.resp && Clean(s') && s'.clock == s.clock
    ensures s.log <= s'.log && s'.head == |s'.log|
  {
    hide Config.Valid, Reachable;
    var s1 := HandOverFirst(c, s);
    s' := RadioJob(c, s1);
  }

  // The queued TX job, with the RU token showing its slot.
  lemma HandOverFirst(c: Config, s: State) returns (s': State)
    requires c.Valid() && Reachable(c, s)
    requires s.head == |s.log| - 1 && s.log[s.head].Tx? && s.ru == [c.num(s.log[s.head].at)]
    requires Clean(s) && |s.running| < c.workers && (forall i :: i in s.running ==> i < s.head)
    ensures Reachable(c, s')
    ensures var job := s.log[s.head];
            s' == s.(log := s.log + [Ru(job.at, job.ts, c.num(c.nextDl(job.at)))], head := s.head + 1, l1 := s.l1 + [IDLE], ru := [])
  {
    hide Config.Valid, Reachable;
    var i := s.head;
    StepStaysReachable(c, s, Pick);
    var s1 := DoPick(s);
    assert s1.running == s.running[i := Waiting];
    s' := HandOver(c, s1, i);
    assert s'.running == s.running;
  }

  // A tx_func before the RU token hands over.
  lemma HandOver(c: Config, s: State, i: nat) returns (s': State)
    requires Reachable(c, s) && i in s.running && s.running[i] == Waiting && i < |s.log| && s.log[i].Tx? && !s.cut
    requires s.ru == [c.num(s.log[i].at)]
    ensures Reachable(c, s')
    ensures var job := s.log[i];
            s' == s.(log := s.log + [Ru(job.at, job.ts, c.num(c.nextDl(job.at)))], l1 := s.l1 + [IDLE], ru := [],
                     running := s.running - {i})
  {
    hide Reachable;
    StepStaysReachable(c, s, Work(i));
    var s1 := DoPull(s, i);
    StepStaysReachable(c, s1, Work(i));
    var s2 := DoHold(c, s1, i);
    assert s2.running == s.running[i := TxExit];
    StepStaysReachable(c, s2, Work(i));
    s' := DoReturn(s2, i);
    assert s'.running == s.running - {i};
  }

  lemma RadioJob(c: Config, s: State) returns (s': State)
    requires c.Valid() && Reachable(c, s)
    requires s.head == |s.log| - 1 && s.log[s.head].Ru? && s.ru == []
    requires Clean(s) && |s.running| < c.workers && (forall i :: i in s.running ==> i < s.head)
    ensures Reachable(c, s')
    ensures var job := s.log[s.head];
            s' == s.(head := s.head + 1, sent := s.sent + [Transmission(job.at, job.ts)], ru := [job.next])
  {
    hide Config.Valid, Reachable;
    var i, job := s.head, s.log[s.head];
    StepStaysReachable(c, s, Pick);
    var s1 := DoPick(s);
    assert s1.running == s.running[i := Sending];
    StepStaysReachable(c, s1, Work(i));
    var s2 := DoSend(s1, i);
    assert s2.running == s.running[i := RuExit];
    StepStaysReachable(c, s2, Work(i));
    s' := DoReturn(s2, i);
    assert s'.running == s.running;
  }

  ghost predicate SentExpected(c: Config, s: State) {
    forall j :: 0 <= j < |s.sent| ==> s.sent[j] == Expected(c, j)
  }

  /** Between slots with nothing under way, the first m downlink slots sent. */
  ghost predicate Quiet(c: Config, s: State, m: nat) {
    && Ready(c, s) && s.running == map[] && |s.l1| == 2
    && s.ru == [c.num(Q(c, m))] && TxUpTo(c, m, c.ahead + s.clock)
    && |s.sent| == m && SentExpected(c, s)
  }

  lemma QuietStep(c: Config, s: State, m: nat) returns (s': State, m': nat)
    requires c.Valid() && Reachable(c, s) && Quiet(c, s, m) && (c.workers >= 2 || !c.Decodes(s.clock))
    ensures Reachable(c, s') && Quiet(c, s', m') && s'.clock == s.clock + 1
  {
    if c.isDl(c.ahead + s.clock) {
      s' := QuietDownlink(c, s, m);
      m' := m + 1;
    } else {
      s' := QuietUplink(c, s, m);
      m' := m;
    }
  }

  lemma QuietUplink(c: Config, s: State, m: nat) returns (s': State)
    requires c.Valid() && Reachable(c, s) && Quiet(c, s, m) && (c.workers >= 2 || !c.Decodes(s.clock)) && !c.isDl(c.ahead + s.clock)
    ensures Reachable(c, s') && Quiet(c, s', m) && s'.clock == s.clock + 1
  {
    hide Config.Valid, Reachable, Q, Stamps, TxUpTo;
    s' := ReceiveSlot(c, s);
    UplinkFrontier(c, m, c.ahead + s.clock);
  }

  lemma QuietDownlink(c: Config, s: State, m: nat) returns (s': State)
    requires c.Valid() && Reachable(c, s) && Quiet(c, s, m) && (c.workers >= 2 || !c.Decodes(s.clock)) && c.isDl(c.ahead + s.clock)
    ensures Reachable(c, s') && Quiet(c, s', m + 1) && s'.clock == s.clock + 1
  {
    hide Config.Valid, Reachable, Q, Stamps, TxUpTo;
    var at := c.ahead + s.clock;
    var s1 := ReceiveSlot(c, s);
    DownlinkFrontier(c, m, at);
    assert s1.log[s1.head] == Tx(at, c.time(s.clock));
    s' := TransmitSlot(c, s1);
    StampsIdle(s1.l1, false, at + 1);
    QSucc(c, m);
    SentOneMore(c, s, s', m);
  }

  lemma SentOneMore(c: Config, s: State, s': State, m: nat)
    requires SentExpected(c, s) && |s.sent| == m
    requires s'.sent == s.sent + [Transmission(Q(c, m), c.time(Q(c, m) - c.ahead))]
    ensures SentExpected(c, s')
  {
    hide Q;
  }

  lemma QSucc(c: Config, m: nat)
    ensures Q(c, m + 1) == c.nextDl(Q(c, m))
  {
  }

  lemma QuietInit(c: Config)
    requires c.Valid()
    ensures Reachable(c, Init(c)) && Quiet(c, Init(c), 0)
  {
    assert IsRun(c, [Init(c)]);
    QIsDownlink(c, 0);
  }

  lemma {:induction false} QuietAt(c: Config, n: nat) returns (s: State, m: nat)
    requires c.Valid() && (c.workers >= 2 || forall k: nat :: k < n ==> !c.Decodes(k))
    ensures Reachable(c, s) && Quiet(c, s, m) && s.clock == n
  {
    hide Config.Valid, Config.Decodes, Reachable, Quiet;
    if n == 0 {
      QuietInit(c);
      s, m := Init(c), 0;
      assert s.clock == 0;
    } else {
      s, m := QuietAt(c, n - 1);
      s, m := QuietStep(c, s, m);
    }
  }

  lemma QInjective(c: Config, m: nat, j: nat)
    requires c.Valid() && TxUpTo(c, m, Q(c, j))
    ensures m == j
  {
    hide Config.Valid, Q;
    if m < j {
      QIncreases(c, m, j);
    }
  }

  // Uplink slots pass while the TX job at log position i is parked in front of the RU token.
  lemma {:induction false} PassUplink(c: Config, s: State, slots: nat) returns (s': State)
    requires c.Valid() && Reachable(c, s) && Ready(c, s)
    requires forall at :: c.ahead + s.clock <= at < c.ahead + s.clock + slots ==> !c.isDl(at)
    requires |s.running| + 1 < c.workers || NoneDecodes(c, s.clock - 1, s.clock + slots - 1)
    ensures Reachable(c, s') && Ready(c, s') && s'.clock == s.clock + slots
    ensures s'.running == s.running && s'.ru == s.ru && s'.sent == s.sent && |s'.l1| == |s.l1|
    ensures s.log <= s'.log
    decreases slots
  {
    hide Config.Valid, Reachable, Stamps;
    s' := s;
    if slots > 0 {
      s' := ReceiveSlot(c, s);
      s' := PassUplink(c, s', slots - 1);
    }
  }

  // The TX job of downlink slot j is running but has not yet looked at the RU token.
  lemma ParkTx(c: Config, j: nat) returns (s: State)
    requires c.Valid() && c.workers >= 2
    ensures Reachable(c, s) && Ready(c, s)
    ensures s.clock == Q(c, j) + 1 - c.ahead && |s.l1| == 1 && s.ru == [c.num(Q(c, j))]
    ensures |s.sent| == j && SentExpected(c, s)
    ensures exists i :: i < |s.log| && s.running == map[i := Waiting] && s.log[i] == TxJob(c, j)
  {
    hide Config.Valid, Reachable, Q, Stamps;
    QIsDownlink(c, j);
    var m: nat;
    s, m := QuietAt(c, Q(c, j) - c.ahead);
    QInjective(c, m, j);
    s := ReceiveSlot(c, s);
    StepStaysReachable(c, s, Pick);
    var i := s.head;
    s := DoPick(s);
    assert s.running == map[i := Waiting];
  }

  // The TX job of slot p stands before the RU token, only the slots before p have been sent in order,
  // and those after p up to t have been sent.
  ghost predicate Parked(c: Config, s: State, p: nat, t: nat) {
    && Ready(c, s) && s.clock == Starter(c, t) + 1 && |s.l1| == 1 && s.ru == [c.num(Q(c, t + 1))]
    && (exists i :: i < |s.log| && s.running == map[i := Waiting] && s.log[i].Tx? && s.log[i].at == Q(c, p))
    && p <= t == |s.sent| && (forall k :: 0 <= k < p ==> s.sent[k] == Expected(c, k))
    && (p < t ==> s.sent[p].at == Q(c, p + 1))
  }

  /** Where slot p has the slot number of its successor, its TX job can be overtaken by the following
      ones for as long as the other workers suffice for what is decoded. */
  lemma {:induction false} ParkedRun(c: Config, p: nat, t: nat) returns (s: State)
    requires c.Valid() && c.workers >= 2 && p <= t && c.num(Q(c, p)) == c.num(Q(c, p + 1))
    requires c.workers >= 3 || NoneDecodes(c, Starter(c, p), Starter(c, t))
    ensures Reachable(c, s) && Parked(c, s, p, t)
  {
    hide Config.Valid, Config.Decodes, Reachable, Q, Stamps;
    if t == p {
      s := ParkTx(c, p);
    } else {
      QIsDownlink(c, t);
      QIncreasing(c, t - 1);
      s := ParkedRun(c, p, t - 1);
      s := ParkedStep(c, s, p, t);
    }
  }

  lemma QIncreasing(c: Config, t: nat)
    requires c.Valid()
    ensures Q(c, t) < Q(c, t + 1)
  {
    QIncreases(c, t, t + 1);
  }

  lemma ParkedStep(c: Config, s: State, p: nat, t: nat) returns (s': State)
    requires c.Valid() && c.workers >= 2 && p < t && Reachable(c, s) && Parked(c, s, p, t - 1)
    requires c.workers >= 3 || NoneDecodes(c, Starter(c, p), Starter(c, t))
    ensures Reachable(c, s') && Parked(c, s', p, t)
  {
    hide Config.Valid, Config.Decodes, Reachable, Q, Stamps;
    var i :| i < |s.log| && s.running == map[i := Waiting] && s.log[i].Tx? && s.log[i].at == Q(c, p);
    StarterOrder(c, p, t - 1);
    QIncreasing(c, t - 1);
    QIsDownlink(c, t);
    NoDownlinkBetween(c, t - 1);
    var s1 := PassUplink(c, s, Q(c, t) - Q(c, t - 1) - 1);
    var s2 := ReceiveSlot(c, s1);
    s' := TransmitSlot(c, s2);
    QSucc(c, t);
    StampsIdle(s2.l1, false, c.ahead + s2.clock);
    assert s'.log[i] == s.log[i];
    assert forall k :: 0 <= k < p ==> s'.sent[k] == s.sent[k];
  }

  lemma NoDownlinkBetween(c: Config, j: nat)
    requires c.Valid()
    ensures forall at :: Q(c, j) < at < Q(c, j + 1) ==> !c.isDl(at)
  {
    QSucc(c, j);
  }
}
