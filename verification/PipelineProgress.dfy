/**
 When the slot pipeline cannot get stuck: under `DeadlockSafe`, whatever the interleaving, some thread
 can always do work that is not just spinning on the RU token, as long as no job has been lost.
 PipelineDeadlock shows the converse.
 */
module PipelineProgress {
  import opened SlotPipeline
  import opened PipelineInvariant
  import opened PipelineSafety
  import opened PipelineDecoding

  // The RU token passing through the hands of a tx_func that has to put it back is spinning.
  predicate Spins(c: Config, s: State, step: Step)
    requires Enabled(c, s, step)
  {
    step.Work? && var i := step.i;
    || (s.running[i].Waiting? && s.ru[0] != c.num(s.log[i].at))
    || (s.running[i].Holding? && s.running[i].next != c.num(s.log[i].at))
  }

  predicate Productive(c: Config, s: State, step: Step) {
    Enabled(c, s, step) && !Spins(c, s, step)
  }

  predicate PutsBack(c: Config, s: State, step: Step) {
    Enabled(c, s, step) && Spins(c, s, step) && s.running[step.i].Holding?
  }

  /** Some step makes headway, at the latest after a token in the wrong hands has been put back. */
  ghost predicate CanProgress(c: Config, s: State) {
    || (exists step :: Productive(c, s, step))
    || (exists back, step :: PutsBack(c, s, back) && Productive(c, Apply(c, s, back), step))
  }

  // Downlink slots j and j + 1 can both be under way when the slot received next is one to be decoded:
  // then its RX job gets in front of the RU job of slot j.
  ghost predicate HeldUp(c: Config, j: nat) {
    c.Decodes(Starter(c, j + 1) + 1) && NoneDecodes(c, Starter(c, j), Starter(c, j + 1))
  }

  // The tx_func of downlink slot p can be overtaken by its successor and then keep a worker busy until
  // received slot m is to be decoded, by which time the RU token, after slot t, shows another number.
  ghost predicate LeftBehind(c: Config, p: nat, t: nat, m: nat) {
    && p < t && c.num(Q(c, p)) == c.num(Q(c, p + 1)) && c.num(Q(c, t + 1)) != c.num(Q(c, p))
    && Starter(c, t) < m <= Starter(c, t + 1) && c.Decodes(m) && NoneDecodes(c, Starter(c, p), m - 1)
  }

  /** The condition under which the workers suffice, as long as no job is lost: three of them, or nothing to
      decode, or two and neither of the two situations above on the calendar. */
  ghost predicate DeadlockSafe(c: Config) {
    || c.workers >= 3
    || (forall n: nat :: !c.Decodes(n))
    || (c.workers == 2 && (forall j: nat :: !HeldUp(c, j)) && forall p: nat, t: nat, m: nat :: !LeftBehind(c, p, t, m))
  }

  // What remains when no step of the pool is productive, as long as no job has been lost.
  ghost predicate Blocked(c: Config, s: State) {
    && s.lost == {} && (s.head == |s.log| || (Waits(s, s.head) && |s.running| >= c.workers))
    && (forall i :: i in s.running ==>
          || s.running[i].Waiting? || s.running[i].Holding? || (s.running[i].Scheduling? && s.l1 == [])
          || (Collects(s.running[i]) && s.resp == 0))
  }

  // And neither is one of ru_thread.
  ghost predicate Halted(c: Config, s: State) {
    s.rxTokens == 0 && Blocked(c, s)
  }

  // The part of it in which no rx_func waits for results.
  ghost predicate Stuck(c: Config, s: State) {
    Halted(c, s) && forall i :: i in s.running ==> !s.running[i].Decoding?
  }

  lemma BlockedOtherwise(c: Config, s: State, h: Hist)
    requires c.Valid() && InvWith(c, s, h) && s.lost == {} && !Blocked(c, s)
    ensures exists step: Step :: !step.Tick? && Productive(c, s, step)
  {
    hide CutQueue, LogShape, Increasing, TxBetweenRx, RuBetweenTx, Workers, RxToken, TxUpTo, TxTokens, Stamps, RuToken, SentInOrder, Turns, Config.Valid;
    if s.head < |s.log| && !Waits(s, s.head) {
      assert Productive(c, s, Drop);
    } else if s.head < |s.log| && |s.running| < c.workers {
      assert Productive(c, s, Pick);
    } else {
      HeadBound(c, s, h);
      var i :| i in s.running && !s.running[i].Waiting? && !s.running[i].Holding?
        && !(s.running[i].Scheduling? && s.l1 == []) && !(Collects(s.running[i]) && s.resp == 0);
      FitsRunning(c, s, h, i);
      if s.running[i].Matching? {
        var p := MatchedToken(c, s, h, i);
      }
      assert Productive(c, s, Work(i));
    }
  }

  lemma RxTokenCount(c: Config, s: State, h: Hist)
    requires InvWith(c, s, h)
    ensures s.rxTokens == 0 ==> |h.rxAt| > 0 && !Finished(s, h.rxAt[|h.rxAt| - 1])
  {
    hide CutQueue, LogShape, Increasing, TxBetweenRx, RuBetweenTx, Workers, TxUpTo, TxTokens, Stamps, RuToken, SentInOrder, Turns;
  }

  // In a stuck state the running jobs are RX waiting for an L1-TX token and TX waiting for the RU token.
  lemma StuckJob(c: Config, s: State, h: Hist, i: nat)
    requires InvWith(c, s, h) && Stuck(c, s) && i in s.running
    ensures i < s.head <= |s.log|
    ensures InTx(s, i) || (s.running[i].Scheduling? && s.log[i].Rx? && s.l1 == [])
  {
    hide CutQueue, LogShape, Increasing, TxBetweenRx, RuBetweenTx, Workers, RxToken, TxUpTo, TxTokens, Stamps, RuToken, SentInOrder, Turns;
    FitsRunning(c, s, h, i);
  }

  lemma SchedulingMeansTwoTx(c: Config, s: State, h: Hist, i: nat)
    requires InvWith(c, s, h) && Stuck(c, s) && i in s.running && s.running[i].Scheduling?
    ensures |h.txAt| == |h.ruAt| + 2
    ensures forall j :: 0 <= j < |h.txAt| ==> h.txAt[j] < i
  {
    hide CutQueue, LogShape, Increasing, RuBetweenTx, Workers, RxToken, Stamps, RuToken, SentInOrder, Turns;
    StuckJob(c, s, h, i);
    RunningRx(c, s, h, i);
    assert Exiting(s) == {};
    assert |s.l1| == 0;
  }

  lemma SomeRunning(c: Config, s: State) returns (i: nat)
    requires |s.running| >= 1
    ensures i in s.running
  {
    assert |s.running.Keys| == |s.running|;
    i :| i in s.running.Keys;
  }

  // In a stuck state a TX job is running whose slot number the RU token shows.
  lemma NextTxRuns(c: Config, s: State, h: Hist) returns (j: nat)
    requires c.Valid() && InvWith(c, s, h) && Stuck(c, s)
    ensures j < |h.txAt| && j !in h.turn && h.txAt[j] in s.running && c.num(Q(c, j)) == NextNum(c, h)
  {
    hide CutQueue, LogShape, Increasing, TxBetweenRx, RuBetweenTx, Workers, RxToken, TxUpTo, TxTokens, Stamps, RuToken, SentInOrder, Turns;
    HeadBound(c, s, h);
    RxTokenCount(c, s, h);
    LogPositions(c, s, h);
    j := Upcoming(h.turn, h.parked);
    var last := h.rxAt[|h.rxAt| - 1];
    var k: nat;
    if last in s.running {
      StuckRx(c, s, h, last);
      SchedulingMeansTwoTx(c, s, h, last);
      k := |h.txAt| - 1;
    } else {
      var i := LaterTxRuns(c, s, h, last);
      k := RunningTx(c, s, h, i);
      UpcomingIsFirst(c, h.turn, h.parked, |h.txAt|, k);
    }
    UpcomingUnserved(c, h.turn, h.parked, |h.txAt|);
    EarlierTxRuns(c, s, h, j, k);
  }

  lemma UpcomingUnserved(c: Config, turn: seq<nat>, parked: int, tx: nat)
    requires Turns(c, turn, parked, tx)
    ensures Upcoming(turn, parked) !in turn
  {
  }

  // Apart from the parked one, nobody before the upcoming job is left.
  lemma UpcomingIsFirst(c: Config, turn: seq<nat>, parked: int, tx: nat, k: nat)
    requires Turns(c, turn, parked, tx) && k !in turn && k != parked
    ensures Upcoming(turn, parked) <= k
  {
  }

  // A TX job that has not handed over runs if a later one has been picked.
  lemma EarlierTxRuns(c: Config, s: State, h: Hist, j: nat, k: nat)
    requires InvWith(c, s, h) && s.lost == {} && j <= k < |h.txAt| && j !in h.turn && h.txAt[k] < s.head
    ensures h.txAt[j] in s.running
  {
    hide CutQueue, LogShape, TxBetweenRx, RuBetweenTx, Workers, RxToken, TxUpTo, Stamps, RuToken, SentInOrder, Turns;
    assert h.txAt[j] <= h.txAt[k];
  }

  // With the RX job still queued, all workers are taken by TX jobs, and not only by the parked one.
  lemma LaterTxRuns(c: Config, s: State, h: Hist, last: nat) returns (i: nat)
    requires c.Valid() && InvWith(c, s, h) && Stuck(c, s)
    requires |h.rxAt| > 0 && last == h.rxAt[|h.rxAt| - 1] && last !in s.running && !Finished(s, last)
    ensures InTx(s, i) && (0 <= h.parked < |h.txAt| ==> i != h.txAt[h.parked])
  {
    hide CutQueue, LogShape, Increasing, TxBetweenRx, RuBetweenTx, Workers, RxToken, TxUpTo, TxTokens, Stamps, RuToken, SentInOrder, Turns;
    LogPositions(c, s, h);
    assert |s.running| >= c.workers >= 1;
    ParkedNeedsTwo(c, h.turn, h.parked, |h.txAt|);
    i := SomeRunning(c, s);
    if 0 <= h.parked < |h.txAt| && i == h.txAt[h.parked] {
      i := OtherRunning(s, i);
    }
    StuckJob(c, s, h, i);
    if !InTx(s, i) {
      RunningRx(c, s, h, i);
      assert false;
    }
  }

  lemma ParkedNeedsTwo(c: Config, turn: seq<nat>, parked: int, tx: nat)
    requires Turns(c, turn, parked, tx)
    ensures parked >= 0 ==> c.workers != 1 && parked < tx
  {
  }

  lemma OtherRunning(s: State, x: nat) returns (i: nat)
    requires |s.running| >= 2
    ensures i in s.running && i != x
  {
    if forall k :: k in s.running ==> k == x {
      AtMostOne(s, x);
    }
    i :| i in s.running && i != x;
  }

  lemma StuckRx(c: Config, s: State, h: Hist, i: nat)
    requires InvWith(c, s, h) && Stuck(c, s) && i in s.running && i in h.rxAt
    ensures s.running[i].Scheduling?
  {
    hide CutQueue, LogShape, Increasing, TxBetweenRx, RuBetweenTx, Workers, RxToken, TxUpTo, TxTokens, Stamps, RuToken, SentInOrder, Turns;
    FitsRunning(c, s, h, i);
    KindOf(c, s.log, h, i);
  }

  // In a stuck state the RU token is not in the pool: its job would be picked.
  lemma RuNotAway(c: Config, s: State, h: Hist)
    requires c.Valid() && InvWith(c, s, h) && Stuck(c, s)
    ensures h.place != Away
  {
    hide CutQueue, LogShape, Increasing, TxBetweenRx, RuBetweenTx, Workers, RxToken, TxUpTo, TxTokens, Stamps, RuToken, SentInOrder, Turns;
    if h.place == Away {
      var r := AwayRuQueued(c, s, h);
      LogPositions(c, s, h);
      assert |s.running| >= c.workers;
      var i := SomeRunning(c, s);
      OnlyOneBeforeRu(c, s, h, r, i);
      i := OtherRunning(s, h.txAt[FirstOpen(h)]);
      OnlyOneBeforeRu(c, s, h, r, i);
      assert false;
    }
  }

  lemma AtMostOne(s: State, x: nat)
    requires forall i :: i in s.running ==> i == x
    ensures |s.running| <= 1
  {
    assert s.running.Keys <= {x};
    assert |{x} - s.running.Keys| == |{x}| - |s.running.Keys|;
  }

  lemma AwayRuQueued(c: Config, s: State, h: Hist) returns (r: nat)
    requires InvWith(c, s, h) && Stuck(c, s) && h.place == Away
    ensures |h.ruAt| > 0 && r == h.ruAt[|h.ruAt| - 1] && s.head <= r < |s.log|
    ensures forall i :: i in s.running ==> !s.running[i].Holding?
  {
    hide CutQueue, LogShape, Increasing, TxBetweenRx, RuBetweenTx, Workers, RxToken, TxUpTo, TxTokens, Stamps, SentInOrder, Turns;
    r := h.ruAt[|h.ruAt| - 1];
    LogPositions(c, s, h);
    if r in s.running {
      FitsRunning(c, s, h, r);
      KindOf(c, s.log, h, r);
      assert false;
    }
  }

  // With an RU job still queued, only the first TX job that has not handed over can be running.
  lemma OnlyOneBeforeRu(c: Config, s: State, h: Hist, r: nat, i: nat)
    requires InvWith(c, s, h) && Stuck(c, s) && i in s.running
    requires |h.ruAt| > 0 && r == h.ruAt[|h.ruAt| - 1] && s.head <= r
    ensures FirstOpen(h) < |h.txAt| && i == h.txAt[FirstOpen(h)] && c.workers != 1
  {
    hide CutQueue, LogShape, Increasing, TxBetweenRx, Workers, RxToken, TxUpTo, TxTokens, Stamps, RuToken, SentInOrder;
    StuckJob(c, s, h, i);
    var n := |h.ruAt|;
    assert n - 1 + Lag(c) < |h.txAt| ==> h.ruAt[n - 1] < h.txAt[n - 1 + Lag(c)];
    if InTx(s, i) {
      var j := RunningTx(c, s, h, i);
      TxOrder(c, s, h, j);
    } else {
      SchedulingMeansTwoTx(c, s, h, i);
      assert false;
    }
  }

  lemma TxOrder(c: Config, s: State, h: Hist, j: nat)
    requires InvWith(c, s, h) && j < |h.txAt|
    ensures forall l :: 0 <= l <= j ==> h.txAt[l] <= h.txAt[j]
  {
    hide CutQueue, LogShape, TxBetweenRx, RuBetweenTx, Workers, RxToken, TxUpTo, TxTokens, Stamps, RuToken, SentInOrder, Turns;
  }

  lemma RuAtHome(c: Config, s: State, h: Hist)
    requires InvWith(c, s, h)
    ensures h.place == Home ==> s.ru == [NextNum(c, h)]
    ensures forall i :: i in s.running && s.running[i].Holding? ==> h.place == Held(i)
    ensures h.place.Held? ==>
      s.ru == [] && InPhase(s, h.place.i, Holding(NextNum(c, h)))
  {
    hide CutQueue, LogShape, Increasing, TxBetweenRx, RuBetweenTx, Workers, RxToken, TxUpTo, TxTokens, Stamps, SentInOrder, Turns;
  }

  // ---- an rx_func waiting for results ----

  // The RX job i waits for code blocks while everything else stands still.
  ghost predicate Starved(c: Config, s: State, h: Hist, i: nat) {
    Halted(c, s) && i in s.running && Collects(s.running[i])
  }

  // Its code blocks are queued, so that all workers are taken: by the RX job and by open TX jobs.
  lemma StarvedShape(c: Config, s: State, h: Hist, i: nat)
    requires FullInv(c, s, h) && Starved(c, s, h, i)
    ensures |h.rxAt| > 0 && i == h.rxAt[|h.rxAt| - 1] < s.head && c.Decodes(|h.rxAt| - 1) && !RxPassed(s, h.rxAt)
    ensures |s.running| >= c.workers
  {
    hide InvWith, InTurn;
    HeadBound(c, s, h);
    FitsRunning(c, s, h, i);
    RunningRx(c, s, h, i);
    AllFit(c, s, h);
    StarvedQueue(c, s, h, i);
  }

  lemma AllFit(c: Config, s: State, h: Hist)
    requires InvWith(c, s, h)
    ensures s.head <= |s.log| && forall k :: k in s.running ==> k < s.head && Fits(s.log[k], s.running[k])
  {
    hide CutQueue, LogShape, Increasing, TxBetweenRx, RuBetweenTx, RxToken, TxUpTo, TxTokens, Stamps, RuToken, SentInOrder, Turns;
  }

  lemma StarvedQueue(c: Config, s: State, h: Hist, i: nat)
    requires Segments(c, s, h.rxAt) && Starved(c, s, h, i) && |h.rxAt| > 0 && i == h.rxAt[|h.rxAt| - 1]
    requires forall k :: k in s.running ==> k < |s.log| && Fits(s.log[k], s.running[k])
    ensures s.head < |s.log|
  {
    assert DecJobs(s) != {};
    var d :| d in DecJobs(s);
    assert forall k :: k in s.running ==> !s.running[k].Decoded?;
  }

  // The other running jobs are open TX jobs, of which there are at most two.
  lemma StarvedOther(c: Config, s: State, h: Hist, i: nat, k: nat)
    requires FullInv(c, s, h) && Starved(c, s, h, i) && k in s.running && k != i
    ensures Open(h, FirstOpen(h)) && |h.turn| < |h.txAt|
    ensures k == h.txAt[FirstOpen(h)] || (Open(h, |h.turn| + 1) && k == h.txAt[|h.turn| + 1])
    ensures InTx(s, k)
  {
    hide InvWith, Segments, Gate, PickGuard, RuBehind, InTurn, AfterCut, NothingLost, RuAmong, LostTx;
    FitsRunning(c, s, h, i);
    RunningRx(c, s, h, i);
    FitsRunning(c, s, h, k);
    if !InTx(s, k) {
      RunningRx(c, s, h, k);
      assert false;
    }
    var u := RunningTx(c, s, h, k);
    LagHolds(c, s, h);
    TurnsOf(c, s, h);
    OpenAre(c, h, u);
  }

  lemma OpenAre(c: Config, h: Hist, u: nat)
    requires Turns(c, h.turn, h.parked, |h.txAt|) && |h.txAt| <= |h.turn| + 2 && Open(h, u)
    ensures Open(h, FirstOpen(h)) && |h.turn| < |h.txAt|
    ensures u == FirstOpen(h) || u == |h.turn| + 1
  {
  }

  // Jobs that are open were pushed before the RX job that waits, and run.
  lemma StarvedOpen(c: Config, s: State, h: Hist, i: nat, u: nat)
    requires FullInv(c, s, h) && Starved(c, s, h, i) && Open(h, u)
    ensures InTx(s, h.txAt[u]) && h.txAt[u] < i && Starter(c, u) < |h.rxAt| - 1
  {
    hide InvWith, Segments, Gate, PickGuard, RuBehind, InTurn, Q, RxPassed, AfterCut, NothingLost, RuAmong, LostTx;
    StarvedShape(c, s, h, i);
    PushedUpTo(c, s, h);
    OpenRuns(c, s, h, u, |h.rxAt| - 1);
  }

  // With three jobs running, the TX job whose number the token shows is one of them.
  lemma ThreeRunning(c: Config, s: State, h: Hist, i: nat) returns (j: nat)
    requires c.Valid() && FullInv(c, s, h) && Starved(c, s, h, i) && |s.running| >= 3
    ensures Open(h, j) && InTx(s, h.txAt[j]) && c.num(Q(c, j)) == NextNum(c, h) && h.place != Away
  {
    hide InvWith, Segments, Gate, PickGuard, RuBehind, InTurn, Q, Config.Valid, AfterCut, NothingLost, RuAmong, LostTx;
    var k := ThirdRunning(s, i, h.txAt, FirstOpen(h));
    StarvedOther(c, s, h, i, k);
    var n := |h.turn|;
    assert Open(h, n + 1);
    j := if h.parked < 0 then n else n + 1;
    StarvedOpen(c, s, h, i, j);
    if h.place == Away {
      WithinWorkers(c, s, h);
      AwayBefore(c, s, h, i);
      StarvedShape(c, s, h, i);
      StarvedOpen(c, s, h, i, n + 1);
      assert false;
    }
  }

  lemma ThirdRunning(s: State, a: nat, txAt: seq<nat>, u: nat) returns (k: nat)
    requires |s.running| >= 3
    ensures k in s.running && k != a && (u < |txAt| ==> k != txAt[u])
  {
    var two := if u < |txAt| then {a, txAt[u]} else {a};
    assert |s.running.Keys| == |s.running|;
    assert s.running.Keys - two != {} by {
      assert |s.running.Keys - two| >= |s.running.Keys| - |two|;
    }
    k :| k in s.running.Keys - two;
  }

  // With the RU job queued, the second TX job behind it cannot be running.
  lemma AwayBefore(c: Config, s: State, h: Hist, i: nat)
    requires FullInv(c, s, h) && Starved(c, s, h, i) && h.place == Away
    ensures |h.ruAt| > 0 && h.ruAt[|h.ruAt| - 1] >= s.head
    ensures Lag(c) == 2 && Open(h, |h.turn| + 1) ==> h.txAt[|h.turn| + 1] >= s.head
  {
    TurnsOf(c, s, h);
    AwayQueued(c, s, h);
    hide CutQueue, LogShape, Increasing, TxBetweenRx, Workers, RxToken, TxUpTo, TxTokens, Stamps, RuToken, SentInOrder, Turns, Segments, Gate, PickGuard, RuBehind, InTurn, Lag, AfterCut, NothingLost, RuAmong, LostTx;
  }

  lemma AwayQueued(c: Config, s: State, h: Hist)
    requires InvWith(c, s, h) && Blocked(c, s) && h.place == Away
    ensures |h.ruAt| > 0 && h.ruAt[|h.ruAt| - 1] >= s.head
  {
    hide CutQueue, LogShape, Increasing, TxBetweenRx, RuBetweenTx, Workers, RxToken, TxUpTo, TxTokens, Stamps, SentInOrder, Turns;
    var r := h.ruAt[|h.ruAt| - 1];
    LogPositions(c, s, h);
    if r in s.running {
      FitsRunning(c, s, h, r);
      KindOf(c, s.log, h, r);
      assert false;
    }
  }

  // With two workers, the other one is on the first open TX job, and it can take the token.
  lemma TwoRunning(c: Config, s: State, h: Hist, i: nat)
    requires c.Valid() && FullInv(c, s, h) && Starved(c, s, h, i) && c.workers == 2 && |s.running| == 2
    requires (forall j: nat :: !HeldUp(c, j)) && forall p: nat, t: nat, m: nat :: !LeftBehind(c, p, t, m)
    ensures Open(h, FirstOpen(h)) && InTx(s, h.txAt[FirstOpen(h)]) && h.place != Away
    ensures c.num(Q(c, FirstOpen(h))) == NextNum(c, h)
  {
    hide InvWith, Segments, Gate, PickGuard, RuBehind, InTurn, Q, Config.Valid, Config.Decodes, HeldUp, LeftBehind, AfterCut, NothingLost, RuAmong, LostTx;
    var k := OtherRunning(s, i);
    StarvedOther(c, s, h, i, k);
    StarvedOpen(c, s, h, i, FirstOpen(h));
    if Open(h, |h.turn| + 1) {
      NotThree(c, s, h, i);
      assert false;
    }
    if h.place == Away {
      RuIsHeldUp(c, s, h, i);
      assert false;
    }
    if h.parked >= 0 && c.num(Q(c, FirstOpen(h))) != NextNum(c, h) {
      ParkedIsLeftBehind(c, s, h, i);
      assert false;
    }
  }

  lemma NotThree(c: Config, s: State, h: Hist, i: nat)
    requires c.Valid() && FullInv(c, s, h) && Starved(c, s, h, i) && Open(h, |h.turn| + 1) && Open(h, FirstOpen(h))
    ensures |s.running| >= 3
  {
    hide InvWith, Segments, Gate, PickGuard, RuBehind, InTurn, Q, Config.Valid, AfterCut, NothingLost, RuAmong, LostTx;
    StarvedOpen(c, s, h, i, FirstOpen(h));
    StarvedOpen(c, s, h, i, |h.turn| + 1);
    FirstIsOther(c, s, h);
    TwoAreTwo(s, i, h.txAt[FirstOpen(h)]);
  }

  lemma FirstIsOther(c: Config, s: State, h: Hist)
    requires InvWith(c, s, h) && Open(h, |h.turn| + 1)
    ensures Open(h, FirstOpen(h)) ==> h.txAt[FirstOpen(h)] != h.txAt[|h.turn| + 1]
  {
    hide CutQueue, LogShape, TxBetweenRx, RuBetweenTx, Workers, RxToken, TxUpTo, TxTokens, Stamps, RuToken, SentInOrder;
  }

  lemma RuIsHeldUp(c: Config, s: State, h: Hist, i: nat)
    requires c.Valid() && FullInv(c, s, h) && Starved(c, s, h, i) && c.workers == 2 && h.place == Away
    requires |h.turn| < |h.txAt|
    ensures |h.turn| > 0 && HeldUp(c, |h.turn| - 1)
  {
    hide InvWith, Segments, Gate, PickGuard, InTurn, Q, Config.Valid, Config.Decodes, RxPassed, AfterCut, NothingLost, RuAmong, LostTx;
    StarvedShape(c, s, h, i);
    AwayBefore(c, s, h, i);
    TurnsOf(c, s, h);
    PushedUpTo(c, s, h);
  }

  lemma ParkedIsLeftBehind(c: Config, s: State, h: Hist, i: nat)
    requires c.Valid() && FullInv(c, s, h) && Starved(c, s, h, i) && c.workers == 2 && h.parked >= 0
    requires !Open(h, |h.turn| + 1) && c.num(Q(c, h.parked)) != NextNum(c, h)
    ensures |h.rxAt| > 0 && LeftBehind(c, h.parked, |h.turn|, |h.rxAt| - 1)
  {
    hide InvWith, Segments, PickGuard, RuBehind, InTurn, Q, Config.Valid, Config.Decodes, RxPassed, AfterCut, NothingLost;
    var n := |h.turn|;
    StarvedShape(c, s, h, i);
    TurnsOf(c, s, h);
    PushedUpTo(c, s, h);
    assert |h.txAt| == n + 1;
    assert TwoWorkers(c, s, h) && Open(h, h.parked);
    StarterOrder(c, h.parked, h.parked);
    assert NoneDecodes(c, Starter(c, h.parked), |h.rxAt| - 2);
  }

  // Whatever the pipeline has halted on, a running TX job can take the RU token.
  lemma TokenTaker(c: Config, s: State, h: Hist) returns (j: nat)
    requires c.Valid() && FullInv(c, s, h) && Halted(c, s) && DeadlockSafe(c)
    ensures Open(h, j) && InTx(s, h.txAt[j]) && c.num(Q(c, j)) == NextNum(c, h) && h.place != Away
  {
    hide InvWith, Segments, Gate, PickGuard, RuBehind, InTurn, Q, Config.Valid, Config.Decodes, HeldUp, LeftBehind, AfterCut, NothingLost, RuAmong, LostTx;
    if i :| i in s.running && s.running[i].Decoding? {
      StarvedShape(c, s, h, i);
      if |s.running| >= 3 {
        j := ThreeRunning(c, s, h, i);
      } else {
        WithinWorkers(c, s, h);
        TwoRunning(c, s, h, i);
        j := FirstOpen(h);
      }
    } else {
      j := NextTxRuns(c, s, h);
      RuNotAway(c, s, h);
      StuckTx(c, s, h, j);
    }
  }

  lemma StuckTx(c: Config, s: State, h: Hist, j: nat)
    requires InvWith(c, s, h) && Open(h, j) && h.txAt[j] in s.running
    ensures InTx(s, h.txAt[j])
  {
    HeadBound(c, s, h);
    hide CutQueue, LogShape, Increasing, TxBetweenRx, RuBetweenTx, Workers, RxToken, TxUpTo, Stamps, RuToken, SentInOrder, Turns;
  }

  /** Under the condition every state with the invariant can make headway. */
  lemma InvProgress(c: Config, s: State)
    requires c.Valid() && Inv(c, s) && DeadlockSafe(c) && s.lost == {}
    ensures CanProgress(c, s)
  {
    hide InvWith, Segments, TwoWorkers, InTurn, DeadlockSafe, Blocked, Q, Config.Valid, Productive, TokenMoves, AfterCut, NothingLost;
    var h :| FullInv(c, s, h);
    if s.rxTokens > 0 {
      TickIsProductive(c, s);
    } else if !Blocked(c, s) {
      BlockedOtherwise(c, s, h);
    } else {
      var j := TokenTaker(c, s, h);
      TakesToken(c, s, h, j);
      TokenMovesOn(c, s);
    }
  }

  // A tx_func can take the RU token, at the latest when another one has put it back.
  ghost predicate TokenMoves(c: Config, s: State) {
    || (exists i :: Productive(c, s, Work(i)))
    || (exists i, k :: PutsBack(c, s, Work(i)) && Productive(c, Apply(c, s, Work(i)), Work(k)))
  }

  lemma TokenMovesOn(c: Config, s: State)
    requires TokenMoves(c, s)
    ensures CanProgress(c, s)
  {
  }

  lemma TickIsProductive(c: Config, s: State)
    requires s.rxTokens > 0
    ensures Productive(c, s, Tick)
  {
  }

  lemma TakesToken(c: Config, s: State, h: Hist, j: nat)
    requires c.Valid() && InvWith(c, s, h)
    requires Open(h, j) && InTx(s, h.txAt[j]) && c.num(Q(c, j)) == NextNum(c, h) && h.place != Away
    ensures TokenMoves(c, s)
  {
    hide InvWith, Q, Config.Valid;
    RuAtHome(c, s, h);
    var next := h.txAt[j];
    NextJob(c, s, h, j);
    if h.place == Home {
      assert Productive(c, s, Work(next));
    } else {
      var i := h.place.i;
      FitsRunning(c, s, h, i);
      if s.running[i].next == c.num(s.log[i].at) {
        assert Productive(c, s, Work(i));
      } else {
        assert PutsBack(c, s, Work(i));
        var s' := Apply(c, s, Work(i));
        assert Productive(c, s', Work(next));
      }
    }
  }

  lemma NextJob(c: Config, s: State, h: Hist, j: nat)
    requires InvWith(c, s, h) && Open(h, j) && InTx(s, h.txAt[j])
    ensures var next := h.txAt[j];
            next < |s.log| && s.log[next].Tx? && s.log[next].at == Q(c, j) && InTx(s, next)
  {
    hide CutQueue, Increasing, TxBetweenRx, RuBetweenTx, Workers, RxToken, TxUpTo, TxTokens, Stamps, RuToken, SentInOrder, Turns;
    FitsRunning(c, s, h, h.txAt[j]);
  }
}
