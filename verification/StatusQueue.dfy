/**
 The CI status queue. One process per UE reports records of several items on a shared queue, item by
 item, under a lock; after all processes have been joined a consumer takes the items apart again by
 count alone. The processes run in any interleaving. The queue is a pipe, and nobody reads it before
 the join: a put that does not fit waits, lock in hand.
 */
module StatusQueue {
  datatype Item = Status(n: int) | Text(s: string)

  /** What a process reports: a status (negative is failure) and the texts that go with it. */
  datatype Record = Record(status: int, texts: seq<string>)

  function Texts(texts: seq<string>): (r: seq<Item>)
    ensures |r| == |texts| && forall i :: 0 <= i < |r| ==> r[i] == Text(texts[i])
  {
    seq(|texts|, i requires 0 <= i < |texts| => Text(texts[i]))
  }

  function Items(r: Record): (items: seq<Item>)
    ensures |items| == 1 + |r.texts|
  {
    [Status(r.status)] + Texts(r.texts)
  }

  function Flat(records: seq<Record>): seq<Item> {
    if records == [] then [] else Flat(records[..|records| - 1]) + Items(records[|records| - 1])
  }

  /** The records each process is going to report, in order; all have `size` items. An item takes
      `weight` of the `capacity` of the pipe. */
  datatype Config = Config(todo: seq<seq<Record>>, size: nat, weight: Item -> nat, capacity: nat) {
    predicate Valid() {
      forall p, k :: 0 <= p < |todo| && 0 <= k < |todo[p]| ==> 1 + |todo[p][k].texts| == size
    }
  }

  function Weight(c: Config, items: seq<Item>): nat {
    if items == [] then 0 else Weight(c, items[..|items| - 1]) + c.weight(items[|items| - 1])
  }

  const FREE := -1

  datatype State = State(queue: seq<Item>, holder: int, put: nat, done: seq<nat>)

  datatype Step = Acquire(p: nat) | Put(p: nat) | Release(p: nat)

  function Init(c: Config): State {
    State([], FREE, 0, seq(|c.todo|, _ => 0))
  }

  predicate Enabled(c: Config, s: State, step: Step) {
    && |s.done| == |c.todo| && step.p < |c.todo| && s.done[step.p] < |c.todo[step.p]|
    && match step
       case Acquire(p) => s.holder == FREE
       case Put(p) =>
         s.holder == p && var items := Items(c.todo[p][s.done[p]]);
         s.put < |items| && Weight(c, s.queue) + c.weight(items[s.put]) <= c.capacity
       case Release(p) => s.holder == p && s.put == |Items(c.todo[p][s.done[p]])|
  }

  function Apply(c: Config, s: State, step: Step): State
    requires Enabled(c, s, step)
  {
    match step
    case Acquire(p) => s.(holder := p, put := 0)
    case Put(p) => s.(queue := s.queue + [Items(c.todo[p][s.done[p]])[s.put]], put := s.put + 1)
    case Release(p) => s.(holder := FREE, done := s.done[p := s.done[p] + 1])
  }

  predicate StepTo(c: Config, s: State, step: Step, s': State) {
    Enabled(c, s, step) && s' == Apply(c, s, step)
  }

  ghost predicate Reaches(c: Config, steps: seq<Step>, s: State) {
    if steps == [] then s == Init(c)
    else
      var front, last := steps[..|steps| - 1], steps[|steps| - 1];
      exists before :: Reaches(c, front, before) && StepTo(c, before, last, s)
  }

  // ---- framing ----

  function Count(order: seq<nat>, p: nat): (n: nat)
    ensures n <= |order|
  {
    if order == [] then 0
    else Count(order[..|order| - 1], p) + (if order[|order| - 1] == p then 1 else 0)
  }

  predicate Possible(c: Config, order: seq<nat>) {
    && (forall i :: 0 <= i < |order| ==> order[i] < |c.todo|)
    && (forall p :: 0 <= p < |c.todo| ==> Count(order, p) <= |c.todo[p]|)
  }

  lemma PossiblePrefix(c: Config, order: seq<nat>)
    requires Possible(c, order) && order != []
    ensures var before, p := order[..|order| - 1], order[|order| - 1];
            Possible(c, before) && p < |c.todo| && Count(before, p) < |c.todo[p]|
  {
    var before := order[..|order| - 1];
    assert Count(order, order[|order| - 1]) == Count(before, order[|order| - 1]) + 1;
    forall p | 0 <= p < |c.todo|
      ensures Count(before, p) <= |c.todo[p]|
    {
      assert Count(order, p) <= |c.todo[p]|;
    }
  }

  /** The records in the order in which the processes completed them. */
  function Completed(c: Config, order: seq<nat>): (r: seq<Record>)
    requires Possible(c, order)
    ensures |r| == |order|
  {
    if order == [] then []
    else
      PossiblePrefix(c, order);
      var before, p := order[..|order| - 1], order[|order| - 1];
      Completed(c, before) + [c.todo[p][Count(before, p)]]
  }

  /** The queue is a concatenation of whole records and of the part of one record that the lock holder
      has put so far. */
  predicate Framed(c: Config, s: State, order: seq<nat>) {
    && Possible(c, order) && |s.done| == |c.todo|
    && (forall p :: 0 <= p < |c.todo| ==> s.done[p] == Count(order, p))
    && (s.holder == FREE || 0 <= s.holder < |c.todo|)
    && (if s.holder == FREE then s.queue == Flat(Completed(c, order))
        else
          && s.done[s.holder] < |c.todo[s.holder]|
          && var items := Items(c.todo[s.holder][s.done[s.holder]]);
             s.put <= |items| && s.queue == Flat(Completed(c, order)) + items[..s.put])
  }

  lemma StepKeepsFraming(c: Config, s: State, step: Step, order: seq<nat>) returns (order': seq<nat>)
    requires Framed(c, s, order) && Enabled(c, s, step)
    ensures Framed(c, Apply(c, s, step), order')
  {
    hide Items, Flat;
    order' := order;
    match step
    case Acquire(p) =>
    case Put(p) =>
      var items := Items(c.todo[p][s.done[p]]);
      assert items[..s.put + 1] == items[..s.put] + [items[s.put]];
    case Release(p) =>
      order' := order + [p];
      assert order'[..|order|] == order;
      forall q | 0 <= q < |c.todo|
        ensures Count(order', q) == Count(order, q) + (if q == p then 1 else 0)
      {
      }
      RecordDone(c, s, p, order);
  }

  lemma RecordDone(c: Config, s: State, p: nat, order: seq<nat>)
    requires Possible(c, order) && Possible(c, order + [p]) && p < |c.todo| && Count(order, p) < |c.todo[p]|
    ensures Flat(Completed(c, order + [p])) == Flat(Completed(c, order)) + Items(c.todo[p][Count(order, p)])
  {
    var more := order + [p];
    assert more[..|more| - 1] == order;
    var records := Completed(c, more);
    assert records[..|records| - 1] == Completed(c, order);
  }

  /** Queue framing for every interleaving of any number of processes. */
  lemma {:induction false} AlwaysFramed(c: Config, steps: seq<Step>, s: State) returns (order: seq<nat>)
    requires Reaches(c, steps, s)
    ensures Framed(c, s, order)
  {
    if steps == [] {
      order := [];
    } else {
      var n := |steps| - 1;
      var before :| Reaches(c, steps[..n], before) && StepTo(c, before, steps[n], s);
      order := AlwaysFramed(c, steps[..n], before);
      order := StepKeepsFraming(c, before, steps[n], order);
    }
  }

  // After joining all processes.
  predicate Joined(c: Config, s: State) {
    s.holder == FREE && |s.done| == |c.todo| && forall p :: 0 <= p < |c.todo| ==> s.done[p] == |c.todo[p]|
  }

  // ---- when the processes can all finish ----

  // Sum of a quantity over the first k records of a process, and over the records all have completed.
  function PrefixSum(f: Record -> nat, records: seq<Record>, k: nat): nat
    requires k <= |records|
  {
    if k == 0 then 0 else PrefixSum(f, records, k - 1) + f(records[k - 1])
  }

  predicate Within(todo: seq<seq<Record>>, done: seq<nat>) {
    |done| == |todo| && forall p :: 0 <= p < |todo| ==> done[p] <= |todo[p]|
  }

  function SumDone(f: Record -> nat, todo: seq<seq<Record>>, done: seq<nat>, n: nat): nat
    requires Within(todo, done) && n <= |todo|
  {
    if n == 0 then 0 else SumDone(f, todo, done, n - 1) + PrefixSum(f, todo[n - 1], done[n - 1])
  }

  function Total(f: Record -> nat, todo: seq<seq<Record>>): nat {
    SumDone(f, todo, seq(|todo|, p requires 0 <= p < |todo| => |todo[p]|), |todo|)
  }

  lemma {:induction false} PrefixSumGrows(f: Record -> nat, records: seq<Record>, j: nat, k: nat)
    requires j <= k <= |records|
    ensures PrefixSum(f, records, j) <= PrefixSum(f, records, k)
    ensures j < k ==> PrefixSum(f, records, j) + f(records[j]) <= PrefixSum(f, records, k)
  {
    if j < k {
      PrefixSumGrows(f, records, j, k - 1);
    }
  }

  lemma {:induction false} SumDoneOneMore(f: Record -> nat, todo: seq<seq<Record>>, done: seq<nat>, p: nat, n: nat)
    requires Within(todo, done) && n <= |todo| && p < |todo| && done[p] < |todo[p]|
    ensures Within(todo, done[p := done[p] + 1])
    ensures SumDone(f, todo, done[p := done[p] + 1], n) == SumDone(f, todo, done, n) + if p < n then f(todo[p][done[p]]) else 0
  {
    if n > 0 {
      SumDoneOneMore(f, todo, done, p, n - 1);
    }
  }

  lemma {:induction false} SumDoneAtMost(f: Record -> nat, todo: seq<seq<Record>>, done: seq<nat>, more: seq<nat>, n: nat)
    requires Within(todo, done) && Within(todo, more) && n <= |todo|
    requires forall p :: 0 <= p < |todo| ==> done[p] <= more[p]
    ensures SumDone(f, todo, done, n) <= SumDone(f, todo, more, n)
  {
    if n > 0 {
      SumDoneAtMost(f, todo, done, more, n - 1);
      PrefixSumGrows(f, todo[n - 1], done[n - 1], more[n - 1]);
    }
  }

  // What is done, with one record more, is part of the total.
  lemma OneMoreFits(f: Record -> nat, todo: seq<seq<Record>>, done: seq<nat>, p: nat)
    requires Within(todo, done) && p < |todo| && done[p] < |todo[p]|
    ensures SumDone(f, todo, done, |todo|) + f(todo[p][done[p]]) <= Total(f, todo)
  {
    var full := seq(|todo|, q requires 0 <= q < |todo| => |todo[q]|);
    SumDoneOneMore(f, todo, done, p, |todo|);
    SumDoneAtMost(f, todo, done[p := done[p] + 1], full, |todo|);
  }

  lemma AllDone(f: Record -> nat, todo: seq<seq<Record>>, done: seq<nat>)
    requires |done| == |todo| && forall p :: 0 <= p < |todo| ==> done[p] == |todo[p]|
    ensures SumDone(f, todo, done, |todo|) == Total(f, todo)
  {
    assert done == seq(|todo|, p requires 0 <= p < |todo| => |todo[p]|);
  }

  lemma {:induction false} NothingDone(f: Record -> nat, todo: seq<seq<Record>>, n: nat)
    requires n <= |todo|
    ensures SumDone(f, todo, seq(|todo|, _ => 0), n) == 0
  {
    if n > 0 {
      NothingDone(f, todo, n - 1);
    }
  }

  function RecordWeight(c: Config): Record -> nat {
    (r: Record) => Weight(c, Items(r))
  }

  // Acquire, the puts, Release.
  function RecordSteps(): Record -> nat {
    (r: Record) => |Items(r)| + 2
  }

  function Current(c: Config, s: State): seq<Item> {
    if s.holder < 0 || s.holder >= |c.todo| || s.holder >= |s.done| || s.done[s.holder] >= |c.todo[s.holder]| then []
    else Items(c.todo[s.holder][s.done[s.holder]])
  }

  // What fills the pipe: the completed records, and what the lock holder has put.
  predicate Weighed(c: Config, s: State) {
    && Within(c.todo, s.done) && s.put <= |Current(c, s)| + (if s.holder == FREE then s.put else 0)
    && (s.holder == FREE || (0 <= s.holder < |c.todo| && s.done[s.holder] < |c.todo[s.holder]|))
    && Weight(c, s.queue) == SumDone(RecordWeight(c), c.todo, s.done, |c.todo|)
                             + (if s.holder == FREE then 0 else Weight(c, Current(c, s)[..s.put]))
    && Weight(c, s.queue) <= c.capacity
  }

  lemma StepKeepsWeight(c: Config, s: State, step: Step)
    requires Weighed(c, s) && Enabled(c, s, step)
    ensures Weighed(c, Apply(c, s, step))
  {
    hide SumDone, Items;
    var s' := Apply(c, s, step);
    match step
    case Acquire(p) =>
      assert Current(c, s')[..0] == [];
    case Put(p) =>
      var items := Current(c, s);
      assert items[..s.put + 1][..s.put] == items[..s.put];
      assert s'.queue[..|s.queue|] == s.queue;
    case Release(p) =>
      assert Current(c, s)[..s.put] == Current(c, s);
      SumDoneOneMore(RecordWeight(c), c.todo, s.done, p, |c.todo|);
  }

  lemma {:induction false} AlwaysWeighed(c: Config, steps: seq<Step>, s: State)
    requires Reaches(c, steps, s)
    ensures Weighed(c, s)
  {
    if steps == [] {
      NothingDone(RecordWeight(c), c.todo, |c.todo|);
    } else {
      var n := |steps| - 1;
      var before :| Reaches(c, steps[..n], before) && StepTo(c, before, steps[n], s);
      AlwaysWeighed(c, steps[..n], before);
      StepKeepsWeight(c, before, steps[n]);
    }
  }

  ghost predicate SomeStep(c: Config, s: State) {
    exists step :: Enabled(c, s, step)
  }

  // If all records fit, some process can take a step until all have been joined.
  lemma StepIfAllFits(c: Config, steps: seq<Step>, s: State)
    requires Reaches(c, steps, s) && !Joined(c, s) && Total(RecordWeight(c), c.todo) <= c.capacity
    ensures SomeStep(c, s)
  {
    hide Reaches, SumDone, Total, Items, Weight;
    AlwaysWeighed(c, steps, s);
    if s.holder == FREE {
      var p :| 0 <= p < |c.todo| && s.done[p] != |c.todo[p]|;
      assert Enabled(c, s, Acquire(p));
    } else if s.put < |Current(c, s)| {
      OneMoreFits(RecordWeight(c), c.todo, s.done, s.holder);
      PutWeight(c, Current(c, s), s.put);
      assert Enabled(c, s, Put(s.holder));
    } else {
      assert Enabled(c, s, Release(s.holder));
    }
  }

  lemma {:induction false} PutWeight(c: Config, items: seq<Item>, k: nat)
    requires k < |items|
    ensures Weight(c, items[..k]) + c.weight(items[k]) <= Weight(c, items)
    decreases |items|
  {
    var n := |items| - 1;
    if k < n {
      PutWeight(c, items[..n], k);
      assert items[..n][..k] == items[..k];
    }
  }

  // Steps still to take, if nothing gets in the way.
  function StepsDone(c: Config, s: State): nat
    requires Within(c.todo, s.done)
  {
    SumDone(RecordSteps(), c.todo, s.done, |c.todo|) + (if s.holder == FREE then 0 else 1 + s.put)
  }

  lemma StepCounts(c: Config, s: State, step: Step)
    requires Weighed(c, s) && Enabled(c, s, step)
    ensures Within(c.todo, Apply(c, s, step).done)
    ensures StepsDone(c, s) < StepsDone(c, Apply(c, s, step)) && StepsDone(c, s) <= Total(RecordSteps(), c.todo)
  {
    hide SumDone, Total, Weight;
    OneMoreFits(RecordSteps(), c.todo, s.done, step.p);
    if step.Release? {
      SumDoneOneMore(RecordSteps(), c.todo, s.done, step.p, |c.todo|);
    }
  }

  lemma ReachesMore(c: Config, steps: seq<Step>, s: State, step: Step)
    requires Reaches(c, steps, s) && Enabled(c, s, step)
    ensures Reaches(c, steps + [step], Apply(c, s, step))
  {
    var more := steps + [step];
    assert more[..|more| - 1] == steps;
    assert StepTo(c, s, more[|more| - 1], Apply(c, s, step));
  }

  // Any run, taken on for as long as it goes.
  lemma {:induction false} RunOn(c: Config, steps: seq<Step>, s: State) returns (steps': seq<Step>, s': State)
    requires Reaches(c, steps, s)
    ensures Reaches(c, steps', s') && !SomeStep(c, s')
    decreases Total(RecordSteps(), c.todo) + 1 - (if Within(c.todo, s.done) then StepsDone(c, s) else 0)
  {
    hide Reaches, Total, SumDone, Weight, Items;
    AlwaysWeighed(c, steps, s);
    if step :| Enabled(c, s, step) {
      StepCounts(c, s, step);
      ReachesMore(c, steps, s, step);
      steps', s' := RunOn(c, steps + [step], Apply(c, s, step));
    } else {
      steps', s' := steps, s;
    }
  }

  lemma FreeGoesOn(c: Config, s: State)
    requires Weighed(c, s) && s.holder == FREE && !Joined(c, s)
    ensures SomeStep(c, s)
  {
    var p :| 0 <= p < |c.todo| && s.done[p] != |c.todo[p]|;
    assert Enabled(c, s, Acquire(p));
  }

  /** If not all records fit into the pipe, every run that can go no further ends with a process that waits
      for room with the lock in its hand, while the parent waits for it to end. */
  lemma EndsStuck(c: Config, steps: seq<Step>, s: State)
    requires Total(RecordWeight(c), c.todo) > c.capacity && Reaches(c, steps, s) && !SomeStep(c, s)
    ensures !Joined(c, s) && 0 <= s.holder < |c.todo| && s.put < |Current(c, s)|
    ensures Weight(c, s.queue) + c.weight(Current(c, s)[s.put]) > c.capacity
  {
    hide Total, SumDone, Weight, Reaches, Items;
    AlwaysWeighed(c, steps, s);
    if Joined(c, s) {
      AllDone(RecordWeight(c), c.todo, s.done);
      assert false;
    }
    if s.holder == FREE {
      FreeGoesOn(c, s);
      assert false;
    }
    assert !Enabled(c, s, Put(s.holder)) && !Enabled(c, s, Release(s.holder));
  }

  lemma NoSteps(c: Config)
    ensures Reaches(c, [], Init(c))
  {
  }

  /** The processes can always go on until all have been joined, exactly if the pipe has room for all the
      records together. */
  lemma NeverStuckExactly(c: Config)
    ensures Total(RecordWeight(c), c.todo) <= c.capacity <==>
            forall steps, s :: Reaches(c, steps, s) && !Joined(c, s) ==> SomeStep(c, s)
  {
    hide Reaches, Total, SomeStep, Joined;
    if Total(RecordWeight(c), c.todo) <= c.capacity {
      forall steps, s | Reaches(c, steps, s) && !Joined(c, s)
        ensures SomeStep(c, s)
      {
        StepIfAllFits(c, steps, s);
      }
    } else {
      NoSteps(c);
      var steps, s := RunOn(c, [], Init(c));
      EndsStuck(c, steps, s);
    }
  }

  // ---- the consumer ----

  class SimpleQueue {
    var items: seq<Item>

    constructor (items: seq<Item>)
      ensures this.items == items
    {
      this.items := items;
    }

    method Get() returns (item: Item)
      requires items != []
      modifies this
      ensures item == old(items)[0] && items == old(items)[1..]
    {
      item := items[0];
      items := items[1..];
    }
  }

  datatype Verdict = OK | KO | PerfNotMet

  // All statuses non-negative, and at least one positive.
  predicate AllPassed(records: seq<Record>) { forall i :: 0 <= i < |records| ==> records[i].status >= 0 }

  predicate SomeNoPerf(records: seq<Record>) { exists i :: 0 <= i < |records| && records[i].status > 0 }

  function AttachVerdict(records: seq<Record>): Verdict {
    if records != [] && AllPassed(records) then OK else KO
  }

  function IperfVerdict(records: seq<Record>): Verdict {
    if records == [] || !AllPassed(records) then KO else if SomeNoPerf(records) then PerfNotMet else OK
  }

  lemma {:induction false} FrontRecord(records: seq<Record>)
    requires records != []
    ensures Flat(records) == Items(records[0]) + Flat(records[1..])
    decreases |records|
  {
    hide Flat, Items;
    var n := |records| - 1;
    var front, r := records[..n], records[n];
    LastRecord(front, r);
    assert records == front + [r];
    if n == 0 {
      assert records[1..] == [] && front == [];
      EmptyExactly([]);
    } else {
      FrontRecord(front);
      LastRecord(front[1..], r);
      assert front[1..] + [r] == records[1..];
      Reassociate(Items(front[0]), Flat(front[1..]), Items(r));
    }
  }

  lemma Reassociate(a: seq<Item>, b: seq<Item>, c: seq<Item>)
    ensures a + b + c == a + (b + c)
  {
  }

  lemma LastRecord(records: seq<Record>, r: Record)
    ensures Flat(records + [r]) == Flat(records) + Items(r)
  {
    assert (records + [r])[..|records|] == records;
  }

  // The gets for one record.
  method TakeRecord(queue: SimpleQueue, size: nat, ghost r: Record, ghost rest: seq<Item>) returns (taken: Record)
    requires size == 1 + |r.texts| && queue.items == Items(r) + rest
    modifies queue
    ensures taken == r && queue.items == rest
  {
    var count := queue.Get();
    var texts := [];
    while |texts| < size - 1
      invariant |texts| <= |r.texts| && texts == r.texts[..|texts|]
      invariant queue.items == Texts(r.texts)[|texts|..] + rest
      decreases size - |texts|
    {
      var text := queue.Get();
      texts := texts + [text.s];
    }
    taken := Record(count.n, texts);
  }

  /** The consumers of AttachUE (3 items a record), Ping and Iperf (4 items): on a queue of whole records
      they take it apart into exactly those records, and their verdict is that on all statuses. */
  method Collect(queue: SimpleQueue, size: nat, ghost records: seq<Record>)
    returns (attach: Verdict, iperf: Verdict, cells: seq<Record>)
    requires size >= 1 && queue.items == Flat(records)
    requires forall i :: 0 <= i < |records| ==> 1 + |records[i].texts| == size
    modifies queue
    ensures cells == records && queue.items == []
    ensures attach == AttachVerdict(records) && iperf == IperfVerdict(records)
  {
    hide Flat, Items, AllPassed, SomeNoPerf;
    cells := [];
    EmptyExactly(records);
    NothingYet();
    if queue.items == [] {
      return KO, KO, cells;
    }
    var status, noPerf := true, false;
    while queue.items != []
      invariant |cells| <= |records| && cells == records[..|cells|] && queue.items == Flat(records[|cells|..])
      invariant status == AllPassed(cells) && noPerf == SomeNoPerf(cells)
      decreases |records| - |cells|
    {
      ghost var n := |cells|;
      ghost var rest := records[n..];
      EmptyExactly(rest);
      FrontRecord(rest);
      assert rest[0] == records[n] && rest[1..] == records[n + 1..];
      OneMoreStatus(cells, records[n]);
      var r := TakeRecord(queue, size, records[n], Flat(records[n + 1..]));
      if r.status < 0 {
        status := false;
      }
      if r.status > 0 {
        noPerf := true;
      }
      cells := cells + [r];
      assert records[..n + 1] == records[..n] + [records[n]];
    }
    EmptyExactly(records[|cells|..]);
    assert records[..|records|] == records;
    attach := if status then OK else KO;
    iperf := if noPerf && status then PerfNotMet else if status then OK else KO;
  }

  lemma NothingYet()
    ensures AllPassed([]) && !SomeNoPerf([])
  {
  }

  lemma OneMoreStatus(records: seq<Record>, r: Record)
    ensures AllPassed(records + [r]) <==> AllPassed(records) && r.status >= 0
    ensures SomeNoPerf(records + [r]) <==> SomeNoPerf(records) || r.status > 0
  {
    var more := records + [r];
    assert more[|records|] == r;
    assert forall i :: 0 <= i < |records| ==> more[i] == records[i];
  }

  lemma EmptyExactly(records: seq<Record>)
    ensures Flat(records) == [] <==> records == []
  {
  }

  // ---- end to end ----

  predicate EveryReportPassed(c: Config) {
    forall p, k :: 0 <= p < |c.todo| && 0 <= k < |c.todo[p]| ==> c.todo[p][k].status >= 0
  }

  predicate SomeReportPositive(c: Config) {
    exists p, k :: 0 <= p < |c.todo| && 0 <= k < |c.todo[p]| && c.todo[p][k].status > 0
  }

  // Each process's records are all there.
  lemma {:induction false} CompletedCovers(c: Config, order: seq<nat>, p: nat, k: nat) returns (i: nat)
    requires Possible(c, order) && p < |c.todo| && k < Count(order, p)
    ensures i < |order| && Completed(c, order)[i] == c.todo[p][k]
  {
    PossiblePrefix(c, order);
    var n := |order| - 1;
    var before := order[..n];
    if order[n] == p && Count(before, p) == k {
      i := n;
    } else {
      i := CompletedCovers(c, before, p, k);
    }
  }

  lemma {:induction false} CompletedOnly(c: Config, order: seq<nat>, i: nat) returns (p: nat, k: nat)
    requires Possible(c, order) && i < |order|
    ensures p < |c.todo| && k < |c.todo[p]| && Completed(c, order)[i] == c.todo[p][k]
  {
    PossiblePrefix(c, order);
    var n := |order| - 1;
    if i == n {
      p, k := order[n], Count(order[..n], order[n]);
    } else {
      p, k := CompletedOnly(c, order[..n], i);
    }
  }

  lemma StatusesReported(c: Config, order: seq<nat>)
    requires Possible(c, order) && forall p :: 0 <= p < |c.todo| ==> Count(order, p) == |c.todo[p]|
    ensures AllPassed(Completed(c, order)) <==> EveryReportPassed(c)
  {
    hide Possible;
    var records := Completed(c, order);
    if AllPassed(records) {
      forall p, k | 0 <= p < |c.todo| && 0 <= k < |c.todo[p]|
        ensures c.todo[p][k].status >= 0
      {
        var i := CompletedCovers(c, order, p, k);
        assert records[i].status >= 0;
      }
    }
    if EveryReportPassed(c) {
      forall i | 0 <= i < |records|
        ensures records[i].status >= 0
      {
        var p, k := CompletedOnly(c, order, i);
      }
    }
  }

  lemma PositivesReported(c: Config, order: seq<nat>)
    requires Possible(c, order) && forall p :: 0 <= p < |c.todo| ==> Count(order, p) == |c.todo[p]|
    ensures SomeNoPerf(Completed(c, order)) <==> SomeReportPositive(c)
  {
    hide Possible;
    var records := Completed(c, order);
    if i :| 0 <= i < |records| && records[i].status > 0 {
      var p, k := CompletedOnly(c, order, i);
    }
    if p, k :| 0 <= p < |c.todo| && 0 <= k < |c.todo[p]| && c.todo[p][k].status > 0 {
      var i := CompletedCovers(c, order, p, k);
      assert records[i].status > 0;
    }
  }

  lemma SizesReported(c: Config, order: seq<nat>, i: nat)
    requires c.Valid() && Possible(c, order) && i < |order|
    ensures 1 + |Completed(c, order)[i].texts| == c.size
  {
    hide Possible;
    var p, k := CompletedOnly(c, order, i);
  }

  /** After the join, in every interleaving, the queue holds whole records only, and the statuses in it
      are all non-negative exactly if every process reported success. */
  lemma VerdictIsConjunction(c: Config, steps: seq<Step>, s: State) returns (records: seq<Record>)
    requires c.Valid() && Reaches(c, steps, s) && Joined(c, s)
    ensures s.queue == Flat(records) && forall i :: 0 <= i < |records| ==> 1 + |records[i].texts| == c.size
    ensures AllPassed(records) <==> EveryReportPassed(c)
    ensures SomeNoPerf(records) <==> SomeReportPositive(c)
    ensures records == [] <==> forall p :: 0 <= p < |c.todo| ==> c.todo[p] == []
  {
    hide Config.Valid, Reaches, Flat, AllPassed, EveryReportPassed, SomeNoPerf, SomeReportPositive, Possible, Completed;
    var order := AlwaysFramed(c, steps, s);
    records := Completed(c, order);
    StatusesReported(c, order);
    PositivesReported(c, order);
    forall i | 0 <= i < |records|
      ensures 1 + |records[i].texts| == c.size
    {
      SizesReported(c, order, i);
    }
    if order == [] {
      forall p | 0 <= p < |c.todo|
        ensures c.todo[p] == []
      {
        assert Count(order, p) == 0;
      }
    } else {
      var p, k := CompletedOnly(c, order, 0);
    }
  }

  /** Processes, queue and consumer together: in every interleaving that gets to the join, the verdict of
      AttachUE is OK exactly if something was reported and every process reported success, and that of
      Iperf then if no status was positive. */
  method Judge(c: Config, ghost steps: seq<Step>, s: State) returns (attach: Verdict, iperf: Verdict)
    requires c.Valid() && c.size >= 1 && Reaches(c, steps, s) && Joined(c, s)
    ensures attach == OK <==> EveryReportPassed(c) && exists p :: 0 <= p < |c.todo| && c.todo[p] != []
    ensures attach == KO <==> attach != OK
    ensures (iperf == KO) == (attach == KO)
    ensures iperf == OK <==> attach == OK && !SomeReportPositive(c)
  {
    hide Reaches, Flat, AllPassed, SomeNoPerf, EveryReportPassed, SomeReportPositive;
    ghost var records := VerdictIsConjunction(c, steps, s);
    var queue := new SimpleQueue(s.queue);
    var cells;
    attach, iperf, cells := Collect(queue, c.size, records);
  }
}
