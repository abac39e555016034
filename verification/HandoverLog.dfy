/**
 Recognising X2 handovers in an eNB log. One state variable runs over the lines; several transitions may
 happen on one line, and a completed handover leaves the state idle for the next line. The specification
 knows no state: it describes the chains of marker lines that are counted.
 */
module HandoverLog {
  datatype Marker = TargetReq | SourceAck | ReconfigComplete | PathSwitchReq | PathSwitchAck | ContextRelease

  /** A log line, as the set of markers found in it. */
  type Line = set<Marker>

  datatype X2State = Idle | TargetReceivesReq | TargetRrcRecfgComplete | TargetSendsSwitchReq | SourceReceivesReqAck

  /** Line numbers of a counted handover: four markers for an incoming one, two for an outgoing one. */
  datatype Chain =
    | Incoming(req: nat, complete: nat, switchReq: nat, ack: nat)
    | Outgoing(start: nat, release: nat)
  {
    function First(): nat { if Incoming? then req else start }

    function Last(): nat { if Incoming? then ack else release }
  }

  // No line from `from` up to `to` has the marker.
  predicate Without(log: seq<Line>, m: Marker, from: nat, to: nat) {
    to <= |log| && forall k :: from <= k < to ==> m !in log[k]
  }

  predicate FirstWith(log: seq<Line>, m: Marker, from: nat, at: nat) {
    from <= at < |log| && m in log[at] && Without(log, m, from, at)
  }

  // The first line that starts a handover; the source marker decides if a line has both.
  predicate Starts(log: seq<Line>, from: nat, at: nat) {
    && from <= at < |log| && (TargetReq in log[at] || SourceAck in log[at])
    && Without(log, TargetReq, from, at) && Without(log, SourceAck, from, at)
  }

  /** The handover recognised when looking from line `from` on: each marker is the first of its kind at or
      after the previous one. */
  predicate ChainFrom(log: seq<Line>, from: nat, c: Chain) {
    && Starts(log, from, c.First())
    && match c
       case Incoming(a, b, s, d) =>
         && SourceAck !in log[a]
         && FirstWith(log, ReconfigComplete, a, b) && FirstWith(log, PathSwitchReq, b, s) && FirstWith(log, PathSwitchAck, s, d)
       case Outgoing(a, r) => SourceAck in log[a] && FirstWith(log, ContextRelease, a, r)
  }

  // Where the search for chain k begins.
  function From(chains: seq<Chain>, k: nat): nat
    requires k <= |chains|
  {
    if k == 0 then 0 else chains[k - 1].Last() + 1
  }

  predicate AllChains(log: seq<Line>, chains: seq<Chain>) {
    forall k :: 0 <= k < |chains| ==> ChainFrom(log, From(chains, k), chains[k])
  }

  /** All handovers a search through the whole log recognises: each is searched for behind the previous one,
      and behind the last there is no further one. */
  ghost predicate Recognised(log: seq<Line>, chains: seq<Chain>) {
    AllChains(log, chains) && forall c :: !ChainFrom(log, From(chains, |chains|), c)
  }

  function CountIncoming(chains: seq<Chain>): (n: nat)
    ensures n <= |chains|
  {
    if chains == [] then 0
    else CountIncoming(chains[..|chains| - 1]) + (if chains[|chains| - 1].Incoming? then 1 else 0)
  }

  // Lines of the chain that is being followed, as far as the state says.
  datatype Trail = Trail(from: nat, a: nat, b: nat, s: nat)

  // What the state means before line i is looked at.
  predicate Follows(log: seq<Line>, state: X2State, t: Trail, i: nat) {
    && t.from <= i <= |log|
    && match state
       case Idle => Without(log, TargetReq, t.from, i) && Without(log, SourceAck, t.from, i)
       case TargetReceivesReq =>
         Starts(log, t.from, t.a) && SourceAck !in log[t.a] && Without(log, ReconfigComplete, t.a, i)
       case TargetRrcRecfgComplete =>
         && Starts(log, t.from, t.a) && SourceAck !in log[t.a] && FirstWith(log, ReconfigComplete, t.a, t.b)
         && Without(log, PathSwitchReq, t.b, i)
       case TargetSendsSwitchReq =>
         && Starts(log, t.from, t.a) && SourceAck !in log[t.a] && FirstWith(log, ReconfigComplete, t.a, t.b)
         && FirstWith(log, PathSwitchReq, t.b, t.s) && Without(log, PathSwitchAck, t.s, i)
       case SourceReceivesReqAck =>
         Starts(log, t.from, t.a) && SourceAck in log[t.a] && Without(log, ContextRelease, t.a, i)
  }

  // ---- one block of the recogniser on line i ----

  lemma TargetStarts(log: seq<Line>, t: Trail, i: nat)
    requires Follows(log, Idle, t, i) && i < |log| && TargetReq in log[i] && SourceAck !in log[i]
    ensures Follows(log, TargetReceivesReq, t.(a := i), i)
  {
  }

  lemma SourceStarts(log: seq<Line>, t: Trail, i: nat)
    requires Follows(log, Idle, t, i) && i < |log| && SourceAck in log[i]
    ensures Follows(log, SourceReceivesReqAck, t.(a := i), i)
  {
  }

  lemma ReconfigSeen(log: seq<Line>, t: Trail, i: nat)
    requires Follows(log, TargetReceivesReq, t, i) && i < |log| && ReconfigComplete in log[i] && t.a <= i
    ensures Follows(log, TargetRrcRecfgComplete, t.(b := i), i)
  {
  }

  lemma SwitchSent(log: seq<Line>, t: Trail, i: nat)
    requires Follows(log, TargetRrcRecfgComplete, t, i) && i < |log| && PathSwitchReq in log[i] && t.b <= i
    ensures Follows(log, TargetSendsSwitchReq, t.(s := i), i)
  {
  }

  lemma IncomingDone(log: seq<Line>, t: Trail, i: nat)
    requires Follows(log, TargetSendsSwitchReq, t, i) && i < |log| && PathSwitchAck in log[i] && t.s <= i
    ensures ChainFrom(log, t.from, Incoming(t.a, t.b, t.s, i)) && Follows(log, Idle, t.(from := i + 1), i + 1)
  {
  }

  lemma OutgoingDone(log: seq<Line>, t: Trail, i: nat)
    requires Follows(log, SourceReceivesReqAck, t, i) && i < |log| && ContextRelease in log[i] && t.a <= i
    ensures ChainFrom(log, t.from, Outgoing(t.a, i)) && Follows(log, Idle, t.(from := i + 1), i + 1)
  {
  }

  // The line has no marker the state waits for.
  predicate Quiet(state: X2State, line: Line) {
    match state
    case Idle => TargetReq !in line && SourceAck !in line
    case TargetReceivesReq => ReconfigComplete !in line
    case TargetRrcRecfgComplete => PathSwitchReq !in line
    case TargetSendsSwitchReq => PathSwitchAck !in line
    case SourceReceivesReqAck => ContextRelease !in line
  }

  lemma Stays(log: seq<Line>, state: X2State, t: Trail, i: nat)
    requires Follows(log, state, t, i) && i < |log| && Quiet(state, log[i])
    ensures Follows(log, state, t, i + 1)
  {
  }

  // The lines of a trail lie before line i.
  predicate Behind(state: X2State, t: Trail, i: nat) {
    match state
    case Idle => true
    case TargetReceivesReq => t.a <= i
    case TargetRrcRecfgComplete => t.b <= i
    case TargetSendsSwitchReq => t.s <= i
    case SourceReceivesReqAck => t.a <= i
  }

  // The block that looks for the start of a handover.
  method StartBlock(log: seq<Line>, i: nat, ghost before: Trail) returns (state: X2State, ghost t: Trail)
    requires i < |log| && Follows(log, Idle, before, i)
    ensures Follows(log, state, t, i) && Behind(state, t, i) && t.from == before.from
    ensures state == Idle ==> Quiet(Idle, log[i])
  {
    hide Follows;
    state, t := Idle, before;
    if TargetReq in log[i] {
      state := TargetReceivesReq;
    }
    if SourceAck in log[i] {
      state := SourceReceivesReqAck;
      SourceStarts(log, t, i);
      t := t.(a := i);
    } else if TargetReq in log[i] {
      TargetStarts(log, t, i);
      t := t.(a := i);
    }
  }

  // The two blocks that move an incoming handover on.
  method TargetBlocks(log: seq<Line>, i: nat, was: X2State, ghost before: Trail) returns (state: X2State, ghost t: Trail)
    requires i < |log| && Follows(log, was, before, i) && Behind(was, before, i)
    ensures Follows(log, state, t, i) && Behind(state, t, i) && t.from == before.from
    ensures state == TargetReceivesReq || state == TargetRrcRecfgComplete ==> Quiet(state, log[i])
    ensures state == Idle <==> was == Idle
  {
    hide Follows;
    state, t := was, before;
    if state == TargetReceivesReq {
      if ReconfigComplete in log[i] {
        state := TargetRrcRecfgComplete;
        ReconfigSeen(log, t, i);
        t := t.(b := i);
      }
    }
    if state == TargetRrcRecfgComplete {
      if PathSwitchReq in log[i] {
        state := TargetSendsSwitchReq;
        SwitchSent(log, t, i);
        t := t.(s := i);
      }
    }
  }

  /** The blocks of the recogniser on line i, in their order. `done` is the handover completed on this
      line, if any. */
  method OneLine(log: seq<Line>, i: nat, was: X2State, ghost before: Trail)
    returns (state: X2State, inDone: bool, outDone: bool, ghost t: Trail, ghost done: Chain)
    requires i < |log| && Follows(log, was, before, i) && Behind(was, before, i)
    ensures Behind(state, t, i + 1) && Follows(log, state, t, i + 1) && !(inDone && outDone)
    ensures if inDone || outDone then ChainFrom(log, before.from, done) && done.Last() == i && t.from == i + 1
            else t.from == before.from
    ensures inDone ==> done.Incoming?
    ensures outDone ==> done.Outgoing?
  {
    hide Follows, ChainFrom;
    var line := log[i];
    state, inDone, outDone, t, done := was, false, false, before, Outgoing(0, 0);
    if state == Idle {
      state, t := StartBlock(log, i, t);
    }
    state, t := TargetBlocks(log, i, state, t);
    if state == TargetSendsSwitchReq {
      if PathSwitchAck in line {
        state, inDone := Idle, true;
        IncomingDone(log, t, i);
        done := Incoming(t.a, t.b, t.s, i);
        t := t.(from := i + 1);
        return;
      }
    }
    if state == SourceReceivesReqAck {
      if ContextRelease in line {
        state, outDone := Idle, true;
        OutgoingDone(log, t, i);
        done := Outgoing(t.a, i);
        t := t.(from := i + 1);
        return;
      }
    }
    Stays(log, state, t, i);
  }

  /** The X2 part of AnalyzeLogFile_eNB. The counters are the numbers of incoming and outgoing handovers
      among those recognised in the log, of which there is exactly one list. */
  method AnalyzeLog(log: seq<Line>) returns (inNb: nat, outNb: nat)
    ensures exists chains :: Recognised(log, chains)
    ensures forall chains :: Recognised(log, chains) ==>
              inNb == CountIncoming(chains) && outNb == |chains| - CountIncoming(chains)
  {
    hide Follows, ChainFrom, AllChains, CountIncoming, From, Behind;
    var state := Idle;
    inNb, outNb := 0, 0;
    ghost var chains: seq<Chain> := [];
    ghost var t := Trail(0, 0, 0, 0);
    Beginning(log, t);
    for i := 0 to |log|
      invariant Follows(log, state, t, i) && Behind(state, t, i)
      invariant t.from == From(chains, |chains|) && AllChains(log, chains)
      invariant inNb == CountIncoming(chains) && outNb == |chains| - CountIncoming(chains)
    {
      var inDone, outDone;
      ghost var done;
      state, inDone, outDone, t, done := OneLine(log, i, state, t);
      if inDone {
        inNb := inNb + 1;
      }
      if outDone {
        outNb := outNb + 1;
      }
      if inDone || outDone {
        OneMoreChain(log, chains, done);
        chains := chains + [done];
      }
    }
    forall c
      ensures !ChainFrom(log, t.from, c)
    {
      NoFurtherChain(log, state, t, c);
    }
    assert Recognised(log, chains);
    forall other | Recognised(log, other)
      ensures other == chains
    {
      OneList(log, other, chains);
    }
  }

  lemma OneList(log: seq<Line>, c: seq<Chain>, d: seq<Chain>)
    requires Recognised(log, c) && Recognised(log, d)
    ensures c == d
  {
    hide ChainFrom, AllChains;
    if |c| < |d| {
      NotLonger(log, c, d);
    } else if |d| < |c| {
      NotLonger(log, d, c);
    }
    forall k | 0 <= k < |c| && k < |d|
      ensures c[k] == d[k]
    {
      ChainsUnique(log, c, d, k);
    }
  }

  lemma NotLonger(log: seq<Line>, c: seq<Chain>, d: seq<Chain>)
    requires Recognised(log, c) && AllChains(log, d)
    ensures |d| <= |c|
  {
    hide ChainFrom;
    if |c| < |d| {
      Continues(log, c, d);
      assert false;
    }
  }

  // A longer list goes on where the shorter one ends.
  lemma Continues(log: seq<Line>, c: seq<Chain>, d: seq<Chain>)
    requires AllChains(log, c) && AllChains(log, d) && |c| < |d|
    ensures ChainFrom(log, From(c, |c|), d[|c|])
  {
    hide ChainFrom;
    if c != [] {
      ChainsUnique(log, c, d, |c| - 1);
    }
    assert From(d, |c|) == From(c, |c|);
  }

  lemma Beginning(log: seq<Line>, t: Trail)
    ensures Follows(log, Idle, t.(from := 0), 0) && Behind(Idle, t, 0)
    ensures From([], 0) == 0 && AllChains(log, []) && CountIncoming([]) == 0
  {
  }

  lemma OneMoreChain(log: seq<Line>, chains: seq<Chain>, c: Chain)
    requires AllChains(log, chains) && ChainFrom(log, From(chains, |chains|), c)
    ensures AllChains(log, chains + [c]) && From(chains + [c], |chains| + 1) == c.Last() + 1
    ensures CountIncoming(chains + [c]) == CountIncoming(chains) + (if c.Incoming? then 1 else 0)
  {
    hide ChainFrom;
    var more := chains + [c];
    assert more[..|chains|] == chains;
    forall k | 0 <= k < |more|
      ensures ChainFrom(log, From(more, k), more[k])
    {
      assert From(more, k) == From(chains, k);
    }
  }

  // Order of the lines of a chain.
  lemma ChainShape(log: seq<Line>, from: nat, c: Chain)
    requires ChainFrom(log, from, c)
    ensures from <= c.First() <= c.Last() < |log|
    ensures c.Incoming? ==> c.req <= c.complete <= c.switchReq <= c.ack
  {
  }

  lemma SameStart(log: seq<Line>, from: nat, a: nat, b: nat)
    requires Starts(log, from, a) && Starts(log, from, b)
    ensures a == b
  {
    assert !(a < b) && !(b < a);
  }

  lemma SameFirst(log: seq<Line>, m: Marker, from: nat, a: nat, b: nat)
    requires FirstWith(log, m, from, a) && FirstWith(log, m, from, b)
    ensures a == b
  {
    assert !(a < b) && !(b < a);
  }

  // A search that has reached the end of the log finds nothing.
  lemma NoneLeft(log: seq<Line>, m: Marker, from: nat)
    requires Without(log, m, from, |log|)
    ensures forall at :: 0 <= at ==> !FirstWith(log, m, from, at)
  {
  }

  // At the end of the log the chain being followed is not complete, and there is no other.
  lemma NoFurtherChain(log: seq<Line>, state: X2State, t: Trail, c: Chain)
    requires Follows(log, state, t, |log|)
    ensures !ChainFrom(log, t.from, c)
  {
    hide FirstWith, Without;
    if ChainFrom(log, t.from, c) {
      if state == Idle {
        NoStart(log, t.from, c.First());
      } else {
        SameStart(log, t.from, c.First(), t.a);
        match state
        case Idle =>
        case TargetReceivesReq => NoneLeft(log, ReconfigComplete, t.a);
        case TargetRrcRecfgComplete =>
          SameFirst(log, ReconfigComplete, t.a, c.complete, t.b);
          NoneLeft(log, PathSwitchReq, t.b);
        case TargetSendsSwitchReq =>
          SameFirst(log, ReconfigComplete, t.a, c.complete, t.b);
          SameFirst(log, PathSwitchReq, t.b, c.switchReq, t.s);
          NoneLeft(log, PathSwitchAck, t.s);
        case SourceReceivesReqAck => NoneLeft(log, ContextRelease, t.a);
      }
    }
  }

  lemma NoStart(log: seq<Line>, from: nat, at: nat)
    requires Without(log, TargetReq, from, |log|) && Without(log, SourceAck, from, |log|)
    ensures !Starts(log, from, at)
  {
  }

  /** Chains lie on disjoint, non-interleaved stretches of the log, and the lines inside a chain do not
      go backwards. */
  lemma {:induction false} ChainsDisjoint(log: seq<Line>, chains: seq<Chain>, j: nat, k: nat)
    requires AllChains(log, chains) && j < k < |chains|
    ensures chains[j].First() <= chains[j].Last() < chains[k].First() <= chains[k].Last() < |log|
    ensures chains[j].Incoming? ==> chains[j].req <= chains[j].complete <= chains[j].switchReq <= chains[j].ack
    decreases k - j
  {
    hide ChainFrom;
    ChainShape(log, From(chains, j), chains[j]);
    ChainShape(log, From(chains, k), chains[k]);
    if j + 1 < k {
      ChainsDisjoint(log, chains, j + 1, k);
      ChainShape(log, From(chains, j + 1), chains[j + 1]);
    }
  }

  /** The list of chains is determined by the log alone. */
  lemma {:induction false} ChainsUnique(log: seq<Line>, c: seq<Chain>, d: seq<Chain>, k: nat)
    requires AllChains(log, c) && AllChains(log, d) && k < |c| && k < |d|
    ensures c[k] == d[k]
  {
    hide ChainFrom;
    if k > 0 {
      ChainsUnique(log, c, d, k - 1);
    }
    OneChain(log, From(c, k), c[k], d[k]);
  }

  lemma OneChain(log: seq<Line>, from: nat, c: Chain, d: Chain)
    requires ChainFrom(log, from, c) && ChainFrom(log, from, d)
    ensures c == d
  {
    hide Starts, FirstWith;
    SameStart(log, from, c.First(), d.First());
    if c.Incoming? {
      SameFirst(log, ReconfigComplete, c.req, c.complete, d.complete);
      SameFirst(log, PathSwitchReq, c.complete, c.switchReq, d.switchReq);
      SameFirst(log, PathSwitchAck, c.switchReq, c.ack, d.ack);
    } else {
      SameFirst(log, ContextRelease, c.start, c.release, d.release);
    }
  }

  // ---- which handovers are counted ----

  predicate StartsAt(log: seq<Line>, at: nat) {
    at < |log| && (TargetReq in log[at] || SourceAck in log[at])
  }

  /** A handover that is complete in the log: its markers in their order, whatever else is going on. */
  predicate Complete(log: seq<Line>, c: Chain) {
    ChainFrom(log, c.First(), c)
  }

  // The handover that starts on line a is complete before line i.
  ghost predicate DoneBefore(log: seq<Line>, a: nat, i: nat) {
    exists c :: Complete(log, c) && c.First() == a && c.Last() < i
  }

  /** The start marker on line i is followed: every earlier one that was followed has led to a complete
      handover before. */
  ghost predicate Followed(log: seq<Line>, i: nat)
    decreases i
  {
    StartsAt(log, i) && forall a: nat :: a < i && Followed(log, a) ==> DoneBefore(log, a, i)
  }

  lemma FromOrdered(log: seq<Line>, chains: seq<Chain>, j: nat, k: nat)
    requires AllChains(log, chains) && j <= k <= |chains|
    ensures From(chains, j) <= From(chains, k)
    ensures j < k ==> chains[j].Last() < From(chains, k)
  {
    hide ChainFrom;
    if j < k {
      if j < k - 1 {
        ChainsDisjoint(log, chains, j, k - 1);
      }
      ChainShape(log, From(chains, j), chains[j]);
    }
  }

  lemma StartSplit(log: seq<Line>, from: nat, c: Chain)
    ensures ChainFrom(log, from, c) <==> Starts(log, from, c.First()) && Complete(log, c)
  {
  }

  // Where the k-th search stops, its start marker is followed.
  lemma {:induction false} StopIsFollowed(log: seq<Line>, chains: seq<Chain>, k: nat, i: nat)
    requires Recognised(log, chains) && k <= |chains| && Starts(log, From(chains, k), i)
    ensures Followed(log, i)
    decreases i, 0
  {
    hide ChainFrom, Complete;
    assert AllChains(log, chains);
    forall a: nat | a < i && Followed(log, a)
      ensures DoneBefore(log, a, i)
    {
      var j := FollowedIsStop(log, chains, a);
      if j >= k {
        FromOrdered(log, chains, k, j);
        EarlierStart(log, From(chains, k), i, a);
        assert false;
      }
      FromOrdered(log, chains, j, k);
      assert ChainFrom(log, From(chains, j), chains[j]);
      StartSplit(log, From(chains, j), chains[j]);
      SameStart(log, From(chains, j), chains[j].First(), a);
    }
  }

  lemma EarlierStart(log: seq<Line>, from: nat, i: nat, a: nat)
    requires Starts(log, from, i) && from <= a < i
    ensures !StartsAt(log, a)
  {
  }

  // The search that comes by a start marker that is followed stops there.
  lemma {:induction false} FollowedIsStop(log: seq<Line>, chains: seq<Chain>, i: nat) returns (k: nat)
    requires Recognised(log, chains) && Followed(log, i)
    ensures k <= |chains| && Starts(log, From(chains, k), i)
    decreases i, 1
  {
    hide ChainFrom, Complete;
    k := LastSearch(chains, i);
    var from := From(chains, k);
    var a := FirstStart(log, from, i);
    if a < i {
      StopIsFollowed(log, chains, k, a);
      var c :| Complete(log, c) && c.First() == a && c.Last() < i;
      StartSplit(log, from, c);
      if k < |chains| {
        assert ChainFrom(log, from, chains[k]);
        OneChain(log, from, c, chains[k]);
      }
      assert false;
    }
  }

  // The last search that begins at or before line i.
  lemma LastSearch(chains: seq<Chain>, i: nat) returns (k: nat)
    ensures k <= |chains| && From(chains, k) <= i
    ensures k < |chains| ==> chains[k].Last() >= i
  {
    k := |chains|;
    while From(chains, k) > i
      invariant k <= |chains| && (k < |chains| ==> chains[k].Last() >= i)
      decreases k
    {
      k := k - 1;
    }
  }

  lemma FirstStart(log: seq<Line>, from: nat, i: nat) returns (a: nat)
    requires from <= i && StartsAt(log, i)
    ensures a <= i && Starts(log, from, a)
  {
    a := from;
    while !StartsAt(log, a)
      invariant from <= a <= i && Without(log, TargetReq, from, a) && Without(log, SourceAck, from, a)
      decreases i - a
    {
      a := a + 1;
    }
  }

  /** Of the handovers that are complete in a log exactly those are counted whose start marker is followed,
      that is, at whose first line no handover followed before is still open. */
  lemma CountedExactly(log: seq<Line>, chains: seq<Chain>, c: Chain)
    requires Recognised(log, chains) && Complete(log, c)
    ensures c in chains <==> Followed(log, c.First())
  {
    hide ChainFrom, Complete, Followed;
    if c in chains {
      var k: nat :| k < |chains| && chains[k] == c;
      assert ChainFrom(log, From(chains, k), c);
      StartSplit(log, From(chains, k), c);
      StopIsFollowed(log, chains, k, c.First());
    }
    if Followed(log, c.First()) {
      var k := FollowedIsStop(log, chains, c.First());
      StartSplit(log, From(chains, k), c);
      assert k < |chains|;
      assert ChainFrom(log, From(chains, k), chains[k]);
      OneChain(log, From(chains, k), c, chains[k]);
    }
  }

  // An outgoing handover inside an incoming one that never completes.
  function Interleaved(): seq<Line> { [{TargetReq}, {SourceAck}, {ContextRelease}, {ReconfigComplete}] }

  lemma FirstNeverEnds(c: Chain)
    ensures !(Complete(Interleaved(), c) && c.First() == 0)
  {
    var log := Interleaved();
    assert TargetReq in log[0] && SourceAck !in log[0];
    assert forall k :: 0 <= k < |log| ==> PathSwitchReq !in log[k];
  }

  /** For example, an outgoing handover that is complete in the log is missed inside an incoming one. */
  lemma InterleavedIsMissed(chains: seq<Chain>)
    requires Recognised(Interleaved(), chains)
    ensures Complete(Interleaved(), Outgoing(1, 2)) && Outgoing(1, 2) !in chains
  {
    var log := Interleaved();
    assert Complete(log, Outgoing(1, 2));
    hide Complete, ChainFrom, Recognised;
    assert Followed(log, 0);
    forall c
      ensures !(Complete(log, c) && c.First() == 0 && c.Last() < 1)
    {
      FirstNeverEnds(c);
    }
    assert !DoneBefore(log, 0, 1);
    CountedExactly(log, chains, Outgoing(1, 2));
  }
}
