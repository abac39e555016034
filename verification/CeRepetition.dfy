/**
 eMTC PRACH repetitions: for each of the four coverage enhancement (CE) levels a counter groups the
 active PRACH occasions, and the frame of a group's first occasion is kept for the response.
 */
module CeRepetition {
  import opened Arith

  const LEVELS := 4

  /** `repetitions[i]` is prach_numRepetitionPerPreambleAttempt; `calendar(i, frame, subframe)` is
      is_prach_subframe0 for the configuration index of level i - 1, or the cell's own for 0. */
  datatype Config = Config(enabled: seq<bool>, repetitions: seq<nat>, calendar: (nat, nat, nat) -> bool) {
    predicate Valid() { |enabled| == LEVELS && |repetitions| == LEVELS }

    predicate Active(level: nat, frame: nat, subframe: nat)
      requires Valid() && level < LEVELS
    {
      enabled[level] && calendar(level + 1, frame, subframe)
    }
  }

  // is_prach_subframe: bit 0 for the cell, bit i + 1 for CE level i.
  method IsPrachSubframe(config: Config, frame: nat, subframe: nat) returns (mask: seq<bool>)
    requires config.Valid()
    ensures |mask| == LEVELS + 1 && mask[0] == config.calendar(0, frame, subframe)
    ensures forall i :: 0 <= i < LEVELS ==> mask[i + 1] == (config.enabled[i] && config.calendar(i + 1, frame, subframe))
    ensures forall i :: 0 <= i < LEVELS ==> mask[i + 1] == config.Active(i, frame, subframe)
  {
    mask := [config.calendar(0, frame, subframe)];
    for i := 0 to LEVELS
      invariant |mask| == i + 1 && mask[0] == config.calendar(0, frame, subframe)
      invariant forall k :: 0 <= k < i ==> mask[k + 1] == (config.enabled[k] && config.calendar(k + 1, frame, subframe))
    {
      mask := mask + [config.enabled[i] && config.calendar(i + 1, frame, subframe)];
    }
  }

  // Index of the first occasion of the group the last occasion belongs to.
  function GroupStart(count: nat, n: nat): (k: nat)
    requires count > 0
    ensures k < count
  {
    if n == 0 then 0
    else
      assert count - 1 == (count - 1) / n * n + (count - 1) % n;
      (count - 1) / n * n
  }

  /** Counter and first frame of a level after the occasions in frames `occasions`. */
  predicate Tracks(counter: nat, firstFrame: nat, occasions: seq<nat>, n: nat) {
    && counter == (if n == 0 then |occasions| else |occasions| % n)
    && (occasions != [] ==> firstFrame == occasions[GroupStart(|occasions|, n)])
  }

  // A group starts where the counter is zero.
  lemma GroupStep(count: nat, n: nat)
    requires n > 0
    ensures (count + 1) % n == if count % n + 1 == n then 0 else count % n + 1
    ensures count % n == 0 ==> GroupStart(count + 1, n) == count
    ensures count % n != 0 ==> count > 0 && GroupStart(count + 1, n) == GroupStart(count, n)
  {
    DivModSucc(count, n);
    assert count == count / n * n + count % n;
    if count > 0 {
      DivModSucc(count - 1, n);
    } else {
      DivModUnique(0, 0, n);
    }
  }

  lemma OneMore(counter: nat, firstFrame: nat, occasions: seq<nat>, n: nat, frame: nat)
    requires Tracks(counter, firstFrame, occasions, n)
    ensures Tracks(if counter + 1 == n then 0 else counter + 1, if counter == 0 then frame else firstFrame, occasions + [frame], n)
  {
    if n > 0 {
      GroupStep(|occasions|, n);
      hide GroupStart;
    }
  }

  class PrachVarsBr {
    const config: Config
    const repetitionNumber: array<nat>
    const firstFrame: array<nat>
    ghost var occasions: seq<seq<nat>>    // frames of the active occasions, per level

    ghost predicate Valid()
      reads this, repetitionNumber, firstFrame
    {
      && config.Valid() && repetitionNumber != firstFrame
      && repetitionNumber.Length == firstFrame.Length == |occasions| == LEVELS
      && forall i :: 0 <= i < LEVELS ==> Tracks(repetitionNumber[i], firstFrame[i], occasions[i], config.repetitions[i])
    }

    constructor (config: Config)
      requires config.Valid()
      ensures Valid() && this.config == config && occasions == [[], [], [], []]
      ensures fresh(repetitionNumber) && fresh(firstFrame)
    {
      this.config := config;
      repetitionNumber := new nat[LEVELS](_ => 0);
      firstFrame := new nat[LEVELS](_ => 0);
      occasions := [[], [], [], []];
      new;
      forall i | 0 <= i < LEVELS
        ensures Tracks(0, 0, occasions[i], config.repetitions[i])
      {
        if config.repetitions[i] > 0 {
          DivModUnique(0, 0, config.repetitions[i]);
        }
      }
    }

    /** ocp_rx_prach with the br flag: every active level has one occasion more and the detector is run
        once for each of them, in order, and for no other. */
    method OcpRxPrachBr(frame: nat, subframe: nat) returns (received: seq<nat>)
      requires Valid()
      modifies this`occasions, repetitionNumber, firstFrame
      ensures Valid()
      ensures forall i :: 0 <= i < LEVELS ==>
                occasions[i] == old(occasions[i]) + (if config.Active(i, frame, subframe) then [frame] else [])
      ensures forall i :: i in received <==> 0 <= i < LEVELS && config.Active(i, frame, subframe)
      ensures forall i, j :: 0 <= i < j < |received| ==> received[i] < received[j]
    {
      hide Tracks;
      received := [];
      var prachMask := IsPrachSubframe(config, frame, subframe);
      for i := 0 to LEVELS
        invariant Valid()
        invariant forall k :: 0 <= k < LEVELS ==>
                    occasions[k] == old(occasions[k]) + (if k < i && config.Active(k, frame, subframe) then [frame] else [])
        invariant forall k :: k in received <==> 0 <= k < i && config.Active(k, frame, subframe)
        invariant forall k, l :: 0 <= k < l < |received| ==> received[k] < received[l]
        invariant forall k :: 0 <= k < |received| ==> received[k] < i
      {
        if config.enabled[i] && prachMask[i + 1] {
          OneMore(repetitionNumber[i], firstFrame[i], occasions[i], config.repetitions[i], frame);
          if repetitionNumber[i] == 0 {
            firstFrame[i] := frame;
          }
          repetitionNumber[i] := repetitionNumber[i] + 1;
          received := received + [i];
          if repetitionNumber[i] == config.repetitions[i] {
            repetitionNumber[i] := 0;
          }
          occasions := occasions[i := occasions[i] + [frame]];
        }
      }
    }
  }

  // ---- runs of the procedure ----

  // The frames among the calls in which a level is active.
  function ActiveFrames(config: Config, calls: seq<(nat, nat)>, level: nat): seq<nat>
    requires config.Valid() && level < LEVELS
  {
    if calls == [] then []
    else
      var (frame, subframe) := calls[|calls| - 1];
      ActiveFrames(config, calls[..|calls| - 1], level) + if config.Active(level, frame, subframe) then [frame] else []
  }

  // The counter after k occasions, as the code moves it.
  function CounterAfter(n: nat, k: nat): nat {
    if k == 0 then 0 else if CounterAfter(n, k - 1) + 1 == n then 0 else CounterAfter(n, k - 1) + 1
  }

  lemma {:induction false} CounterIs(n: nat, k: nat)
    ensures CounterAfter(n, k) == if n == 0 then k else k % n
  {
    if k > 0 {
      CounterIs(n, k - 1);
      if n > 0 {
        GroupStep(k - 1, n);
      }
    } else if n > 0 {
      DivModUnique(0, 0, n);
    }
  }

  /** A run of calls from the start: each level has seen exactly its active frames, and its counter is what
      that many occasions make of it. */
  method RunOccasions(config: Config, calls: seq<(nat, nat)>) returns (vars: PrachVarsBr)
    requires config.Valid()
    ensures vars.Valid() && vars.config == config
    ensures forall i :: 0 <= i < LEVELS ==> vars.occasions[i] == ActiveFrames(config, calls, i)
    ensures forall i :: 0 <= i < LEVELS ==>
              vars.repetitionNumber[i] == CounterAfter(config.repetitions[i], |ActiveFrames(config, calls, i)|)
  {
    vars := new PrachVarsBr(config);
    for k := 0 to |calls|
      invariant vars.Valid() && vars.config == config && fresh(vars)
      invariant fresh(vars.repetitionNumber) && fresh(vars.firstFrame)
      invariant forall i :: 0 <= i < LEVELS ==> vars.occasions[i] == ActiveFrames(config, calls[..k], i)
    {
      var received := vars.OcpRxPrachBr(calls[k].0, calls[k].1);
      assert calls[..k + 1][..k] == calls[..k];
    }
    assert calls[..|calls|] == calls;
    forall i | 0 <= i < LEVELS
      ensures vars.repetitionNumber[i] == CounterAfter(config.repetitions[i], |ActiveFrames(config, calls, i)|)
    {
      CounterIs(config.repetitions[i], |vars.occasions[i]|);
    }
  }

  ghost predicate BoundedBy(n: nat, bound: nat) {
    forall k: nat :: CounterAfter(n, k) <= bound
  }

  /** The counter stays within a bound on all runs exactly if the configured length is at least 1. It is
      then below that length; otherwise it is the number of occasions and passes every bound. */
  lemma BoundedExactly(n: nat)
    ensures n >= 1 <==> exists bound: nat :: BoundedBy(n, bound)
    ensures n >= 1 ==> forall k: nat :: CounterAfter(n, k) < n
    ensures n == 0 ==> forall k: nat :: CounterAfter(n, k) == k
  {
    forall k: nat
      ensures CounterAfter(n, k) == if n == 0 then k else k % n
    {
      CounterIs(n, k);
    }
    if n == 0 {
      forall bound: nat
        ensures !BoundedBy(n, bound)
      {
        assert CounterAfter(n, bound + 1) > bound;
      }
    } else {
      assert BoundedBy(n, n);
    }
  }

  /** The occasions are cut into consecutive groups of exactly n: occasion k is number k % n + 1 of group
      k / n, the stored frame is that of the group's first occasion, and the counter is cleared by the
      last occasion of a group and by no other. */
  lemma GroupsOfExactlyN(counter: nat, firstFrame: nat, occasions: seq<nat>, n: nat, group: nat, position: nat)
    requires n >= 1 && position < n && |occasions| == group * n + position + 1
    requires Tracks(counter, firstFrame, occasions, n)
    ensures 0 <= group * n < |occasions| && firstFrame == occasions[group * n]
    ensures counter == if position + 1 == n then 0 else position + 1
  {
    DivModUnique(group, position, n);
    DivModSucc(group * n + position, n);
  }
}
