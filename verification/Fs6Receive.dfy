/** The receiving half of the FS6 transport: collecting the datagrams of one subframe in one buffer. */
module Fs6Receive {
  import opened Fs6Chain
  import opened Fs6Transport

  datatype Event = Arrival(d: seq<Byte>) | Timeout | SocketError

  datatype Outcome = Complete | TimedOut | NextStarted | Failed | Aborted

  // Little-endian value of a header field.
  function Le(b: seq<Byte>): nat {
    if b == [] then 0 else b[0] as int + 256 * Le(b[1..])
  }

  function Timestamp(d: seq<Byte>): nat {
    Le(if |d| < TIMESTAMP_BYTES then d else d[..TIMESTAMP_BYTES])
  }

  predicate WellFormed(socket: seq<Event>) {
    forall i :: 0 <= i < |socket| && socket[i].Arrival? ==> |socket[i].d| >= HEADER
  }

  // The datagrams of timestamp `ts`, in order of arrival.
  function Kept(ts: nat, events: seq<Event>): seq<seq<Byte>>
  {
    if events == [] then []
    else
      var last, before := events[|events| - 1], Kept(ts, events[..|events| - 1]);
      if last.Arrival? && Timestamp(last.d) == ts then before + [last.d] else before
  }

  // The number of blocks the first datagram announces.
  function Announced(socket: seq<Event>): nat {
    if socket != [] && socket[0].Arrival? && |socket[0].d| >= HEADER then U16At(socket[0].d, NB_BLOCKS) else 0
  }

  /** The socket starts with as many blocks as announced, all of one subframe, in any order. */
  predicate WholeSubframe(socket: seq<Event>, contentType: nat) {
    && 1 <= Announced(socket) <= |socket|
    && forall i :: 0 <= i < Announced(socket) ==>
         && socket[i].Arrival? && |socket[i].d| >= HEADER
         && U16At(socket[i].d, CONTENT_TYPE) == contentType
         && Timestamp(socket[i].d) == Timestamp(socket[0].d)
  }

  predicate OneSubframe(got: seq<seq<Byte>>) {
    forall i :: 0 <= i < |got| ==> |got[i]| >= HEADER && Timestamp(got[i]) == Timestamp(got[0])
  }

  // What a call returned, against what it was left with and what arrived while it ran.
  predicate Accounted(got: seq<seq<Byte>>, was: seq<Byte>, arrived: seq<Event>) {
    if got == [] then was == [] && arrived == []
    else got == (if was == [] then [] else [was]) + Kept(Timestamp(got[0]), arrived)
  }

  /** What a call holds after these events, begun with the datagram `was` if there is one: that and the
      datagrams of its timestamp, or else those of the timestamp of the first. */
  function Held(was: seq<Byte>, events: seq<Event>): seq<seq<Byte>> {
    if was != [] then [was] + Kept(Timestamp(was), events)
    else if events == [] || !events[0].Arrival? then []
    else Kept(Timestamp(events[0].d), events)
  }

  // As many blocks as the first one announces.
  predicate Reached(was: seq<Byte>, events: seq<Event>) {
    var held := Held(was, events);
    held != [] && |held[0]| >= HEADER && |held| >= U16At(held[0], NB_BLOCKS)
  }

  // A datagram of the right kind comes next.
  predicate Comes(socket: seq<Event>, contentType: nat, n: nat) {
    n < |socket| && socket[n].Arrival? && |socket[n].d| >= HEADER && U16At(socket[n].d, CONTENT_TYPE) == contentType
  }

  // It belongs to a later subframe.
  predicate IsNext(was: seq<Byte>, socket: seq<Event>, n: nat)
    requires n < |socket| && socket[n].Arrival?
  {
    Held(was, socket[..n]) != [] && Timestamp(socket[n].d) > Timestamp(Held(was, socket[..n])[0])
  }

  // The call has not ended with the first n events.
  ghost predicate ReadsOn(was: seq<Byte>, socket: seq<Event>, contentType: nat, n: nat) {
    && n <= |socket|
    && (forall m :: 0 <= m < n ==> Comes(socket, contentType, m) && !IsNext(was, socket, m))
    && (forall m :: 0 < m <= n ==> !Reached(was, socket[..m]))
  }

  /** How a call ends, and after how many events: complete with the first arrival that brings the announced
      number of blocks together; with a datagram of a later subframe; or at a timeout, a socket error or a
      datagram of another kind. */
  ghost predicate Ends(was: seq<Byte>, socket: seq<Event>, contentType: nat, used: nat, outcome: Outcome) {
    match outcome
    case Complete =>
      && used > 0 && ReadsOn(was, socket, contentType, used - 1) && Comes(socket, contentType, used - 1)
      && !IsNext(was, socket, used - 1) && Reached(was, socket[..used])
    case NextStarted =>
      && used > 0 && ReadsOn(was, socket, contentType, used - 1) && Comes(socket, contentType, used - 1)
      && IsNext(was, socket, used - 1)
    case TimedOut => ReadsOn(was, socket, contentType, used) && (used == |socket| || socket[used] == Timeout)
    case Failed => ReadsOn(was, socket, contentType, used) && used < |socket| && socket[used] == SocketError
    case Aborted =>
      && ReadsOn(was, socket, contentType, used) && used < |socket| && socket[used].Arrival?
      && !Comes(socket, contentType, used)
  }

  predicate AsArrived(got: seq<seq<Byte>>, socket: seq<Event>) {
    |got| <= |socket| && forall i :: 0 <= i < |got| ==> socket[i].Arrival? && got[i] == socket[i].d
  }

  class Receiver {
    var crossData: seq<Byte>    // a datagram of the next subframe, [] if there is none

    constructor ()
      ensures crossData == []
    {
      crossData := [];
    }

    /** receiveSubFrame; the end of `socket` is a timeout. Exactly the datagrams of one timestamp that
        arrived during the call, after the one kept by the previous call, are returned in order; a later
        subframe ends the call and its datagram is kept; a whole subframe is returned whole. `Ends` has
        the only way the call can end (`EndsOnce`). */
    method ReceiveSubFrame(socket: seq<Event>, contentType: nat)
      returns (got: seq<seq<Byte>>, used: nat, outcome: Outcome)
      requires WellFormed(socket) && (crossData == [] || |crossData| >= HEADER)
      modifies this
      ensures used <= |socket| && OneSubframe(got) && Accounted(got, old(crossData), socket[..used])
      ensures Ends(old(crossData), socket, contentType, used, outcome) && got == Held(old(crossData), socket[..used])
      ensures outcome == NextStarted <==> crossData != []
      ensures outcome == NextStarted ==>
                && got != [] && used > 0 && socket[used - 1] == Arrival(crossData) && |crossData| >= HEADER
                && Timestamp(crossData) > Timestamp(got[0])
      ensures outcome == Complete ==> got != [] && |got[0]| >= HEADER && |got| >= U16At(got[0], NB_BLOCKS)
      ensures old(crossData) == [] && WholeSubframe(socket, contentType) ==>
                outcome == Complete && used == |got| == Announced(socket) && AsArrived(got, socket)
    {
      hide Timestamp, Kept, OneSubframe, Accounted, AsArrived, WholeSubframe, Held, Reached, IsNext, ReadsOn;
      got, used := [], 0;
      ghost var was := crossData;
      ghost var whole := was == [] && WholeSubframe(socket, contentType);
      if |crossData| > 0 {
        got := [crossData];
        crossData := [];
      }
      Started(got, was, socket, contentType);
      while true
        invariant used <= |socket| && crossData == [] && (got == [] ==> used == 0)
        invariant got != [] ==> |got[0]| >= HEADER
        invariant OneSubframe(got) && Accounted(got, was, socket[..used])
        invariant got == Held(was, socket[..used]) && ReadsOn(was, socket, contentType, used)
        invariant whole ==> used < Announced(socket) && |got| == used && AsArrived(got, socket)
        decreases |socket| - used
      {
        if whole {
          NextOfWhole(got, socket, used, contentType);
        }
        if used == |socket| || socket[used] == Timeout {
          return got, used, TimedOut;
        }
        if socket[used] == SocketError {
          return got, used, Failed;
        }
        var d := socket[used].d;
        if U16At(d, CONTENT_TYPE) != contentType {
          return got, used, Aborted;
        }
        Arrived(got, was, socket, used, d);
        HeldGrows(was, socket, contentType, used);
        ReadMore(was, socket, contentType, used);
        used := used + 1;
        if |got| > 0 && Timestamp(got[0]) != Timestamp(d) {
          if Timestamp(d) > Timestamp(got[0]) {
            crossData := d;
            return got, used, NextStarted;
          }
        } else {
          got := got + [d];
        }
        if |got| > 0 && |got| >= U16At(got[0], NB_BLOCKS) {
          return got, used, Complete;
        }
      }
    }
  }

  lemma Started(got: seq<seq<Byte>>, was: seq<Byte>, socket: seq<Event>, contentType: nat)
    requires got == if was == [] then [] else [was]
    requires |was| == 0 || |was| >= HEADER
    ensures OneSubframe(got) && Accounted(got, was, socket[..0]) && AsArrived([], socket)
    ensures got == Held(was, socket[..0]) && ReadsOn(was, socket, contentType, 0)
    ensures WholeSubframe(socket, contentType) ==> 1 <= Announced(socket)
  {
  }

  // Reading one more datagram, for either side of the timestamp test.
  lemma Arrived(got: seq<seq<Byte>>, was: seq<Byte>, socket: seq<Event>, used: nat, d: seq<Byte>)
    requires used < |socket| && socket[used] == Arrival(d) && |d| >= HEADER && (got == [] ==> used == 0)
    requires OneSubframe(got) && Accounted(got, was, socket[..used])
    ensures if got != [] && Timestamp(got[0]) != Timestamp(d) then Accounted(got, was, socket[..used + 1])
            else OneSubframe(got + [d]) && Accounted(got + [d], was, socket[..used + 1])
  {
    assert socket[..used + 1][..used] == socket[..used];
  }

  // The same for what is held.
  lemma HeldGrows(was: seq<Byte>, socket: seq<Event>, contentType: nat, used: nat)
    requires Comes(socket, contentType, used) && ReadsOn(was, socket, contentType, used)
    ensures var held, later, d := Held(was, socket[..used]), Held(was, socket[..used + 1]), socket[used].d;
            && later == (if held != [] && Timestamp(held[0]) != Timestamp(d) then held else held + [d])
            && (IsNext(was, socket, used) <==> held != [] && Timestamp(d) > Timestamp(held[0]))
            && (Reached(was, socket[..used + 1]) <==>
                  later != [] && |later[0]| >= HEADER && |later| >= U16At(later[0], NB_BLOCKS))
  {
    hide Timestamp;
    assert socket[..used + 1][..used] == socket[..used];
    if was == [] && used > 0 {
      assert Comes(socket, contentType, 0);
      FirstIsHeld(socket, used);
    }
  }

  lemma ReadMore(was: seq<Byte>, socket: seq<Event>, contentType: nat, n: nat)
    requires ReadsOn(was, socket, contentType, n) && Comes(socket, contentType, n)
    ensures !IsNext(was, socket, n) && !Reached(was, socket[..n + 1]) ==> ReadsOn(was, socket, contentType, n + 1)
  {
    hide Reached, IsNext;
  }

  lemma {:induction false} FirstIsHeld(socket: seq<Event>, n: nat)
    requires 0 < n <= |socket| && socket[0].Arrival?
    ensures var held := Kept(Timestamp(socket[0].d), socket[..n]);
            held != [] && held[0] == socket[0].d
  {
    hide Timestamp;
    assert socket[..n][..n - 1] == socket[..n - 1];
    if n > 1 {
      FirstIsHeld(socket, n - 1);
    } else {
      assert socket[..1] == [socket[0]] && socket[..0] == [];
    }
  }

  /** There is only one way for a call to end. */
  lemma EndsOnce(was: seq<Byte>, socket: seq<Event>, contentType: nat, used: nat, outcome: Outcome,
                 used': nat, outcome': Outcome)
    requires Ends(was, socket, contentType, used, outcome) && Ends(was, socket, contentType, used', outcome')
    ensures used == used' && outcome == outcome'
  {
    NotBefore(was, socket, contentType, used, outcome, used', outcome');
    NotBefore(was, socket, contentType, used', outcome', used, outcome);
    SameOutcome(was, socket, contentType, used, outcome, outcome');
  }

  lemma NotBefore(was: seq<Byte>, socket: seq<Event>, contentType: nat, used: nat, outcome: Outcome,
                  used': nat, outcome': Outcome)
    requires Ends(was, socket, contentType, used, outcome) && Ends(was, socket, contentType, used', outcome')
    ensures used >= used'
  {
    ReadPast(was, socket, contentType, used', outcome');
    hide Reached, IsNext;
    var more := Comes(socket, contentType, used);
  }

  // What all but the last event of a call are.
  lemma ReadPast(was: seq<Byte>, socket: seq<Event>, contentType: nat, used: nat, outcome: Outcome)
    requires Ends(was, socket, contentType, used, outcome)
    ensures forall m :: 0 <= m < used ==> Comes(socket, contentType, m)
    ensures forall m :: 0 < m < used ==> !Reached(was, socket[..m])
    ensures forall m :: 0 <= m < used - 1 ==> Comes(socket, contentType, m) && !IsNext(was, socket, m)
  {
    hide Reached, IsNext;
  }

  lemma SameOutcome(was: seq<Byte>, socket: seq<Event>, contentType: nat, used: nat, outcome: Outcome, outcome': Outcome)
    requires Ends(was, socket, contentType, used, outcome) && Ends(was, socket, contentType, used, outcome')
    ensures outcome == outcome'
  {
    hide Held, Reached, IsNext;
  }

  // Every event is a datagram of the subframe of `first`.
  predicate OfSubframe(socket: seq<Event>, contentType: nat, first: seq<Byte>) {
    forall m :: 0 <= m < |socket| ==> Comes(socket, contentType, m) && Timestamp(socket[m].d) == Timestamp(first)
  }

  lemma {:induction false} AllKept(socket: seq<Event>, contentType: nat, first: seq<Byte>, n: nat)
    requires OfSubframe(socket, contentType, first) && n <= |socket|
    ensures var kept := Kept(Timestamp(first), socket[..n]);
            |kept| == n && forall i :: 0 <= i < n ==> kept[i] == socket[i].d
  {
    hide Timestamp;
    if n > 0 {
      AllKept(socket, contentType, first, n - 1);
      assert socket[..n][..n - 1] == socket[..n - 1];
      assert Comes(socket, contentType, n - 1);
    }
  }

  // What is held of such a stream.
  lemma HeldOfSubframe(was: seq<Byte>, socket: seq<Event>, contentType: nat, first: seq<Byte>, n: nat)
    requires OfSubframe(socket, contentType, first) && n <= |socket|
    requires if was != [] then was == first else |socket| > 0 && socket[0] == Arrival(first)
    ensures var held := Held(was, socket[..n]);
            && |held| == n + (if was == [] then 0 else 1)
            && (held != [] ==> held[0] == first)
            && forall i :: 0 <= i < n ==> held[|held| - n + i] == socket[i].d
  {
    AllKept(socket, contentType, first, n);
    hide Timestamp, Kept;
    assert n > 0 ==> Comes(socket, contentType, 0);
  }

  /** A call on the datagrams of one subframe, whichever of them arrive and however often, is complete with the
      one that makes up the announced number, the one kept before counted in, and times out if there are too
      few; it has then read exactly those. */
  lemma SubframeIsRead(was: seq<Byte>, socket: seq<Event>, contentType: nat, first: seq<Byte>, used: nat, outcome: Outcome)
    requires OfSubframe(socket, contentType, first) && |first| >= HEADER
    requires if was != [] then was == first else |socket| > 0 && socket[0] == Arrival(first)
    requires Ends(was, socket, contentType, used, outcome)
    ensures var n: int := U16At(first, NB_BLOCKS) - if was == [] then 0 else 1;
            var wanted := if n < 1 then 1 else n;
            && used == (if |socket| >= wanted then wanted else |socket|)
            && outcome == (if |socket| >= wanted then Complete else TimedOut)
  {
    var n: int := U16At(first, NB_BLOCKS) - if was == [] then 0 else 1;
    var wanted := if n < 1 then 1 else n;
    forall m: nat | m < |socket|
      ensures Comes(socket, contentType, m) && !IsNext(was, socket, m)
    {
      HeldOfSubframe(was, socket, contentType, first, m);
    }
    forall m: nat | 0 < m <= |socket|
      ensures Reached(was, socket[..m]) <==> m >= wanted
    {
      HeldOfSubframe(was, socket, contentType, first, m);
    }
    hide Held, Reached, IsNext;
    if |socket| >= wanted {
      assert Ends(was, socket, contentType, wanted, Complete);
      EndsOnce(was, socket, contentType, used, outcome, wanted, Complete);
    } else {
      assert Ends(was, socket, contentType, |socket|, TimedOut);
      EndsOnce(was, socket, contentType, used, outcome, |socket|, TimedOut);
    }
  }

  /** Too few datagrams of one subframe and then one of a later subframe: the call ends with that one, and
      keeps it. */
  lemma LaterSubframeIsKept(was: seq<Byte>, socket: seq<Event>, contentType: nat, first: seq<Byte>, n: nat,
                            used: nat, outcome: Outcome)
    requires n < |socket| && OfSubframe(socket[..n], contentType, first) && |first| >= HEADER
    requires if was != [] then was == first else n > 0 && socket[0] == Arrival(first)
    requires n + (if was == [] then 0 else 1) < U16At(first, NB_BLOCKS)
    requires Comes(socket, contentType, n) && Timestamp(socket[n].d) > Timestamp(first)
    requires Ends(was, socket, contentType, used, outcome)
    ensures used == n + 1 && outcome == NextStarted
  {
    forall m: nat | m <= n
      ensures Comes(socket, contentType, m) && (IsNext(was, socket, m) <==> m == n)
      ensures m > 0 ==> !Reached(was, socket[..m])
    {
      assert socket[..n][..m] == socket[..m];
      HeldOfSubframe(was, socket[..n], contentType, first, m);
      assert m < n ==> Comes(socket[..n], contentType, m);
    }
    hide Held, Reached, IsNext;
    assert Ends(was, socket, contentType, n + 1, NextStarted);
    EndsOnce(was, socket, contentType, used, outcome, n + 1, NextStarted);
  }

  lemma NextOfWhole(got: seq<seq<Byte>>, socket: seq<Event>, used: nat, contentType: nat)
    requires WellFormed(socket) && WholeSubframe(socket, contentType) && used == |got| < Announced(socket)
    requires AsArrived(got, socket)
    ensures used < |socket| && socket[used].Arrival? && U16At(socket[used].d, CONTENT_TYPE) == contentType
    ensures AsArrived(got + [socket[used].d], socket)
    ensures Timestamp(socket[used].d) == Timestamp((got + [socket[used].d])[0])
    ensures U16At((got + [socket[used].d])[0], NB_BLOCKS) == Announced(socket)
  {
  }

  // All datagrams of a subframe carry the timestamp of the first.
  lemma AllStamped(datagrams: seq<seq<Byte>>, h: nat, sent: seq<seq<Byte>>)
    requires |datagrams| == |sent| > 0
    requires forall k :: 0 <= k < |datagrams| ==> Carries(datagrams[k], h, sent[k])
    requires forall k :: 0 <= k < |datagrams| ==> Stamped(datagrams[k], datagrams[0], k, |datagrams|)
    ensures forall k :: 0 <= k < |datagrams| ==> |datagrams[k]| >= HEADER + h && Timestamp(datagrams[k]) == Timestamp(datagrams[0])
  {
    hide Le, Aligned;
    forall k | 0 <= k < |datagrams|
      ensures |datagrams[k]| >= HEADER + h && Timestamp(datagrams[k]) == Timestamp(datagrams[0])
    {
      AlignedCovers(h + |sent[k]|);
      assert Stamped(datagrams[k], datagrams[0], k, |datagrams|);
    }
  }

  // What arrives when the network delivers these blocks, in this order.
  function Delivered<T>(sent: seq<T>, order: seq<nat>): (r: seq<T>)
    requires forall i :: 0 <= i < |order| ==> order[i] < |sent|
    ensures |r| == |order| && forall i :: 0 <= i < |order| ==> r[i] == sent[order[i]]
  {
    seq(|order|, i requires 0 <= i < |order| => sent[order[i]])
  }

  // The same, as the receiver's socket shows it.
  function Socket(datagrams: seq<seq<Byte>>, order: seq<nat>): (socket: seq<Event>)
    requires forall i :: 0 <= i < |order| ==> order[i] < |datagrams|
    ensures |socket| == |order| && forall i :: 0 <= i < |order| ==> socket[i] == Arrival(datagrams[order[i]])
  {
    seq(|order|, i requires 0 <= i < |order| => Arrival(datagrams[order[i]]))
  }

  // The reception buffer.
  function Concat(datagrams: seq<seq<Byte>>): seq<Byte> {
    if datagrams == [] then [] else Concat(datagrams[..|datagrams| - 1]) + datagrams[|datagrams| - 1]
  }

  /** Whatever arrived, the buffer is packed with the payloads that arrived, in order of arrival. */
  lemma {:induction false} ReceivedIsPacked(datagrams: seq<seq<Byte>>, h: nat, payloads: seq<seq<Byte>>)
    requires |datagrams| == |payloads|
    requires forall i :: 0 <= i < |datagrams| ==> Carries(datagrams[i], h, payloads[i])
    ensures Packed(Concat(datagrams), h, payloads) && |Concat(datagrams)| == Room(h, payloads)
  {
    hide BlockAt, Packed, Aligned;
    if datagrams == [] {
      PackedNothing([], h);
    } else {
      var n := |datagrams| - 1;
      ReceivedIsPacked(datagrams[..n], h, payloads[..n]);
      PackedGrows(Concat(datagrams[..n]), h, payloads[..n], datagrams[n], payloads[n]);
      assert payloads[..n] + [payloads[n]] == payloads;
    }
  }

  lemma PackedNothing(b: seq<Byte>, h: nat)
    ensures Packed(b, h, [])
  {
  }

  lemma PackedGrows(b: seq<Byte>, h: nat, payloads: seq<seq<Byte>>, d: seq<Byte>, payload: seq<Byte>)
    requires Packed(b, h, payloads) && |b| == Room(h, payloads) && Carries(d, h, payload)
    ensures Packed(b + d, h, payloads + [payload]) && |b + d| == Room(h, payloads + [payload])
  {
    hide BlockAt, Room, Aligned;
    var all := payloads + [payload];
    assert all[..|payloads|] == payloads;
    RoomGrows(h, payloads, payload);
    forall k | 0 <= k < |all|
      ensures BlockAt(b + d, h, Offset(h, all, k), all[k])
    {
      if k < |payloads| {
        OffsetPrefix(h, payloads, [payload], k);
        BlockInFront(b, d, h, Offset(h, payloads, k), payloads[k]);
      } else {
        BlockBehind(b, d, h, payload);
      }
    }
  }

  lemma BlockInFront(b: seq<Byte>, d: seq<Byte>, h: nat, at: nat, payload: seq<Byte>)
    requires BlockAt(b, h, at, payload)
    ensures BlockAt(b + d, h, at, payload)
  {
    assert (b + d)[at + HEADER + h..at + HEADER + h + |payload|] == b[at + HEADER + h..at + HEADER + h + |payload|];
  }

  lemma BlockBehind(b: seq<Byte>, d: seq<Byte>, h: nat, payload: seq<Byte>)
    requires BlockAt(d, h, 0, payload)
    ensures BlockAt(b + d, h, |b|, payload)
  {
    assert (b + d)[|b| + HEADER + h..|b| + HEADER + h + |payload|] == d[HEADER + h..HEADER + h + |payload|];
  }

  /** The receiver reads the subframe-wide headers from the first datagram that arrived. */
  lemma {:induction false} FirstArrivedIsFirst(datagrams: seq<seq<Byte>>)
    requires datagrams != []
    ensures datagrams[0] <= Concat(datagrams)
  {
    if |datagrams| > 1 {
      FirstArrivedIsFirst(datagrams[..|datagrams| - 1]);
    } else {
      assert datagrams[..0] == [];
    }
  }
}
