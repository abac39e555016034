/**
 Uplink user data over the FS6 split: the distributed unit cuts a HARQ process's soft bits into segments
 and appends a block for each; the central unit copies every block that arrives to its place. Soft bits
 are 16-bit values, so a segment of E values at r_offset covers 2 * E bytes from byte 2 * r_offset.
 */
module Fs6Uplink {
  import opened Arith
  import opened Fs6Chain
  import opened Fs6Codec

  const UL_HEADER := 32    // sizeof(fs6_ul_t)

  datatype Key = Key(ueId: nat, harqId: int)

  datatype Harq = Harq(eUL: seq<Byte>, g: nat, oAck: seq<Byte>, tail: seq<Byte>)

  /** The central unit's uplink state; `power` and `ta` are per user, `indicated` lists the UCI elements
      handed on, in order. */
  datatype UlState = UlState(
    harq: map<Key, Harq>, power: map<nat, seq<Byte>>, ta: map<nat, seq<Byte>>, indicated: seq<seq<Byte>>)

  datatype Sizes = Sizes(tail: nat, element: nat)

  // memcpy into a buffer that is large enough.
  function Overwrite(mem: seq<Byte>, at: nat, data: seq<Byte>): (r: seq<Byte>)
    ensures |r| == |mem|
  {
    if at + |data| <= |mem| then mem[..at] + data + mem[at + |data|..] else mem
  }

  function KeyOf(u: Ulsch): Key { Key(u.ueId, u.harqId) }

  function ApplyUlsch(st: UlState, u: Ulsch): UlState {
    if KeyOf(u) !in st.harq then st
    else
      var was := st.harq[KeyOf(u)];
      var now := Harq(Overwrite(was.eUL, 2 * u.rOffset, u.data), u.g, u.oAck, u.tail);
      st.(harq := st.harq[KeyOf(u) := now], power := st.power[u.ueId := u.power], ta := st.ta[u.ueId := u.ta])
  }

  predicate IsUci(b: seq<Byte>, element: nat) {
    && |b| >= LIST_HEADER && b[0] == TYPE_ULCCH && LIST_HEADER + U16At(b, 2) * element <= |b|
  }

  function Elements(b: seq<Byte>, element: nat, n: nat): (r: seq<seq<Byte>>)
    requires LIST_HEADER + n * element <= |b|
    ensures |r| == n
  {
    if n == 0 then []
    else
      MulOrder(n - 1, n, element);
      Elements(b, element, n - 1) + [ElementAt(b, element, n - 1)]
  }

  // What one received payload does; payloads of other types are reported and skipped.
  function Apply(st: UlState, b: seq<Byte>, sizes: Sizes): UlState {
    if IsUlsch(b, sizes.tail) then ApplyUlsch(st, DecodeUlsch(b, sizes.tail))
    else if IsUci(b, sizes.element) then st.(indicated := st.indicated + Elements(b, sizes.element, U16At(b, 2)))
    else st
  }

  /** The meaning of a received subframe: every payload applied once, in order of arrival. */
  function ApplyAll(st: UlState, payloads: seq<seq<Byte>>, sizes: Sizes): UlState {
    if payloads == [] then st
    else Apply(ApplyAll(st, payloads[..|payloads| - 1], sizes), payloads[|payloads| - 1], sizes)
  }

  // A payload the sender can have produced, for processes the receiver knows.
  predicate Acceptable(st: UlState, b: seq<Byte>, sizes: Sizes) {
    || b == []
    || (IsUlsch(b, sizes.tail) && var u := DecodeUlsch(b, sizes.tail);
        KeyOf(u) in st.harq && 2 * u.rOffset + |u.data| <= |st.harq[KeyOf(u)].eUL|)
    || IsUci(b, sizes.element)
  }

  lemma ApplyKeepsAcceptable(st: UlState, b: seq<Byte>, other: seq<Byte>, sizes: Sizes)
    ensures Acceptable(st, other, sizes) ==> Acceptable(Apply(st, b, sizes), other, sizes)
  {
    hide IsUlsch, DecodeUlsch, IsUci, Elements, Overwrite;
  }

  class CentralUnit {
    var state: UlState
    const sizes: Sizes

    constructor (state: UlState, sizes: Sizes)
      ensures this.state == state && this.sizes == sizes
    {
      this.state, this.sizes := state, sizes;
    }

    // The list branch of recvFs6Ul: the element pointer advances with every element.
    method IndicateUci(b: seq<Byte>)
      requires IsUci(b, sizes.element)
      modifies this
      ensures state == Apply(old(state), b, sizes)
    {
      hide ElementAt, U16At;
      ghost var before := state;
      var nbUci := U16At(b, 2);
      for j := 0 to nbUci
        invariant LIST_HEADER + j * sizes.element <= |b|
        invariant state == before.(indicated := before.indicated + Elements(b, sizes.element, j))
      {
        MulOrder(j + 1, nbUci, sizes.element);
        state := state.(indicated := state.indicated + [ElementAt(b, sizes.element, j)]);
      }
    }

    /** recvFs6Ul over the received buffer: block numbers are not looked at, blocks without payload are
        skipped, and each other block is applied, in buffer order. */
    method RecvFs6Ul(buffer: array<Byte>, nbBlocks: nat, ghost payloads: seq<seq<Byte>>)
      requires Packed(buffer[..], UL_HEADER, payloads) && nbBlocks == |payloads|
      requires forall k :: 0 <= k < |payloads| ==> Acceptable(state, payloads[k], sizes)
      modifies this
      ensures state == ApplyAll(old(state), payloads, sizes)
    {
      hide BlockAt, Packed, Room, Aligned, Offset, Acceptable, Apply, IsUlsch, DecodeUlsch, IsUci, ApplyUlsch;
      ghost var before := state;
      var at := 0;
      EmptyRoom(UL_HEADER, payloads);
      for i := 0 to nbBlocks
        invariant at == Offset(UL_HEADER, payloads, i) && buffer[..] == old(buffer[..])
        invariant state == ApplyAll(before, payloads[..i], sizes)
        invariant forall k :: 0 <= k < |payloads| ==> Acceptable(state, payloads[k], sizes)
      {
        PackedField(buffer[..], UL_HEADER, payloads, i);
        var contentBytes := buffer[at + CONTENT_BYTES] as int + 256 * (buffer[at + CONTENT_BYTES + 1] as int);
        forall k | 0 <= k < |payloads|
          ensures Acceptable(Apply(state, payloads[i], sizes), payloads[k], sizes)
        {
          ApplyKeepsAcceptable(state, payloads[i], payloads[k], sizes);
        }
        assert payloads[..i + 1][..i] == payloads[..i];
        if contentBytes > UL_HEADER {
          var b := buffer[at + HEADER + UL_HEADER..at + HEADER + contentBytes];
          ApplyCases(state, b, sizes);
          if b[0] == TYPE_ULSCH {
            state := ApplyUlsch(state, DecodeUlsch(b, sizes.tail));
          } else if b[0] == TYPE_ULCCH {
            IndicateUci(b);
          }
        } else {
          ApplyNothing(state, sizes);
        }
        OffsetStep(UL_HEADER, payloads, i);
        at := at + Aligned(contentBytes);
      }
      assert payloads[..|payloads|] == payloads;
    }
  }

  lemma ApplyNothing(st: UlState, sizes: Sizes)
    ensures Apply(st, [], sizes) == st
  {
  }

  // The type byte decides.
  lemma ApplyCases(st: UlState, b: seq<Byte>, sizes: Sizes)
    requires b != [] && Acceptable(st, b, sizes)
    ensures b[0] == TYPE_ULSCH ==>
              IsUlsch(b, sizes.tail) && Apply(st, b, sizes) == ApplyUlsch(st, DecodeUlsch(b, sizes.tail))
    ensures b[0] == TYPE_ULCCH ==> IsUci(b, sizes.element)
    ensures b[0] != TYPE_ULSCH && b[0] != TYPE_ULCCH ==> Apply(st, b, sizes) == st
  {
    hide DecodeUlsch, U32At, U16At, ApplyUlsch, Elements;
  }

  // ---- reassembly ----

  // Which bytes of a process's soft bits some payload covers.
  predicate CoversByte(b: seq<Byte>, key: Key, x: nat, sizes: Sizes) {
    && IsUlsch(b, sizes.tail)
    && var u := DecodeUlsch(b, sizes.tail);
       KeyOf(u) == key && 2 * u.rOffset <= x < 2 * u.rOffset + |u.data|
  }

  predicate Covered(payloads: seq<seq<Byte>>, key: Key, x: nat, sizes: Sizes) {
    exists k :: 0 <= k < |payloads| && CoversByte(payloads[k], key, x, sizes)
  }

  // Every payload for this process carries the bytes that `source` has at its place.
  predicate CutFrom(b: seq<Byte>, key: Key, source: seq<Byte>, sizes: Sizes) {
    IsUlsch(b, sizes.tail) ==>
      var u := DecodeUlsch(b, sizes.tail);
      KeyOf(u) == key ==> 2 * u.rOffset + |u.data| <= |source| && u.data == source[2 * u.rOffset..2 * u.rOffset + |u.data|]
  }

  lemma ApplyByte(st: UlState, b: seq<Byte>, key: Key, source: seq<Byte>, x: nat, sizes: Sizes)
    requires key in st.harq && |st.harq[key].eUL| == |source| && x < |source| && CutFrom(b, key, source, sizes)
    ensures var after := Apply(st, b, sizes);
            && key in after.harq && |after.harq[key].eUL| == |source|
            && after.harq[key].eUL[x] == if CoversByte(b, key, x, sizes) then source[x] else st.harq[key].eUL[x]
  {
    hide IsUlsch, DecodeUlsch, IsUci, Elements;
  }

  /** Segment reassembly: whatever blocks arrive, in whatever order and however often, a byte of the
      receiver's soft bits is the sender's if some arrived block covers it, and is unwritten otherwise. */
  lemma {:induction false} Reassembly(st: UlState, payloads: seq<seq<Byte>>, key: Key, source: seq<Byte>, x: nat, sizes: Sizes)
    requires key in st.harq && |st.harq[key].eUL| == |source| && x < |source|
    requires forall k :: 0 <= k < |payloads| ==> CutFrom(payloads[k], key, source, sizes)
    ensures var after := ApplyAll(st, payloads, sizes);
            && key in after.harq && |after.harq[key].eUL| == |source|
            && after.harq[key].eUL[x] == if Covered(payloads, key, x, sizes) then source[x] else st.harq[key].eUL[x]
  {
    hide CutFrom, CoversByte, Apply;
    if payloads != [] {
      var n := |payloads| - 1;
      Reassembly(st, payloads[..n], key, source, x, sizes);
      ApplyByte(ApplyAll(st, payloads[..n], sizes), payloads[n], key, source, x, sizes);
      assert Covered(payloads, key, x, sizes) <==> Covered(payloads[..n], key, x, sizes) || CoversByte(payloads[n], key, x, sizes) by {
        if Covered(payloads[..n], key, x, sizes) {
          var k :| 0 <= k < n && CoversByte(payloads[..n][k], key, x, sizes);
          assert CoversByte(payloads[k], key, x, sizes);
        }
        if Covered(payloads, key, x, sizes) {
          var k :| 0 <= k < |payloads| && CoversByte(payloads[k], key, x, sizes);
          assert k < n ==> CoversByte(payloads[..n][k], key, x, sizes);
        }
      }
    }
  }

  // ---- everything else a payload says ----

  // An uplink data block of this process.
  predicate IsFor(b: seq<Byte>, key: Key, sizes: Sizes) {
    IsUlsch(b, sizes.tail) && KeyOf(DecodeUlsch(b, sizes.tail)) == key
  }

  // An uplink data block of this user.
  predicate IsFrom(b: seq<Byte>, ueId: nat, sizes: Sizes) {
    IsUlsch(b, sizes.tail) && DecodeUlsch(b, sizes.tail).ueId == ueId
  }

  ghost predicate LastFor(payloads: seq<seq<Byte>>, k: nat, key: Key, sizes: Sizes) {
    k < |payloads| && IsFor(payloads[k], key, sizes) && forall m :: k < m < |payloads| ==> !IsFor(payloads[m], key, sizes)
  }

  ghost predicate LastFrom(payloads: seq<seq<Byte>>, k: nat, ueId: nat, sizes: Sizes) {
    k < |payloads| && IsFrom(payloads[k], ueId, sizes) && forall m :: k < m < |payloads| ==> !IsFrom(payloads[m], ueId, sizes)
  }

  lemma ApplyFields(st: UlState, b: seq<Byte>, key: Key, sizes: Sizes)
    ensures var after := Apply(st, b, sizes);
            && (key in after.harq <==> key in st.harq)
            && (key in st.harq && !IsFor(b, key, sizes) ==> after.harq[key] == st.harq[key])
            && (key in st.harq && IsFor(b, key, sizes) ==>
                  var u, now := DecodeUlsch(b, sizes.tail), after.harq[key];
                  now.g == u.g && now.oAck == u.oAck && now.tail == u.tail)
  {
    hide IsUlsch, DecodeUlsch, IsUci, Elements;
  }

  /** After any blocks in any order, a process has the number of coded bits, the ACK and the CQI fields of
      its block that arrived last. */
  lemma {:induction false} LastFieldsArrive(st: UlState, payloads: seq<seq<Byte>>, key: Key, k: nat, sizes: Sizes)
    requires key in st.harq && LastFor(payloads, k, key, sizes)
    ensures var after, u := ApplyAll(st, payloads, sizes), DecodeUlsch(payloads[k], sizes.tail);
            && key in after.harq
            && after.harq[key].g == u.g && after.harq[key].oAck == u.oAck && after.harq[key].tail == u.tail
  {
    hide Apply, IsUlsch, DecodeUlsch;
    var n := |payloads| - 1;
    ProcessesStay(st, payloads[..n], key, sizes);
    ApplyFields(ApplyAll(st, payloads[..n], sizes), payloads[n], key, sizes);
    if k < n {
      LastFieldsArrive(st, payloads[..n], key, k, sizes);
    }
  }

  lemma {:induction false} ProcessesStay(st: UlState, payloads: seq<seq<Byte>>, key: Key, sizes: Sizes)
    ensures key in ApplyAll(st, payloads, sizes).harq <==> key in st.harq
  {
    hide Apply;
    if payloads != [] {
      ProcessesStay(st, payloads[..|payloads| - 1], key, sizes);
      ApplyFields(ApplyAll(st, payloads[..|payloads| - 1], sizes), payloads[|payloads| - 1], key, sizes);
    }
  }

  /** A process none of whose blocks arrived is as it was, soft bits included. */
  lemma {:induction false} OtherProcessStays(st: UlState, payloads: seq<seq<Byte>>, key: Key, sizes: Sizes)
    requires key in st.harq && forall k :: 0 <= k < |payloads| ==> !IsFor(payloads[k], key, sizes)
    ensures var after := ApplyAll(st, payloads, sizes);
            key in after.harq && after.harq[key] == st.harq[key]
  {
    hide Apply, IsFor;
    if payloads != [] {
      OtherProcessStays(st, payloads[..|payloads| - 1], key, sizes);
      ApplyFields(ApplyAll(st, payloads[..|payloads| - 1], sizes), payloads[|payloads| - 1], key, sizes);
    }
  }

  // What a map holds for a user.
  predicate Same(a: map<nat, seq<Byte>>, b: map<nat, seq<Byte>>, ueId: nat) {
    (ueId in a <==> ueId in b) && (ueId in a ==> a[ueId] == b[ueId])
  }

  lemma ApplyUser(st: UlState, b: seq<Byte>, ueId: nat, sizes: Sizes)
    ensures var after := Apply(st, b, sizes);
            && (!IsFrom(b, ueId, sizes) ==> Same(after.power, st.power, ueId) && Same(after.ta, st.ta, ueId))
            && (IsFrom(b, ueId, sizes) && KeyOf(DecodeUlsch(b, sizes.tail)) in st.harq ==>
                  var u := DecodeUlsch(b, sizes.tail);
                  && ueId in after.power && after.power[ueId] == u.power
                  && ueId in after.ta && after.ta[ueId] == u.ta)
  {
    hide IsUlsch, DecodeUlsch, IsUci, Elements, Overwrite;
  }

  /** And a user has the power and the timing advance of its block that arrived last. */
  lemma {:induction false} LastUserArrives(st: UlState, payloads: seq<seq<Byte>>, ueId: nat, k: nat, sizes: Sizes)
    requires LastFrom(payloads, k, ueId, sizes) && KeyOf(DecodeUlsch(payloads[k], sizes.tail)) in st.harq
    ensures var after, u := ApplyAll(st, payloads, sizes), DecodeUlsch(payloads[k], sizes.tail);
            && ueId in after.power && after.power[ueId] == u.power
            && ueId in after.ta && after.ta[ueId] == u.ta
  {
    hide Apply, IsUlsch, DecodeUlsch;
    var n := |payloads| - 1;
    ProcessesStay(st, payloads[..n], KeyOf(DecodeUlsch(payloads[k], sizes.tail)), sizes);
    ApplyUser(ApplyAll(st, payloads[..n], sizes), payloads[n], ueId, sizes);
    if k < n {
      LastUserArrives(st, payloads[..n], ueId, k, sizes);
    }
  }

  lemma {:induction false} OtherUserStays(st: UlState, payloads: seq<seq<Byte>>, ueId: nat, sizes: Sizes)
    requires forall k :: 0 <= k < |payloads| ==> !IsFrom(payloads[k], ueId, sizes)
    ensures var after := ApplyAll(st, payloads, sizes);
            Same(after.power, st.power, ueId) && Same(after.ta, st.ta, ueId)
  {
    hide Apply, IsFrom;
    if payloads != [] {
      OtherUserStays(st, payloads[..|payloads| - 1], ueId, sizes);
      ApplyUser(ApplyAll(st, payloads[..|payloads| - 1], sizes), payloads[|payloads| - 1], ueId, sizes);
    }
  }

  // A block with the one indication `element`, as sendFs6Ulharq sends them.
  predicate IsSignal(b: seq<Byte>, element: seq<Byte>) {
    b == EncodeList(TYPE_ULCCH, [element])
  }

  lemma ApplySignal(st: UlState, b: seq<Byte>, element: seq<Byte>, sizes: Sizes)
    requires IsSignal(b, element) && |element| == sizes.element
    ensures IsUci(b, sizes.element) && Apply(st, b, sizes) == st.(indicated := st.indicated + [element])
  {
    hide U16At, Flat, EncodeList;
    ListRoundTrip(TYPE_ULCCH, [element], sizes.element, 0);
    assert 1 * sizes.element == sizes.element && 0 * sizes.element == 0;
    assert Elements(b, sizes.element, 1) == [element];
  }

  lemma ApplyOther(st: UlState, b: seq<Byte>, sizes: Sizes)
    requires !IsUci(b, sizes.element)
    ensures Apply(st, b, sizes).indicated == st.indicated
  {
    hide IsUlsch, DecodeUlsch, IsUci, Elements;
  }

  // The blocks at these places, in order, carry these indications, and no other block carries any.
  ghost predicate Signals(payloads: seq<seq<Byte>>, at: seq<nat>, elements: seq<seq<Byte>>, sizes: Sizes) {
    && |at| == |elements| && (forall i, j :: 0 <= i < j < |at| ==> at[i] < at[j])
    && (forall j :: 0 <= j < |at| ==>
          at[j] < |payloads| && IsSignal(payloads[at[j]], elements[j]) && |elements[j]| == sizes.element)
    && forall k :: 0 <= k < |payloads| && k !in at ==> !IsUci(payloads[k], sizes.element)
  }

  lemma SomePlace(payloads: seq<seq<Byte>>, at: seq<nat>, elements: seq<seq<Byte>>, sizes: Sizes)
    requires Signals(payloads, at, elements, sizes)
    ensures |at| > 0 ==> |payloads| > 0
  {
    hide IsSignal, IsUci;
    if |at| > 0 {
      assert at[0] < |payloads|;
    }
  }

  lemma SignalsBefore(payloads: seq<seq<Byte>>, at: seq<nat>, elements: seq<seq<Byte>>, sizes: Sizes)
    requires Signals(payloads, at, elements, sizes) && payloads != []
    ensures var n, m := |payloads| - 1, |at| - 1;
            if m >= 0 && at[m] == n then Signals(payloads[..n], at[..m], elements[..m], sizes)
            else Signals(payloads[..n], at, elements, sizes) && !IsUci(payloads[n], sizes.element)
  {
    hide IsSignal, IsUci;
    var n, m := |payloads| - 1, |at| - 1;
    if m >= 0 && at[m] == n {
      assert forall k :: 0 <= k < n && k !in at[..m] ==> k !in at;
    } else {
      assert n !in at;
    }
  }

  /** Indications are handed on once for every block that arrived, in order of arrival. */
  lemma {:induction false} IndicatedInOrder(st: UlState, payloads: seq<seq<Byte>>, at: seq<nat>, elements: seq<seq<Byte>>,
                                            sizes: Sizes)
    requires Signals(payloads, at, elements, sizes)
    ensures ApplyAll(st, payloads, sizes).indicated == st.indicated + elements
    decreases |payloads|
  {
    SomePlace(payloads, at, elements, sizes);
    if payloads != [] {
      var n, m := |payloads| - 1, |at| - 1;
      SignalsBefore(payloads, at, elements, sizes);
      var before := ApplyAll(st, payloads[..n], sizes);
      if m >= 0 && at[m] == n {
        assert IsSignal(payloads[n], elements[m]) && |elements[m]| == sizes.element;
        ApplySignal(before, payloads[n], elements[m], sizes);
        hide Apply, IsUci, IsSignal, Signals;
        IndicatedInOrder(st, payloads[..n], at[..m], elements[..m], sizes);
        assert elements == elements[..m] + [elements[m]];
      } else {
        hide Apply, IsUci, IsSignal, Signals;
        IndicatedInOrder(st, payloads[..n], at, elements, sizes);
        ApplyOther(before, payloads[n], sizes);
      }
    }
  }
}
