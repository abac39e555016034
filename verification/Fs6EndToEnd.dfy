/**
 A subframe from one machine of the FS6 split to the other: chain, datagrams, reception buffer, parse. The
 network is a list of block numbers: what arrives, in order of arrival, with any losses and duplicates.
 */
module Fs6EndToEnd {
  import opened Fs6Chain
  import opened Fs6Transport
  import opened Fs6Receive
  import opened Fs6Codec
  import opened BitPack
  import opened Fs6Segments
  import Up = Fs6Uplink
  import Down = Fs6Downlink

  // The reception buffer for the datagrams that arrive.
  method Deliver(datagrams: seq<seq<Byte>>, order: seq<nat>, ghost h: nat, ghost payloads: seq<seq<Byte>>)
    returns (buffer: array<Byte>)
    requires |datagrams| == |payloads| && forall k :: 0 <= k < |datagrams| ==> Carries(datagrams[k], h, payloads[k])
    requires forall i :: 0 <= i < |order| ==> order[i] < |datagrams|
    ensures fresh(buffer) && Packed(buffer[..], h, Delivered(payloads, order))
  {
    hide Carries, Packed, Room, Concat;
    var arrived := Delivered(datagrams, order);
    ReceivedIsPacked(arrived, h, Delivered(payloads, order));
    var received := Concat(arrived);
    buffer := new Byte[|received|](i requires 0 <= i < |received| => received[i]);
    assert buffer[..] == received;
  }

  /** Uplink: the central unit applies exactly the blocks that arrived, each as often and in the order in
      which it arrived, with the contents that were appended. */
  method DeliverUplink(sender: Sender, cu: Up.CentralUnit, order: seq<nat>, contentType: nat, clock: seq<Byte>)
    requires sender.buffer.Valid() && sender.buffer.h == Up.UL_HEADER && sender.buffer.payloads != []
    requires contentType < U16 && |clock| == 8
    requires forall i :: 0 <= i < |order| ==> order[i] < |sender.buffer.payloads|
    requires forall k :: 0 <= k < |sender.buffer.payloads| ==> Up.Acceptable(cu.state, sender.buffer.payloads[k], cu.sizes)
    modifies sender.buffer.bytes, cu
    ensures cu.state == Up.ApplyAll(old(cu.state), Delivered(old(sender.buffer.payloads), order), cu.sizes)
  {
    hide Chain, Carries, Packed, Room, Stamped, Up.Acceptable, Up.ApplyAll;
    var datagrams := sender.SendSubFrame(contentType, clock);
    var buffer := Deliver(datagrams, order, Up.UL_HEADER, sender.buffer.payloads);
    cu.RecvFs6Ul(buffer, |order|, Delivered(sender.buffer.payloads, order));
  }

  /** Downlink: the distributed unit takes over exactly the configurations in the blocks that arrived. */
  method DeliverDownlink(sender: Sender, du: Down.DistributedUnit, order: seq<nat>, contentType: nat, clock: seq<Byte>)
    requires sender.buffer.Valid() && sender.buffer.h == du.sizes.header && sender.buffer.payloads != []
    requires contentType < U16 && |clock| == 8
    requires forall i :: 0 <= i < |order| ==> order[i] < |sender.buffer.payloads|
    requires forall k :: 0 <= k < |sender.buffer.payloads| ==> Down.DlAcceptable(sender.buffer.payloads[k], du.sizes)
    modifies sender.buffer.bytes, du
    ensures du.applied == old(du.applied) + Down.AllItems(Delivered(old(sender.buffer.payloads), order), du.sizes)
  {
    hide Chain, Carries, Packed, Room, Stamped, Down.DlAcceptable, Down.AllItems;
    var datagrams := sender.SendSubFrame(contentType, clock);
    var buffer := Deliver(datagrams, order, du.sizes.header, sender.buffer.payloads);
    du.RcvFs6Dl(buffer, |order|, Delivered(sender.buffer.payloads, order));
  }

  // ---- a transport block from soft bits to soft bits ----

  // The network delivers every datagram exactly once.
  predicate DeliversAll(order: seq<nat>, n: nat) {
    |order| == n && (forall i :: 0 <= i < n ==> order[i] < n) && (forall k :: 0 <= k < n ==> k in order)
  }

  lemma WholeArrives(datagrams: seq<seq<Byte>>, h: nat, sent: seq<seq<Byte>>, order: seq<nat>, contentType: nat)
    requires |datagrams| == |sent| > 0 && DeliversAll(order, |datagrams|)
    requires forall k :: 0 <= k < |datagrams| ==> Carries(datagrams[k], h, sent[k])
    requires forall k :: 0 <= k < |datagrams| ==> Stamped(datagrams[k], datagrams[0], k, |datagrams|)
    requires |datagrams[0]| >= HEADER && U16At(datagrams[0], CONTENT_TYPE) == contentType
    ensures WellFormed(Socket(datagrams, order)) && WholeSubframe(Socket(datagrams, order), contentType)
    ensures Announced(Socket(datagrams, order)) == |datagrams|
  {
    hide Carries, Timestamp;
    AllStamped(datagrams, h, sent);
    var socket := Socket(datagrams, order);
    forall i | 0 <= i < |order|
      ensures |socket[i].d| >= HEADER && U16At(socket[i].d, CONTENT_TYPE) == contentType
      ensures U16At(socket[i].d, NB_BLOCKS) == |datagrams| && Timestamp(socket[i].d) == Timestamp(datagrams[0])
    {
      assert Stamped(datagrams[order[i]], datagrams[0], order[i], |datagrams|);
    }
  }

  lemma GotIsDelivered(datagrams: seq<seq<Byte>>, order: seq<nat>, got: seq<seq<Byte>>)
    requires forall i :: 0 <= i < |order| ==> order[i] < |datagrams|
    requires AsArrived(got, Socket(datagrams, order)) && |got| == |order|
    ensures got == Delivered(datagrams, order)
  {
  }

  lemma JobAcceptable(j: Job, before: seq<seq<Byte>>, st: Up.UlState, sizes: Up.Sizes)
    requires j.Valid() && 2 * j.g < U32 && |j.tail| == sizes.tail
    requires j.Key() in st.harq && |st.harq[j.Key()].eUL| == |j.source|
    requires forall k :: 0 <= k < |before| ==> Up.Acceptable(st, before[k], sizes) && OtherProcess(before[k], j.Key(), sizes)
    ensures var sent := before + Segments(j, j.c);
            && CarriesJob(sent, j, |before|, sizes)
            && forall k :: 0 <= k < |sent| ==> Up.Acceptable(st, sent[k], sizes)
  {
    hide Segments, OtherProcess, Job.SegmentSize, Job.Start;
    var sent := before + Segments(j, j.c);
    forall k | 0 <= k < |sent|
      ensures Up.Acceptable(st, sent[k], sizes)
    {
      if k >= |before| {
        SegmentAcceptable(j, k - |before|, st, sizes);
      }
    }
  }

  lemma SegmentAcceptable(j: Job, r: nat, st: Up.UlState, sizes: Up.Sizes)
    requires j.Valid() && r < j.c && 2 * j.g < U32 && |j.tail| == sizes.tail
    requires j.Key() in st.harq && |st.harq[j.Key()].eUL| == |j.source|
    ensures Up.Acceptable(st, Segments(j, j.c)[r], sizes)
  {
    SegmentAt(j, r);
    SegmentRecordFits(j, r);
    UlschRoundTrip(SegmentRecord(j, r), sizes.tail);
    hide EncodeUlsch, DecodeUlsch, IsUlsch, Segments, Job.SegmentSize, Job.Start, Up.IsUci;
  }

  /** From soft bits to soft bits: the distributed unit cuts the soft bits of a HARQ process into segments
      behind whatever other blocks the subframe has, sends the subframe, and the network delivers its
      datagrams in any order; the central unit collects them, parses the buffer, and then holds the
      sender's soft bits up to the last whole modulation symbol, the process's number of coded bits, ACK and
      CQI fields, and, if no other process of the user is in the subframe, its power and timing advance. */
  method SoftBitsArrive(j: Job, sender: Sender, receiver: Receiver, cu: Up.CentralUnit, order: seq<nat>,
                        contentType: nat, clock: seq<Byte>)
    requires j.Valid() && 2 * j.g < U32 && |j.tail| == cu.sizes.tail && contentType < U16 && |clock| == 8
    requires sender.buffer.Valid() && sender.buffer.h == Up.UL_HEADER
    requires forall r :: 0 <= r < j.c ==> Up.UL_HEADER + ULSCH_FIXED + |j.tail| + 2 * j.SegmentSize(r) < U16
    requires |sender.buffer.payloads| + j.c < U16
    requires Room(Up.UL_HEADER, sender.buffer.payloads + Segments(j, j.c)) <= sender.buffer.bytes.Length
    requires receiver.crossData == [] && DeliversAll(order, |sender.buffer.payloads| + j.c)
    requires j.Key() in cu.state.harq && |cu.state.harq[j.Key()].eUL| == |j.source|
    requires forall k :: 0 <= k < |sender.buffer.payloads| ==>
               && Up.Acceptable(cu.state, sender.buffer.payloads[k], cu.sizes)
               && OtherProcess(sender.buffer.payloads[k], j.Key(), cu.sizes)
    modifies sender.buffer`payloads, sender.buffer.bytes, receiver, cu
    ensures j.Key() in cu.state.harq && 2 * j.qm * j.Gp() <= |j.source|
    ensures cu.state.harq[j.Key()].eUL ==
              j.source[..2 * j.qm * j.Gp()] + old(cu.state.harq[j.Key()].eUL[2 * j.qm * j.Gp()..])
    ensures cu.state.harq[j.Key()].g == j.g && cu.state.harq[j.Key()].oAck == j.oAck && cu.state.harq[j.Key()].tail == j.tail
    ensures (forall k :: 0 <= k < |old(sender.buffer.payloads)| ==>
               OtherUser(old(sender.buffer.payloads)[k], j.ueId, cu.sizes)) ==>
              && j.ueId in cu.state.power && cu.state.power[j.ueId] == j.power
              && j.ueId in cu.state.ta && cu.state.ta[j.ueId] == j.ta
  {
    hide Chain, Carries, Packed, Room, Stamped, Up.Acceptable, Up.ApplyAll, Segments, OtherProcess, CarriesJob;
    hide OtherUser, Job.Valid, Job.SegmentSize, WholeSubframe, AsArrived, Accounted, OneSubframe, Announced, Held, Ends, Concat, DeliversAll, WellFormed;
    ghost var before, st := sender.buffer.payloads, cu.state;
    SomeSegments(j, order, |before| + j.c);
    JobAcceptable(j, before, st, cu.sizes);
    var fatal := SendSegments(j, sender.buffer);
    ghost var sent := sender.buffer.payloads;
    var datagrams := sender.SendSubFrame(contentType, clock);
    WholeArrives(datagrams, Up.UL_HEADER, sent, order, contentType);
    var got, used, outcome := receiver.ReceiveSubFrame(Socket(datagrams, order), contentType);
    GotIsDelivered(datagrams, order, got);
    ReceivedIsPacked(got, Up.UL_HEADER, Delivered(sent, order));
    var received := Concat(got);
    var buffer := new Byte[|received|](i requires 0 <= i < |received| => received[i]);
    assert buffer[..] == received;
    cu.RecvFs6Ul(buffer, |got|, Delivered(sent, order));
    AllSegmentsDelivered(st, sent, order, j, |before|, cu.sizes);
    assert |before| in order;
    FieldsDelivered(st, sent, order, j, |before|, cu.sizes);
  }

  lemma SomeSegments(j: Job, order: seq<nat>, n: nat)
    requires j.Valid() && DeliversAll(order, n)
    ensures j.c > 0 && |order| == n && (forall i :: 0 <= i < |order| ==> order[i] < n)
    ensures forall k :: 0 <= k < n ==> k in order
  {
  }

  // ---- a downlink subframe from configurations to configurations ----

  /** What the central unit appends for one user, or for the control channels of a subframe. */
  datatype Config =
    | DlConfig(body: seq<Byte>, eDL: seq<int>, dataLen: nat)
    | UlConfig(body: seq<Byte>)
    | ControlConfig(ucis: seq<Down.Uci>)

  // It fits into a block, and of the control channels at most one is due.
  predicate Sendable(x: Config, sizes: Down.DlSizes) {
    match x
    case DlConfig(body, eDL, dataLen) =>
      && |body| == sizes.dlUe - 5 && dataLen < U32 && |eDL| >= 8 * Ceil16Bytes(dataLen)
      && sizes.header + sizes.dlUe + Ceil16Bytes(dataLen) < U16
    case UlConfig(body) => |body| == sizes.ulSched - 1 && sizes.header + sizes.ulSched < U16
    case ControlConfig(ucis) =>
      && |ucis| < U16 && (forall k :: 0 <= k < |ucis| ==> |ucis[k].element| == sizes.uci)
      && |Down.DueElements(ucis)| <= 1 && sizes.header + LIST_HEADER + sizes.uci < U16
  }

  function BlockOfConfig(x: Config, sizes: Down.DlSizes): (r: seq<seq<Byte>>)
    requires Sendable(x, sizes)
    ensures |r| <= 1
  {
    match x
    case DlConfig(body, eDL, dataLen) => [Down.EncodeDlUser(body, eDL, dataLen)]
    case UlConfig(body) => [[TYPE_UL_CONFIG] + body]
    case ControlConfig(ucis) => Down.WithList([], Down.DueElements(ucis))
  }

  function Signs(eDL: seq<int>, n: nat): (r: seq<int>)
    requires n <= |eDL|
    ensures |r| == n && forall x :: 0 <= x < n ==> r[x] == if eDL[x] > 0 then 1 else 0
  {
    seq(n, x requires 0 <= x < n => if eDL[x] > 0 then 1 else 0)
  }

  // What the distributed unit should take over for it.
  function Meant(x: Config, sizes: Down.DlSizes): (r: seq<Down.Item>)
    requires Sendable(x, sizes)
    ensures |r| <= 1
  {
    match x
    case DlConfig(body, eDL, dataLen) => [Down.DlUser(body, Signs(eDL, 8 * Ceil16Bytes(dataLen)))]
    case UlConfig(body) => [Down.UlUser(body)]
    case ControlConfig(ucis) => Down.AsControl(Down.DueElements(ucis))
  }

  // Anything is meant at all.
  predicate MeansSomething(x: Config) {
    x.ControlConfig? ==> exists k :: 0 <= k < |x.ucis| && x.ucis[k].due
  }

  // And this is what.
  predicate Means(x: Config, item: Down.Item) {
    match x
    case DlConfig(body, eDL, dataLen) =>
      && item.DlUser? && item.body == body && |item.bits| == 8 * Ceil16Bytes(dataLen) <= |eDL|
      && forall i :: 0 <= i < |item.bits| ==> item.bits[i] == if eDL[i] > 0 then 1 else 0
    case UlConfig(body) => item == Down.UlUser(body)
    case ControlConfig(ucis) => exists k :: 0 <= k < |ucis| && ucis[k].due && item == Down.ControlChannel(ucis[k].element)
  }

  lemma MeantIs(x: Config, sizes: Down.DlSizes)
    requires Sendable(x, sizes)
    ensures Meant(x, sizes) != [] <==> MeansSomething(x)
    ensures Meant(x, sizes) != [] ==> Means(x, Meant(x, sizes)[0])
  {
    hide Down.DueElements;
    if x.ControlConfig? {
      Down.DueAre(x.ucis);
      var at :| Down.DueAt(at, Down.DueElements(x.ucis), x.ucis);
      assert at != [] ==> x.ucis[at[0]].due && Down.DueElements(x.ucis)[0] == x.ucis[at[0]].element;
      if k :| 0 <= k < |x.ucis| && x.ucis[k].due {
        assert k in at;
      }
    }
  }

  // The configurations that mean something, in order, with what they mean.
  predicate MeantAt(at: seq<nat>, items: seq<Down.Item>, xs: seq<Config>) {
    && |at| == |items| && (forall i, j :: 0 <= i < j < |at| ==> at[i] < at[j])
    && (forall j :: 0 <= j < |at| ==> at[j] < |xs| && Means(xs[at[j]], items[j]))
    && forall k :: 0 <= k < |xs| && MeansSomething(xs[k]) ==> k in at
  }

  /** One item for each configuration that means something, in order: a downlink user with the signs of its
      coded bits, a scheduled uplink user, or the control channel that is due. */
  ghost predicate AsMeant(items: seq<Down.Item>, xs: seq<Config>) {
    exists at :: MeantAt(at, items, xs)
  }

  lemma MeantPlaces(xs: seq<Config>, sizes: Down.DlSizes) returns (at: seq<nat>)
    requires forall k :: 0 <= k < |xs| ==> Sendable(xs[k], sizes)
    ensures MeantAt(at, AllMeant(xs, sizes), xs)
  {
    hide Sendable, Meant, Means, MeansSomething;
    at := [];
    if xs != [] {
      var n := |xs| - 1;
      at := MeantPlaces(xs[..n], sizes);
      MeantIs(xs[n], sizes);
      assert forall k :: 0 <= k < n && MeansSomething(xs[k]) ==> MeansSomething(xs[..n][k]) && k in at;
      if Meant(xs[n], sizes) != [] {
        assert Meant(xs[n], sizes) == [Meant(xs[n], sizes)[0]];
        assert forall k :: k in at ==> k in at + [n];
        assert n in at + [n];
        at := at + [n];
      }
    }
  }

  lemma AllAsMeant(xs: seq<Config>, sizes: Down.DlSizes)
    requires forall k :: 0 <= k < |xs| ==> Sendable(xs[k], sizes)
    ensures AsMeant(AllMeant(xs, sizes), xs)
  {
    var at := MeantPlaces(xs, sizes);
  }

  function Blocks(xs: seq<Config>, sizes: Down.DlSizes): (r: seq<seq<Byte>>)
    requires forall k :: 0 <= k < |xs| ==> Sendable(xs[k], sizes)
    ensures |r| <= |xs|
  {
    if xs == [] then [] else Blocks(xs[..|xs| - 1], sizes) + BlockOfConfig(xs[|xs| - 1], sizes)
  }

  function AllMeant(xs: seq<Config>, sizes: Down.DlSizes): seq<Down.Item>
    requires forall k :: 0 <= k < |xs| ==> Sendable(xs[k], sizes)
  {
    if xs == [] then [] else AllMeant(xs[..|xs| - 1], sizes) + Meant(xs[|xs| - 1], sizes)
  }

  // Block by block, what is meant is what is taken from it.
  predicate OneEach(blocks: seq<seq<Byte>>, items: seq<Down.Item>, sizes: Down.DlSizes) {
    && |blocks| == |items|
    && forall k :: 0 <= k < |blocks| ==> Down.DlAcceptable(blocks[k], sizes) && Down.ItemsOf(blocks[k], sizes) == [items[k]]
  }

  lemma ConfigDelivered(x: Config, sizes: Down.DlSizes)
    requires sizes.Valid() && Sendable(x, sizes)
    ensures OneEach(BlockOfConfig(x, sizes), Meant(x, sizes), sizes)
  {
    hide Down.DlAcceptable, Down.ItemsOf, Down.PackedSeq, Down.EncodeDlUser, EncodeList;
    match x
    case DlConfig(body, eDL, dataLen) =>
      Down.DlUserDelivered(sizes, body, eDL, dataLen);
      assert Signs(eDL, 8 * Ceil16Bytes(dataLen)) == Down.UnpackedSeq(Down.PackedSeq(eDL, dataLen));
    case UlConfig(body) =>
      Down.UlUserDelivered(sizes, body);
    case ControlConfig(ucis) =>
      var due := Down.DueElements(ucis);
      Down.DueGrows(ucis, |ucis|, sizes.uci);
      if due != [] {
        Down.ControlDeliveredExactly(sizes, due);
      }
  }

  lemma {:induction false} AllDelivered(xs: seq<Config>, sizes: Down.DlSizes)
    requires sizes.Valid() && forall k :: 0 <= k < |xs| ==> Sendable(xs[k], sizes)
    ensures OneEach(Blocks(xs, sizes), AllMeant(xs, sizes), sizes)
  {
    hide Sendable, BlockOfConfig, Meant, Down.DlAcceptable, Down.ItemsOf;
    if xs != [] {
      AllDelivered(xs[..|xs| - 1], sizes);
      ConfigDelivered(xs[|xs| - 1], sizes);
    }
  }

  lemma {:induction false} ItemsInOrder(blocks: seq<seq<Byte>>, items: seq<Down.Item>, sizes: Down.DlSizes)
    requires OneEach(blocks, items, sizes)
    ensures Down.AllItems(blocks, sizes) == items
  {
    hide Down.DlAcceptable, Down.ItemsOf;
    if blocks != [] {
      var n := |blocks| - 1;
      ItemsInOrder(blocks[..n], items[..n], sizes);
      assert items == items[..n] + [items[n]];
    }
  }

  method AppendConfig(buffer: SplitBuffer, sizes: Down.DlSizes, x: Config)
    requires buffer.Valid() && buffer.h == sizes.header && sizes.Valid() && Sendable(x, sizes)
    requires |buffer.payloads| + 1 < U16
    requires Room(buffer.h, buffer.payloads + BlockOfConfig(x, sizes)) <= buffer.bytes.Length
    modifies buffer`payloads, buffer.bytes
    ensures buffer.Valid() && buffer.payloads == old(buffer.payloads) + BlockOfConfig(x, sizes)
    ensures forall i :: 0 <= i < buffer.bytes.Length && (i < NB_BLOCKS || HEADER <= i < HEADER + buffer.h) ==>
              buffer.bytes[i] == old(buffer.bytes[i])
  {
    hide Chain, Room, EncodeList, Down.DueElements;
    var fatal: bool;
    match x
    case DlConfig(body, eDL, dataLen) =>
      var bits := new int[|eDL|](k requires 0 <= k < |eDL| => eDL[k]);
      assert bits[..] == eDL;
      fatal := Down.AppendDlUser(buffer, sizes, body, bits, dataLen);
    case UlConfig(body) =>
      fatal := Down.AppendUlUser(buffer, sizes, body);
    case ControlConfig(ucis) =>
      ghost var due := Down.DueElements(ucis);
      assert Down.WithList(buffer.payloads, due) == buffer.payloads + BlockOfConfig(x, sizes);
      assert |due| * sizes.uci <= sizes.uci by { OneOrNone(|due|, sizes.uci); }
      fatal := Down.AppendControlChannels(buffer, sizes, ucis);
  }

  lemma OneOrNone(n: nat, size: nat)
    requires n <= 1
    ensures n * size <= size
  {
    assert n == 0 || n == 1;
  }

  method AppendConfigs(buffer: SplitBuffer, sizes: Down.DlSizes, xs: seq<Config>)
    requires buffer.Valid() && buffer.h == sizes.header && sizes.Valid() && buffer.payloads == [] && |xs| + 1 < U16
    requires forall k :: 0 <= k < |xs| ==> Sendable(xs[k], sizes)
    requires Room(buffer.h, Blocks(xs, sizes)) <= buffer.bytes.Length
    modifies buffer`payloads, buffer.bytes
    ensures buffer.Valid() && buffer.payloads == Blocks(xs, sizes)
    ensures forall i :: 0 <= i < buffer.bytes.Length && (i < NB_BLOCKS || HEADER <= i < HEADER + buffer.h) ==>
              buffer.bytes[i] == old(buffer.bytes[i])
  {
    hide Chain, Room, Sendable, BlockOfConfig;
    for i := 0 to |xs|
      invariant buffer.Valid() && buffer.payloads == Blocks(xs[..i], sizes)
      invariant forall k :: 0 <= k < buffer.bytes.Length && (k < NB_BLOCKS || HEADER <= k < HEADER + buffer.h) ==>
                  buffer.bytes[k] == old(buffer.bytes[k])
    {
      assert xs[..i + 1][..i] == xs[..i];
      BlocksPrefix(xs, sizes, i + 1);
      assert Blocks(xs, sizes)[..|Blocks(xs[..i + 1], sizes)|] == buffer.payloads + BlockOfConfig(xs[i], sizes);
      PrefixFits(buffer.h, Blocks(xs, sizes), |Blocks(xs[..i + 1], sizes)|);
      AppendConfig(buffer, sizes, xs[i]);
    }
    assert xs[..|xs|] == xs;
  }

  lemma {:induction false} BlocksPrefix(xs: seq<Config>, sizes: Down.DlSizes, i: nat)
    requires i <= |xs| && forall k :: 0 <= k < |xs| ==> Sendable(xs[k], sizes)
    ensures Blocks(xs[..i], sizes) <= Blocks(xs, sizes)
  {
    hide Sendable, BlockOfConfig;
    if i < |xs| {
      BlocksPrefix(xs[..|xs| - 1], sizes, i);
      assert xs[..|xs| - 1][..i] == xs[..i];
    } else {
      assert xs[..i] == xs;
    }
  }

  /** From configurations to configurations: whatever sequence of downlink users, scheduled uplink users and
      control channels the central unit appends, with at most one channel due in each list, and in whatever
      order the network delivers the datagrams, the distributed unit takes over exactly what was meant
      (`AsMeant`), one by one in order of arrival. */
  method ConfigsArrive(xs: seq<Config>, sender: Sender, receiver: Receiver, du: Down.DistributedUnit, order: seq<nat>,
                       contentType: nat, clock: seq<Byte>)
    requires sender.buffer.Valid() && sender.buffer.h == du.sizes.header && du.sizes.Valid() && sender.buffer.payloads == []
    requires |xs| + 1 < U16 && forall k :: 0 <= k < |xs| ==> Sendable(xs[k], du.sizes)
    requires Blocks(xs, du.sizes) != [] && Room(du.sizes.header, Blocks(xs, du.sizes)) <= sender.buffer.bytes.Length
    requires contentType < U16 && |clock| == 8
    requires receiver.crossData == [] && DeliversAll(order, |Blocks(xs, du.sizes)|)
    modifies sender.buffer`payloads, sender.buffer.bytes, receiver, du
    ensures |AllMeant(xs, du.sizes)| == |Blocks(xs, du.sizes)| && AsMeant(AllMeant(xs, du.sizes), xs)
    ensures du.applied == old(du.applied) + Delivered(AllMeant(xs, du.sizes), order)
    ensures (forall i :: 0 <= i < |order| ==> order[i] == i) ==> du.applied == old(du.applied) + AllMeant(xs, du.sizes)
  {
    hide Chain, Carries, Packed, Room, Stamped, Sendable, Blocks, AllMeant, Down.DlAcceptable, Down.ItemsOf, Down.AllItems;
    hide WholeSubframe, AsArrived, Accounted, OneSubframe, Announced, Held, Ends, Concat, WellFormed;
    hide AsMeant;
    ghost var items := AllMeant(xs, du.sizes);
    AllDelivered(xs, du.sizes);
    AllAsMeant(xs, du.sizes);
    AppendConfigs(sender.buffer, du.sizes, xs);
    ghost var sent := sender.buffer.payloads;
    var datagrams := sender.SendSubFrame(contentType, clock);
    WholeArrives(datagrams, du.sizes.header, sent, order, contentType);
    var got, used, outcome := receiver.ReceiveSubFrame(Socket(datagrams, order), contentType);
    GotIsDelivered(datagrams, order, got);
    ReceivedIsPacked(got, du.sizes.header, Delivered(sent, order));
    var received := Concat(got);
    var buffer := new Byte[|received|](i requires 0 <= i < |received| => received[i]);
    assert buffer[..] == received;
    ItemsInOrder(Delivered(sent, order), Delivered(items, order), du.sizes);
    du.RcvFs6Dl(buffer, |got|, Delivered(sent, order));
    assert (forall i :: 0 <= i < |order| ==> order[i] == i) ==> Delivered(items, order) == items;
  }

  // ---- the signalling in the downlink header ----

  // The second header of the block that arrives first: the number of PDCCH symbols, the DCIs, the PBCH
  // bytes and the PHICH are taken from it.
  function SignallingRead(b: seq<Byte>, h: nat, payloads: seq<seq<Byte>>, first: nat): (r: seq<Byte>)
    requires first < |payloads| && Room(h, payloads) <= |b|
    ensures |r| == h
  {
    BlockInRoom(h, payloads, first);
    b[Offset(h, payloads, first) + HEADER..Offset(h, payloads, first) + HEADER + h]
  }

  /** Whatever arrives, in whatever order: the distributed unit finds, as signalling of the subframe, what
      the send buffer held behind the common header of the block that has arrived first. */
  method DeliverSignalling(sender: Sender, order: seq<nat>, contentType: nat, clock: seq<Byte>) returns (received: seq<Byte>)
    requires sender.buffer.Valid() && sender.buffer.payloads != [] && contentType < U16 && |clock| == 8
    requires order != [] && forall i :: 0 <= i < |order| ==> order[i] < |sender.buffer.payloads|
    modifies sender.buffer.bytes
    ensures var h := sender.buffer.h;
            && HEADER + h <= |received| && Room(h, sender.buffer.payloads) <= sender.buffer.bytes.Length
            && received[HEADER..HEADER + h] == SignallingRead(old(sender.buffer.bytes[..]), h, sender.buffer.payloads, order[0])
  {
    hide Carries, Room, Stamped, Concat, BlockAt, Numbered, Offset;
    ghost var h, b := sender.buffer.h, sender.buffer.bytes[..];
    var datagrams := sender.SendSubFrame(contentType, clock);
    var arrived := Delivered(datagrams, order);
    FirstArrivedIsFirst(arrived);
    received := Concat(arrived);
    assert arrived[0] == datagrams[order[0]];
    assert received[HEADER..HEADER + h] == arrived[0][HEADER..HEADER + h];
  }

  /** What the central unit has put into the header is what the distributed unit finds, whatever the send
      buffer held before, exactly if block 0 arrives first: no other block gets a copy. */
  lemma SignallingPreservedExactly(h: nat, payloads: seq<seq<Byte>>, first: nat)
    requires h > 0 && first < |payloads|
    ensures Room(h, payloads) >= HEADER + h
    ensures (forall b: seq<Byte> :: Room(h, payloads) <= |b| ==>
               SignallingRead(b, h, payloads, first) == b[HEADER..HEADER + h]) <==> first == 0
  {
    hide Room, Offset;
    OffsetStart(h, payloads);
    BlockInRoom(h, payloads, 0);
    if first > 0 {
      BlocksDisjoint(h, payloads, 0, first);
      var b: seq<Byte> := seq(Room(h, payloads), i => if i < HEADER + h then 1 else 0);
      assert b[HEADER..HEADER + h][0] == 1;
      assert SignallingRead(b, h, payloads, first)[0] == 0;
    }
  }
}
