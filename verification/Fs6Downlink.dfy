/**
 The downlink subframe of the FS6 split: what the central unit appends (scheduled uplinks, control
 channels, downlink data) and what the distributed unit makes of the blocks it receives.
 */
module Fs6Downlink {
  import opened Arith
  import opened Fs6Chain
  import opened Fs6Codec
  import opened BitPack
  import opened Fs6Signalling

  /** Sizes of fs6_dl_t, fs6_dl_uespec_t, fs6_dl_ulsched_t and fs6_dl_uespec_ulcch_element_t. */
  datatype DlSizes = DlSizes(header: nat, dlUe: nat, ulSched: nat, uci: nat) {
    predicate Valid() { dlUe > 5 && ulSched > 0 }
  }

  /** One configuration the distributed unit takes over: a downlink user with its coded bits, a scheduled
      uplink user, or a control channel. */
  datatype Item =
    | DlUser(body: seq<Byte>, bits: seq<int>)
    | UlUser(body: seq<Byte>)
    | ControlChannel(element: seq<Byte>)

  function PackedSeq(eDL: seq<int>, dataLen: nat): (p: seq<Byte>)
    requires |eDL| >= 8 * Ceil16Bytes(dataLen)
    ensures |p| == Ceil16Bytes(dataLen) && PackedFrom(p, eDL)
  {
    seq(Ceil16Bytes(dataLen), k requires 0 <= k < Ceil16Bytes(dataLen) => PackedByte(eDL, k))
  }

  function UnpackedSeq(packed: seq<Byte>): (bits: seq<int>)
    ensures |bits| == 8 * |packed| && forall x :: 0 <= x < |bits| ==> bits[x] == UnpackedAt(packed, x)
  {
    seq(8 * |packed|, x requires 0 <= x < 8 * |packed| => UnpackedAt(packed, x))
  }

  // The structure ends with dataLen; the packed bits follow.
  function EncodeDlUser(body: seq<Byte>, eDL: seq<int>, dataLen: nat): seq<Byte>
    requires |eDL| >= 8 * Ceil16Bytes(dataLen) && dataLen < U32
  {
    [TYPE_DL_CONFIG] + body + U32Bytes(dataLen) + PackedSeq(eDL, dataLen)
  }

  predicate IsDlUser(b: seq<Byte>, sizes: DlSizes) {
    && sizes.Valid() && |b| >= sizes.dlUe && b[0] == TYPE_DL_CONFIG
    && |b| == sizes.dlUe + Ceil16Bytes(U32At(b, sizes.dlUe - 4))
  }

  predicate IsUlUser(b: seq<Byte>, sizes: DlSizes) {
    sizes.Valid() && |b| >= sizes.ulSched && b[0] == TYPE_UL_CONFIG
  }

  predicate IsControl(b: seq<Byte>, sizes: DlSizes) {
    |b| >= LIST_HEADER + sizes.uci && b[0] == TYPE_UL_CONFIG_CCH
  }

  function Repeat<T>(x: T, n: nat): (r: seq<T>)
    ensures |r| == n && forall i :: 0 <= i < n ==> r[i] == x
  {
    seq(n, _ => x)
  }

  /** What rcvFs6DL takes from one payload. Both lists are walked with a pointer that never moves. */
  function ItemsOf(b: seq<Byte>, sizes: DlSizes): seq<Item> {
    if IsDlUser(b, sizes) then [DlUser(b[1..sizes.dlUe - 4], UnpackedSeq(b[sizes.dlUe..]))]
    else if IsUlUser(b, sizes) then Repeat(UlUser(b[1..sizes.ulSched]), |b| / sizes.ulSched)
    else if IsControl(b, sizes) then
      Repeat(ControlChannel(b[LIST_HEADER..LIST_HEADER + sizes.uci]), U16At(b, 2))
    else []
  }

  function AllItems(payloads: seq<seq<Byte>>, sizes: DlSizes): seq<Item> {
    if payloads == [] then []
    else AllItems(payloads[..|payloads| - 1], sizes) + ItemsOf(payloads[|payloads| - 1], sizes)
  }

  predicate DlAcceptable(b: seq<Byte>, sizes: DlSizes) {
    b == [] || IsDlUser(b, sizes) || IsUlUser(b, sizes) || IsControl(b, sizes)
  }

  class DistributedUnit {
    var applied: seq<Item>
    const sizes: DlSizes

    constructor (sizes: DlSizes)
      ensures applied == [] && this.sizes == sizes
    {
      applied, this.sizes := [], sizes;
    }

    method TakeDlUser(b: seq<Byte>)
      requires IsDlUser(b, sizes)
      modifies this
      ensures applied == old(applied) + ItemsOf(b, sizes)
    {
      hide U32At, UnpackedAt;
      var dataLen := U32At(b, sizes.dlUe - 4);
      var packed := new Byte[|b| - sizes.dlUe](k requires 0 <= k < |b| - sizes.dlUe => b[sizes.dlUe + k]);
      var eDL := new int[8 * Ceil16Bytes(dataLen)];
      assert packed[..] == b[sizes.dlUe..];
      Unpack(eDL, packed, dataLen);
      assert eDL[..] == UnpackedSeq(b[sizes.dlUe..]);
      applied := applied + [DlUser(b[1..sizes.dlUe - 4], eDL[..])];
    }

    method TakeRepeated(item: Item, n: nat)
      modifies this
      ensures applied == old(applied) + Repeat(item, n)
    {
      for i := 0 to n
        invariant applied == old(applied) + Repeat(item, i)
      {
        applied := applied + [item];
      }
    }

    /** rcvFs6DL: every payload once, in buffer order; empty ones are skipped. */
    method RcvFs6Dl(buffer: array<Byte>, nbBlocks: nat, ghost payloads: seq<seq<Byte>>)
      requires Packed(buffer[..], sizes.header, payloads) && nbBlocks == |payloads|
      requires forall k :: 0 <= k < |payloads| ==> DlAcceptable(payloads[k], sizes)
      modifies this
      ensures applied == old(applied) + AllItems(payloads, sizes)
    {
      hide BlockAt, Packed, Room, Aligned, Offset, IsDlUser, ItemsOf;
      var at := 0;
      var h := sizes.header;
      EmptyRoom(h, payloads);
      for i := 0 to nbBlocks
        invariant at == Offset(h, payloads, i) && buffer[..] == old(buffer[..])
        invariant applied == old(applied) + AllItems(payloads[..i], sizes)
      {
        PackedField(buffer[..], h, payloads, i);
        assert payloads[..i + 1][..i] == payloads[..i];
        var contentBytes := buffer[at + CONTENT_BYTES] as int + 256 * (buffer[at + CONTENT_BYTES + 1] as int);
        ItemCases(payloads[i], sizes);
        if contentBytes > h {
          var b := buffer[at + HEADER + h..at + HEADER + contentBytes];
          if b[0] == TYPE_DL_CONFIG {
            TakeDlUser(b);
          } else if b[0] == TYPE_UL_CONFIG {
            TakeRepeated(UlUser(b[1..sizes.ulSched]), (contentBytes - h) / sizes.ulSched);
          } else if b[0] == TYPE_UL_CONFIG_CCH {
            TakeRepeated(ControlChannel(b[LIST_HEADER..LIST_HEADER + sizes.uci]), U16At(b, 2));
          }
        }
        OffsetStep(h, payloads, i);
        at := at + Aligned(contentBytes);
      }
      assert payloads[..|payloads|] == payloads;
    }
  }

  // The type byte decides.
  lemma ItemCases(b: seq<Byte>, sizes: DlSizes)
    requires DlAcceptable(b, sizes)
    ensures b == [] ==> ItemsOf(b, sizes) == []
    ensures b != [] && b[0] == TYPE_DL_CONFIG ==> IsDlUser(b, sizes)
    ensures b != [] && b[0] == TYPE_UL_CONFIG ==>
              IsUlUser(b, sizes) && ItemsOf(b, sizes) == Repeat(UlUser(b[1..sizes.ulSched]), |b| / sizes.ulSched)
    ensures b != [] && b[0] == TYPE_UL_CONFIG_CCH ==>
              && IsControl(b, sizes)
              && ItemsOf(b, sizes) == Repeat(ControlChannel(b[LIST_HEADER..LIST_HEADER + sizes.uci]), U16At(b, 2))
    ensures b != [] ==> b[0] == TYPE_DL_CONFIG || b[0] == TYPE_UL_CONFIG || b[0] == TYPE_UL_CONFIG_CCH
  {
    hide U32At, U16At;
  }

  // ---- the central unit ----

  /** appendFs6DLUE, whose own room check is weaker than the room the block takes. */
  method AppendDlUser(buffer: SplitBuffer, sizes: DlSizes, body: seq<Byte>, eDL: array<int>, dataLen: nat) returns (fatal: bool)
    requires buffer.Valid() && buffer.h == sizes.header && sizes.Valid() && |body| == sizes.dlUe - 5
    requires dataLen < U32 && eDL.Length >= 8 * Ceil16Bytes(dataLen)
    requires sizes.header + sizes.dlUe + Ceil16Bytes(dataLen) < U16 && |buffer.payloads| + 1 < U16
    requires Room(buffer.h, buffer.payloads + [EncodeDlUser(body, eDL[..], dataLen)]) <= buffer.bytes.Length
    modifies buffer`payloads, buffer.bytes
    ensures !fatal && buffer.Valid() && buffer.payloads == old(buffer.payloads) + [EncodeDlUser(body, old(eDL[..]), dataLen)]
    ensures forall i :: 0 <= i < buffer.bytes.Length && (i < NB_BLOCKS || HEADER <= i < HEADER + buffer.h) ==>
              buffer.bytes[i] == old(buffer.bytes[i])
  {
    hide Chain, Room, Aligned, U32Bytes, PackedByte;
    ghost var source := eDL[..];
    var end, count;
    end, count, fatal := buffer.EndOfChain();
    RoomGrows(buffer.h, buffer.payloads, EncodeDlUser(body, source, dataLen));
    if fatal || end + Ceil16Bytes(dataLen) + sizes.header > buffer.bytes.Length {
      return true;
    }
    var packed := new Byte[Ceil16Bytes(dataLen)];
    Pack(packed, eDL, dataLen);
    assert packed[..] == PackedSeq(source, dataLen);
    fatal := buffer.Append([TYPE_DL_CONFIG] + body + U32Bytes(dataLen) + packed[..]);
  }

  /** A downlink user arrives with its fields and with 1 for every positive coded bit and 0 for others,
      which on coded bits is the sender's data. */
  lemma DlUserDelivered(sizes: DlSizes, body: seq<Byte>, eDL: seq<int>, dataLen: nat)
    requires sizes.Valid() && |body| == sizes.dlUe - 5 && dataLen < U32 && |eDL| >= 8 * Ceil16Bytes(dataLen)
    ensures var b := EncodeDlUser(body, eDL, dataLen);
            && DlAcceptable(b, sizes)
            && ItemsOf(b, sizes) == [DlUser(body, UnpackedSeq(PackedSeq(eDL, dataLen)))]
    ensures forall x :: 0 <= x < 8 * Ceil16Bytes(dataLen) ==>
              UnpackedSeq(PackedSeq(eDL, dataLen))[x] == if eDL[x] > 0 then 1 else 0
  {
    hide U32Bytes, U32At, PackedByte, UnpackedAt;
    var b := EncodeDlUser(body, eDL, dataLen);
    assert b[sizes.dlUe - 4..sizes.dlUe] == U32Bytes(dataLen);
    U32ReadBack(b, sizes.dlUe - 4, dataLen);
    assert b[sizes.dlUe..] == PackedSeq(eDL, dataLen);
    assert b[1..sizes.dlUe - 4] == body;
    forall x | 0 <= x < 8 * Ceil16Bytes(dataLen)
      ensures UnpackedSeq(PackedSeq(eDL, dataLen))[x] == if eDL[x] > 0 then 1 else 0
    {
      UnpackOfPack(PackedSeq(eDL, dataLen), eDL, x);
    }
  }

  /** appendFs6TxULUE */
  method AppendUlUser(buffer: SplitBuffer, sizes: DlSizes, body: seq<Byte>) returns (fatal: bool)
    requires buffer.Valid() && buffer.h == sizes.header && sizes.Valid() && |body| == sizes.ulSched - 1
    requires sizes.header + sizes.ulSched < U16 && |buffer.payloads| + 1 < U16
    requires Room(buffer.h, buffer.payloads + [[TYPE_UL_CONFIG] + body]) <= buffer.bytes.Length
    modifies buffer`payloads, buffer.bytes
    ensures !fatal && buffer.Valid() && buffer.payloads == old(buffer.payloads) + [[TYPE_UL_CONFIG] + body]
    ensures forall i :: 0 <= i < buffer.bytes.Length && (i < NB_BLOCKS || HEADER <= i < HEADER + buffer.h) ==>
              buffer.bytes[i] == old(buffer.bytes[i])
  {
    fatal := buffer.Append([TYPE_UL_CONFIG] + body);
  }

  lemma UlUserDelivered(sizes: DlSizes, body: seq<Byte>)
    requires sizes.Valid() && |body| == sizes.ulSched - 1
    ensures DlAcceptable([TYPE_UL_CONFIG] + body, sizes)
    ensures ItemsOf([TYPE_UL_CONFIG] + body, sizes) == [UlUser(body)]
  {
    var b := [TYPE_UL_CONFIG] + body;
    assert b[1..sizes.ulSched] == body;
    DivModUnique(1, 0, sizes.ulSched);
  }

  /** A control channel variable; `due` when it is active for the subframe being sent. */
  datatype Uci = Uci(due: bool, element: seq<Byte>)

  function DueElements(ucis: seq<Uci>): seq<seq<Byte>> {
    if ucis == [] then []
    else
      var last := ucis[|ucis| - 1];
      if last.due then DueElements(ucis[..|ucis| - 1]) + [last.element] else DueElements(ucis[..|ucis| - 1])
  }

  // These places, in order, are exactly those of the channels that are due, and the elements are theirs.
  predicate DueAt(at: seq<nat>, elements: seq<seq<Byte>>, ucis: seq<Uci>) {
    && |at| == |elements| && (forall i, j :: 0 <= i < j < |at| ==> at[i] < at[j])
    && (forall j :: 0 <= j < |at| ==> at[j] < |ucis| && ucis[at[j]].due && elements[j] == ucis[at[j]].element)
    && forall k :: 0 <= k < |ucis| && ucis[k].due ==> k in at
  }

  /** The elements of the channels that are due, each once and in order, and of no other. */
  ghost predicate AreDue(elements: seq<seq<Byte>>, ucis: seq<Uci>) {
    exists at :: DueAt(at, elements, ucis)
  }

  lemma {:induction false} DueAre(ucis: seq<Uci>)
    ensures AreDue(DueElements(ucis), ucis)
  {
    var at := DuePlaces(ucis);
  }

  lemma {:induction false} DuePlaces(ucis: seq<Uci>) returns (at: seq<nat>)
    ensures DueAt(at, DueElements(ucis), ucis)
  {
    at := [];
    if ucis != [] {
      var n := |ucis| - 1;
      at := DuePlaces(ucis[..n]);
      PlacesGrow(at, DueElements(ucis[..n]), ucis);
      if ucis[n].due {
        at := at + [n];
      }
    }
  }

  lemma OnePlaceMore(at: seq<nat>, n: nat)
    requires (forall i, j :: 0 <= i < j < |at| ==> at[i] < at[j]) && forall j :: 0 <= j < |at| ==> at[j] < n
    ensures forall i, j :: 0 <= i < j <= |at| ==> (at + [n])[i] < (at + [n])[j]
    ensures forall k :: k in at + [n] <==> k in at || k == n
  {
  }

  lemma PlacesGrow(at: seq<nat>, elements: seq<seq<Byte>>, ucis: seq<Uci>)
    requires ucis != [] && DueAt(at, elements, ucis[..|ucis| - 1])
    ensures var n := |ucis| - 1;
            if ucis[n].due then DueAt(at + [n], elements + [ucis[n].element], ucis) else DueAt(at, elements, ucis)
  {
    var n := |ucis| - 1;
    forall k | 0 <= k < n && ucis[k].due
      ensures k in at
    {
      assert ucis[..n][k].due;
    }
    forall j | 0 <= j < |at|
      ensures at[j] < n && ucis[at[j]].due && elements[j] == ucis[at[j]].element
    {
      assert ucis[..n][at[j]] == ucis[at[j]];
    }
    if ucis[n].due {
      OnePlaceMore(at, n);
      assert forall j :: 0 <= j < |at| ==> (at + [n])[j] == at[j] && (elements + [ucis[n].element])[j] == elements[j];
    }
  }

  function WithList(before: seq<seq<Byte>>, elements: seq<seq<Byte>>): seq<seq<Byte>>
    requires |elements| < U16
  {
    if elements == [] then before else before + [EncodeList(TYPE_UL_CONFIG_CCH, elements)]
  }

  lemma {:induction false} DueGrows(ucis: seq<Uci>, i: nat, uci: nat)
    requires i <= |ucis| && forall k :: 0 <= k < |ucis| ==> |ucis[k].element| == uci
    ensures |DueElements(ucis[..i])| <= |DueElements(ucis)| <= |ucis|
    ensures AllSized(DueElements(ucis[..i]), uci) && AllSized(DueElements(ucis), uci)
    decreases |ucis|
  {
    var n := |ucis| - 1;
    if i < |ucis| {
      DueGrows(ucis[..n], i, uci);
      assert ucis[..n][..i] == ucis[..i];
    } else {
      assert ucis[..i] == ucis;
      if ucis != [] {
        DueGrows(ucis[..n], n, uci);
      }
    }
  }

  // A list with fewer elements fits where a longer one does.
  lemma PartFits(h: nat, before: seq<seq<Byte>>, part: seq<seq<Byte>>, whole: seq<seq<Byte>>, uci: nat)
    requires |part| <= |whole| < U16 && AllSized(part, uci) && AllSized(whole, uci)
    ensures var p, w := EncodeList(TYPE_UL_CONFIG_CCH, part), EncodeList(TYPE_UL_CONFIG_CCH, whole);
            |p| <= |w| == LIST_HEADER + |whole| * uci && Room(h, before + [p]) <= Room(h, before + [w])
  {
    hide Flat, Aligned, Room;
    FlatSize(part, uci);
    FlatSize(whole, uci);
    MulOrder(|part|, |whole|, uci);
    var p, w := EncodeList(TYPE_UL_CONFIG_CCH, part), EncodeList(TYPE_UL_CONFIG_CCH, whole);
    RoomGrows(h, before, p);
    RoomGrows(h, before, w);
    AlignedOrdered(h + |p|, h + |w|);
  }

  lemma AlignedOrdered(a: nat, b: nat)
    requires a <= b
    ensures Aligned(a) <= Aligned(b)
  {
  }

  /** appendFs6DLUEcch: one list block with the due control channels, each once and in order; if none is due,
      nothing is written at all. */
  method AppendControlChannels(buffer: SplitBuffer, sizes: DlSizes, ucis: seq<Uci>) returns (fatal: bool)
    requires buffer.Valid() && buffer.h == sizes.header && |ucis| < U16 && |buffer.payloads| + 1 < U16
    requires forall k :: 0 <= k < |ucis| ==> |ucis[k].element| == sizes.uci
    requires |DueElements(ucis)| < U16 && sizes.header + LIST_HEADER + |DueElements(ucis)| * sizes.uci < U16
    requires Room(buffer.h, WithList(buffer.payloads, DueElements(ucis))) <= buffer.bytes.Length
    modifies buffer`payloads, buffer.bytes
    ensures !fatal && buffer.Valid() && buffer.payloads == WithList(old(buffer.payloads), DueElements(ucis))
    ensures AreDue(DueElements(ucis), ucis)
    ensures DueElements(ucis) == [] ==> buffer.bytes[..] == old(buffer.bytes[..])
    ensures forall i :: 0 <= i < buffer.bytes.Length && (i < NB_BLOCKS || HEADER <= i < HEADER + buffer.h) ==>
              buffer.bytes[i] == old(buffer.bytes[i])
  {
    hide Chain, Room, Aligned, EncodeList, AreDue;
    DueAre(ucis);
    ghost var before, all := buffer.payloads, DueElements(ucis);
    var end, count;
    end, count, fatal := buffer.EndOfChain();
    var firstUe := true;
    for i := 0 to |ucis|
      invariant !fatal && |DueElements(ucis[..i])| <= |all| && buffer.Valid()
      invariant buffer.payloads == WithList(before, DueElements(ucis[..i]))
      invariant firstUe <==> DueElements(ucis[..i]) == []
      invariant firstUe ==> buffer.bytes[..] == old(buffer.bytes[..])
      invariant forall k :: 0 <= k < buffer.bytes.Length && (k < NB_BLOCKS || HEADER <= k < HEADER + buffer.h) ==>
                  buffer.bytes[k] == old(buffer.bytes[k])
    {
      ghost var done := DueElements(ucis[..i]);
      assert ucis[..i + 1][..i] == ucis[..i];
      DueGrows(ucis, i, sizes.uci);
      DueGrows(ucis, i + 1, sizes.uci);
      if ucis[i].due {
        PartFits(sizes.header, before, [], all, sizes.uci);
        PartFits(sizes.header, before, done + [ucis[i].element], all, sizes.uci);
        if firstUe {
          fatal := buffer.Append(EncodeList(TYPE_UL_CONFIG_CCH, []));
          firstUe := false;
        }
        AddElement(buffer, end, TYPE_UL_CONFIG_CCH, before, done, ucis[i].element);
      }
    }
    assert ucis[..|ucis|] == ucis;
  }

  function AsControl(elements: seq<seq<Byte>>): (r: seq<Item>)
    ensures |r| == |elements| && forall i :: 0 <= i < |r| ==> r[i] == ControlChannel(elements[i])
  {
    seq(|elements|, i requires 0 <= i < |elements| => ControlChannel(elements[i]))
  }

  // Elements name different users.
  predicate DifferentUsers(elements: seq<seq<Byte>>) {
    forall i, j :: 0 <= i < j < |elements| ==> elements[i] != elements[j]
  }

  /** Control channels reach the distributed unit as sent exactly if at most one is in the block: the
      receiver applies the first element as often as there are elements. */
  lemma ControlDeliveredExactly(sizes: DlSizes, elements: seq<seq<Byte>>)
    requires 0 < |elements| < U16 && AllSized(elements, sizes.uci) && DifferentUsers(elements)
    ensures var b := EncodeList(TYPE_UL_CONFIG_CCH, elements);
            && DlAcceptable(b, sizes)
            && ItemsOf(b, sizes) == Repeat(ControlChannel(elements[0]), |elements|)
            && (ItemsOf(b, sizes) == AsControl(elements) <==> |elements| <= 1)
  {
    hide U16At, Flat, U32At;
    var b := EncodeList(TYPE_UL_CONFIG_CCH, elements);
    ListRoundTrip(TYPE_UL_CONFIG_CCH, elements, sizes.uci, 0);
    MulOrder(1, |elements|, sizes.uci);
    assert 0 * sizes.uci == 0 && 1 * sizes.uci == sizes.uci;
    var items := ItemsOf(b, sizes);
    assert items == Repeat(ControlChannel(elements[0]), |elements|);
    if |elements| > 1 {
      assert items[1] != AsControl(elements)[1];
    }
  }
}
