/** Signalling lists in a block: uplink control indications (DU to CU) and scheduled control channels (CU
    to DU). The block is opened empty and grows element by element. */
module Fs6Signalling {
  import opened Fs6Chain
  import opened Fs6Codec
  import opened Fs6Uplink

  // A chain whose last block was rewritten in place.
  lemma LastRewritten(b: seq<Byte>, b': seq<Byte>, h: nat, payloads: seq<seq<Byte>>, p: seq<Byte>, p': seq<Byte>)
    requires Chain(b, h, payloads + [p]) && |b'| == |b| && Room(h, payloads + [p']) <= |b|
    requires forall i :: 0 <= i < Room(h, payloads) + CONTENT_BYTES ==> b'[i] == b[i]
    requires BlockAt(b', h, Room(h, payloads), p')
    ensures Chain(b', h, payloads + [p'])
  {
    hide BlockAt, Room, Aligned;
    var all := payloads + [p];
    assert all[..|payloads|] == payloads;
    RoomGrows(h, payloads, p);
    assert U16At(b, Offset(h, all, |payloads|) + BLOCK_ID) == |payloads|;
    PrefixOfChain(b, h, payloads, p);
    ChainFrame(b, b', h, payloads);
    assert U16At(b', NB_BLOCKS) == U16At(b, NB_BLOCKS);
    ChainGrows(b', h, payloads, p');
  }

  lemma PrefixOfChain(b: seq<Byte>, h: nat, payloads: seq<seq<Byte>>, p: seq<Byte>)
    requires Packed(b, h, payloads + [p]) && Numbered(b, h, payloads + [p])
    ensures Packed(b, h, payloads) && Numbered(b, h, payloads)
  {
    hide BlockAt, Room, Aligned;
    RoomGrows(h, payloads, p);
    var all := payloads + [p];
    forall k | 0 <= k < |payloads|
      ensures BlockAt(b, h, Offset(h, payloads, k), payloads[k])
      ensures Offset(h, payloads, k) + HEADER <= |b| && U16At(b, Offset(h, payloads, k) + BLOCK_ID) == k
    {
      OffsetPrefix(h, payloads, [p], k);
      BlockOf(b, h, all, k);
      assert all[k] == payloads[k];
    }
  }

  lemma ListGrows(tag: Byte, elements: seq<seq<Byte>>, element: seq<Byte>)
    requires |elements| + 1 < U16
    ensures EncodeList(tag, elements + [element])
         == [tag, 0] + U16Bytes(|elements| + 1) + EncodeList(tag, elements)[LIST_HEADER..] + element
  {
    assert (elements + [element])[..|elements|] == elements;
    assert EncodeList(tag, elements)[LIST_HEADER..] == Flat(elements);
  }

  // Writing count and element into the bytes of a list gives the longer list.
  lemma ListBytes(b: seq<Byte>, b': seq<Byte>, at: nat, tag: Byte, elements: seq<seq<Byte>>, element: seq<Byte>)
    requires |elements| + 1 < U16 && |b'| == |b|
    requires var p := EncodeList(tag, elements);
             && at + |p| + |element| <= |b| && b[at..at + |p|] == p
             && (forall i :: at <= i < at + |p| && i != at + 2 && i != at + 3 ==> b'[i] == b[i])
             && U16At(b', at + 2) == |elements| + 1 && b'[at + |p|..at + |p| + |element|] == element
    ensures var q := EncodeList(tag, elements + [element]);
            |q| == |EncodeList(tag, elements)| + |element| && b'[at..at + |q|] == q
  {
    hide Flat;
    var p, q := EncodeList(tag, elements), EncodeList(tag, elements + [element]);
    ListGrows(tag, elements, element);
    forall i | 0 <= i < |q|
      ensures b'[at + i] == q[i]
    {
      if i < |p| {
        assert b[at + i] == b[at..at + |p|][i] == p[i];
      } else {
        assert b'[at + i] == b'[at + |p|..at + |p| + |element|][i - |p|];
      }
    }
  }

  /** Adding one element to the list block at the end of the chain. */
  method AddElement(buffer: SplitBuffer, at: nat, ghost tag: Byte, ghost before: seq<seq<Byte>>,
                    ghost elements: seq<seq<Byte>>, element: seq<Byte>)
    requires buffer.Valid() && |elements| + 1 < U16
    requires buffer.payloads == before + [EncodeList(tag, elements)] && at == Room(buffer.h, before)
    requires buffer.h + |EncodeList(tag, elements + [element])| < U16
    requires Room(buffer.h, before + [EncodeList(tag, elements + [element])]) <= buffer.bytes.Length
    modifies buffer`payloads, buffer.bytes
    ensures buffer.Valid() && buffer.payloads == before + [EncodeList(tag, elements + [element])]
    ensures forall i :: 0 <= i < buffer.bytes.Length && (i < NB_BLOCKS || HEADER <= i < HEADER + buffer.h) ==>
              buffer.bytes[i] == old(buffer.bytes[i])
  {
    hide Chain, BlockAt, Room, Aligned, EncodeList;
    ghost var h := buffer.h;
    ghost var p, q := EncodeList(tag, elements), EncodeList(tag, elements + [element]);
    ghost var was := buffer.bytes[..];
    LastBlock(was, h, before, p);
    ListInPlace(was, h, at, tag, elements);
    SmallLists(h, before, tag, elements, element);
    RoomGrows(h, before, q);
    WriteElement(buffer, at, element);
    ElementAdded(was, buffer.bytes[..], h, at, tag, before, elements, element);
    buffer.payloads := before + [q];
  }

  // The three writes: the element behind the list, the count, and the size of the block.
  method WriteElement(buffer: SplitBuffer, at: nat, element: seq<Byte>)
    requires at + HEADER + buffer.h + LIST_HEADER <= buffer.bytes.Length
    requires var size := U16At(buffer.bytes[..], at + CONTENT_BYTES);
             && buffer.h + LIST_HEADER <= size && size + |element| < U16
             && at + HEADER + size + |element| <= buffer.bytes.Length
    requires U16At(buffer.bytes[..], at + HEADER + buffer.h + 2) + 1 < U16
    modifies buffer.bytes
    ensures ElementWritten(old(buffer.bytes[..]), buffer.bytes[..], buffer.h, at, element)
  {
    var list := at + HEADER + buffer.h;
    var contentBytes := buffer.GetU16(at + CONTENT_BYTES);
    var count := buffer.GetU16(list + 2);
    buffer.PutBytes(at + HEADER + contentBytes, element);
    buffer.PutU16(list + 2, count + 1);
    buffer.PutU16(at + CONTENT_BYTES, contentBytes + |element|);
    assert buffer.bytes[at + HEADER + contentBytes..at + HEADER + contentBytes + |element|] == element;
  }

  predicate ElementWritten(b: seq<Byte>, b': seq<Byte>, h: nat, at: nat, element: seq<Byte>) {
    && |b'| == |b| && at + HEADER + h + LIST_HEADER <= |b|
    && var size := U16At(b, at + CONTENT_BYTES);
    && var list := at + HEADER + h;
    && at + HEADER + size + |element| <= |b|
    && U16At(b', at + CONTENT_BYTES) == size + |element|
    && U16At(b', list + 2) == U16At(b, list + 2) + 1
    && b'[at + HEADER + size..at + HEADER + size + |element|] == element
    && forall i :: (0 <= i < |b|
                    && !(at + CONTENT_BYTES <= i < at + CONTENT_BYTES + 2) && !(list + 2 <= i < list + 4)
                    && !(at + HEADER + size <= i < at + HEADER + size + |element|)) ==> b'[i] == b[i]
  }

  lemma ElementAdded(b: seq<Byte>, b': seq<Byte>, h: nat, at: nat, tag: Byte, before: seq<seq<Byte>>,
                     elements: seq<seq<Byte>>, element: seq<Byte>)
    requires |elements| + 1 < U16 && at == Room(h, before)
    requires Chain(b, h, before + [EncodeList(tag, elements)]) && ElementWritten(b, b', h, at, element)
    requires Room(h, before + [EncodeList(tag, elements + [element])]) <= |b|
    ensures Chain(b', h, before + [EncodeList(tag, elements + [element])])
  {
    hide Chain, BlockAt, Room, Aligned, EncodeList;
    var p, q := EncodeList(tag, elements), EncodeList(tag, elements + [element]);
    LastBlock(b, h, before, p);
    ListInPlace(b, h, at, tag, elements);
    SmallLists(h, before, tag, elements, element);
    ListBytes(b, b', at + HEADER + h, tag, elements, element);
    BlockWritten(b', h, at, q);
    LastRewritten(b, b', h, before, p, q);
  }

  lemma ListInPlace(b: seq<Byte>, h: nat, at: nat, tag: Byte, elements: seq<seq<Byte>>)
    requires |elements| < U16 && BlockAt(b, h, at, EncodeList(tag, elements))
    ensures var p, list := EncodeList(tag, elements), at + HEADER + h;
            && LIST_HEADER <= |p| && list + |p| <= |b| && U16At(b, at + CONTENT_BYTES) == h + |p|
            && b[list..list + |p|] == p && U16At(b, list + 2) == |elements|
  {
    hide Flat;
    var p, list := EncodeList(tag, elements), at + HEADER + h;
    U16ReadBack(p, 2, |elements|);
    assert b[list + 2] == b[list..list + |p|][2] && b[list + 3] == b[list..list + |p|][3];
  }

  lemma LastBlock(b: seq<Byte>, h: nat, before: seq<seq<Byte>>, p: seq<Byte>)
    requires Chain(b, h, before + [p])
    ensures BlockAt(b, h, Room(h, before), p)
  {
    assert (before + [p])[..|before|] == before;
    BlockOf(b, h, before + [p], |before|);
  }

  /** sendFs6Ulharq: every call opens its own block, because the subframe it remembers is never set, and
      puts one element into it. */
  method SendUlHarq(buffer: SplitBuffer, element: seq<Byte>) returns (fatal: bool)
    requires buffer.Valid() && buffer.h == UL_HEADER && |buffer.payloads| + 1 < U16
    requires UL_HEADER + LIST_HEADER + |element| < U16
    requires Room(UL_HEADER, buffer.payloads + [EncodeList(TYPE_ULCCH, [element])]) <= buffer.bytes.Length
    modifies buffer`payloads, buffer.bytes
    ensures !fatal && buffer.Valid() && buffer.payloads == old(buffer.payloads) + [EncodeList(TYPE_ULCCH, [element])]
    ensures forall i :: 0 <= i < buffer.bytes.Length && (i < NB_BLOCKS || HEADER <= i < HEADER + UL_HEADER) ==>
              buffer.bytes[i] == old(buffer.bytes[i])
  {
    hide Chain, Room, Aligned, Flat;
    ghost var before := buffer.payloads;
    var end, count;
    end, count, fatal := buffer.EndOfChain();
    assert [] + [element] == [element];
    SmallLists(UL_HEADER, before, TYPE_ULCCH, [], element);
    fatal := buffer.Append(EncodeList(TYPE_ULCCH, []));
    AddElement(buffer, end, TYPE_ULCCH, before, [], element);
  }

  // A shorter list takes no more room.
  lemma SmallLists(h: nat, before: seq<seq<Byte>>, tag: Byte, elements: seq<seq<Byte>>, element: seq<Byte>)
    requires |elements| + 1 < U16
    ensures |EncodeList(tag, elements)| <= |EncodeList(tag, elements + [element])|
    ensures |EncodeList(tag, elements + [element])| == |EncodeList(tag, elements)| + |element|
    ensures |EncodeList(tag, [])| == LIST_HEADER
    ensures Room(h, before + [EncodeList(tag, elements)]) <= Room(h, before + [EncodeList(tag, elements + [element])])
  {
    ListGrows(tag, elements, element);
    RoomGrows(h, before, EncodeList(tag, elements));
    RoomGrows(h, before, EncodeList(tag, elements + [element]));
  }
}
