/** Byte layout of the FS6 payloads that carry uplink data and signalling lists. */
module Fs6Codec {
  import opened Fs6Chain

  const TYPE_UL_CONFIG := 25
  const TYPE_DL_CONFIG := 26
  const TYPE_UL_CONFIG_CCH := 27
  const TYPE_ULSCH := 28
  const TYPE_ULCCH := 29
  const U32 := 0x1_0000_0000
  const ULSCH_FIXED := 40     // bytes of fs6_ul_uespec_t before the CQI bytes
  const LIST_HEADER := 4      // sizeof(fs6_ul_uespec_uci_t) and of fs6_dl_uespec_ulcch_t

  function U32At(b: seq<Byte>, at: nat): (v: nat)
    requires at + 3 < |b|
  {
    U16At(b, at) + U16 * U16At(b, at + 2)
  }

  function U16Bytes(v: nat): (b: seq<Byte>)
    requires v < U16
    ensures |b| == 2
  {
    [v % 256, v / 256]
  }

  function U32Bytes(v: nat): (b: seq<Byte>)
    requires v < U32
    ensures |b| == 4
  {
    U16Bytes(v % U16) + U16Bytes(v / U16)
  }

  // Reading back a field written at `at`.
  lemma U16ReadBack(b: seq<Byte>, at: nat, v: nat)
    requires v < U16 && at + 2 <= |b| && b[at..at + 2] == U16Bytes(v)
    ensures U16At(b, at) == v
  {
    assert b[at] == b[at..at + 2][0] && b[at + 1] == b[at..at + 2][1];
  }

  lemma U32ReadBack(b: seq<Byte>, at: nat, v: nat)
    requires v < U32 && at + 4 <= |b| && b[at..at + 4] == U32Bytes(v)
    ensures U32At(b, at) == v
  {
    assert b[at..at + 2] == b[at..at + 4][..2] && b[at + 2..at + 4] == b[at..at + 4][2..];
    U16ReadBack(b, at, v % U16);
    U16ReadBack(b, at + 2, v / U16);
  }

  /** One segment of one user's uplink data (fs6_ul_uespec_t and the data behind it). `tail` holds the
      CQI bytes and their CRC status. */
  datatype Ulsch = Ulsch(
    ueId: nat, harqId: Byte, segment: Byte, rOffset: nat, g: nat, power: seq<Byte>, oAck: seq<Byte>,
    ackCount: Byte, ta: seq<Byte>, tail: seq<Byte>, data: seq<Byte>)
  {
    predicate Valid(tailSize: nat) {
      && ueId < U16 && rOffset < U32 && g < U32 && |data| < U32
      && |power| == 8 && |oAck| == 4 && |ta| == 4 && |tail| == tailSize
    }
  }

  function EncodeUlsch(u: Ulsch, tailSize: nat): (b: seq<Byte>)
    requires u.Valid(tailSize)
    ensures |b| == ULSCH_FIXED + tailSize + |u.data|
  {
    [TYPE_ULSCH, 0] + U16Bytes(u.ueId) + [u.harqId, u.segment, 0, 0]
    + U32Bytes(|u.data|) + U32Bytes(u.rOffset) + U32Bytes(u.g)
    + u.power + u.oAck + [u.ackCount, 0, 0, 0] + u.ta + u.tail + u.data
  }

  predicate IsUlsch(b: seq<Byte>, tailSize: nat) {
    |b| >= ULSCH_FIXED + tailSize && b[0] == TYPE_ULSCH && ULSCH_FIXED + tailSize + U32At(b, 8) <= |b|
  }

  // What the receiver reads through the structure.
  function DecodeUlsch(b: seq<Byte>, tailSize: nat): Ulsch
    requires IsUlsch(b, tailSize)
  {
    var data := ULSCH_FIXED + tailSize;
    Ulsch(U16At(b, 2), b[4], b[5], U32At(b, 12), U32At(b, 16), b[20..28], b[28..32], b[32], b[36..40],
          b[40..data], b[data..data + U32At(b, 8)])
  }

  /** Round trip of an uplink data block, payload included. */
  lemma UlschRoundTrip(u: Ulsch, tailSize: nat)
    requires u.Valid(tailSize)
    ensures IsUlsch(EncodeUlsch(u, tailSize), tailSize)
    ensures DecodeUlsch(EncodeUlsch(u, tailSize), tailSize) == u
    ensures var b := EncodeUlsch(u, tailSize);
            && b[0] == 28 && U16At(b, 2) == u.ueId && b[4] == u.harqId && b[5] == u.segment
            && U32At(b, 8) == |u.data| && U32At(b, 12) == u.rOffset && U32At(b, 16) == u.g
  {
    hide U16Bytes, U32Bytes, U16At, U32At;
    var b := EncodeUlsch(u, tailSize);
    assert b[2..4] == U16Bytes(u.ueId);
    assert b[8..12] == U32Bytes(|u.data|);
    assert b[12..16] == U32Bytes(u.rOffset);
    assert b[16..20] == U32Bytes(u.g);
    U16ReadBack(b, 2, u.ueId);
    U32ReadBack(b, 8, |u.data|);
    U32ReadBack(b, 12, u.rOffset);
    U32ReadBack(b, 16, u.g);
    var data := ULSCH_FIXED + tailSize;
    assert b[40..data] == u.tail;
    assert b[data..data + |u.data|] == u.data;
  }

  // ---- lists of fixed-size elements ----

  function Flat(elements: seq<seq<Byte>>): seq<Byte> {
    if elements == [] then [] else Flat(elements[..|elements| - 1]) + elements[|elements| - 1]
  }

  predicate AllSized(elements: seq<seq<Byte>>, size: nat) {
    forall j :: 0 <= j < |elements| ==> |elements[j]| == size
  }

  function EncodeList(tag: Byte, elements: seq<seq<Byte>>): seq<Byte>
    requires |elements| < U16
  {
    [tag, 0] + U16Bytes(|elements|) + Flat(elements)
  }

  // Element j of a list block, as pointer arithmetic finds it.
  function ElementAt(b: seq<Byte>, size: nat, j: nat): seq<Byte>
    requires LIST_HEADER + (j + 1) * size <= |b|
  {
    assert (j + 1) * size == j * size + size;
    b[LIST_HEADER + j * size..LIST_HEADER + (j + 1) * size]
  }

  lemma {:induction false} FlatSize(elements: seq<seq<Byte>>, size: nat)
    requires AllSized(elements, size)
    ensures |Flat(elements)| == |elements| * size
  {
    if elements != [] {
      var n := |elements| - 1;
      FlatSize(elements[..n], size);
      assert (n + 1) * size == n * size + size;
    }
  }

  lemma {:induction false} FlatElement(elements: seq<seq<Byte>>, size: nat, j: nat)
    requires AllSized(elements, size) && j < |elements|
    ensures j * size + size <= |Flat(elements)|
    ensures Flat(elements)[j * size..j * size + size] == elements[j]
  {
    var n := |elements| - 1;
    FlatSize(elements[..n], size);
    FlatStep(elements);
    hide Flat;
    if j < n {
      FlatElement(elements[..n], size, j);
      SliceOfFront(Flat(elements[..n]), elements[n], j * size, size);
    }
  }

  lemma FlatStep(elements: seq<seq<Byte>>)
    requires elements != []
    ensures Flat(elements) == Flat(elements[..|elements| - 1]) + elements[|elements| - 1]
  {
  }

  lemma SliceOfFront(a: seq<Byte>, b: seq<Byte>, from: nat, size: nat)
    requires from + size <= |a|
    ensures (a + b)[from..from + size] == a[from..from + size]
  {
  }

  /** Round trip of a list block: count and every element. */
  lemma ListRoundTrip(tag: Byte, elements: seq<seq<Byte>>, size: nat, j: nat)
    requires |elements| < U16 && AllSized(elements, size)
    ensures var b := EncodeList(tag, elements);
            && |b| == LIST_HEADER + |elements| * size && b[0] == tag && U16At(b, 2) == |elements|
            && (j < |elements| ==> LIST_HEADER + (j + 1) * size <= |b| && ElementAt(b, size, j) == elements[j])
  {
    hide U16Bytes, U16At, Flat;
    var b := EncodeList(tag, elements);
    FlatSize(elements, size);
    assert b[2..4] == U16Bytes(|elements|);
    U16ReadBack(b, 2, |elements|);
    if j < |elements| {
      FlatElement(elements, size, j);
      assert (j + 1) * size == j * size + size;
      assert b[LIST_HEADER..] == Flat(elements);
      assert ElementAt(b, size, j) == b[LIST_HEADER..][j * size..j * size + size];
    }
  }
}
