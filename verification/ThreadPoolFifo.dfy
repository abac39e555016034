/**
 The FIFO behind the thread pool and the response queues: a list linked through its elements, with a
 pointer to the first and one to the last. Taking elements out by key repairs the links, but not the
 pointer to the last element; what is pushed next is then linked to an element that is no longer there.
 */
module ThreadPoolFifo {
  const NULL := -1

  datatype Element = Element(key: nat, next: int)

  function At(list: seq<int>, i: nat): int {
    if i < |list| then list[i] else NULL
  }

  // The elements reached from `from`, by their addresses.
  predicate Linked(mem: map<int, Element>, from: int, list: seq<int>) {
    && from == At(list, 0)
    && (forall i :: 0 <= i < |list| ==> list[i] != NULL && list[i] in mem && mem[list[i]].next == At(list, i + 1))
    && (forall i, j :: 0 <= i < j < |list| ==> list[i] != list[j])
  }

  predicate LastHas(mem: map<int, Element>, list: seq<int>, key: nat) {
    list != [] && list[|list| - 1] in mem && mem[list[|list| - 1]].key == key
  }

  // The elements that have another key.
  function Kept(mem: map<int, Element>, list: seq<int>, key: nat): (r: seq<int>)
    ensures |r| <= |list| && forall x :: x in r ==> x in list && x in mem && mem[x].key != key
  {
    if list == [] then []
    else
      var front, x := Kept(mem, list[..|list| - 1], key), list[|list| - 1];
      if x in mem && mem[x].key != key then front + [x] else front
  }

  lemma LinkedAppend(mem: map<int, Element>, from: int, list: seq<int>, x: int, key: nat)
    requires Linked(mem, from, list) && list != [] && x !in mem && x != NULL
    ensures var last := list[|list| - 1];
            && last in mem
            && Linked(mem[last := mem[last].(next := x)][x := Element(key, NULL)], from, list + [x])
  {
  }

  function Without(list: seq<int>, k: nat): (r: seq<int>)
    requires k < |list|
    ensures |r| == |list| - 1
    ensures forall i :: 0 <= i < |r| ==> r[i] == if i < k then list[i] else list[i + 1]
  {
    list[..k] + list[k + 1..]
  }

  // A list none of whose elements is written, to which x cannot belong.
  lemma LinkedFrame(mem: map<int, Element>, mem': map<int, Element>, from: int, list: seq<int>, x: int)
    requires Linked(mem, from, list) && x !in mem
    requires forall y :: y in mem && y in list ==> y in mem' && mem'[y] == mem[y]
    ensures Linked(mem', from, list) && x !in list
  {
  }

  lemma LinkedOne(mem: map<int, Element>, x: int)
    requires x in mem && x != NULL && mem[x].next == NULL
    ensures Linked(mem, x, [x])
  {
  }

  lemma StillDistinct(list: seq<int>, k: nat)
    requires k < |list| && forall i, j :: 0 <= i < j < |list| ==> list[i] != list[j]
    ensures forall i, j :: 0 <= i < j < |list| - 1 ==> Without(list, k)[i] != Without(list, k)[j]
  {
    var rest := Without(list, k);
    forall i, j | 0 <= i < j < |rest|
      ensures rest[i] != rest[j]
    {
      assert rest[i] == list[if i < k then i else i + 1] && rest[j] == list[if j < k then j else j + 1];
    }
  }

  // Taking element k out: the one before it, or the pointer to the first one, skips it.
  lemma Unlinked(mem: map<int, Element>, mem': map<int, Element>, from: int, list: seq<int>, k: nat)
    requires Linked(mem, from, list) && k < |list|
    requires forall i {:trigger list[i]} :: 0 <= i < |list| && i != k ==>
               list[i] in mem' && mem'[list[i]].next == if i + 1 == k then At(list, k + 1) else mem[list[i]].next
    ensures Linked(mem', if k == 0 then At(list, 1) else from, Without(list, k))
  {
    var rest := Without(list, k);
    StillDistinct(list, k);
    assert At(list, k) == list[k] && (k == 0 ==> from == list[0]);
    forall i | 0 <= i < |rest|
      ensures rest[i] != NULL && rest[i] in mem' && mem'[rest[i]].next == At(rest, i + 1)
    {
      assert rest[i] == list[if i < k then i else i + 1];
    }
  }

  // The links after the element before k, or the pointer to the first one, has been set behind k.
  lemma Skipped(mem: map<int, Element>, from: int, list: seq<int>, k: nat)
    requires Linked(mem, from, list) && k < |list|
    ensures k == 0 ==> Linked(mem - {list[k]}, At(list, 1), Without(list, k))
    ensures k > 0 ==>
              && list[k - 1] in mem
              && Linked(mem[list[k - 1] := mem[list[k - 1]].(next := At(list, k + 1))] - {list[k]}, from, Without(list, k))
  {
    if k == 0 {
      Unlinked(mem, mem - {list[k]}, from, list, k);
    } else {
      Unlinked(mem, mem[list[k - 1] := mem[list[k - 1]].(next := At(list, k + 1))] - {list[k]}, from, list, k);
    }
  }

  lemma AtWithout(list: seq<int>, k: nat)
    requires k < |list|
    ensures At(Without(list, k), k) == At(list, k + 1)
  {
  }

  // What is still allocated when the elements of this key in the list have been freed, and nothing else.
  ghost predicate Left(keys: set<int>, mem: map<int, Element>, list: seq<int>, key: nat) {
    forall x :: x in keys <==> x in mem && !(x in list && mem[x].key == key)
  }

  lemma NoneLeftOut(mem: map<int, Element>, list: seq<int>, key: nat)
    ensures Left(mem.Keys, mem, list[..0], key)
  {
  }

  lemma LeftOne(keys: set<int>, mem: map<int, Element>, list: seq<int>, n: nat, key: nat)
    requires n < |list| && Left(keys, mem, list[..n], key)
    ensures list[n] in mem && mem[list[n]].key == key ==> Left(keys - {list[n]}, mem, list[..n + 1], key)
    ensures list[n] in mem && mem[list[n]].key != key ==> Left(keys, mem, list[..n + 1], key)
  {
    assert list[..n + 1] == list[..n] + [list[n]];
  }

  class Fifo {
    var mem: map<int, Element>     // the elements that have not been freed
    var outF: int
    var inF: int
    ghost var list: seq<int>       // what a reader will get

    ghost predicate Valid()
      reads this
    {
      && Linked(mem, outF, list) && NULL !in mem
      && (inF == NULL <==> list == [])
      && (inF in list ==> inF == list[|list| - 1])
    }

    // The pointer to the last element is right.
    ghost predicate Intact()
      reads this
    {
      list == [] || inF == list[|list| - 1]
    }

    constructor ()
      ensures Valid() && Intact() && list == [] && mem == map[]
    {
      mem, outF, inF, list := map[], NULL, NULL, [];
    }

    /** pushNotifiedFIFO: the element gets to the end of the list exactly if the FIFO is intact; otherwise
        no reader will ever see it, and the FIFO stays as it was. */
    method Push(x: int, key: nat)
      requires Valid() && x !in mem && x != NULL
      modifies this
      ensures Valid() && x in mem && mem[x].key == key
      ensures forall y :: y in old(mem) ==> y in mem && mem[y].key == old(mem)[y].key
      ensures Intact() <==> old(Intact())
      ensures list == if old(Intact()) then old(list) + [x] else old(list)
    {
      hide Linked;
      ghost var intact, before := Intact(), mem;
      Ends(mem, outF, list);
      if list != [] {
        Here(mem, outF, list, |list| - 1);
      }
      if intact && list != [] {
        LinkedAppend(mem, outF, list, x, key);
      }
      if outF == NULL {
        outF := x;
      }
      if inF != NULL && inF in mem {
        mem := mem[inF := mem[inF].(next := x)];
      }
      mem := mem[x := Element(key, NULL)];
      if !intact {
        LinkedFrame(before, mem, outF, list, x);
      } else if list == [] {
        LinkedOne(mem, x);
        assert list + [x] == [x];
      }
      inF := x;
      if intact {
        list := list + [x];
      }
    }

    /** pullNotifiedFIFO on a FIFO that is not empty. Once it has run empty it is intact again. */
    method Pull() returns (x: int)
      requires Valid() && list != []
      modifies this
      ensures Valid() && x == old(list)[0] && list == old(list)[1..] && mem == old(mem)
      ensures Intact() <==> old(Intact()) || list == []
    {
      x := outF;
      outF := mem[outF].next;
      list := list[1..];
      if outF == NULL {
        inF := NULL;
      }
    }

    // One turn of the abort loop that takes its element out.
    method Delete(prev: int, cur: int, ghost k: nat) returns (next: int)
      requires Linked(mem, outF, list) && k < |list| && cur == list[k] && prev == (if k == 0 then NULL else list[k - 1])
      modifies this`mem, this`outF, this`list
      ensures list == Without(old(list), k) && Linked(mem, outF, list) && next == At(list, k)
      ensures mem.Keys == old(mem.Keys) - {cur} && forall x :: x in mem ==> mem[x].key == old(mem)[x].key
    {
      hide Linked, Without;
      Here(mem, outF, list, k);
      if k > 0 {
        Here(mem, outF, list, k - 1);
      }
      Skipped(mem, outF, list, k);
      next := mem[cur].next;
      if prev == NULL {
        outF := next;
      } else {
        mem := mem[prev := mem[prev].(next := next)];
      }
      mem := mem - {cur};
      AtWithout(list, k);
      list := Without(list, k);
    }

    // Every element of this key is unlinked and freed.
    method DeleteAll(key: nat) returns (deleted: nat)
      requires Linked(mem, outF, list) && NULL !in mem
      modifies `mem, `outF, `list
      ensures Linked(mem, outF, list) && list == Kept(old(mem), old(list), key) && deleted == |old(list)| - |list|
      ensures Left(mem.Keys, old(mem), old(list), key)
    {
      hide Linked, Kept, Without, Left;
      ghost var was, all := mem, list;
      var prev, cur := NULL, outF;
      deleted := 0;
      ghost var n, k := 0, 0;
      Start(mem, outF, list, key);
      NoneLeftOut(was, all, key);
      while cur != NULL
        invariant k <= n <= |all| && k <= |list| && deleted == n - k
        invariant list[..k] == Kept(was, all[..n], key) && list[k..] == all[n..]
        invariant Linked(mem, outF, list) && mem.Keys <= was.Keys
        invariant Left(mem.Keys, was, all[..n], key)
        invariant cur == At(list, k) && prev == (if k == 0 then NULL else list[k - 1])
        invariant forall x :: x in mem ==> mem[x].key == was[x].key
        decreases |all| - n
      {
        assert cur == list[k..][0] == all[n];
        Here(mem, outF, list, k);
        KeptOne(was, all, n, key);
        LeftOne(mem.Keys, was, all, n, key);
        ghost var before := list;
        if mem[cur].key == key {
          cur := Delete(prev, cur, k);
          deleted := deleted + 1;
          WithoutParts(before, k);
        } else {
          prev := cur;
          cur := mem[cur].next;
          k := k + 1;
          assert prev == list[k - 1];
          assert list[..k] == before[..k - 1] + [prev] && list[k..] == before[k - 1..][1..];
        }
        n := n + 1;
      }
      Here(mem, outF, list, k);
      assert all[n..] == [] && all[..|all|] == all && list[..k] == list;
    }

    /** abortNotifiedFIFO and the queue part of abortTpool: exactly the elements of this key are gone and
        freed, the others in their order. The FIFO is intact afterwards exactly if it has run empty, or was intact
        and kept its last element. */
    method Abort(key: nat) returns (deleted: nat)
      requires Valid()
      modifies this
      ensures Valid() && list == Kept(old(mem), old(list), key) && deleted == |old(list)| - |list|
      ensures Left(mem.Keys, old(mem), old(list), key)
      ensures Intact() <==> list == [] || (old(Intact()) && !LastHas(old(mem), old(list), key))
    {
      hide Linked, Kept, LastHas;
      LastKept(mem, outF, list, key);
      deleted := DeleteAll(key);
      if outF == NULL {
        inF := NULL;
      }
      Ends(mem, outF, list);
    }
  }

  lemma Start(mem: map<int, Element>, from: int, list: seq<int>, key: nat)
    requires Linked(mem, from, list)
    ensures from == At(list, 0) && Kept(mem, list[..0], key) == []
  {
  }

  lemma Here(mem: map<int, Element>, from: int, list: seq<int>, k: nat)
    requires Linked(mem, from, list) && k <= |list|
    ensures k < |list| ==> list[k] != NULL && list[k] in mem && mem[list[k]].next == At(list, k + 1)
    ensures At(list, k) == NULL <==> k == |list|
  {
  }

  lemma Ends(mem: map<int, Element>, from: int, list: seq<int>)
    requires Linked(mem, from, list)
    ensures from == NULL <==> list == []
  {
  }

  lemma WithoutParts(list: seq<int>, k: nat)
    requires k < |list|
    ensures Without(list, k)[..k] == list[..k] && Without(list, k)[k..] == list[k..][1..]
  {
  }

  lemma KeptOne(mem: map<int, Element>, list: seq<int>, n: nat, key: nat)
    requires n < |list|
    ensures Kept(mem, list[..n + 1], key) ==
              Kept(mem, list[..n], key) + if list[n] in mem && mem[list[n]].key != key then [list[n]] else []
  {
    assert list[..n + 1][..n] == list[..n];
  }

  // What was last stays last exactly if it is kept.
  lemma LastKept(mem: map<int, Element>, from: int, list: seq<int>, key: nat)
    requires Linked(mem, from, list)
    ensures var kept := Kept(mem, list, key);
            && (kept != [] ==> (kept[|kept| - 1] == list[|list| - 1] <==> !LastHas(mem, list, key)))
            && (list != [] && list[|list| - 1] in kept ==> kept[|kept| - 1] == list[|list| - 1])
            && (forall x :: x in kept ==> x in list)
  {
    if list != [] {
      var front := Kept(mem, list[..|list| - 1], key);
      assert forall x :: x in front ==> x in list[..|list| - 1];
    }
  }

  /** Giving up on the jobs of one key and pushing another one: it is lost exactly if the last job in the
      queue was given up and some job was not. */
  method AbortThenPush(fifo: Fifo, key: nat, x: int, other: nat) returns (deleted: nat)
    requires fifo.Valid() && fifo.Intact() && x !in fifo.mem && x != NULL
    modifies fifo
    ensures fifo.Valid()
    ensures var was, mem := old(fifo.list), old(fifo.mem);
            x in fifo.list <==> Kept(mem, was, key) == [] || !LastHas(mem, was, key)
  {
    ghost var was, mem := fifo.list, fifo.mem;
    deleted := fifo.Abort(key);
    assert x !in fifo.list;
    fifo.Push(x, other);
  }
}
