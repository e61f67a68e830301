/** The code of rt-thread/src/memheap.c: items linked in a ring by address and, when free, in a
    second circular list headed outside the pool.  Each method ties its stores to the
    specification functions of `MemHeapSpec`. */
module MemHeap {
  import opened Alignment
  import opened Blocks
  import opened Layout
  import opened Lists
  import opened Memory
  import opened MemHeapSpec

  /** struct rt_memheap_item.  The list pointers of a used item mean nothing. */
  datatype Item = Item(used: bool, next: nat, prev: nat, nextFree: int, prevFree: int)

  type Mem = Memory<Item>

  /** The address of `free_header`, which lies in the control block and not in the pool. */
  const HEAD: int := -1

  // ---------------------------------------------------------------- the ring

  ghost function PrevOff(g: Geometry, bs: seq<Block>, i: nat): nat
    requires i < |bs|
  {
    if i == 0 then g.End() else bs[i - 1].off
  }

  ghost predicate RingIs(m: Mem, o: nat, used: bool, next: nat, prev: nat) {
    o in m.headers && m.headers[o].used == used && m.headers[o].next == next && m.headers[o].prev == prev
  }

  ghost predicate TiedAt(g: Geometry, m: Mem, bs: seq<Block>, i: nat)
    requires i < |bs|
  {
    RingIs(m, bs[i].off, bs[i].used, bs[i].next, PrevOff(g, bs, i))
  }

  /** The ring: every block in address order, then the used tail item, then the first block. */
  ghost predicate Tied(g: Geometry, m: Mem, bs: seq<Block>) {
    && |bs| > 0
    && (forall i: nat :: i < |bs| ==> TiedAt(g, m, bs, i))
    && RingIs(m, g.End(), true, 0, bs[|bs| - 1].off)
  }

  ghost predicate SameRing(m: Mem, m': Mem, o: nat) {
    o in m.headers ==> o in m'.headers && RingIs(m', o, m.headers[o].used, m.headers[o].next, m.headers[o].prev)
  }

  ghost predicate SameLinks(m: Mem, m': Mem, o: nat) {
    o in m.headers ==>
      (o in m'.headers && m'.headers[o].nextFree == m.headers[o].nextFree && m'.headers[o].prevFree == m.headers[o].prevFree)
  }

  // ---------------------------------------------------------------- the free list

  ghost function Nth(free: seq<nat>, k: int): int {
    if 0 <= k < |free| then free[k] else HEAD
  }

  ghost predicate LinkedAt(m: Mem, free: seq<nat>, k: nat)
    requires k < |free|
  {
    && free[k] in m.headers
    && m.headers[free[k]].nextFree == Nth(free, k + 1)
    && m.headers[free[k]].prevFree == Nth(free, k - 1)
  }

  /** The circular list through HEAD: `headNext` and `headPrev` are the fields of free_header. */
  ghost predicate Linked(m: Mem, headNext: int, headPrev: int, free: seq<nat>) {
    && headNext == Nth(free, 0) && headPrev == Nth(free, |free| - 1)
    && (forall k: nat :: k < |free| ==> LinkedAt(m, free, k))
  }

  /** Every listed item is a block of the ring. */
  ghost predicate OnRing(bs: seq<Block>, free: seq<nat>) {
    forall k: nat :: k < |free| ==> IsOff(bs, free[k])
  }

  ghost predicate IsOff(bs: seq<Block>, o: nat) {
    exists j :: 0 <= j < |bs| && bs[j].off == o
  }

  ghost predicate Shape(g: Geometry, m: Mem, bs: seq<Block>, headNext: int, headPrev: int, free: seq<nat>)
  {
    && g.Ok() && Tiles(g, bs) && Tied(g, m, bs)
    && Linked(m, headNext, headPrev, free) && NoDup(free) && OnRing(bs, free)
  }

  // ---------------------------------------------------------------- stores

  /** `m'` differs from `m` at most in the list pointers of ring headers. */
  ghost predicate Relinked(g: Geometry, bs: seq<Block>, m: Mem, m': Mem) {
    (forall o :: Boundary(g, bs, o) ==> SameRing(m, m', o)) && Kept(g, Used(bs), m, m')
  }

  lemma OffIsBoundary(g: Geometry, bs: seq<Block>, o: nat)
    requires IsOff(bs, o)
    ensures Boundary(g, bs, o)
  {}

  lemma RelinkedTied(g: Geometry, bs: seq<Block>, m: Mem, m': Mem)
    requires Tied(g, m, bs) && Relinked(g, bs, m, m')
    ensures Tied(g, m', bs)
  {
    forall i: nat | i < |bs| ensures TiedAt(g, m', bs, i) {
      assert TiedAt(g, m, bs, i);
      assert Boundary(g, bs, bs[i].off);
      assert SameRing(m, m', bs[i].off);
    }
    assert Boundary(g, bs, g.End());
    assert SameRing(m, m', g.End());
  }

  lemma RelinkedTrans(g: Geometry, bs: seq<Block>, m: Mem, m': Mem, m'': Mem)
    requires Relinked(g, bs, m, m') && Relinked(g, bs, m', m'')
    ensures Relinked(g, bs, m, m'')
  {
    KeptTrans(g, Used(bs), m, m', m'');
    hide Used, Boundary, Kept;
    forall o | Boundary(g, bs, o) ensures SameRing(m, m'', o) {
      assert SameRing(m, m', o) && SameRing(m', m'', o);
    }
  }

  lemma RelinkedSame(g: Geometry, bs: seq<Block>, m: Mem)
    ensures Relinked(g, bs, m, m)
  {}

  /** Rewriting the list pointers of one ring header. */
  lemma PutLinks(g: Geometry, m: Mem, bs: seq<Block>, at: nat, nf: int, pf: int)
    requires g.Ok() && Tiles(g, bs) && IsOff(bs, at) && at in m.headers
    ensures var h := m.headers[at].(nextFree := nf, prevFree := pf); var m' := PutHeader(m, g.hdr, at, h);
      && HeaderIs(m', at, h)
      && (forall o :: Boundary(g, bs, o) && o != at ==> SameHeader(m, m', o))
      && Relinked(g, bs, m, m')
  {
    var h := m.headers[at].(nextFree := nf, prevFree := pf);
    var m' := PutHeader(m, g.hdr, at, h);
    OffIsBoundary(g, bs, at);
    PutAtBoundary(g, m, bs, at, h);
    hide PutHeader, Boundary, Kept;
    forall o | Boundary(g, bs, o) ensures SameRing(m, m', o) {
      if o != at { assert SameHeader(m, m', o); }
    }
  }

  class MemoryHeap {
    const g: Geometry
    var mem: Mem
    var headNext: int
    var headPrev: int
    var available: int
    var max: int
    ghost var blocks: seq<Block>
    ghost var free: seq<nat>

    ghost predicate Shaped()
      reads this
    {
      Shape(g, mem, blocks, headNext, headPrev, free)
    }

    ghost predicate Valid()
      reads this
    {
      Shaped() && Pool(g) && Inv(g, Model()) && available == Available(g, blocks)
    }

    ghost function Model(): State
      reads this
    {
      State(blocks, free, max)
    }

    /** rt_memheap_init over a pool of `geometry.size` payload bytes and two headers. */
    constructor (geometry: Geometry)
      requires Pool(geometry)
      ensures Valid() && g == geometry && Model() == Init(geometry)
    {
      g := geometry;
      available := geometry.size;
      max := 2 * geometry.hdr;
      var end := geometry.size + geometry.hdr;
      var m := Memory(map[], map[]);
      m := PutHeader(m, geometry.hdr, 0, Item(false, end, end, HEAD, HEAD));
      m := PutHeader(m, geometry.hdr, end, Item(true, 0, 0, HEAD, HEAD));
      mem := m;
      headNext, headPrev := 0, 0;
      blocks := Empty(geometry);
      free := [0];
      InitKeeps(geometry);
      new;
      assert TiedAt(g, mem, blocks, 0) && LinkedAt(mem, free, 0) && IsOff(blocks, 0) by { assert blocks[0].off == 0; }
    }

    /** o->next_free = v, where `o` may be the list head. */
    method SetNextFree(o: int, v: int)
      requires g.Ok() && Tiles(g, blocks)
      requires o == HEAD || (o >= 0 && IsOff(blocks, o) && o in mem.headers)
      modifies this`mem, this`headNext
      ensures o == HEAD ==> headNext == v && mem == old(mem)
      ensures o != HEAD ==> headNext == old(headNext) && HeaderIs(mem, o, old(mem.headers)[o].(nextFree := v))
      ensures forall b :: Boundary(g, blocks, b) && b != o ==> SameHeader(old(mem), mem, b)
      ensures Relinked(g, blocks, old(mem), mem)
    {
      if o == HEAD {
        headNext := v;
        RelinkedSame(g, blocks, mem);
      } else {
        PutLinks(g, mem, blocks, o, v, mem.headers[o].prevFree);
        mem := PutHeader(mem, g.hdr, o, mem.headers[o].(nextFree := v));
      }
    }

    /** o->prev_free = v, where `o` may be the list head. */
    method SetPrevFree(o: int, v: int)
      requires g.Ok() && Tiles(g, blocks)
      requires o == HEAD || (o >= 0 && IsOff(blocks, o) && o in mem.headers)
      modifies this`mem, this`headPrev
      ensures o == HEAD ==> headPrev == v && mem == old(mem)
      ensures o != HEAD ==> headPrev == old(headPrev) && HeaderIs(mem, o, old(mem.headers)[o].(prevFree := v))
      ensures forall b :: Boundary(g, blocks, b) && b != o ==> SameHeader(old(mem), mem, b)
      ensures Relinked(g, blocks, old(mem), mem)
    {
      if o == HEAD {
        headPrev := v;
        RelinkedSame(g, blocks, mem);
      } else {
        PutLinks(g, mem, blocks, o, mem.headers[o].nextFree, v);
        mem := PutHeader(mem, g.hdr, o, mem.headers[o].(prevFree := v));
      }
    }

    /** Insert the item at `o` at the front of the free list. */
    method Link(o: nat)
      requires Shaped() && IsOff(blocks, o) && o in mem.headers && o !in free
      modifies this`mem, this`headNext, this`headPrev, this`free
      ensures Shaped() && free == [o] + old(free)
      ensures Relinked(g, blocks, old(mem), mem)
    {
      hide Tiles, Tied, Relinked, IsOff, Boundary;
      LinkedHere(mem, headNext, headPrev, free, 0);
      RingsHere(g, blocks, free);
      OffIsBoundary(g, blocks, o);
      SetNextFree(o, headNext);
      ghost var m1 := mem;
      SetPrevFree(o, HEAD);
      RelinkedTrans(g, blocks, old(mem), m1, mem);
      ghost var m2 := mem;
      SetPrevFree(headNext, o);
      RelinkedTrans(g, blocks, old(mem), m2, mem);
      headNext := o;
      RelinkedTied(g, blocks, old(mem), mem);
      free := [o] + free;
      forall k: nat | 0 < k < |old(free)| ensures SameHeader(old(mem), mem, old(free)[k]) {
        var x := old(free)[k];
        assert Boundary(g, blocks, x) && x != o && x != old(free)[0];
        assert SameHeader(old(mem), m1, x) && SameHeader(m1, m2, x);
      }
      LinkedCons(old(mem), mem, old(headNext), old(headPrev), headPrev, old(free), o);
      ConsNoDup(o, old(free));
      OnRingCons(blocks, old(free), o);
    }

    /** Take the item at `o`, position `k` of the free list, out of it. */
    method Unlink(o: nat, ghost k: nat)
      requires Shaped() && k < |free| && free[k] == o
      modifies this`mem, this`headNext, this`headPrev, this`free
      ensures Shaped() && free == Drop(old(free), k)
      ensures Relinked(g, blocks, old(mem), mem)
    {
      hide Tiles, Tied, Relinked, IsOff, Boundary;
      LinkedHere(mem, headNext, headPrev, free, k);
      if k > 0 { LinkedHere(mem, headNext, headPrev, free, k - 1); }
      LinkedHere(mem, headNext, headPrev, free, k + 1);
      RingsHere(g, blocks, free);
      var nf, pf := mem.headers[o].nextFree, mem.headers[o].prevFree;
      SetPrevFree(nf, pf);
      ghost var m1 := mem;
      assert k > 0 ==> SameHeader(old(mem), m1, free[k - 1]);
      SetNextFree(pf, nf);
      RelinkedTrans(g, blocks, old(mem), m1, mem);
      RelinkedTied(g, blocks, old(mem), mem);
      forall l: nat | l < |free| && l != k && l != k + 1 && l + 1 != k ensures SameHeader(old(mem), mem, free[l]) {
        assert SameHeader(old(mem), m1, free[l]) && SameHeader(m1, mem, free[l]);
      }
      assert k + 1 < |free| ==> HeaderIs(mem, free[k + 1], old(mem.headers)[free[k + 1]].(prevFree := pf)) by {
        if k + 1 < |free| { assert SameHeader(m1, mem, free[k + 1]); }
      }
      LinkedDrop(old(mem), mem, old(headNext), old(headPrev), headNext, headPrev, free, k);
      DropSound(blocks, free, k);
      free := Drop(free, k);
    }

    /** Set the used mark of the item at `o`. */
    method Mark(o: nat, u: bool, ghost i: nat)
      requires Shaped() && i < |blocks| && blocks[i].off == o
      modifies this`mem, this`blocks
      ensures Shaped() && blocks == old(blocks)[i := old(blocks)[i].(used := u)]
      ensures Kept(g, Used(old(blocks)), old(mem), mem)
    {
      MarkedShape(g, mem, blocks, headNext, headPrev, free, i, u);
      mem := PutHeader(mem, g.hdr, o, mem.headers[o].(used := u));
      blocks := blocks[i := blocks[i].(used := u)];
    }

    /** The ring stores that make the item at `left` swallow its right neighbour. */
    method Merge(left: nat, right: nat, ghost i: nat)
      requires Shaped() && i + 1 < |blocks| && blocks[i].off == left && blocks[i + 1].off == right && right !in free
      modifies this`mem, this`blocks
      ensures Shaped() && blocks == Join(old(blocks), i)
      ensures Kept(g, Used(old(blocks)), old(mem), mem)
    {
      hide PutHeader, Tied, Tiles, Kept, Used, Join, Linked, OnRing;
      MergedShape(g, mem, blocks, headNext, headPrev, free, i);
      MergedLookups(g, mem, left, right);
      var end := mem.headers[right].next;
      mem := PutHeader(mem, g.hdr, left, mem.headers[left].(next := end));
      mem := PutHeader(mem, g.hdr, end, mem.headers[end].(prev := left));
      blocks := Join(blocks, i);
    }

    /** The ring stores that put a free item at `at2`, inside the item at `at`. */
    method Split(at: nat, at2: nat, ghost i: nat, ghost s: nat)
      requires Shaped() && i < |blocks| && blocks[i].off == at && at2 == at + g.hdr + s
      requires Multiple(s, g.align) && s >= g.align && at2 + g.hdr + g.align <= blocks[i].next
      modifies this`mem, this`blocks
      ensures Shaped() && blocks == Halves(g, old(blocks), i, s) && at2 in mem.headers
      ensures Kept(g, Used(old(blocks)) - {old(blocks)[i]}, old(mem), mem)
      ensures SameBytes(old(mem), mem, at + g.hdr, at2)
    {
      hide PutHeader, Tied, Tiles, Kept, Used, Halves, Linked, OnRing, SameBytes, Multiple;
      DividedShape(g, mem, blocks, headNext, headPrev, free, i, s);
      DividedLookups(g, mem, at, at2);
      var end := mem.headers[at].next;
      mem := PutHeader(mem, g.hdr, at2, Item(false, end, at, HEAD, HEAD));
      mem := PutHeader(mem, g.hdr, end, mem.headers[end].(prev := at2));
      mem := PutHeader(mem, g.hdr, at, mem.headers[at].(next := at2));
      blocks := Halves(g, blocks, i, s);
    }

    /** rt_memheap_alloc. */
    method Alloc(n: nat) returns (p: Option<nat>)
      requires Valid()
      modifies this
      ensures Valid()
      ensures (p, Model()) == MemHeapSpec.Alloc(g, old(Model()), n)
      ensures Kept(g, Used(old(blocks)), old(mem), mem)
    {
      hide Kept, Used, Available, Tied, Tiles, Multiple, Relinked, OnRing, NoDup, Elems, FreeOffs, NoFreeNeighbours, Taken;
      KeptSame(g, Used(blocks), mem);
      TwelveAligned();
      ClampPositive(g, n);
      var size := Align(n, g.align);
      if size < g.minSize { size := g.minSize; }
      if size < available {
        var freeSize := 0;
        var header := headNext;
        ghost var k: nat := 0;
        while header != HEAD && freeSize < size
          invariant k <= |free| && header == Nth(free, k)
          invariant forall l :: 0 <= l < k ==> SizeAt(g, blocks, free[l]) < size
          invariant freeSize >= size ==> k < |free| && freeSize == SizeAt(g, blocks, free[k])
          modifies {}
          decreases |free| - k, if freeSize < size then 1 else 0
        {
          ListedItem(g, mem, Model(), headNext, headPrev, k);
          freeSize := mem.headers[header].next - header - g.hdr;
          if freeSize < size {
            header := mem.headers[header].nextFree;
            k := k + 1;
          }
        }
        if freeSize >= size {
          FirstListedIs(g, blocks, free, size, k);
          ListedBlock(g, Model(), k);
          Occupy(header, freeSize, size, k, IndexOf(blocks, free[k], 0));
          return Some(header + g.hdr);
        }
        NoneListed(g, blocks, free, size, k);
      }
      return None;
    }

    /** The part of rt_memheap_alloc that hands out the free item at `header`. */
    method Occupy(header: nat, freeSize: int, size: nat, ghost k: nat, ghost i: nat)
      requires Valid() && k < |free| && free[k] == header && i < |blocks| && blocks[i].off == header && !blocks[i].used
      requires freeSize == Payload(g, blocks[i]) && freeSize >= size && Multiple(size, g.align) && size >= g.align
      modifies this
      ensures Valid() && Model() == Taken(g, old(Model()), k, i, size)
      ensures Kept(g, Used(old(blocks)), old(mem), mem)
    {
      hide Kept, Used, Available, Tied, Tiles, Multiple, OnRing, NoDup, Linked, Elems, FreeOffs, WellFormed, ListsFree, Inv,
           Take, Halves, Relinked, IsOff, Shape, Payload, Taken, Drop, Splits, Align, OccupiedList, Geometry.Ok;
      ghost var st := State(blocks, free, max);
      TakenFacts(g, st, k, i, size);
      ghost var done := Taken(g, st, k, i, size);
      ghost var r := TakeOff(header, freeSize, size, k, i, done.free);
      if PoolSize(g) - available > max { max := PoolSize(g) - available; }
      ghost var m1 := mem;
      Mark(header, true, i);
      KeptTrans(g, Used(old(blocks)), old(mem), m1, mem);
    }

    /** Splitting when there is room for it, and the free list either way. */
    method TakeOff(header: nat, freeSize: int, size: nat, ghost k: nat, ghost i: nat, ghost f: seq<nat>) returns (ghost r: seq<Block>)
      requires Valid() && k < |free| && free[k] == header && i < |blocks| && blocks[i].off == header && !blocks[i].used
      requires freeSize == Payload(g, blocks[i]) && freeSize >= size && Multiple(size, g.align) && size >= g.align
      requires f == OccupiedList(g, blocks[i], free, k, size)
      modifies this`mem, this`headNext, this`headPrev, this`blocks, this`free, this`available
      ensures Shaped() && blocks == r && Used(r) == Used(old(blocks))
      ensures i < |r| && r[i].off == header && r[i := r[i].(used := true)] == Take(g, old(blocks), i, size)
      ensures free == f
      ensures available == old(available) - if Splits(g, old(blocks)[i], size) then size + g.hdr else freeSize
      ensures Kept(g, Used(old(blocks)), old(mem), mem)
    {
      hide Kept, Used, Available, Tied, Tiles, Multiple, OnRing, NoDup, Linked, Elems, FreeOffs, WellFormed, ListsFree,
           Take, Halves, Relinked, IsOff, Shape, Payload, Drop, Align, Fits, Geometry.Ok;
      OccupyFacts(g, blocks, free, i, size);
      if freeSize >= size + g.hdr + g.minSize {
        SplitOff(header, size, k, i);
        available := available - size - g.hdr;
      } else {
        available := available - freeSize;
        Unlink(header, k);
        RelinkedKept(g, blocks, old(mem), mem);
      }
      r := blocks;
    }

    /** The splitting branch of rt_memheap_alloc: the tail of the free item at `header` becomes an
        item of its own, and takes its place in the list, at the front. */
    method SplitOff(header: nat, size: nat, ghost k: nat, ghost i: nat)
      requires Shaped() && k < |free| && free[k] == header && i < |blocks| && blocks[i].off == header && !blocks[i].used
      requires Multiple(size, g.align) && size >= g.align && header + g.hdr + size + g.hdr + g.align <= blocks[i].next
      requires header + g.hdr + size !in free
      modifies this`mem, this`headNext, this`headPrev, this`blocks, this`free
      ensures Shaped() && blocks == Halves(g, old(blocks), i, size)
      ensures free == [header + g.hdr + size] + Drop(old(free), k)
      ensures Kept(g, Used(old(blocks)), old(mem), mem)
    {
      hide Kept, Used, Halves, Relinked, IsOff, Shape, SameBytes, Tied, Tiles, Linked, OnRing, NoDup, Multiple, Drop;
      HalvesUsed(g, blocks, i, size);
      HalvesOff(g, blocks, i, size);
      var item := header + g.hdr + size;
      Split(header, item, i, size);
      ghost var m1 := mem;
      Unlink(header, k);
      ghost var m2 := mem;
      RelinkedAt(g, blocks, m1, m2, item);
      DropKeepsOut(free, old(free), k, item);
      Link(item);
      RelinkedTrans(g, blocks, m1, m2, mem);
      RelinkedKept(g, blocks, m1, mem);
      KeptTrans(g, Used(old(blocks)), old(mem), m1, mem);
    }

    /** rt_memheap_free; the heap found through pool_ptr is this one. */
    method Free(p: Option<nat>)
      requires Valid()
      requires p.Some? ==> Live(g, blocks, p.value)
      modifies this
      ensures Valid()
      ensures Model() == if p.Some? then MemHeapSpec.Free(g, old(Model()), p.value) else old(Model())
      ensures Kept(g, Used(blocks), old(mem), mem)
    {
      if p.None? {
        KeptSame(g, Used(blocks), mem);
        return;
      }
      FindIsLive(g, blocks, p.value);
      ReleaseAt(p.value - g.hdr, Find(g, blocks, p.value));
    }

    /** The body of rt_memheap_free for the used item at `header`. */
    method ReleaseAt(header: nat, ghost i: nat)
      requires Valid() && i < |blocks| && blocks[i].used && blocks[i].off == header
      modifies this
      ensures Valid() && Model() == State(Release(old(blocks), i), ReleasedList(old(blocks), old(free), i), old(max))
      ensures Kept(g, Used(blocks), old(mem), mem)
    {
      hide Kept, Used, Available, Tied, Tiles, OnRing, NoDup, Linked, Elems, FreeOffs, Inv, Relinked, IsOff, Shape,
           Release, JoinRight, JoinLeft, Unlisted, WellFormed;
      ghost var st := State(blocks, free, max);
      ReleaseFacts(g, st, i);
      HeaderSize(g, mem, blocks, headNext, headPrev, free, i);
      available := available + (mem.headers[header].next - header - g.hdr);
      Mark(header, false, i);
      ghost var m1 := mem;
      var insert, h := MergeLeft(header, i);
      ghost var m2 := mem;
      MergeRight(h, if insert then i else i - 1);
      ghost var m3 := mem;
      if insert {
        UnlistedSub(old(free), if FreeOnRight(old(blocks), i) then old(blocks)[i + 1].off else 0, h);
        Link(h);
        RelinkedKept(g, blocks, m3, mem);
      } else {
        KeptSame(g, Used(blocks), mem);
      }
      KeptTwice(g, Used(blocks), Used(blocks), Used(blocks), m1, m2, m3);
      KeptTwice(g, Used(blocks), Used(blocks), Used(blocks), m1, m3, mem);
      KeptTwice(g, Used(old(blocks)), Used(blocks), Used(blocks), old(mem), m1, mem);
    }

    /** Merge the free item at `header` into a free left neighbour. */
    method MergeLeft(header: nat, ghost i: nat) returns (insert: bool, h: nat)
      requires Shaped() && i < |blocks| && blocks[i].off == header && !blocks[i].used && header !in free
      modifies this`mem, this`blocks, this`available
      ensures Shaped() && blocks == JoinLeft(old(blocks), i)
      ensures insert == !FreeOnLeft(old(blocks), i)
      ensures h == if insert then header else old(blocks)[i - 1].off
      ensures available == old(available) + if insert then 0 else g.hdr
      ensures Used(blocks) == Used(old(blocks)) && Kept(g, Used(old(blocks)), old(mem), mem)
    {
      hide Kept, Used, Tied, Tiles, OnRing, NoDup, Linked, Join;
      KeptSame(g, Used(blocks), mem);
      NeighbourItems(g, mem, blocks, headNext, headPrev, free, i);
      insert, h := true, header;
      var prev := mem.headers[header].prev;
      if !mem.headers[prev].used {
        available := available + g.hdr;
        JoinUsed(blocks, i - 1);
        Merge(prev, header, i - 1);
        insert, h := false, prev;
      }
    }

    /** Merge a free right neighbour into the item at `h`, taking it off the free list. */
    method MergeRight(h: nat, ghost j: nat)
      requires Shaped() && j < |blocks| && blocks[j].off == h && !blocks[j].used
      requires FreeOnRight(blocks, j) ==> blocks[j + 1].off in free
      modifies this`mem, this`blocks, this`available, this`free, this`headNext, this`headPrev
      ensures Shaped() && blocks == JoinRight(old(blocks), j)
      ensures free == if FreeOnRight(old(blocks), j) then Unlisted(old(free), old(blocks)[j + 1].off) else old(free)
      ensures available == old(available) + if FreeOnRight(old(blocks), j) then g.hdr else 0
      ensures IsOff(blocks, h) && h in mem.headers
      ensures Used(blocks) == Used(old(blocks)) && Kept(g, Used(old(blocks)), old(mem), mem)
    {
      hide Kept, Used, Tied, Tiles, OnRing, NoDup, Linked, Join, Relinked;
      KeptSame(g, Used(blocks), mem);
      NeighbourItems(g, mem, blocks, headNext, headPrev, free, j);
      var next := mem.headers[h].next;
      if !mem.headers[next].used {
        available := available + g.hdr;
        JoinUsed(blocks, j);
        ghost var k := Where(free, next, 0);
        DropLeaves(free, k);
        Unlink(next, k);
        RelinkedKept(g, blocks, old(mem), mem);
        ghost var m1 := mem;
        Merge(h, next, j);
        JoinKeepsOff(old(blocks), j);
        KeptTrans(g, Used(old(blocks)), old(mem), m1, mem);
      }
      ItemThere(g, mem, blocks, headNext, headPrev, free, j);
    }

    /** rt_memheap_realloc. */
    method Realloc(p: Option<nat>, n: nat) returns (q: Option<nat>)
      requires Valid()
      requires p.Some? ==> Live(g, blocks, p.value)
      modifies this
      ensures Valid()
      ensures (q, Model()) == MemHeapSpec.Realloc(g, old(Model()), p, n)
      ensures Kept(g, Used(old(blocks)) * Used(blocks), old(mem), mem)
      ensures p.Some? && q.Some? ==>
        CopiedBytes(old(mem), mem, q.value, p.value, Min(PayloadSize(g, old(blocks), p.value), Clamp(g, n)))
    {
      hide Kept, Used, CopiedBytes, MemHeapSpec.Alloc, MemHeapSpec.Free, MemHeapSpec.ReallocLive, Inv, Shape, Available, Multiple;
      if n == 0 {
        Free(p);
        KeptLess(g, Used(blocks), Used(old(blocks)) * Used(blocks), old(mem), mem);
        return None;
      }
      TwelveAligned();
      ClampPositive(g, n);
      var newsize := Align(n, g.align);
      if newsize < g.minSize { newsize := g.minSize; }
      if p.None? {
        q := Alloc(newsize);
        KeptLess(g, Used(old(blocks)), Used(old(blocks)) * Used(blocks), old(mem), mem);
        return;
      }
      q := Resize(p.value, newsize);
    }

    /** rt_memheap_realloc of a live block to a clamped size. */
    method Resize(p: nat, newsize: nat) returns (q: Option<nat>)
      requires Valid() && Live(g, blocks, p)
      requires 0 < newsize && Multiple(newsize, g.align)
      modifies this
      ensures Valid()
      ensures (q, Model()) == MemHeapSpec.ReallocLive(g, old(Model()), p, newsize)
      ensures Kept(g, Used(old(blocks)) * Used(blocks), old(mem), mem)
      ensures q.Some? ==> CopiedBytes(old(mem), mem, q.value, p, Min(PayloadSize(g, old(blocks), p), newsize))
    {
      hide Kept, Used, CopiedBytes, MemHeapSpec.Alloc, MemHeapSpec.Free, MemHeapSpec.ReallocLive, Shape, Inv, Available,
           Multiple, Live, LiveAt, Find, PayloadSize, SameBytes, Grown, Shrunk, WayOf, Payload;
      ghost var i := Find(g, blocks, p);
      ghost var st := State(blocks, free, max);
      ReallocFacts(g, st, p, newsize);
      NeighbourItems(g, mem, blocks, headNext, headPrev, free, i);
      NeighbourSize(g, mem, blocks, headNext, headPrev, free, i);
      var header := p - g.hdr;
      var oldsize := mem.headers[header].next - header - g.hdr;
      if newsize > oldsize {
        var next := mem.headers[header].next;
        if !mem.headers[next].used {
          var nextsize := mem.headers[next].next - next - g.hdr;
          if nextsize + oldsize > newsize + g.minSize {
            GrowAt(header, newsize, i);
            CopiedInPlace(old(mem), mem, p, oldsize, oldsize);
            return Some(p);
          }
        }
        q := Move(p, newsize, oldsize);
        return;
      }
      if newsize + g.hdr + g.minSize >= oldsize {
        KeptSame(g, Used(blocks) * Used(blocks), mem);
        BytesSame(mem, p, p + oldsize);
        CopiedInPlace(mem, mem, p, oldsize, newsize);
        return Some(p);
      }
      ShrinkAt(header, newsize, i);
      CopiedInPlace(old(mem), mem, p, newsize, newsize);
      return Some(p);
    }

    /** The branch of rt_memheap_realloc that grows the item at `header` over its right neighbour. */
    method GrowAt(header: nat, newsize: nat, ghost i: nat)
      requires Valid() && i < |blocks| && blocks[i].off == header && blocks[i].used
      requires Multiple(newsize, g.align) && WayOf(g, blocks, i, newsize) == Grow
      modifies this
      ensures Valid() && Model() == Grown(g, old(Model()), i, newsize)
      ensures Kept(g, Used(old(blocks)) * Used(blocks), old(mem), mem)
      ensures SameBytes(old(mem), mem, header + g.hdr, old(blocks)[i].next)
    {
      hide Kept, Used, Shape, Inv, Available, Multiple, SameBytes, Grown, Join, Halves, Cut, Relinked, IsOff, Unlisted, WayOf, Payload;
      ghost var st := State(blocks, free, max);
      GrowFacts(g, st, i, newsize);
      NeighbourItems(g, mem, blocks, headNext, headPrev, free, i);
      var next := mem.headers[header].next;
      available := available - (newsize - (next - header - g.hdr));
      if PoolSize(g) - available > max { max := PoolSize(g) - available; }
      ghost var k := Where(free, next, 0);
      Unlink(next, k);
      RelinkedKept(g, blocks, old(mem), mem);
      ghost var m1 := mem;
      Merge(header, next, i);
      ghost var m2 := mem;
      var tail := header + g.hdr + newsize;
      Split(header, tail, i, newsize);
      ghost var m3 := mem;
      Link(tail);
      RelinkedKept(g, blocks, m3, mem);
      GrownBytes(g, st.blocks, i, newsize, blocks, old(mem), m1, m2, m3, mem);
    }

    /** The branch of rt_memheap_realloc that cuts the tail off the item at `header`. */
    method ShrinkAt(header: nat, newsize: nat, ghost i: nat)
      requires Valid() && i < |blocks| && blocks[i].off == header && blocks[i].used
      requires Multiple(newsize, g.align) && newsize > 0 && WayOf(g, blocks, i, newsize) == ShrinkTail
      modifies this
      ensures Valid() && Model() == Shrunk(g, old(Model()), i, newsize)
      ensures Kept(g, Used(old(blocks)) * Used(blocks), old(mem), mem)
      ensures SameBytes(old(mem), mem, header + g.hdr, header + g.hdr + newsize)
    {
      hide Kept, Used, Shape, Inv, Available, Multiple, SameBytes, Shrunk, Join, Halves, Cut, Relinked, IsOff, Unlisted, JoinRight,
           WayOf, Payload;
      ghost var st := State(blocks, free, max);
      ShrinkFacts(g, st, i, newsize);
      HeaderSize(g, mem, blocks, headNext, headPrev, free, i);
      var oldsize := mem.headers[header].next - header - g.hdr;
      var tail := header + g.hdr + newsize;
      Split(header, tail, i, newsize);
      ghost var m1 := mem;
      available := available + (oldsize - newsize - g.hdr);
      MergeRight(tail, i + 1);
      ghost var m2 := mem;
      UnlistedSub(old(free), if FreeOnRight(old(blocks), i) then old(blocks)[i + 1].off else 0, tail);
      Link(tail);
      RelinkedKept(g, blocks, m2, mem);
      ShrunkBytes(g, st.blocks, i, newsize, blocks, old(mem), m1, m2, mem);
    }

    /** The branch of rt_memheap_realloc that looks for a new item. */
    method Move(p: nat, newsize: nat, size: nat) returns (q: Option<nat>)
      requires Valid() && Live(g, blocks, p) && size == PayloadSize(g, blocks, p)
      modifies this
      ensures Valid()
      ensures (q, Model()) ==
        (var (r, st') := MemHeapSpec.Alloc(g, old(Model()), newsize);
         (r, if r.Some? then MemHeapSpec.Free(g, st', p) else st'))
      ensures Kept(g, Used(old(blocks)) * Used(blocks), old(mem), mem)
      ensures q.Some? ==> CopiedBytes(old(mem), mem, q.value, p, Min(PayloadSize(g, old(blocks), p), newsize))
    {
      hide Kept, Used, CopiedBytes, MemHeapSpec.Alloc, MemHeapSpec.Free, Live, PayloadSize, Inv, Shape, Available;
      q := Alloc(newsize);
      if q.Some? {
        MoveTo(p, q.value, Min(size, newsize), old(Model()), newsize, old(mem));
      } else {
        KeptLess(g, Used(old(blocks)), Used(old(blocks)) * Used(blocks), old(mem), mem);
      }
    }

    /** The moving branch once a new item has been found: copy, then free. */
    method MoveTo(p: nat, q: nat, k: nat, ghost st0: State, ghost newsize: nat, ghost m0: Mem)
      requires Valid() && Inv(g, st0) && Live(g, st0.blocks, p)
      requires (Some(q), Model()) == MemHeapSpec.Alloc(g, st0, newsize)
      requires Kept(g, Used(st0.blocks), m0, mem)
      requires k <= newsize && k <= PayloadSize(g, st0.blocks, p)
      modifies this
      ensures Valid() && Model() == MemHeapSpec.Free(g, old(Model()), p)
      ensures Kept(g, Used(st0.blocks) * Used(blocks), m0, mem)
      ensures CopiedBytes(m0, mem, q, p, k)
    {
      hide Kept, Used, Tied, CopiedBytes, CopyBytes, MemHeapSpec.Alloc, MemHeapSpec.Free, Tiles, Available, Linked, OnRing, NoDup,
           ListsFree, Multiple, NoFreeNeighbours;
      AllocDelivers(g, st0, newsize);
      ghost var j := MoveTarget(g, st0.blocks, blocks, p, q, newsize);
      ghost var c := blocks[j];
      ghost var m1 := mem;
      CopyIntoItem(g, mem, blocks, headNext, headPrev, free, j, p, k);
      mem := CopyBytes(mem, g.hdr, q, p, k);
      ghost var m2 := mem;
      FreeDelivers(g, Model(), p);
      Free(Some(p));
      MovedBytes(g, Used(st0.blocks), Used(old(blocks)), Used(blocks), st0.blocks[Find(g, st0.blocks, p)], c, p, q, k, m0, m1, m2, mem);
    }

    /** A client stores one byte into its own item: no header and no other client's byte changes. */
    method ClientWrite(p: nat, k: nat, b: Byte)
      requires Valid() && Live(g, blocks, p) && k < PayloadSize(g, blocks, p)
      modifies this`mem
      ensures Valid() && Model() == old(Model())
      ensures p + k in mem.bytes && mem.bytes[p + k] == b
      ensures forall a :: a != p + k ==>
        (a in mem.bytes <==> a in old(mem.bytes)) && (a in mem.bytes ==> mem.bytes[a] == old(mem.bytes)[a])
    {
      WriteKeepsBoundaries(g, mem, blocks, p, k, b);
      SameHeadersShape(g, mem, PutByte(mem, g.hdr, p + k, b), blocks, headNext, headPrev, free);
      mem := PutByte(mem, g.hdr, p + k, b);
    }
  }

  lemma LinkedHere(m: Mem, hn: int, hp: int, free: seq<nat>, k: nat)
    requires Linked(m, hn, hp, free)
    ensures k < |free| ==> LinkedAt(m, free, k)
  {}

  lemma RingsHere(g: Geometry, bs: seq<Block>, free: seq<nat>)
    requires OnRing(bs, free)
    ensures forall k: nat :: k < |free| ==> IsOff(bs, free[k]) && Boundary(g, bs, free[k])
  {}

  lemma OnRingCons(bs: seq<Block>, free: seq<nat>, o: nat)
    requires OnRing(bs, free) && IsOff(bs, o)
    ensures OnRing(bs, [o] + free)
  {}

  lemma LinkedCons(m: Mem, m': Mem, hn: int, hp: int, hp': int, free: seq<nat>, o: nat)
    requires Linked(m, hn, hp, free) && o !in free && NoDup(free)
    requires o in m'.headers && m'.headers[o].nextFree == hn && m'.headers[o].prevFree == HEAD
    requires free == [] ==> hp' == o
    requires free != [] ==> hp' == hp && free[0] in m.headers && HeaderIs(m', free[0], m.headers[free[0]].(prevFree := o))
    requires forall k: nat :: 0 < k < |free| ==> SameHeader(m, m', free[k])
    ensures Linked(m', o, hp', [o] + free)
  {
    var r := [o] + free;
    forall k: nat | k < |r| ensures LinkedAt(m', r, k) {
      if k > 0 { assert LinkedAt(m, free, k - 1); }
    }
  }

  lemma DropSound(bs: seq<Block>, free: seq<nat>, k: nat)
    requires NoDup(free) && OnRing(bs, free) && k < |free|
    ensures NoDup(Drop(free, k)) && OnRing(bs, Drop(free, k))
  {
    var r := Drop(free, k);
    assert forall l :: 0 <= l < |r| ==> r[l] == free[if l < k then l else l + 1];
  }

  lemma LinkedDrop(m: Mem, m': Mem, hn: int, hp: int, hn': int, hp': int, free: seq<nat>, k: nat)
    requires Linked(m, hn, hp, free) && k < |free|
    requires k + 1 == |free| ==> hp' == Nth(free, k - 1)
    requires k + 1 < |free| ==> hp' == hp && free[k + 1] in m.headers
    requires k + 1 < |free| ==> HeaderIs(m', free[k + 1], m.headers[free[k + 1]].(prevFree := Nth(free, k - 1)))
    requires k == 0 ==> hn' == Nth(free, 1)
    requires k > 0 ==> hn' == hn && free[k - 1] in m.headers
    requires k > 0 ==> HeaderIs(m', free[k - 1], m.headers[free[k - 1]].(nextFree := Nth(free, k + 1)))
    requires forall l: nat :: l < |free| && l != k && l != k + 1 && l + 1 != k ==> SameHeader(m, m', free[l])
    ensures Linked(m', hn', hp', Drop(free, k))
  {
    var r := Drop(free, k);
    forall l: nat | l < |r| ensures LinkedAt(m', r, l) {
      var o := if l < k then l else l + 1;
      assert LinkedAt(m, free, o) && r[l] == free[o];
    }
  }

  // ---------------------------------------------------------------- the ring under its stores

  lemma LinkedKept(m: Mem, m': Mem, hn: int, hp: int, free: seq<nat>)
    requires Linked(m, hn, hp, free)
    requires forall k: nat :: k < |free| ==> SameLinks(m, m', free[k])
    ensures Linked(m', hn, hp, free)
  {
    forall k: nat | k < |free| ensures LinkedAt(m', free, k) { assert LinkedAt(m, free, k) && SameLinks(m, m', free[k]); }
  }

  lemma RingFacts(g: Geometry, m: Mem, bs: seq<Block>, i: nat)
    requires g.Ok() && Tiles(g, bs) && Tied(g, m, bs) && i < |bs|
    ensures TiedAt(g, m, bs, i)
    ensures bs[i].off + g.hdr < bs[i].next <= g.End() && (bs[i].next == g.End() <==> i + 1 == |bs|)
    ensures Boundary(g, bs, bs[i].off) && Boundary(g, bs, bs[i].next) && bs[i].next in m.headers
    ensures i + 1 < |bs| ==> bs[i + 1].off == bs[i].next && TiedAt(g, m, bs, i + 1)
    ensures i > 0 ==> TiedAt(g, m, bs, i - 1) && bs[i - 1].off < bs[i].off && bs[i - 1].next == bs[i].off
  {
    BlocksAreBoundaries(g, bs);
    if i + 1 < |bs| { assert TiedAt(g, m, bs, i + 1); }
  }

  lemma MarkedShape(g: Geometry, m: Mem, bs: seq<Block>, hn: int, hp: int, free: seq<nat>, i: nat, u: bool)
    requires Shape(g, m, bs, hn, hp, free) && i < |bs|
    ensures bs[i].off in m.headers
    ensures var m' := PutHeader(m, g.hdr, bs[i].off, m.headers[bs[i].off].(used := u));
      Shape(g, m', bs[i := bs[i].(used := u)], hn, hp, free) && Kept(g, Used(bs), m, m')
  {
    RingFacts(g, m, bs, i);
    RingsHere(g, bs, free);
    RetagTiles(g, bs, i, u);
    var o := bs[i].off;
    var h := m.headers[o].(used := u);
    var m' := PutHeader(m, g.hdr, o, h);
    PutAtBoundary(g, m, bs, o, h);
    hide PutHeader, Kept, Used, Tiles, Boundary, GoodBlock;
    forall k: nat | k < |free| ensures SameLinks(m, m', free[k]) {
      if free[k] != o { assert SameHeader(m, m', free[k]); }
    }
    LinkedKept(m, m', hn, hp, free);
    MarkedTied(g, m, m', bs, i, u);
    RetagOnRing(bs, free, i, u);
  }

  lemma RetagOnRing(bs: seq<Block>, free: seq<nat>, i: nat, u: bool)
    requires OnRing(bs, free) && i < |bs|
    ensures OnRing(bs[i := bs[i].(used := u)], free)
  {
    var r := bs[i := bs[i].(used := u)];
    forall j | 0 <= j < |bs| && bs[j].off in free ensures IsOff(r, bs[j].off) { assert r[j].off == bs[j].off; }
    OnRingKept(bs, r, free);
  }

  lemma MarkedTied(g: Geometry, m: Mem, m': Mem, bs: seq<Block>, i: nat, u: bool)
    requires g.Ok() && Tiles(g, bs) && Tied(g, m, bs) && i < |bs|
    requires bs[i].off in m.headers && HeaderIs(m', bs[i].off, m.headers[bs[i].off].(used := u))
    requires forall o :: Boundary(g, bs, o) && o != bs[i].off ==> SameHeader(m, m', o)
    ensures Tied(g, m', bs[i := bs[i].(used := u)])
  {
    var r := bs[i := bs[i].(used := u)];
    forall k: nat | k < |r| ensures TiedAt(g, m', r, k) {
      assert TiedAt(g, m, bs, k);
      OffFacts(g, bs, i, k);
      if k != i { assert SameHeader(m, m', bs[k].off); }
    }
    BoundaryEnd(g, bs);
    OffFacts(g, bs, i, i);
    assert SameHeader(m, m', g.End());
  }

  lemma OnRingKept(bs: seq<Block>, r: seq<Block>, free: seq<nat>)
    requires OnRing(bs, free)
    requires forall j :: 0 <= j < |bs| && bs[j].off in free ==> IsOff(r, bs[j].off)
    ensures OnRing(r, free)
  {
    forall k: nat | k < |free| ensures IsOff(r, free[k]) {
      assert IsOff(bs, free[k]);
      var j :| 0 <= j < |bs| && bs[j].off == free[k];
    }
  }

  ghost function Merged(g: Geometry, m: Mem, left: nat, right: nat): Mem
    requires left in m.headers && right in m.headers && m.headers[right].next in m.headers
    requires left + g.hdr <= m.headers[right].next && g.hdr > 0
  {
    var end := m.headers[right].next;
    var m1 := PutHeader(m, g.hdr, left, m.headers[left].(next := end));
    PutHeader(m1, g.hdr, end, m1.headers[end].(prev := left))
  }

  lemma MergedLookups(g: Geometry, m: Mem, left: nat, right: nat)
    requires left in m.headers && right in m.headers && m.headers[right].next in m.headers
    requires left + g.hdr <= m.headers[right].next && g.hdr > 0
    ensures m.headers[right].next in PutHeader(m, g.hdr, left, m.headers[left].(next := m.headers[right].next)).headers
  {}

  lemma MergedHeaders(g: Geometry, m: Mem, bs: seq<Block>, i: nat)
    requires g.Ok() && Tiles(g, bs) && Tied(g, m, bs) && i + 1 < |bs|
    ensures bs[i].off in m.headers && bs[i + 1].off in m.headers && m.headers[bs[i + 1].off].next == bs[i + 1].next
    ensures bs[i + 1].next in m.headers && bs[i].off + g.hdr <= bs[i + 1].next
    ensures var left, end := bs[i].off, bs[i + 1].next; var m' := Merged(g, m, left, bs[i + 1].off);
      && HeaderIs(m', left, m.headers[left].(next := end))
      && HeaderIs(m', end, m.headers[end].(prev := left))
      && (forall o :: Boundary(g, bs, o) && o != left && o != end ==> SameHeader(m, m', o))
      && Kept(g, Used(bs), m, m')
  {
    RingFacts(g, m, bs, i);
    RingFacts(g, m, bs, i + 1);
    hide PutHeader, Tiles, Boundary, Kept, Used;
    var left, end := bs[i].off, bs[i + 1].next;
    var h1 := m.headers[left].(next := end);
    var m1 := PutHeader(m, g.hdr, left, h1);
    PutAtBoundary(g, m, bs, left, h1);
    assert SameHeader(m, m1, end);
    var h2 := m1.headers[end].(prev := left);
    PutAtBoundary(g, m1, bs, end, h2);
    KeptTrans(g, Used(bs), m, m1, PutHeader(m1, g.hdr, end, h2));
  }

  lemma MergedShape(g: Geometry, m: Mem, bs: seq<Block>, hn: int, hp: int, free: seq<nat>, i: nat)
    requires Shape(g, m, bs, hn, hp, free) && i + 1 < |bs| && bs[i + 1].off !in free
    ensures bs[i].off in m.headers && bs[i + 1].off in m.headers && m.headers[bs[i + 1].off].next == bs[i + 1].next
    ensures bs[i + 1].next in m.headers && bs[i].off + g.hdr <= bs[i + 1].next
    ensures var m' := Merged(g, m, bs[i].off, bs[i + 1].off);
      Shape(g, m', Join(bs, i), hn, hp, free) && Kept(g, Used(bs), m, m')
  {
    MergedHeaders(g, m, bs, i);
    JoinTiles(g, bs, i);
    RingsHere(g, bs, free);
    hide Merged, Tiles, Boundary, Kept, Used, Join;
    var m' := Merged(g, m, bs[i].off, bs[i + 1].off);
    forall k: nat | k < |free| ensures SameLinks(m, m', free[k]) {
      if free[k] != bs[i].off && free[k] != bs[i + 1].next { assert SameHeader(m, m', free[k]); }
    }
    LinkedKept(m, m', hn, hp, free);
    MergedTied(g, m, m', bs, i);
    JoinOnRing(bs, free, i);
  }

  lemma JoinOnRing(bs: seq<Block>, free: seq<nat>, i: nat)
    requires OnRing(bs, free) && i + 1 < |bs| && bs[i + 1].off !in free
    ensures OnRing(Join(bs, i), free)
  {
    var r := Join(bs, i);
    forall j | 0 <= j < |bs| && bs[j].off in free ensures IsOff(r, bs[j].off) {
      assert j <= i ==> r[j].off == bs[j].off;
      assert j > i + 1 ==> r[j - 1].off == bs[j].off;
    }
    OnRingKept(bs, r, free);
  }

  lemma MergedTied(g: Geometry, m: Mem, m': Mem, bs: seq<Block>, i: nat)
    requires g.Ok() && Tiles(g, bs) && Tied(g, m, bs) && i + 1 < |bs|
    requires bs[i].off in m.headers && bs[i + 1].next in m.headers
    requires HeaderIs(m', bs[i].off, m.headers[bs[i].off].(next := bs[i + 1].next))
    requires HeaderIs(m', bs[i + 1].next, m.headers[bs[i + 1].next].(prev := bs[i].off))
    requires forall o :: Boundary(g, bs, o) && o != bs[i].off && o != bs[i + 1].next ==> SameHeader(m, m', o)
    ensures Tied(g, m', Join(bs, i))
  {
    forall k: nat | k < |Join(bs, i)| ensures TiedAt(g, m', Join(bs, i), k) {
      MergedTiedAt(g, m, m', bs, i, k);
    }
    RingFacts(g, m, bs, i + 1);
    BoundaryEnd(g, bs);
    OffFacts(g, bs, i, |bs| - 1);
    if i + 2 < |bs| { assert SameHeader(m, m', g.End()); }
  }

  /** Block `l` starts at a boundary that no other block has, and never at the tail. */
  lemma OffFacts(g: Geometry, bs: seq<Block>, i: nat, l: nat)
    requires g.Ok() && Tiles(g, bs) && i < |bs| && l < |bs|
    ensures Boundary(g, bs, bs[l].off) && bs[l].off != g.End() && bs[i].off != g.End()
    ensures l != i ==> bs[l].off != bs[i].off
    ensures l + 1 < |bs| ==> bs[l].next == bs[l + 1].off
  {
    BlocksAreBoundaries(g, bs);
  }

  lemma JoinAt(bs: seq<Block>, i: nat, k: nat)
    requires i + 1 < |bs| && k < |Join(bs, i)|
    ensures Join(bs, i)[k] == if k < i then bs[k] else if k == i then Block(bs[i].off, bs[i + 1].next, bs[i].used) else bs[k + 1]
  {}

  lemma MergedRing(g: Geometry, m: Mem, m': Mem, bs: seq<Block>, i: nat, l: nat)
    requires g.Ok() && Tiles(g, bs) && Tied(g, m, bs) && i + 1 < |bs| && l < |bs| && l != i + 1
    requires bs[i].off in m.headers && bs[i + 1].next in m.headers
    requires HeaderIs(m', bs[i].off, m.headers[bs[i].off].(next := bs[i + 1].next))
    requires HeaderIs(m', bs[i + 1].next, m.headers[bs[i + 1].next].(prev := bs[i].off))
    requires forall o :: Boundary(g, bs, o) && o != bs[i].off && o != bs[i + 1].next ==> SameHeader(m, m', o)
    ensures RingIs(m', bs[l].off, bs[l].used, if l == i then bs[i + 1].next else bs[l].next,
                   if l == i + 2 then bs[i].off else PrevOff(g, bs, l))
  {
    assert TiedAt(g, m, bs, l);
    OffFacts(g, bs, i, l);
    OffFacts(g, bs, i + 1, i + 1);
    if i + 2 < |bs| { OffFacts(g, bs, i + 2, l); } else { RingFacts(g, m, bs, i + 1); }
    hide Tiles, Boundary, Tied;
    if l != i && l != i + 2 { assert SameHeader(m, m', bs[l].off); }
  }

  lemma MergedTiedAt(g: Geometry, m: Mem, m': Mem, bs: seq<Block>, i: nat, k: nat)
    requires g.Ok() && Tiles(g, bs) && Tied(g, m, bs) && i + 1 < |bs|
    requires bs[i].off in m.headers && bs[i + 1].next in m.headers
    requires HeaderIs(m', bs[i].off, m.headers[bs[i].off].(next := bs[i + 1].next))
    requires HeaderIs(m', bs[i + 1].next, m.headers[bs[i + 1].next].(prev := bs[i].off))
    requires forall o :: Boundary(g, bs, o) && o != bs[i].off && o != bs[i + 1].next ==> SameHeader(m, m', o)
    requires k < |Join(bs, i)|
    ensures TiedAt(g, m', Join(bs, i), k)
  {
    MergedRing(g, m, m', bs, i, if k <= i then k else k + 1);
    JoinAt(bs, i, k);
    if k > 0 { JoinAt(bs, i, k - 1); }
    hide Tiles, Boundary, Tied, Join, RingIs, HeaderIs, SameHeader;
  }

  ghost function Divided(g: Geometry, m: Mem, at: nat, at2: nat): Mem
    requires at in m.headers && m.headers[at].next in m.headers && g.hdr > 0
    requires at + g.hdr <= at2 && at2 + g.hdr <= m.headers[at].next
  {
    var end := m.headers[at].next;
    var m1 := PutHeader(m, g.hdr, at2, Item(false, end, at, HEAD, HEAD));
    var m2 := PutHeader(m1, g.hdr, end, m1.headers[end].(prev := at2));
    PutHeader(m2, g.hdr, at, m2.headers[at].(next := at2))
  }

  lemma DividedLookups(g: Geometry, m: Mem, at: nat, at2: nat)
    requires at in m.headers && m.headers[at].next in m.headers && g.hdr > 0
    requires at + g.hdr <= at2 && at2 + g.hdr <= m.headers[at].next
    ensures var end := m.headers[at].next;
      var m1 := PutHeader(m, g.hdr, at2, Item(false, end, at, HEAD, HEAD));
      end in m1.headers && at in PutHeader(m1, g.hdr, end, m1.headers[end].(prev := at2)).headers
  {}

  lemma DividedHeaders(g: Geometry, m: Mem, bs: seq<Block>, i: nat, at2: nat)
    requires g.Ok() && Tiles(g, bs) && Tied(g, m, bs) && i < |bs|
    requires bs[i].off + g.hdr <= at2 && at2 + g.hdr <= bs[i].next
    ensures bs[i].off in m.headers && m.headers[bs[i].off].next == bs[i].next && bs[i].next in m.headers
    ensures var at, end := bs[i].off, bs[i].next; var m' := Divided(g, m, at, at2);
      && HeaderIs(m', at, m.headers[at].(next := at2))
      && HeaderIs(m', at2, Item(false, end, at, HEAD, HEAD))
      && HeaderIs(m', end, m.headers[end].(prev := at2))
      && (forall o :: Boundary(g, bs, o) && o != at && o != end ==> SameHeader(m, m', o))
      && Kept(g, Used(bs) - {bs[i]}, m, m') && SameBytes(m, m', at + g.hdr, at2)
  {
    RingFacts(g, m, bs, i);
    hide PutHeader, Tiles, Boundary, Kept, Used, SameBytes;
    var at, end := bs[i].off, bs[i].next;
    var h1 := Item(false, end, at, HEAD, HEAD);
    var m1 := PutHeader(m, g.hdr, at2, h1);
    PutInside(g, m, bs, i, at2, h1);
    assert SameHeader(m, m1, end) && SameHeader(m, m1, at);
    var h2 := m1.headers[end].(prev := at2);
    var m2 := PutHeader(m1, g.hdr, end, h2);
    PutAtBoundary(g, m1, bs, end, h2);
    PutApart(m1, g.hdr, end, h2, at2);
    assert SameHeader(m1, m2, at);
    var h3 := m2.headers[at].(next := at2);
    var m3 := PutHeader(m2, g.hdr, at, h3);
    PutAtBoundary(g, m2, bs, at, h3);
    PutApart(m2, g.hdr, at, h3, at2);
    assert SameHeader(m2, m3, end);
    KeptTrans(g, Used(bs), m1, m2, m3);
    KeptTwice(g, Used(bs) - {bs[i]}, Used(bs), Used(bs) - {bs[i]}, m, m1, m3);
    BytesOutside(m1, m2, m3, g.hdr, end, h2, at, h3, at + g.hdr, at2);
    BytesTrans(m, m1, m3, at + g.hdr, at2);
  }

  lemma BytesOutside(m1: Mem, m2: Mem, m3: Mem, width: nat, o2: nat, h2: Item, o3: nat, h3: Item, lo: nat, hi: nat)
    requires m2 == PutHeader(m1, width, o2, h2) && m3 == PutHeader(m2, width, o3, h3)
    requires hi <= o2 && o3 + width <= lo
    ensures SameBytes(m1, m3, lo, hi)
  {}

  lemma BytesTrans(m1: Mem, m2: Mem, m3: Mem, lo: nat, hi: nat)
    requires SameBytes(m1, m2, lo, hi) && SameBytes(m2, m3, lo, hi)
    ensures SameBytes(m1, m3, lo, hi)
  {}

  lemma DividedShape(g: Geometry, m: Mem, bs: seq<Block>, hn: int, hp: int, free: seq<nat>, i: nat, s: nat)
    requires Shape(g, m, bs, hn, hp, free) && i < |bs|
    requires Multiple(s, g.align) && s >= g.align && bs[i].off + g.hdr + s + g.hdr + g.align <= bs[i].next
    ensures bs[i].off in m.headers && m.headers[bs[i].off].next == bs[i].next && bs[i].next in m.headers
    ensures var at2 := bs[i].off + g.hdr + s; var m' := Divided(g, m, bs[i].off, at2);
      && Shape(g, m', Halves(g, bs, i, s), hn, hp, free) && at2 in m'.headers
      && Kept(g, Used(bs) - {bs[i]}, m, m') && SameBytes(m, m', bs[i].off + g.hdr, at2)
  {
    hide Divided, Tiles, Boundary, Kept, Used, Halves, SameBytes, Multiple;
    var at2 := bs[i].off + g.hdr + s;
    DividedHeaders(g, m, bs, i, at2);
    HalvesTile(g, bs, i, s);
    RingsHere(g, bs, free);
    var m' := Divided(g, m, bs[i].off, at2);
    forall k: nat | k < |free| ensures SameLinks(m, m', free[k]) {
      if free[k] != bs[i].off && free[k] != bs[i].next { assert SameHeader(m, m', free[k]); }
    }
    LinkedKept(m, m', hn, hp, free);
    DividedTied(g, m, m', bs, i, s);
    HalvesOnRing(g, bs, free, i, s);
  }

  lemma HalvesTile(g: Geometry, bs: seq<Block>, i: nat, s: nat)
    requires g.Ok() && Tiles(g, bs) && i < |bs|
    requires Multiple(s, g.align) && s >= g.align && bs[i].off + g.hdr + s + g.hdr + g.align <= bs[i].next
    ensures Tiles(g, Halves(g, bs, i, s))
  {
    CutShape(g, bs, i, s);
    CutTiles(g, bs, i, s, Cut(g, bs, i, s));
    HalvesCut(g, bs, i, s);
    RetagTiles(g, Cut(g, bs, i, s), i, bs[i].used);
  }

  lemma HalvesOnRing(g: Geometry, bs: seq<Block>, free: seq<nat>, i: nat, s: nat)
    requires OnRing(bs, free) && i < |bs|
    ensures OnRing(Halves(g, bs, i, s), free)
  {
    var r := Halves(g, bs, i, s);
    forall j | 0 <= j < |bs| && bs[j].off in free ensures IsOff(r, bs[j].off) {
      assert r[if j <= i then j else j + 1].off == bs[j].off;
    }
    OnRingKept(bs, r, free);
  }

  lemma DividedTied(g: Geometry, m: Mem, m': Mem, bs: seq<Block>, i: nat, s: nat)
    requires g.Ok() && Tiles(g, bs) && Tied(g, m, bs) && i < |bs|
    requires bs[i].off in m.headers && bs[i].next in m.headers
    requires var at2 := bs[i].off + g.hdr + s;
      && HeaderIs(m', bs[i].off, m.headers[bs[i].off].(next := at2))
      && HeaderIs(m', at2, Item(false, bs[i].next, bs[i].off, HEAD, HEAD))
      && HeaderIs(m', bs[i].next, m.headers[bs[i].next].(prev := at2))
    requires forall o :: Boundary(g, bs, o) && o != bs[i].off && o != bs[i].next ==> SameHeader(m, m', o)
    ensures Tied(g, m', Halves(g, bs, i, s))
  {
    forall k: nat | k < |Halves(g, bs, i, s)| ensures TiedAt(g, m', Halves(g, bs, i, s), k) {
      DividedTiedAt(g, m, m', bs, i, s, k);
    }
    RingFacts(g, m, bs, i);
    BoundaryEnd(g, bs);
    OffFacts(g, bs, i, |bs| - 1);
    if i + 1 < |bs| { assert SameHeader(m, m', g.End()); }
  }

  lemma HalvesAt(g: Geometry, bs: seq<Block>, i: nat, s: nat, k: nat)
    requires i < |bs| && k < |Halves(g, bs, i, s)|
    ensures var m := bs[i].off + g.hdr + s;
      Halves(g, bs, i, s)[k] == if k < i then bs[k] else if k == i then Block(bs[i].off, m, bs[i].used)
                                else if k == i + 1 then Block(m, bs[i].next, false) else bs[k - 1]
    ensures |Halves(g, bs, i, s)| == |bs| + 1
  {}

  lemma DividedRing(g: Geometry, m: Mem, m': Mem, bs: seq<Block>, i: nat, at2: nat, l: nat)
    requires g.Ok() && Tiles(g, bs) && Tied(g, m, bs) && i < |bs| && l < |bs|
    requires bs[i].off in m.headers && bs[i].next in m.headers
    requires HeaderIs(m', bs[i].off, m.headers[bs[i].off].(next := at2))
    requires HeaderIs(m', bs[i].next, m.headers[bs[i].next].(prev := at2))
    requires forall o :: Boundary(g, bs, o) && o != bs[i].off && o != bs[i].next ==> SameHeader(m, m', o)
    ensures RingIs(m', bs[l].off, bs[l].used, if l == i then at2 else bs[l].next,
                   if l == i + 1 then at2 else PrevOff(g, bs, l))
  {
    assert TiedAt(g, m, bs, l);
    OffFacts(g, bs, i, l);
    if i + 1 < |bs| { OffFacts(g, bs, i + 1, l); OffFacts(g, bs, l, i); } else { RingFacts(g, m, bs, i); }
    hide Tiles, Boundary, Tied;
    if l != i && l != i + 1 { assert SameHeader(m, m', bs[l].off); }
  }

  lemma DividedTiedAt(g: Geometry, m: Mem, m': Mem, bs: seq<Block>, i: nat, s: nat, k: nat)
    requires g.Ok() && Tiles(g, bs) && Tied(g, m, bs) && i < |bs|
    requires bs[i].off in m.headers && bs[i].next in m.headers
    requires var at2 := bs[i].off + g.hdr + s;
      && HeaderIs(m', bs[i].off, m.headers[bs[i].off].(next := at2))
      && HeaderIs(m', at2, Item(false, bs[i].next, bs[i].off, HEAD, HEAD))
      && HeaderIs(m', bs[i].next, m.headers[bs[i].next].(prev := at2))
    requires forall o :: Boundary(g, bs, o) && o != bs[i].off && o != bs[i].next ==> SameHeader(m, m', o)
    requires k < |Halves(g, bs, i, s)|
    ensures TiedAt(g, m', Halves(g, bs, i, s), k)
  {
    var at2 := bs[i].off + g.hdr + s;
    assert RingIs(m', at2, false, bs[i].next, bs[i].off);
    HalvesAt(g, bs, i, s, k);
    if k != i + 1 { DividedRing(g, m, m', bs, i, at2, if k <= i then k else k - 1); }
    if k > 0 { HalvesAt(g, bs, i, s, k - 1); }
    hide Tiles, Boundary, Tied, Halves, RingIs, HeaderIs, SameHeader;
  }

  lemma TwelveAligned()
    ensures Align(12, 4) == 12
  {
    assert Align(4, 4) == 4 && Align(8, 4) == 8;
  }

  lemma ListedItem(g: Geometry, m: Mem, st: State, hn: int, hp: int, k: nat)
    requires g.Ok() && Inv(g, st) && Tied(g, m, st.blocks) && Linked(m, hn, hp, st.free) && k < |st.free|
    ensures st.free[k] in m.headers && m.headers[st.free[k]].nextFree == Nth(st.free, k + 1)
    ensures m.headers[st.free[k]].next - st.free[k] - g.hdr == SizeAt(g, st.blocks, st.free[k])
  {
    ListedBlock(g, st, k);
    assert LinkedAt(m, st.free, k);
    assert TiedAt(g, m, st.blocks, IndexOf(st.blocks, st.free[k], 0));
  }

  lemma FirstListedIs(g: Geometry, bs: seq<Block>, free: seq<nat>, s: nat, k: nat)
    requires k < |free| && SizeAt(g, bs, free[k]) >= s && forall l :: 0 <= l < k ==> SizeAt(g, bs, free[l]) < s
    ensures FirstListed(g, bs, free, s, 0) == k
  {}

  lemma NoneListed(g: Geometry, bs: seq<Block>, free: seq<nat>, s: nat, k: nat)
    requires k <= |free| && Nth(free, k) == HEAD && forall l :: 0 <= l < k ==> SizeAt(g, bs, free[l]) < s
    ensures FirstListed(g, bs, free, s, 0) == |free|
  {}

  lemma RelinkedKept(g: Geometry, bs: seq<Block>, m: Mem, m': Mem)
    requires Relinked(g, bs, m, m')
    ensures Kept(g, Used(bs), m, m')
  {}

  lemma RelinkedAt(g: Geometry, bs: seq<Block>, m: Mem, m': Mem, o: nat)
    requires Relinked(g, bs, m, m') && IsOff(bs, o) && o in m.headers
    ensures o in m'.headers
  {
    OffIsBoundary(g, bs, o);
    assert SameRing(m, m', o);
  }

  lemma DropKeepsOut(free: seq<nat>, was: seq<nat>, k: nat, o: nat)
    requires k < |was| && free == Drop(was, k) && o !in was
    ensures o !in free
  {}

  /** How handing out the free block `i` looks in two steps: split, then mark. */
  lemma OccupyFacts(g: Geometry, bs: seq<Block>, free: seq<nat>, i: nat, s: nat)
    requires Pool(g) && WellFormed(g, bs) && ListsFree(bs, free) && i < |bs| && !bs[i].used
    requires Multiple(s, g.align) && s >= g.align && Payload(g, bs[i]) >= s
    ensures Splits(g, bs[i], s) <==> Payload(g, bs[i]) >= s + g.hdr + g.minSize
    ensures !Splits(g, bs[i], s) ==> Take(g, bs, i, s) == bs[i := bs[i].(used := true)]
    ensures Splits(g, bs[i], s) ==>
      var r := Halves(g, bs, i, s); var item := bs[i].off + g.hdr + s;
      && item + g.hdr + g.align <= bs[i].next && item !in free && IsOff(r, item)
      && i < |r| && r[i].off == bs[i].off && r[i := r[i].(used := true)] == Take(g, bs, i, s)
      && Used(r) == Used(bs) && Used(bs) - {bs[i]} == Used(bs)
  {
    TwelveAligned();
    if Splits(g, bs[i], s) {
      var item := bs[i].off + g.hdr + s;
      HalvesCut(g, bs, i, s);
      HalvesUsed(g, bs, i, s);
      InsideFresh(g, bs, i, item);
      assert item !in Elems(free);
      HalvesAt(g, bs, i, s, i + 1);
      assert Halves(g, bs, i, s)[i + 1].off == item;
    }
  }

  /** The free list once item `k`, block `b`, is handed out. */
  ghost function OccupiedList(g: Geometry, b: Block, free: seq<nat>, k: nat, s: nat): seq<nat>
    requires g.Ok() && k < |free|
  {
    if Splits(g, b, s) then [free[k] + g.hdr + s] + Drop(free, k) else Drop(free, k)
  }

  lemma TakenFacts(g: Geometry, st: State, k: nat, i: nat, s: nat)
    requires g.Ok() && Inv(g, st) && k < |st.free| && i < |st.blocks| && st.blocks[i].off == st.free[k]
    requires !st.blocks[i].used && Payload(g, st.blocks[i]) >= s && Multiple(s, g.align) && s >= g.align
    ensures var r := Take(g, st.blocks, i, s);
      var avail := Available(g, st.blocks) - (if Splits(g, st.blocks[i], s) then s + g.hdr else Payload(g, st.blocks[i]));
      && Available(g, r) == avail
      && Taken(g, st, k, i, s).blocks == r
      && Taken(g, st, k, i, s).free == OccupiedList(g, st.blocks[i], st.free, k, s)
      && Taken(g, st, k, i, s).max == (if PoolSize(g) - avail > st.max then PoolSize(g) - avail else st.max)
      && Inv(g, Taken(g, st, k, i, s))
  {
    hide Available, Take, Inv;
    TakenKeeps(g, st, k, i, s);
    TakenTotal(g, st, k, i, s);
  }

  lemma TakenTotal(g: Geometry, st: State, k: nat, i: nat, s: nat)
    requires g.Ok() && Inv(g, st) && i < |st.blocks|
    requires !st.blocks[i].used && Payload(g, st.blocks[i]) >= s && Multiple(s, g.align) && s >= g.align
    ensures Available(g, Take(g, st.blocks, i, s)) ==
      Available(g, st.blocks) - (if Splits(g, st.blocks[i], s) then s + g.hdr else Payload(g, st.blocks[i]))
  {
    TakeLists(g, st.blocks, i, s);
  }

  lemma HalvesOff(g: Geometry, bs: seq<Block>, i: nat, s: nat)
    requires i < |bs|
    ensures IsOff(Halves(g, bs, i, s), bs[i].off + g.hdr + s)
  {
    HalvesAt(g, bs, i, s, i + 1);
    assert Halves(g, bs, i, s)[i + 1].off == bs[i].off + g.hdr + s;
  }

  lemma HeaderSize(g: Geometry, m: Mem, bs: seq<Block>, hn: int, hp: int, free: seq<nat>, i: nat)
    requires Shape(g, m, bs, hn, hp, free) && i < |bs|
    ensures bs[i].off in m.headers && m.headers[bs[i].off].next == bs[i].next
  {
    assert TiedAt(g, m, bs, i);
  }

  /** What the items on either side of block `i` look like; beyond the ends lies the used tail. */
  lemma NeighbourItems(g: Geometry, m: Mem, bs: seq<Block>, hn: int, hp: int, free: seq<nat>, i: nat)
    requires Shape(g, m, bs, hn, hp, free) && i < |bs|
    ensures bs[i].off in m.headers
    ensures var h := m.headers[bs[i].off];
      && h.prev in m.headers && h.next in m.headers && h.next == bs[i].next
      && (i > 0 ==> h.prev == bs[i - 1].off && m.headers[h.prev].used == bs[i - 1].used)
      && (i == 0 ==> m.headers[h.prev].used)
      && (i + 1 < |bs| ==> h.next == bs[i + 1].off && m.headers[h.next].used == bs[i + 1].used)
      && (i + 1 == |bs| ==> m.headers[h.next].used)
  {
    RingFacts(g, m, bs, i);
  }

  lemma DropLeaves(free: seq<nat>, k: nat)
    requires NoDup(free) && k < |free|
    ensures free[k] !in Drop(free, k)
  {}

  /** Merging left and then right is merging right and then left. */
  lemma JoinsCommute(bs: seq<Block>, i: nat)
    requires i < |bs|
    ensures var l := JoinLeft(bs, i); var j := if FreeOnLeft(bs, i) then i - 1 else i;
      j < |l| && JoinRight(l, j) == JoinLeft(JoinRight(bs, i), i)
  {
    if FreeOnLeft(bs, i) && FreeOnRight(bs, i) {
      var a, b := Join(Join(bs, i - 1), i - 1), Join(Join(bs, i), i - 1);
      assert |a| == |b| && forall k :: 0 <= k < |a| ==> a[k] == b[k];
    }
  }

  /** Everything rt_memheap_free relies on, gathered for one live block. */
  lemma ReleaseFacts(g: Geometry, st: State, i: nat)
    requires g.Ok() && Inv(g, st) && i < |st.blocks| && st.blocks[i].used
    ensures var bs := st.blocks; var c := bs[i := bs[i].(used := false)];
      var l := JoinLeft(c, i); var j := if FreeOnLeft(c, i) then i - 1 else i; var r := Release(bs, i);
      && FreeOnLeft(c, i) == FreeOnLeft(bs, i) && FreeOnRight(c, i) == FreeOnRight(bs, i)
      && bs[i].off !in st.free
      && j < |l| && l[j].off == (if FreeOnLeft(c, i) then bs[i - 1].off else bs[i].off) && !l[j].used
      && FreeOnRight(l, j) == FreeOnRight(bs, i) && (FreeOnRight(l, j) ==> l[j + 1].off == bs[i + 1].off && l[j + 1].off in st.free)
      && JoinRight(l, j) == r
      && Used(c) == Used(bs) - {bs[i]} && Used(r) == Used(bs) - {bs[i]}
      && Inv(g, State(r, ReleasedList(bs, st.free, i), st.max))
      && Available(g, r) == Available(g, bs) + bs[i].next - bs[i].off - g.hdr
           + (if FreeOnRight(bs, i) then g.hdr else 0) + (if FreeOnLeft(bs, i) then g.hdr else 0)
  {
    hide Available, Used, ReleasedList, JoinRight, JoinLeft, FreeOffs, Elems, NoDup;
    var bs := st.blocks;
    var c := bs[i := bs[i].(used := false)];
    JoinsCommute(c, i);
    LeftShape(c, i);
    RetagUsed(g, bs, i, false);
    ReleasedKeeps(g, st, i);
    ReleaseLists(g, bs, i);
    ListMembers(g, st, i);
    if i + 1 < |bs| { ListMembers(g, st, i + 1); }
  }

  lemma ListMembers(g: Geometry, st: State, i: nat)
    requires g.Ok() && Inv(g, st) && i < |st.blocks|
    ensures st.blocks[i].off in st.free <==> !st.blocks[i].used
  {
    FreeSplit(g, st.blocks, i);
    hide FreeOffs;
    assert st.blocks[i].off in Elems(st.free) <==> st.blocks[i].off in st.free;
  }

  lemma LeftShape(c: seq<Block>, i: nat)
    requires i < |c| && !c[i].used
    ensures var l := JoinLeft(c, i); var j := if FreeOnLeft(c, i) then i - 1 else i;
      && j < |l| && l[j].off == (if FreeOnLeft(c, i) then c[i - 1].off else c[i].off) && !l[j].used
      && FreeOnRight(l, j) == FreeOnRight(c, i) && (FreeOnRight(l, j) ==> l[j + 1].off == c[i + 1].off)
  {}

  lemma ItemThere(g: Geometry, m: Mem, bs: seq<Block>, hn: int, hp: int, free: seq<nat>, i: nat)
    requires Shape(g, m, bs, hn, hp, free) && i < |bs|
    ensures IsOff(bs, bs[i].off) && bs[i].off in m.headers
  {
    assert TiedAt(g, m, bs, i);
  }

  lemma UnlistedSub(free: seq<nat>, o: nat, x: nat)
    ensures x !in free ==> x !in Unlisted(free, o)
  {}

  lemma JoinKeepsOff(bs: seq<Block>, j: nat)
    requires j + 1 < |bs|
    ensures j < |Join(bs, j)| && Join(bs, j)[j].off == bs[j].off
  {}

  // ---------------------------------------------------------------- facts for realloc

  lemma SameHeadersShape(g: Geometry, m: Mem, m': Mem, bs: seq<Block>, hn: int, hp: int, free: seq<nat>)
    requires Shape(g, m, bs, hn, hp, free)
    requires forall o :: Boundary(g, bs, o) ==> SameHeader(m, m', o)
    ensures Shape(g, m', bs, hn, hp, free)
  {
    RingsHere(g, bs, free);
    BoundaryEnd(g, bs);
    hide Tiles, Boundary;
    assert SameHeader(m, m', g.End());
    forall k: nat | k < |free| ensures SameLinks(m, m', free[k]) { assert SameHeader(m, m', free[k]); }
    LinkedKept(m, m', hn, hp, free);
    forall i: nat | i < |bs| ensures TiedAt(g, m', bs, i) {
      assert TiedAt(g, m, bs, i);
      OffFacts(g, bs, i, i);
      assert SameHeader(m, m', bs[i].off);
    }
  }

  lemma CopyIntoItem(g: Geometry, m: Mem, bs: seq<Block>, hn: int, hp: int, free: seq<nat>, j: nat, src: nat, k: nat)
    requires Shape(g, m, bs, hn, hp, free) && j < |bs| && bs[j].off + g.hdr + k <= bs[j].next
    requires bs[j].off + g.hdr + k <= src || src + k <= bs[j].off + g.hdr
    ensures var m' := CopyBytes(m, g.hdr, bs[j].off + g.hdr, src, k);
      && Shape(g, m', bs, hn, hp, free)
      && Kept(g, Used(bs) - {bs[j]}, m, m') && CopiedBytes(m, m', bs[j].off + g.hdr, src, k)
  {
    hide CopyBytes, Kept, Used, CopiedBytes;
    CopyInto(g, m, bs, j, src, k);
    SameHeadersShape(g, m, CopyBytes(m, g.hdr, bs[j].off + g.hdr, src, k), bs, hn, hp, free);
  }

  lemma NeighbourSize(g: Geometry, m: Mem, bs: seq<Block>, hn: int, hp: int, free: seq<nat>, i: nat)
    requires Shape(g, m, bs, hn, hp, free) && i < |bs|
    ensures i + 1 < |bs| ==> bs[i].next == bs[i + 1].off && bs[i + 1].off in m.headers && m.headers[bs[i + 1].off].next == bs[i + 1].next
  {
    RingFacts(g, m, bs, i);
  }

  /** The ways of rt_memheap_realloc, spelled out on the sizes the code computes. */
  lemma ReallocFacts(g: Geometry, st: State, p: nat, s: nat)
    requires g.Ok() && Inv(g, st) && Live(g, st.blocks, p)
    ensures var bs := st.blocks; var i := Find(g, bs, p);
      && i < |bs| && bs[i].used && bs[i].off + g.hdr == p && p < bs[i].next && PayloadSize(g, bs, p) == bs[i].next - p
    ensures var bs := st.blocks; var i := Find(g, bs, p);
      var has := bs[i].next - p; var r := MemHeapSpec.ReallocLive(g, st, p, s);
      var grows := s > has && FreeOnRight(bs, i) && bs[i + 1].next - bs[i + 1].off - g.hdr + has > s + g.minSize;
      && (grows ==> WayOf(g, bs, i, s) == Grow && r == (Some(p), Grown(g, st, i, s)))
      && (s <= has && s + g.hdr + g.minSize >= has ==> r == (Some(p), st))
      && (s + g.hdr + g.minSize < has ==> WayOf(g, bs, i, s) == ShrinkTail && r == (Some(p), Shrunk(g, st, i, s)))
      && (s > has && !grows ==>
           r == (var (q, st') := MemHeapSpec.Alloc(g, st, s); (q, if q.Some? then MemHeapSpec.Free(g, st', p) else st')))
  {
    hide MemHeapSpec.Alloc, MemHeapSpec.Free, Grown, Shrunk, Tiles, ListsFree, Available;
    var i := Find(g, st.blocks, p);
    FindIsLive(g, st.blocks, p);
    InBlock(g, st.blocks, i);
  }

  lemma GrowFacts(g: Geometry, st: State, i: nat, s: nat)
    requires g.Ok() && Inv(g, st) && i < |st.blocks| && st.blocks[i].used
    requires Multiple(s, g.align) && WayOf(g, st.blocks, i, s) == Grow
    ensures var bs := st.blocks; var tail := bs[i].off + g.hdr + s; var k := Where(st.free, bs[i].next, 0);
      && i + 1 < |bs| && bs[i].next == bs[i + 1].off && bs[i].off + g.hdr < bs[i].next <= tail && s >= g.align
      && k < |st.free| && st.free[k] == bs[i].next && Drop(st.free, k) == Unlisted(st.free, bs[i].next)
      && bs[i].next !in Unlisted(st.free, bs[i].next) && tail !in Unlisted(st.free, bs[i].next)
    ensures var bs := st.blocks; var tail := bs[i].off + g.hdr + s; var j := Join(bs, i);
      && i < |j| && j[i].off == bs[i].off && tail + g.hdr + g.align <= j[i].next
      && Halves(g, j, i, s) == Cut(g, j, i, s) && IsOff(Halves(g, j, i, s), tail)
      && Used(j) - {j[i]} == Used(bs) - {bs[i]}
      && Used(Cut(g, j, i, s)) == Used(bs) - {bs[i]} + {Block(bs[i].off, tail, true)} && Block(bs[i].off, tail, true) !in Used(bs)
      && bs[i] in Used(bs)
    ensures var bs := st.blocks; var c := Cut(g, Join(bs, i), i, s); var r := Grown(g, st, i, s);
      var avail := Available(g, bs) - (s - (bs[i].next - bs[i].off - g.hdr));
      && Inv(g, r) && Available(g, c) == avail && r.blocks == c && r.free == [bs[i].off + g.hdr + s] + Unlisted(st.free, bs[i].next)
      && r.max == (if PoolSize(g) - avail > st.max then PoolSize(g) - avail else st.max)
  {
    hide Inv, Available, Used, Cut, Join, Unlisted, Halves, IsOff, Multiple;
    var bs := st.blocks;
    GrowRoom(g, st, i, s);
    GrowList(g, st, i, s);
    GrowUsed(g, st, i, s);
    GrownKeeps(g, st, i, s);
    GrowTotal(g, st, i, s);
  }

  lemma GrowTotal(g: Geometry, st: State, i: nat, s: nat)
    requires g.Ok() && Inv(g, st) && i < |st.blocks| && st.blocks[i].used
    requires Multiple(s, g.align) && WayOf(g, st.blocks, i, s) == Grow
    ensures i + 1 < |st.blocks| && i < |Join(st.blocks, i)|
    ensures Available(g, Cut(g, Join(st.blocks, i), i, s)) == Available(g, st.blocks) - (s - (st.blocks[i].next - st.blocks[i].off - g.hdr))
  {
    hide Available, Cut, Tiles, FreeOffs, Used;
    GrowKeeps(g, st.blocks, i, s);
  }

  lemma GrowRoom(g: Geometry, st: State, i: nat, s: nat)
    requires g.Ok() && Inv(g, st) && i < |st.blocks| && st.blocks[i].used
    requires Multiple(s, g.align) && WayOf(g, st.blocks, i, s) == Grow
    ensures var bs := st.blocks; var tail := bs[i].off + g.hdr + s; var j := Join(bs, i);
      && i + 1 < |bs| && bs[i].next == bs[i + 1].off && bs[i].off + g.hdr < bs[i].next <= tail && s >= g.align
      && i < |j| && j[i].off == bs[i].off && j[i].used && tail + g.hdr + g.align <= j[i].next
      && Halves(g, j, i, s) == Cut(g, j, i, s) && IsOff(Halves(g, j, i, s), tail)
  {
    var bs := st.blocks;
    InBlock(g, bs, i);
    GrowJoins(g, bs, i, s);
    MultipleGap(0, s, g.align);
    TailFits(g, Join(bs, i), i, s);
    HalvesCut(g, Join(bs, i), i, s);
    HalvesOff(g, Join(bs, i), i, s);
  }

  lemma GrowList(g: Geometry, st: State, i: nat, s: nat)
    requires g.Ok() && Inv(g, st) && i < |st.blocks| && st.blocks[i].used
    requires Multiple(s, g.align) && WayOf(g, st.blocks, i, s) == Grow && st.blocks[i].next == st.blocks[i + 1].off
    ensures var bs := st.blocks; var tail := bs[i].off + g.hdr + s; var k := Where(st.free, bs[i].next, 0);
      && k < |st.free| && st.free[k] == bs[i].next && Drop(st.free, k) == Unlisted(st.free, bs[i].next)
      && bs[i].next !in Unlisted(st.free, bs[i].next) && tail !in Unlisted(st.free, bs[i].next)
  {
    ListMembers(g, st, i + 1);
    UnlistedDrops(st.free, st.blocks[i].next);
    GrownFresh(g, st.blocks, i, s);
    hide Tiles, FreeOffs, NoDup, Unlisted;
    assert st.blocks[i].next !in Elems(Unlisted(st.free, st.blocks[i].next));
    assert st.blocks[i].off + g.hdr + s !in Elems(Unlisted(st.free, st.blocks[i].next));
    ElemsMember(Unlisted(st.free, st.blocks[i].next), st.blocks[i].next);
    ElemsMember(Unlisted(st.free, st.blocks[i].next), st.blocks[i].off + g.hdr + s);
  }

  lemma ElemsMember(free: seq<nat>, o: nat)
    ensures o in Elems(free) <==> o in free
  {}

  lemma GrowUsed(g: Geometry, st: State, i: nat, s: nat)
    requires g.Ok() && Inv(g, st) && i < |st.blocks| && st.blocks[i].used
    requires Multiple(s, g.align) && WayOf(g, st.blocks, i, s) == Grow
    ensures var bs := st.blocks; var tail := bs[i].off + g.hdr + s; var j := Join(bs, i);
      && i < |j| && Used(j) - {j[i]} == Used(bs) - {bs[i]}
      && Used(Cut(g, j, i, s)) == Used(bs) - {bs[i]} + {Block(bs[i].off, tail, true)} && Block(bs[i].off, tail, true) !in Used(bs)
      && bs[i] in Used(bs)
  {
    hide Used, Cut, Join, Tiles, NoFreeNeighbours, FreeOffs, Available, Multiple;
    GrowJoins(g, st.blocks, i, s);
    UsedHere(st.blocks, i);
    NotThere(g, st.blocks, i, Block(st.blocks[i].off, st.blocks[i].off + g.hdr + s, true));
    UsedMember(st.blocks, Block(st.blocks[i].off, st.blocks[i].off + g.hdr + s, true));
    GrowKeeps(g, st.blocks, i, s);
  }

  lemma UsedHere(bs: seq<Block>, i: nat)
    requires i < |bs| && bs[i].used
    ensures bs[i] in Used(bs)
  {}

  lemma GrownBytes(g: Geometry, bs: seq<Block>, i: nat, s: nat, bs': seq<Block>, m0: Mem, m1: Mem, m2: Mem, m3: Mem, m4: Mem)
    requires i + 1 < |bs| && i < |Join(bs, i)|
    requires var tail := bs[i].off + g.hdr + s; var x := Block(bs[i].off, tail, true);
      && Used(Join(bs, i)) - {Join(bs, i)[i]} == Used(bs) - {bs[i]}
      && Used(bs') == Used(bs) - {bs[i]} + {x} && x !in Used(bs) && bs[i] in Used(bs) && bs[i].next <= tail
      && SameBytes(m2, m3, bs[i].off + g.hdr, tail)
    requires Kept(g, Used(bs), m0, m1) && Kept(g, Used(bs), m1, m2)
    requires Kept(g, Used(Join(bs, i)) - {Join(bs, i)[i]}, m2, m3) && Kept(g, Used(bs'), m3, m4)
    ensures Kept(g, Used(bs) * Used(bs'), m0, m4) && SameBytes(m0, m4, bs[i].off + g.hdr, bs[i].next)
  {
    hide Kept, Used, Join, SameBytes;
    var tail := bs[i].off + g.hdr + s;
    var t := Used(bs) * Used(bs');
    KeptTrans(g, Used(bs), m0, m1, m2);
    KeptTwice(g, Used(bs), Used(bs) - {bs[i]}, t, m0, m2, m3);
    KeptTwice(g, t, Used(bs'), t, m0, m3, m4);
    KeptOne(g, Used(bs), bs[i], m0, m2);
    KeptOne(g, Used(bs'), Block(bs[i].off, tail, true), m3, m4);
    BytesLess(m2, m3, bs[i].off + g.hdr, tail, bs[i].next);
    BytesLess(m3, m4, bs[i].off + g.hdr, tail, bs[i].next);
    BytesTrans(m0, m2, m3, bs[i].off + g.hdr, bs[i].next);
    BytesTrans(m0, m3, m4, bs[i].off + g.hdr, bs[i].next);
  }

  lemma BytesLess(m: Mem, m': Mem, lo: nat, hi: nat, mid: nat)
    requires SameBytes(m, m', lo, hi) && mid <= hi
    ensures SameBytes(m, m', lo, mid)
  {}

  lemma ShrinkFacts(g: Geometry, st: State, i: nat, s: nat)
    requires g.Ok() && Inv(g, st) && i < |st.blocks| && st.blocks[i].used
    requires Multiple(s, g.align) && s > 0 && WayOf(g, st.blocks, i, s) == ShrinkTail
    ensures var bs := st.blocks; var tail := bs[i].off + g.hdr + s; var c := Halves(g, bs, i, s);
      && s >= g.align && tail + g.hdr + g.align <= bs[i].next && tail !in st.free
      && i + 1 < |c| && c[i + 1].off == tail && !c[i + 1].used
      && FreeOnRight(c, i + 1) == FreeOnRight(bs, i)
      && (FreeOnRight(c, i + 1) ==> c[i + 2].off == bs[i + 1].off && c[i + 2].off in st.free)
      && JoinRight(c, i + 1) == Shrink(g, bs, i, s)
      && Used(c) == Used(bs) - {bs[i]} + {Block(bs[i].off, tail, true)} && Used(Shrink(g, bs, i, s)) == Used(c)
      && Block(bs[i].off, tail, true) !in Used(bs)
    ensures var bs := st.blocks; var tail := bs[i].off + g.hdr + s; var r := Shrunk(g, st, i, s);
      && Inv(g, r) && r.blocks == Shrink(g, bs, i, s) && r.max == st.max
      && r.free == [tail] + (if FreeOnRight(bs, i) then Unlisted(st.free, bs[i + 1].off) else st.free)
      && Available(g, r.blocks) == Available(g, bs) + bs[i].next - bs[i].off - g.hdr - s - g.hdr + (if FreeOnRight(bs, i) then g.hdr else 0)
  {
    hide Available, Used, Cut, Unlisted, JoinRight, Halves, FreeOffs, Elems, NoDup, Tiles, NoFreeNeighbours;
    var bs := st.blocks;
    TailFits(g, bs, i, s);
    MultipleGap(0, s, g.align);
    ShrunkKeeps(g, st, i, s);
    ShrinkLists(g, bs, i, s);
    ShrinkKeeps(g, bs, i, s);
    CutUsed(g, bs, i, s);
    UsedDistinct(g, bs, i);
    NotThere(g, bs, i, Block(bs[i].off, bs[i].off + g.hdr + s, true));
    UsedMember(bs, Block(bs[i].off, bs[i].off + g.hdr + s, true));
    ShrinkShape(g, bs, i, s);
    InsideFresh(g, bs, i, bs[i].off + g.hdr + s);
    ElemsMember(st.free, bs[i].off + g.hdr + s);
    if FreeOnRight(bs, i) { ListMembers(g, st, i + 1); }
  }

  lemma UsedMember(bs: seq<Block>, b: Block)
    ensures b !in bs ==> b !in Used(bs)
  {}

  lemma ShrinkShape(g: Geometry, bs: seq<Block>, i: nat, s: nat)
    requires i < |bs| && bs[i].used
    ensures var c := Halves(g, bs, i, s); var tail := bs[i].off + g.hdr + s;
      && c == Cut(g, bs, i, s) && i + 1 < |c| && c[i + 1].off == tail && !c[i + 1].used
      && FreeOnRight(c, i + 1) == FreeOnRight(bs, i) && (FreeOnRight(c, i + 1) ==> c[i + 2].off == bs[i + 1].off)
      && JoinRight(c, i + 1) == Shrink(g, bs, i, s)
  {
    HalvesCut(g, bs, i, s);
    HalvesAt(g, bs, i, s, i);
    HalvesAt(g, bs, i, s, i + 1);
    if i + 1 < |bs| { HalvesAt(g, bs, i, s, i + 2); }
    JoinRightLeft(g, Halves(g, bs, i, s), i + 1);
  }

  lemma JoinRightLeft(g: Geometry, c: seq<Block>, i: nat)
    requires 0 < i < |c| && c[i - 1].used
    ensures PlugHoles(c, i) == JoinRight(c, i)
  {}

  lemma ShrunkBytes(g: Geometry, bs: seq<Block>, i: nat, s: nat, bs': seq<Block>, m0: Mem, m1: Mem, m2: Mem, m3: Mem)
    requires i < |bs|
    requires var tail := bs[i].off + g.hdr + s; var x := Block(bs[i].off, tail, true);
      && Used(Halves(g, bs, i, s)) == Used(bs) - {bs[i]} + {x} && Used(bs') == Used(Halves(g, bs, i, s)) && x !in Used(bs)
      && SameBytes(m0, m1, bs[i].off + g.hdr, tail)
    requires Kept(g, Used(bs) - {bs[i]}, m0, m1)
    requires Kept(g, Used(Halves(g, bs, i, s)), m1, m2) && Kept(g, Used(bs'), m2, m3)
    ensures Kept(g, Used(bs) * Used(bs'), m0, m3) && SameBytes(m0, m3, bs[i].off + g.hdr, bs[i].off + g.hdr + s)
  {
    hide Kept, Used, Halves, SameBytes;
    var tail := bs[i].off + g.hdr + s;
    var t := Used(bs) * Used(bs');
    KeptTrans(g, Used(bs'), m1, m2, m3);
    KeptTwice(g, Used(bs) - {bs[i]}, Used(bs'), t, m0, m1, m3);
    KeptOne(g, Used(bs'), Block(bs[i].off, tail, true), m1, m3);
    BytesTrans(m0, m1, m3, bs[i].off + g.hdr, tail);
  }
}
