/** The code of rt-thread/src/mem.c: headers linked by offsets inside the heap they describe.
    Each method follows its C function store by store; its contract says which specification
    function of `SmallMemSpec` it computes and whose payload bytes it leaves alone. */
module SmallMem {
  import opened Alignment
  import opened Blocks
  import opened Layout
  import opened Memory
  import opened SmallMemSpec

  /** struct rt_small_mem_item: `used` is the low bit of pool_ptr. */
  datatype Item = Item(used: bool, next: nat, prev: nat)

  type Mem = Memory<Item>

  ghost function PrevOff(bs: seq<Block>, i: nat): nat
    requires i < |bs|
  {
    if i == 0 then 0 else bs[i - 1].off
  }

  /** The header of block `i` is in memory: `next` leads to the end of the block, `prev` to the
      left neighbour. */
  ghost predicate TiedAt(m: Mem, bs: seq<Block>, i: nat)
    requires i < |bs|
  {
    HeaderIs(m, bs[i].off, Item(bs[i].used, bs[i].next, PrevOff(bs, i)))
  }

  /** The end stub is used and its `next` is itself; nothing is known about its `prev`. */
  ghost predicate EndStub(g: Geometry, m: Mem) {
    g.End() in m.headers && m.headers[g.End()].used && m.headers[g.End()].next == g.End()
  }

  ghost predicate Tied(g: Geometry, m: Mem, bs: seq<Block>) {
    (forall i: nat :: i < |bs| ==> TiedAt(m, bs, i)) && EndStub(g, m)
  }

  /** The three stores that merge the block at `right` into the one at `left`. */
  ghost function Fused(g: Geometry, m: Mem, left: nat, right: nat): Mem
    requires left in m.headers && right in m.headers && m.headers[right].next in m.headers
    requires left + g.hdr <= right && right + g.hdr <= m.headers[right].next
  {
    var end := m.headers[right].next;
    var m1 := PutHeader(m, g.hdr, right, m.headers[right].(used := false));
    var m2 := PutHeader(m1, g.hdr, left, m1.headers[left].(next := end));
    PutHeader(m2, g.hdr, end, m2.headers[end].(prev := left))
  }

  lemma FusedDefined(g: Geometry, m: Mem, bs: seq<Block>, i: nat)
    requires g.Ok() && Tiles(g, bs) && Tied(g, m, bs) && i + 1 < |bs|
    ensures bs[i].off in m.headers && bs[i + 1].off in m.headers && bs[i + 1].next in m.headers
    ensures m.headers[bs[i + 1].off].next == bs[i + 1].next
    ensures bs[i].off + g.hdr <= bs[i + 1].off && bs[i + 1].off + g.hdr <= bs[i + 1].next
    ensures i + 2 < |bs| ==> bs[i + 2].off == bs[i + 1].next && TiedAt(m, bs, i + 2)
    ensures i + 2 == |bs| ==> g.End() == bs[i + 1].next
  {
    BlocksAreBoundaries(g, bs);
    assert TiedAt(m, bs, i) && TiedAt(m, bs, i + 1) && (i + 2 < |bs| ==> TiedAt(m, bs, i + 2));
  }

  lemma FusedTied(g: Geometry, m: Mem, bs: seq<Block>, i: nat)
    requires g.Ok() && Tiles(g, bs) && Tied(g, m, bs) && i + 1 < |bs|
    ensures bs[i].off in m.headers && bs[i + 1].off in m.headers && bs[i + 1].next in m.headers
    ensures m.headers[bs[i + 1].off].next == bs[i + 1].next
    ensures bs[i].off + g.hdr <= bs[i + 1].off && bs[i + 1].off + g.hdr <= bs[i + 1].next
    ensures Tied(g, Fused(g, m, bs[i].off, bs[i + 1].off), Join(bs, i))
    ensures Kept(g, Used(bs), m, Fused(g, m, bs[i].off, bs[i + 1].off))
  {
    FusedDefined(g, m, bs, i);
    FusedHeaders(g, m, bs, i);
    OthersApart(g, bs, i);
    assert TiedAt(m, bs, i) && TiedAt(m, bs, i + 1);
    hide PutHeader, Tiles, GoodBlock, Boundary, Kept, Used, Join, Fused;
    JoinedHeaders(g, m, Fused(g, m, bs[i].off, bs[i + 1].off), bs, i);
  }

  lemma OthersApart(g: Geometry, bs: seq<Block>, i: nat)
    requires g.Ok() && Tiles(g, bs) && i + 1 < |bs|
    ensures forall k: nat :: k < |bs| && k != i && k != i + 1 && k != i + 2 ==>
      Boundary(g, bs, bs[k].off) && bs[k].off != bs[i].off && bs[k].off != bs[i + 1].off && bs[k].off != bs[i + 1].next
    ensures Boundary(g, bs, g.End()) && bs[i].off != g.End() && bs[i + 1].off != g.End()
  {
    BlocksAreBoundaries(g, bs);
    assert i + 2 < |bs| ==> bs[i + 2].off == bs[i + 1].next;
  }

  lemma FusedHeaders(g: Geometry, m: Mem, bs: seq<Block>, i: nat)
    requires g.Ok() && Tiles(g, bs) && Tied(g, m, bs) && i + 1 < |bs|
    requires bs[i].off in m.headers && bs[i + 1].off in m.headers && bs[i + 1].next in m.headers
    requires m.headers[bs[i + 1].off].next == bs[i + 1].next
    requires bs[i].off + g.hdr <= bs[i + 1].off && bs[i + 1].off + g.hdr <= bs[i + 1].next
    ensures var left, right, end := bs[i].off, bs[i + 1].off, bs[i + 1].next; var m3 := Fused(g, m, left, right);
      && HeaderIs(m3, left, m.headers[left].(next := end))
      && HeaderIs(m3, end, m.headers[end].(prev := left))
      && (forall o :: Boundary(g, bs, o) && o != left && o != right && o != end ==> SameHeader(m, m3, o))
      && Kept(g, Used(bs), m, m3)
  {
    BlocksAreBoundaries(g, bs);
    hide PutHeader, Tiles, GoodBlock, Boundary, Kept, Used, Join, TiedAt;
    var left, right, end := bs[i].off, bs[i + 1].off, bs[i + 1].next;
    var h1 := m.headers[right].(used := false);
    var m1 := PutHeader(m, g.hdr, right, h1);
    PutAtBoundary(g, m, bs, right, h1);
    var h2 := m1.headers[left].(next := end);
    var m2 := PutHeader(m1, g.hdr, left, h2);
    PutAtBoundary(g, m1, bs, left, h2);
    var h3 := m2.headers[end].(prev := left);
    var m3 := PutHeader(m2, g.hdr, end, h3);
    PutAtBoundary(g, m2, bs, end, h3);
    KeptTrans(g, Used(bs), m, m1, m2);
    KeptTrans(g, Used(bs), m, m2, m3);
  }

  lemma JoinedHeaders(g: Geometry, m: Mem, m3: Mem, bs: seq<Block>, i: nat)
    requires g.Ok() && Tiles(g, bs) && Tied(g, m, bs) && i + 1 < |bs|
    requires HeaderIs(m3, bs[i].off, Item(bs[i].used, bs[i + 1].next, PrevOff(bs, i)))
    requires i + 2 < |bs| ==> HeaderIs(m3, bs[i + 2].off, Item(bs[i + 2].used, bs[i + 2].next, bs[i].off))
    requires EndStub(g, m3)
    requires forall k: nat :: k < |bs| && k != i && k != i + 1 && k != i + 2 ==> SameHeader(m, m3, bs[k].off)
    ensures Tied(g, m3, Join(bs, i))
  {
    var r := Join(bs, i);
    assert forall k :: 0 <= k < i ==> r[k] == bs[k];
    assert forall k :: i + 1 <= k < |r| ==> r[k] == bs[k + 1];
    forall k: nat | k < |r| ensures TiedAt(m3, r, k) {
      assert TiedAt(m, bs, if k <= i then k else k + 1);
    }
  }

  /** The stores that put a free header at `at2`, splitting the block at `at`; the end stub's
      `prev` is not touched. */
  ghost function Spliced(g: Geometry, m: Mem, at: nat, at2: nat): Mem
    requires at in m.headers && m.headers[at].next in m.headers
    requires at + g.hdr <= at2 && at2 + g.hdr <= m.headers[at].next
  {
    var end := m.headers[at].next;
    var m1 := PutHeader(m, g.hdr, at2, Item(false, end, at));
    var m2 := PutHeader(m1, g.hdr, at, m1.headers[at].(next := at2));
    if end != g.End() then PutHeader(m2, g.hdr, end, m2.headers[end].(prev := at2)) else m2
  }

  lemma SplicedTied(g: Geometry, m: Mem, bs: seq<Block>, i: nat, s: nat)
    requires g.Ok() && Tiles(g, bs) && Tied(g, m, bs) && i < |bs|
    requires bs[i].off + g.hdr + s + g.hdr <= bs[i].next
    ensures bs[i].off in m.headers && m.headers[bs[i].off].next == bs[i].next && bs[i].next in m.headers
    ensures var m' := Spliced(g, m, bs[i].off, bs[i].off + g.hdr + s);
      && Tied(g, m', Halves(g, bs, i, s))
      && Kept(g, Used(bs) - {bs[i]}, m, m')
      && SameBytes(m, m', bs[i].off + g.hdr, bs[i].off + g.hdr + s)
  {
    PlugFacts(g, m, bs, i);
    OtherBoundaries(g, bs, i);
    var at2 := bs[i].off + g.hdr + s;
    SplicedBytes(g, m, bs, i, at2);
    SplicedHeaders(g, m, bs, i, at2);
    hide Spliced, Tiles, GoodBlock, Boundary, Kept, Used, Halves, SameBytes;
    HalvedHeaders(g, m, Spliced(g, m, bs[i].off, at2), bs, i, s);
  }

  lemma OtherBoundaries(g: Geometry, bs: seq<Block>, i: nat)
    requires g.Ok() && Tiles(g, bs) && i < |bs|
    ensures forall k: nat :: k < |bs| && k != i && k != i + 1 ==>
      Boundary(g, bs, bs[k].off) && bs[k].off != bs[i].off && bs[k].off != bs[i].next
    ensures Boundary(g, bs, g.End())
  {
    BlocksAreBoundaries(g, bs);
    assert i + 1 < |bs| ==> bs[i + 1].off == bs[i].next;
  }

  lemma SplicedHeaders(g: Geometry, m: Mem, bs: seq<Block>, i: nat, at2: nat)
    requires g.Ok() && Tiles(g, bs) && Tied(g, m, bs) && i < |bs|
    requires bs[i].off + g.hdr <= at2 && at2 + g.hdr <= bs[i].next
    requires bs[i].off in m.headers && m.headers[bs[i].off] == Item(bs[i].used, bs[i].next, PrevOff(bs, i)) && bs[i].next in m.headers
    ensures var at, end := bs[i].off, bs[i].next; var m' := Spliced(g, m, at, at2);
      && HeaderIs(m', at, Item(bs[i].used, at2, PrevOff(bs, i)))
      && HeaderIs(m', at2, Item(false, end, at))
      && (end != g.End() ==> HeaderIs(m', end, m.headers[end].(prev := at2)))
      && (forall o :: Boundary(g, bs, o) && o != at && o != end ==> SameHeader(m, m', o))
      && (end == g.End() ==> SameHeader(m, m', end))
  {
    BlocksAreBoundaries(g, bs);
    var at, end := bs[i].off, bs[i].next;
    hide PutHeader, Tiles, GoodBlock, Boundary, Kept, Used, SameBytes, TiedAt;
    var h1 := Item(false, end, at);
    var m1 := PutHeader(m, g.hdr, at2, h1);
    PutInside(g, m, bs, i, at2, h1);
    var h2 := m1.headers[at].(next := at2);
    var m2 := PutHeader(m1, g.hdr, at, h2);
    PutAtBoundary(g, m1, bs, at, h2);
    PutApart(m1, g.hdr, at, h2, at2);
    if end != g.End() {
      var h3 := m2.headers[end].(prev := at2);
      PutAtBoundary(g, m2, bs, end, h3);
      PutApart(m2, g.hdr, end, h3, at2);
    }
  }

  lemma SplicedBytes(g: Geometry, m: Mem, bs: seq<Block>, i: nat, at2: nat)
    requires g.Ok() && Tiles(g, bs) && Tied(g, m, bs) && i < |bs|
    requires bs[i].off + g.hdr <= at2 && at2 + g.hdr <= bs[i].next
    ensures bs[i].off in m.headers && m.headers[bs[i].off].next == bs[i].next && bs[i].next in m.headers
    ensures var m' := Spliced(g, m, bs[i].off, at2);
      && Kept(g, Used(bs) - {bs[i]}, m, m')
      && SameBytes(m, m', bs[i].off + g.hdr, at2)
  {
    AllOrdered(g, bs);
    assert forall k :: 0 <= k < |bs| ==> GoodBlock(g, bs[k]);
    assert TiedAt(m, bs, i) && (i + 1 < |bs| ==> TiedAt(m, bs, i + 1) && bs[i + 1].off == bs[i].next);
    var m' := Spliced(g, m, bs[i].off, at2);
    forall b | b in Used(bs) - {bs[i]} ensures SameBytes(m, m', b.off + g.hdr, b.next) {
      var k :| 0 <= k < |bs| && bs[k] == b;
      assert b.next <= bs[i].off || bs[i].next <= b.off;
    }
  }

  lemma HalvedHeaders(g: Geometry, m: Mem, m': Mem, bs: seq<Block>, i: nat, s: nat)
    requires g.Ok() && Tiles(g, bs) && Tied(g, m, bs) && i < |bs|
    requires var at2 := bs[i].off + g.hdr + s;
      && HeaderIs(m', bs[i].off, Item(bs[i].used, at2, PrevOff(bs, i)))
      && HeaderIs(m', at2, Item(false, bs[i].next, bs[i].off))
      && (i + 1 < |bs| ==> HeaderIs(m', bs[i + 1].off, Item(bs[i + 1].used, bs[i + 1].next, at2)))
    requires EndStub(g, m')
    requires forall k: nat :: k < |bs| && k != i && k != i + 1 ==> SameHeader(m, m', bs[k].off)
    ensures Tied(g, m', Halves(g, bs, i, s))
  {
    var r := Halves(g, bs, i, s);
    assert forall k :: 0 <= k < i ==> r[k] == bs[k];
    assert forall k :: i + 2 <= k < |r| ==> r[k] == bs[k - 1];
    forall k: nat | k < |r| ensures TiedAt(m', r, k) {
      assert TiedAt(m, bs, if k <= i then k else k - 1);
    }
  }

  lemma RetaggedTied(g: Geometry, m: Mem, bs: seq<Block>, i: nat, u: bool)
    requires g.Ok() && Tiles(g, bs) && Tied(g, m, bs) && i < |bs|
    ensures bs[i].off in m.headers
    ensures var m' := PutHeader(m, g.hdr, bs[i].off, m.headers[bs[i].off].(used := u));
      && Tied(g, m', bs[i := bs[i].(used := u)])
      && Kept(g, Used(bs), m, m')
  {
    BlocksAreBoundaries(g, bs);
    assert TiedAt(m, bs, i);
    hide PutHeader, Boundary, Kept, Used, GoodBlock;
    var h := m.headers[bs[i].off].(used := u);
    var m' := PutHeader(m, g.hdr, bs[i].off, h);
    PutAtBoundary(g, m, bs, bs[i].off, h);
    var r := bs[i := bs[i].(used := u)];
    assert EndStub(g, m') by { assert SameHeader(m, m', g.End()) by { BoundaryEnd(g, bs); } }
    forall k: nat | k < |r| ensures TiedAt(m', r, k) {
      assert TiedAt(m, bs, k);
      if k != i { assert SameHeader(m, m', bs[k].off); }
    }
  }

  class SmallHeap {
    const g: Geometry
    var mem: Mem
    var lfree: nat
    var used: int
    var max: nat
    ghost var blocks: seq<Block>

    ghost predicate Valid()
      reads this
    {
      && g.Ok() && Align(g.minSize, g.align) <= g.size
      && Inv(g, State(blocks, max)) && Tied(g, mem, blocks)
      && used == UsedBytes(blocks) && lfree == Hint(g, blocks)
    }

    ghost function Model(): State
      reads this
    {
      State(blocks, max)
    }

    /** rt_smem_init over a region whose usable size is `size` bytes. */
    constructor (geometry: Geometry)
      requires geometry.Ok() && Align(geometry.minSize, geometry.align) <= geometry.size
      ensures Valid() && g == geometry && Model() == State(Empty(g), 0)
    {
      g := geometry;
      var end := geometry.size + geometry.hdr;
      var m := Memory(map[], map[]);
      m := PutHeader(m, geometry.hdr, 0, Item(false, end, 0));
      m := PutHeader(m, geometry.hdr, end, Item(true, end, end));
      mem := m;
      lfree := 0;
      used := 0;
      max := 0;
      blocks := Empty(geometry);
      EmptyWellFormed(geometry);
      new;
      assert TiedAt(mem, blocks, 0);
    }

    /** rt_smem_alloc. */
    method Alloc(n: nat) returns (p: Option<nat>)
      requires Valid()
      modifies this
      ensures Valid()
      ensures (p, Model()) == SmallMemSpec.Alloc(g, old(Model()), n)
      ensures Kept(g, Used(old(blocks)), old(mem), mem)
    {
      hide Kept, Used, UsedBytes, Tied, Take, Tiles, Multiple, Align;
      KeptSame(g, Used(blocks), mem);
      if n == 0 { return None; }
      var size := Align(n, g.align);
      if size > g.size { return None; }
      if size < Align(g.minSize, g.align) { size := Align(g.minSize, g.align); }
      ClampPositive(g, n);
      var ptr := lfree;
      var fits := false;
      ghost var i: nat := LowestFree(blocks, 0);
      while ptr <= g.size - size && !fits
        invariant i <= |blocks| && ptr == (if i < |blocks| then blocks[i].off else g.End())
        invariant forall k :: 0 <= k < i ==> !Fits(g, blocks[k], size)
        invariant fits ==> i < |blocks| && Fits(g, blocks[i], size)
        modifies {}
        decreases |blocks| - i, !fits
      {
        PlugFacts(g, mem, blocks, i);
        if !mem.headers[ptr].used && mem.headers[ptr].next - (ptr + g.hdr) >= size {
          fits := true;
        } else {
          ptr := mem.headers[ptr].next;
          i := i + 1;
        }
      }
      if fits {
        FirstFitIs(g, blocks, size, i);
        Occupy(ptr, size, i);
        return Some(ptr + g.hdr);
      }
      BeyondLastFit(g, blocks, size, i);
      return None;
    }

    /** The part of rt_smem_alloc that hands out the free block at `item`, splitting it when
        enough is left over, and moves `lfree` on. */
    method Occupy(item: nat, size: nat, ghost i: nat)
      requires Valid() && i < |blocks| && blocks[i].off == item && Fits(g, blocks[i], size)
      requires Multiple(size, g.align) && size >= g.align
      modifies this
      ensures Valid() && Model() == Charged(old(Model()), Take(g, old(blocks), i, size))
      ensures Kept(g, Used(old(blocks)), old(mem), mem)
    {
      hide PutHeader, Tiles, Kept, Used, UsedBytes, GoodBlock, Spliced, WellFormed, Multiple, Hint;
      TakeCharge(g, blocks, i, size);
      PlugFacts(g, mem, blocks, i);
      ghost var r := blocks;
      if mem.headers[item].next - (item + g.hdr) >= size + g.hdr + Align(g.minSize, g.align) {
        var ptr2 := item + g.hdr + size;
        HalvesOfFree(g, blocks, i, size);
        SplicedTied(g, mem, blocks, i, size);
        Splice(item, ptr2);
        r := Halves(g, blocks, i, size);
        used := used + (size + g.hdr);
        if max < used { max := used; }
      } else {
        KeptSame(g, Used(blocks), mem);
        used := used + (mem.headers[item].next - item);
        if max < used { max := used; }
      }
      ghost var m1 := mem;
      RetaggedTied(g, mem, r, i, true);
      mem := PutHeader(mem, g.hdr, item, mem.headers[item].(used := true));
      KeptTrans(g, Used(old(blocks)), old(mem), m1, mem);
      blocks := Take(g, blocks, i, size);
      assert blocks == r[i := r[i].(used := true)];
      TakeBefore(g, old(blocks), i, size);
      if item == lfree {
        HintAt(g, old(blocks), i);
        NextFree(i);
      } else {
        HintStays(g, old(blocks), blocks, i);
      }
    }

    /** The loop that moves `lfree` from the block just handed out to the next free one. */
    method NextFree(ghost i: nat)
      requires g.Ok() && Tiles(g, blocks) && Tied(g, mem, blocks)
      requires i < |blocks| && lfree == blocks[i].off && forall k :: 0 <= k < i ==> blocks[k].used
      modifies this`lfree
      ensures lfree == Hint(g, blocks)
    {
      hide Tiles, GoodBlock, Tied;
      ghost var j: nat := i;
      PlugFacts(g, mem, blocks, j);
      while mem.headers[lfree].used && lfree != g.End()
        invariant j <= |blocks| && lfree == (if j < |blocks| then blocks[j].off else g.End())
        invariant forall k :: 0 <= k < j ==> blocks[k].used
        invariant j < |blocks| ==> TiedAt(mem, blocks, j) && blocks[j].off != g.End()
        invariant lfree in mem.headers
        decreases |blocks| - j
      {
        PlugFacts(g, mem, blocks, j);
        lfree := mem.headers[lfree].next;
        j := j + 1;
        if j < |blocks| { PlugFacts(g, mem, blocks, j); }
      }
    }

    /** The stores shared by rt_smem_alloc and rt_smem_realloc that split a block. */
    method Splice(item: nat, ptr2: nat)
      requires g.hdr > 0 && item in mem.headers && mem.headers[item].next in mem.headers
      requires item + g.hdr <= ptr2 && ptr2 + g.hdr <= mem.headers[item].next
      modifies this`mem
      ensures mem == Spliced(g, old(mem), item, ptr2)
    {
      hide PutHeader;
      SplicedLookups(g, mem, item, ptr2);
      mem := PutHeader(mem, g.hdr, ptr2, Item(false, mem.headers[item].next, item));
      mem := PutHeader(mem, g.hdr, item, mem.headers[item].(next := ptr2));
      var end := mem.headers[ptr2].next;
      if end != g.size + g.hdr {
        mem := PutHeader(mem, g.hdr, end, mem.headers[end].(prev := ptr2));
      }
    }

    /** rt_smem_free; the pool found through pool_ptr is this heap. */
    method Free(p: Option<nat>)
      requires Valid()
      requires p.Some? ==> Live(g, blocks, p.value)
      modifies this
      ensures Valid()
      ensures Model() == if p.Some? then SmallMemSpec.Free(g, old(Model()), p.value) else old(Model())
      ensures Kept(g, Used(blocks), old(mem), mem)
    {
      if p.None? {
        KeptSame(g, Used(blocks), mem);
        return;
      }
      FindIsLive(g, blocks, p.value);
      ReleaseAt(p.value - g.hdr, Find(g, blocks, p.value));
    }

    /** The body of rt_smem_free for the used block at `item`. */
    method ReleaseAt(item: nat, ghost i: nat)
      requires Valid() && i < |blocks| && blocks[i].used && blocks[i].off == item
      modifies this
      ensures Valid() && Model() == old(Model()).(blocks := Release(old(blocks), i))
      ensures Kept(g, Used(blocks), old(mem), mem)
    {
      hide PutHeader, Tiles, Kept, Used, UsedBytes, GoodBlock, Hint, Tied, PlugHoles, Release, Redirected, WellFormed;
      FreeFacts(g, mem, blocks, i);
      ghost var r := blocks[i := blocks[i].(used := false)];
      var next := mem.headers[item].next;
      mem := PutHeader(mem, g.hdr, item, mem.headers[item].(used := false));
      ghost var m1 := mem;
      if item < lfree { lfree := item; }
      used := used - (next - item);
      blocks := r;
      Plug(item, i);
      KeptTwice(g, Used(old(blocks)), Used(r), Used(blocks), old(mem), m1, mem);
    }

    /** rt_smem_realloc. */
    method Realloc(p: Option<nat>, n: nat) returns (q: Option<nat>)
      requires Valid()
      requires p.Some? ==> Live(g, blocks, p.value)
      modifies this
      ensures Valid()
      ensures (q, Model()) == SmallMemSpec.Realloc(g, old(Model()), p, n)
      ensures Kept(g, Used(old(blocks)) * Used(blocks), old(mem), mem)
      ensures p.Some? && q.Some? ==>
        CopiedBytes(old(mem), mem, q.value, p.value, Min(PayloadSize(g, old(blocks), p.value), Align(n, g.align)))
    {
      assert g.Ok();
      hide Valid, Kept, Used, UsedBytes, CopiedBytes, SmallMemSpec.Alloc, SmallMemSpec.Free, SmallMemSpec.ReallocLive;
      KeptSame(g, Used(blocks), mem);
      KeptLess(g, Used(blocks), Used(blocks) * Used(blocks), mem, mem);
      var newsize := Align(n, g.align);
      if newsize > g.size { return None; }
      if newsize == 0 {
        Free(p);
        KeptLess(g, Used(blocks), Used(old(blocks)) * Used(blocks), old(mem), mem);
        return None;
      }
      if p.None? {
        q := Alloc(newsize);
        KeptLess(g, Used(old(blocks)), Used(old(blocks)) * Used(blocks), old(mem), mem);
        return;
      }
      q := Resize(p.value, newsize);
    }

    /** rt_smem_realloc of a live block to an aligned size. */
    method Resize(p: nat, newsize: nat) returns (q: Option<nat>)
      requires Valid() && Live(g, blocks, p)
      requires 0 < newsize && Multiple(newsize, g.align)
      modifies this
      ensures Valid()
      ensures (q, Model()) == SmallMemSpec.ReallocLive(g, old(Model()), p, newsize)
      ensures Kept(g, Used(old(blocks)) * Used(blocks), old(mem), mem)
      ensures q.Some? ==> CopiedBytes(old(mem), mem, q.value, p, Min(PayloadSize(g, old(blocks), p), newsize))
    {
      ghost var i := Find(g, blocks, p);
      LiveHeader(g, mem, blocks, p);
      ReallocLiveCases(g, Model(), p, newsize);
      hide Valid, Kept, Used, UsedBytes, CopiedBytes, SmallMemSpec.Alloc, SmallMemSpec.Free, SmallMemSpec.ReallocLive,
           Shrink, Live, LiveAt, Find, PayloadSize, SameBytes, Multiple, Resizing;
      var item := p - g.hdr;
      var size := mem.headers[item].next - item - g.hdr;
      if size == newsize {
        KeptSame(g, Used(blocks) * Used(blocks), mem);
        BytesSame(mem, p, p + size);
        CopiedInPlace(mem, mem, p, size, size);
        return Some(p);
      }
      if newsize + g.hdr + g.minSize < size {
        ShrinkAt(item, newsize, i);
        CopiedInPlace(old(mem), mem, p, newsize, newsize);
        return Some(p);
      }
      q := Move(p, newsize, size);
    }

    /** The branch of rt_smem_realloc that looks for a new block. */
    method Move(p: nat, newsize: nat, size: nat) returns (q: Option<nat>)
      requires Valid() && Live(g, blocks, p) && size == PayloadSize(g, blocks, p)
      modifies this
      ensures Valid()
      ensures (q, Model()) ==
        (var (r, st') := SmallMemSpec.Alloc(g, old(Model()), newsize);
         (r, if r.Some? then SmallMemSpec.Free(g, st', p) else st'))
      ensures Kept(g, Used(old(blocks)) * Used(blocks), old(mem), mem)
      ensures q.Some? ==> CopiedBytes(old(mem), mem, q.value, p, Min(PayloadSize(g, old(blocks), p), newsize))
    {
      assert Inv(g, Model());
      hide Valid, Kept, Used, UsedBytes, CopiedBytes, SmallMemSpec.Alloc, SmallMemSpec.Free, Inv, Live, PayloadSize;
      q := Alloc(newsize);
      if q.Some? {
        MoveTo(p, q.value, Min(size, newsize), old(Model()), newsize, old(mem));
      } else {
        KeptLess(g, Used(old(blocks)), Used(old(blocks)) * Used(blocks), old(mem), mem);
      }
    }

    /** A client stores one byte into its own block: no header and no other client's byte changes. */
    method ClientWrite(p: nat, k: nat, b: Byte)
      requires Valid() && Live(g, blocks, p) && k < PayloadSize(g, blocks, p)
      modifies this`mem
      ensures Valid() && Model() == old(Model())
      ensures p + k in mem.bytes && mem.bytes[p + k] == b
      ensures forall a :: a != p + k ==>
        (a in mem.bytes <==> a in old(mem.bytes)) && (a in mem.bytes ==> mem.bytes[a] == old(mem.bytes)[a])
    {
      WriteKeepsTied(g, mem, blocks, p, k, b);
      mem := PutByte(mem, g.hdr, p + k, b);
    }

    /** The shrinking branch of rt_smem_realloc. */
    method ShrinkAt(item: nat, newsize: nat, ghost i: nat)
      requires Valid()
      requires i < |blocks| && blocks[i].off == item && blocks[i].used
      requires Multiple(newsize, g.align) && newsize > 0
      requires newsize + g.hdr + g.minSize < blocks[i].next - item - g.hdr
      modifies this
      ensures Valid() && Model() == old(Model()).(blocks := Shrink(g, old(blocks), i, newsize))
      ensures Kept(g, Used(old(blocks)) * Used(blocks), old(mem), mem)
      ensures SameBytes(old(mem), mem, item + g.hdr, item + g.hdr + newsize)
    {
      hide PutHeader, Tiles, Kept, Used, UsedBytes, GoodBlock, Hint, Tied, PlugHoles, Spliced, SameBytes, Cut, WellFormed, Redirected;
      ShrinkFacts(g, mem, blocks, i, newsize);
      var size := mem.headers[item].next - item - g.hdr;
      used := used - (size - newsize);
      var ptr2 := item + g.hdr + newsize;
      Splice(item, ptr2);
      ghost var m1 := mem;
      ghost var c := Cut(g, blocks, i, newsize);
      blocks := c;
      if ptr2 < lfree { lfree := ptr2; }
      Plug(ptr2, i + 1);
      ShrunkBytes(g, old(blocks), i, newsize, c, Used(blocks), old(mem), m1, mem);
    }

    /** The moving branch of rt_smem_realloc once a new block has been found: copy, then free. */
    method MoveTo(p: nat, q: nat, k: nat, ghost st0: State, ghost newsize: nat, ghost m0: Mem)
      requires Valid() && Inv(g, st0) && Live(g, st0.blocks, p)
      requires (Some(q), Model()) == SmallMemSpec.Alloc(g, st0, newsize)
      requires Kept(g, Used(st0.blocks), m0, mem)
      requires k <= newsize && k <= PayloadSize(g, st0.blocks, p)
      modifies this
      ensures Valid() && Model() == SmallMemSpec.Free(g, old(Model()), p)
      ensures Kept(g, Used(st0.blocks) * Used(blocks), m0, mem)
      ensures CopiedBytes(m0, mem, q, p, k)
    {
      hide Kept, Used, UsedBytes, Hint, Tied, CopiedBytes, CopyBytes, SmallMemSpec.Alloc, SmallMemSpec.Free, Tiles;
      AllocDelivers(g, st0, newsize);
      ghost var j := MoveTarget(g, st0.blocks, blocks, p, q, newsize);
      ghost var c := blocks[j];
      ghost var m1 := mem;
      CopyIntoBlock(g, mem, blocks, j, p, k);
      mem := CopyBytes(mem, g.hdr, q, p, k);
      ghost var m2 := mem;
      LiveKept(g, st0.blocks, blocks, p);
      FreeDelivers(g, Model(), p);
      Free(Some(p));
      MovedBytes(g, Used(st0.blocks), Used(old(blocks)), Used(blocks), st0.blocks[Find(g, st0.blocks, p)], c, p, q, k, m0, m1, m2, mem);
    }

    /** The three stores of plug_holes that merge the free block at `right` into its free left
        neighbour at `left`. */
    method Fuse(left: nat, right: nat, ghost i: nat)
      requires g.Ok() && Tiles(g, blocks) && Tied(g, mem, blocks)
      requires i + 1 < |blocks| && blocks[i].off == left && blocks[i + 1].off == right
      requires !blocks[i].used && !blocks[i + 1].used
      modifies this`mem, this`blocks
      ensures blocks == Join(old(blocks), i) && Tiles(g, blocks) && Tied(g, mem, blocks)
      ensures Used(blocks) == Used(old(blocks)) && Hint(g, blocks) == Hint(g, old(blocks))
      ensures Kept(g, Used(old(blocks)), old(mem), mem)
    {
      hide PutHeader, Tiles, Kept, Used, GoodBlock, Hint, Join;
      FusedTied(g, mem, blocks, i);
      JoinTiles(g, blocks, i);
      JoinHint(g, blocks, i);
      JoinUsed(blocks, i);
      FusedLookups(g, mem, left, right);
      mem := PutHeader(mem, g.hdr, right, mem.headers[right].(used := false));
      mem := PutHeader(mem, g.hdr, left, mem.headers[left].(next := mem.headers[right].next));
      var end := mem.headers[right].next;
      mem := PutHeader(mem, g.hdr, end, mem.headers[end].(prev := left));
      blocks := Join(blocks, i);
    }

    /** plug_holes around the free block at `item`; `lfree` is moved off a header that a merge
        does away with. */
    method Plug(item: nat, ghost i: nat)
      requires g.Ok() && Tiles(g, blocks) && Tied(g, mem, blocks)
      requires i < |blocks| && blocks[i].off == item && !blocks[i].used
      modifies this`mem, this`lfree, this`blocks
      ensures blocks == PlugHoles(old(blocks), i) && Tiles(g, blocks) && Tied(g, mem, blocks)
      ensures lfree == Redirected(old(blocks), i, old(lfree))
      ensures Kept(g, Used(old(blocks)), old(mem), mem)
    {
      hide PutHeader, Tiles, Kept, Used, GoodBlock, Hint;
      KeptSame(g, Used(blocks), mem);
      PlugFacts(g, mem, blocks, i);
      var nmem := mem.headers[item].next;
      if item != nmem && !mem.headers[nmem].used && nmem != g.End() {
        if lfree == nmem { lfree := item; }
        Fuse(item, nmem, i);
      }
      ghost var m1 := mem;
      PlugFacts(g, mem, blocks, i);
      var pmem := mem.headers[item].prev;
      if pmem != item && !mem.headers[pmem].used {
        if lfree == item { lfree := pmem; }
        Fuse(pmem, item, i - 1);
        KeptTrans(g, Used(old(blocks)), old(mem), m1, mem);
      }
    }
  }

  /** Where plug_holes leaves a hint that pointed at `l`. */
  ghost function Redirected(bs: seq<Block>, i: nat, l: nat): nat
    requires i < |bs|
  {
    var l1 := if i + 1 < |bs| && !bs[i + 1].used && l == bs[i + 1].off then bs[i].off else l;
    if i > 0 && !bs[i - 1].used && l1 == bs[i].off then bs[i - 1].off else l1
  }

  /** A hint at the lowest free block is still there after plug_holes. */
  lemma PlugKeepsHint(g: Geometry, bs: seq<Block>, i: nat)
    requires g.Ok() && Tiles(g, bs) && i < |bs| && !bs[i].used
    ensures Redirected(bs, i, Hint(g, bs)) == Hint(g, PlugHoles(bs, i))
  {
    var r := JoinRight(bs, i);
    if i + 1 < |bs| && !bs[i + 1].used {
      JoinHint(g, bs, i);
      JoinTiles(g, bs, i);
    }
    if i > 0 && !bs[i - 1].used {
      JoinHint(g, r, i - 1);
    }
  }

  /** Each of the three stores of `Fused` finds the header it reads. */
  lemma FusedLookups(g: Geometry, m: Mem, left: nat, right: nat)
    requires left in m.headers && right in m.headers && m.headers[right].next in m.headers
    requires left + g.hdr <= right && right + g.hdr <= m.headers[right].next && g.hdr > 0
    ensures var m1 := PutHeader(m, g.hdr, right, m.headers[right].(used := false));
      && left in m1.headers && right in m1.headers && m1.headers[right].next == m.headers[right].next
      && var m2 := PutHeader(m1, g.hdr, left, m1.headers[left].(next := m1.headers[right].next));
      right in m2.headers && m2.headers[right].next == m.headers[right].next && m.headers[right].next in m2.headers
  {}

  lemma PlugFacts(g: Geometry, m: Mem, bs: seq<Block>, i: nat)
    requires g.Ok() && Tiles(g, bs) && Tied(g, m, bs) && i < |bs|
    ensures TiedAt(m, bs, i)
    ensures bs[i].off < bs[i].next <= g.End() && (bs[i].next == g.End() <==> i + 1 == |bs|)
    ensures bs[i].next in m.headers
    ensures i + 1 < |bs| ==> bs[i + 1].off == bs[i].next && TiedAt(m, bs, i + 1)
    ensures i == 0 ==> bs[i].off == 0
    ensures i > 0 ==> TiedAt(m, bs, i - 1) && bs[i - 1].off < bs[i].off && bs[i - 1].next == bs[i].off
  {
    BlocksAreBoundaries(g, bs);
    if i + 1 < |bs| { assert TiedAt(m, bs, i + 1); }
  }

  /** Merging two free neighbours does not move the lowest free block, nor is it the right one. */
  lemma JoinHint(g: Geometry, bs: seq<Block>, i: nat)
    requires g.Ok() && Tiles(g, bs) && i + 1 < |bs| && !bs[i].used && !bs[i + 1].used
    ensures Hint(g, Join(bs, i)) == Hint(g, bs) && Hint(g, bs) != bs[i + 1].off
  {
    AllOrdered(g, bs);
    assert GoodBlock(g, bs[i]);
    var r := Join(bs, i);
    var k := LowestFree(bs, 0);
    assert k <= i;
    assert forall l :: 0 <= l < i ==> r[l] == bs[l];
    assert r[k].off == bs[k].off && !r[k].used;
    assert GoodBlock(g, bs[k]);
    if k < i { Ordered(g, bs, k, i + 1); }
  }

  lemma SplicedLookups(g: Geometry, m: Mem, at: nat, at2: nat)
    requires g.hdr > 0 && at in m.headers && m.headers[at].next in m.headers
    requires at + g.hdr <= at2 && at2 + g.hdr <= m.headers[at].next
    ensures var m1 := PutHeader(m, g.hdr, at2, Item(false, m.headers[at].next, at));
      && at in m1.headers && m1.headers[at] == m.headers[at]
      && var m2 := PutHeader(m1, g.hdr, at, m1.headers[at].(next := at2));
      at2 in m2.headers && m2.headers[at2].next == m.headers[at].next && m.headers[at].next in m2.headers
  {}

  /** What handing out block `i` adds to the total, as the code charges it. */
  lemma TakeCharge(g: Geometry, bs: seq<Block>, i: nat, s: nat)
    requires g.Ok() && WellFormed(g, bs) && i < |bs| && Fits(g, bs[i], s)
    requires Multiple(s, g.align) && s >= g.align
    ensures WellFormed(g, Take(g, bs, i, s)) && Tiles(g, bs) && Tiles(g, Take(g, bs, i, s))
    ensures UsedBytes(Take(g, bs, i, s)) == UsedBytes(bs) + if Splits(g, bs[i], s) then s + g.hdr else bs[i].next - bs[i].off
    ensures Used(bs) <= Used(Take(g, bs, i, s))
  {
    hide UsedBytes, Tiles, NoFreeNeighbours;
    TakeKeeps(g, bs, i, s);
  }

  /** The scan has found the first fit when it stands on a fit and has passed none. */
  lemma FirstFitIs(g: Geometry, bs: seq<Block>, s: nat, i: nat)
    requires i < |bs| && Fits(g, bs[i], s) && forall k :: 0 <= k < i ==> !Fits(g, bs[k], s)
    ensures FirstFit(g, bs, s, 0) == i
  {}

  /** Stopping the scan at mem_size_aligned - size skips no block that could have served. */
  lemma BeyondLastFit(g: Geometry, bs: seq<Block>, s: nat, i: nat)
    requires g.Ok() && Tiles(g, bs) && i <= |bs|
    requires (if i < |bs| then bs[i].off else g.End()) > g.size - s
    requires forall k :: 0 <= k < i ==> !Fits(g, bs[k], s)
    ensures FirstFit(g, bs, s, 0) == |bs|
  {
    AllOrdered(g, bs);
    assert forall k :: 0 <= k < |bs| ==> GoodBlock(g, bs[k]);
  }

  lemma HalvesOfFree(g: Geometry, bs: seq<Block>, i: nat, s: nat)
    requires g.Ok() && WellFormed(g, bs) && i < |bs| && !bs[i].used
    requires Splits(g, bs[i], s) && Multiple(s, g.align) && s >= g.align
    ensures bs[i].off + g.hdr + s + g.hdr <= bs[i].next
    ensures var r := Halves(g, bs, i, s);
      && Tiles(g, r) && Used(r) == Used(bs) && Used(bs) - {bs[i]} == Used(bs)
      && i < |r| && r[i].off == bs[i].off
      && r[i := r[i].(used := true)] == Cut(g, bs, i, s)
  {
    HalvesUsed(g, bs, i, s);
    CutShape(g, bs, i, s);
    SplitKeeps(g, bs, i, s, Cut(g, bs, i, s));
    hide WellFormed, Used, NoFreeNeighbours;
    HalvesCut(g, bs, i, s);
    RetagTiles(g, Cut(g, bs, i, s), i, false);
  }

  lemma HintAt(g: Geometry, bs: seq<Block>, i: nat)
    requires g.Ok() && Tiles(g, bs) && i < |bs| && Hint(g, bs) == bs[i].off
    ensures forall k :: 0 <= k < i ==> bs[k].used
  {
    BlocksAreBoundaries(g, bs);
  }

  lemma TakeBefore(g: Geometry, bs: seq<Block>, i: nat, s: nat)
    requires g.Ok() && i < |bs|
    ensures var r := Take(g, bs, i, s);
      i < |r| && r[i].used && r[i].off == bs[i].off && forall k :: 0 <= k < i ==> r[k] == bs[k]
  {}

  /** Handing out a block that is not the lowest free one leaves the hint alone. */
  lemma HintStays(g: Geometry, bs: seq<Block>, r: seq<Block>, i: nat)
    requires g.Ok() && Tiles(g, bs) && Tiles(g, r) && i < |bs| && i < |r| && !bs[i].used && Hint(g, bs) != bs[i].off
    requires forall k :: 0 <= k < i ==> r[k] == bs[k]
    ensures Hint(g, r) == Hint(g, bs)
  {
    var k := LowestFree(bs, 0);
    assert k < i;
    assert !r[k].used;
  }

  /** Freeing a block lowers the hint exactly when the block lies below it. */
  lemma HintFreed(g: Geometry, bs: seq<Block>, i: nat)
    requires g.Ok() && Tiles(g, bs) && i < |bs| && bs[i].used
    ensures var r := bs[i := bs[i].(used := false)];
      Hint(g, r) == if bs[i].off < Hint(g, bs) then bs[i].off else Hint(g, bs)
  {
    var r := bs[i := bs[i].(used := false)];
    var k := LowestFree(bs, 0);
    LowestIs(r, if k < i then k else i);
    if k < i {
      Ordered(g, bs, k, i);
      assert GoodBlock(g, bs[k]);
    } else if k < |bs| {
      Ordered(g, bs, i, k);
      assert GoodBlock(g, bs[i]);
    } else {
      AllOrdered(g, bs);
      assert GoodBlock(g, bs[i]);
    }
  }

  lemma LiveHeader(g: Geometry, m: Mem, bs: seq<Block>, p: nat)
    requires g.Ok() && Tiles(g, bs) && Tied(g, m, bs) && Live(g, bs, p)
    ensures var i := Find(g, bs, p);
      && i < |bs| && bs[i].used && bs[i].off + g.hdr == p && p < bs[i].next
      && bs[i].off in m.headers && m.headers[bs[i].off].next == bs[i].next
      && PayloadSize(g, bs, p) == bs[i].next - p
  {
    var i := Find(g, bs, p);
    FindIsLive(g, bs, p);
    assert TiedAt(m, bs, i) && GoodBlock(g, bs[i]);
  }

  /** Cutting the tail off a used block makes the tail the lowest free block unless a lower one exists. */
  lemma HintCut(g: Geometry, bs: seq<Block>, i: nat, s: nat, r: seq<Block>)
    requires g.Ok() && Tiles(g, bs) && i < |bs| && bs[i].used && IsCut(g, bs, i, s, r)
    requires bs[i].off + g.hdr + s <= bs[i].next
    ensures Hint(g, r) == if r[i + 1].off < Hint(g, bs) then r[i + 1].off else Hint(g, bs)
  {
    LowestCut(g, bs, i, s, r);
    var k := LowestFree(bs, 0);
    if k < i {
      Ordered(g, bs, k, i);
      assert GoodBlock(g, bs[k]);
    } else if k < |bs| {
      Ordered(g, bs, i, k);
    } else {
      AllOrdered(g, bs);
    }
  }

  lemma LowestCut(g: Geometry, bs: seq<Block>, i: nat, s: nat, r: seq<Block>)
    requires i < |bs| && bs[i].used && IsCut(g, bs, i, s, r)
    ensures LowestFree(r, 0) == if LowestFree(bs, 0) < i then LowestFree(bs, 0) else i + 1
  {
    var k := LowestFree(bs, 0);
    if k < i {
      LowestIs(r, k);
    } else {
      LowestIs(r, i + 1);
    }
  }

  lemma LowestIs(bs: seq<Block>, k: nat)
    requires k < |bs| && !bs[k].used && forall o :: 0 <= o < k ==> bs[o].used
    ensures LowestFree(bs, 0) == k
  {}

  /** Everything rt_smem_free relies on, gathered for one live block. */
  lemma FreeFacts(g: Geometry, m: Mem, bs: seq<Block>, i: nat)
    requires g.Ok() && WellFormed(g, bs) && Tied(g, m, bs) && i < |bs| && bs[i].used
    ensures bs[i].off in m.headers && m.headers[bs[i].off].next == bs[i].next && bs[i].off < bs[i].next
    ensures var r := bs[i := bs[i].(used := false)]; var m' := PutHeader(m, g.hdr, bs[i].off, m.headers[bs[i].off].(used := false));
      && Tiles(g, r) && Tied(g, m', r) && Kept(g, Used(bs), m, m')
      && Used(r) == Used(bs) - {bs[i]}
      && PlugHoles(r, i) == Release(bs, i) && WellFormed(g, Release(bs, i)) && Used(Release(bs, i)) == Used(bs) - {bs[i]}
      && UsedBytes(Release(bs, i)) == UsedBytes(bs) - (bs[i].next - bs[i].off)
      && Redirected(r, i, if bs[i].off < Hint(g, bs) then bs[i].off else Hint(g, bs)) == Hint(g, Release(bs, i))
  {
    hide Kept, Used, UsedBytes, Hint, PutHeader, JoinRight, JoinLeft, Redirected, GoodBlock;
    PlugFacts(g, m, bs, i);
    ReleaseKeeps(g, bs, i);
    RetaggedTied(g, m, bs, i, false);
    RetagTiles(g, bs, i, false);
    RetagCounts(g, bs, i, false);
    HintFreed(g, bs, i);
    PlugKeepsHint(g, bs[i := bs[i].(used := false)], i);
  }

  /** Everything the shrinking branch of rt_smem_realloc relies on. */
  lemma ShrinkFacts(g: Geometry, m: Mem, bs: seq<Block>, i: nat, s: nat)
    requires g.Ok() && WellFormed(g, bs) && Tied(g, m, bs) && i < |bs| && bs[i].used
    requires Multiple(s, g.align) && s > 0 && s + g.hdr + g.minSize < bs[i].next - bs[i].off - g.hdr
    ensures bs[i].off in m.headers && m.headers[bs[i].off].next == bs[i].next && bs[i].next in m.headers
    ensures bs[i].off + g.hdr + s + g.hdr <= bs[i].next
    ensures var c := Cut(g, bs, i, s); var m' := Spliced(g, m, bs[i].off, bs[i].off + g.hdr + s);
      && Tiles(g, c) && Tied(g, m', c) && Kept(g, Used(bs) - {bs[i]}, m, m')
      && SameBytes(m, m', bs[i].off + g.hdr, bs[i].off + g.hdr + s)
      && i + 1 < |c| && c[i + 1].off == bs[i].off + g.hdr + s && !c[i + 1].used
      && Used(c) == Used(bs) - {bs[i]} + {Block(bs[i].off, bs[i].off + g.hdr + s, true)}
      && Shrink(g, bs, i, s) == PlugHoles(c, i + 1) && WellFormed(g, Shrink(g, bs, i, s))
      && Used(Shrink(g, bs, i, s)) == Used(c)
      && UsedBytes(Shrink(g, bs, i, s)) == UsedBytes(bs) - (bs[i].next - bs[i].off - g.hdr - s)
      && Redirected(c, i + 1, if c[i + 1].off < Hint(g, bs) then c[i + 1].off else Hint(g, bs)) == Hint(g, Shrink(g, bs, i, s))
  {
    ShrinkRoom(g, bs, i, s);
    ShrinkCounts(g, bs, i, s);
    hide WellFormed, Kept, Used, UsedBytes, Hint, PutHeader, PlugHoles, Redirected, GoodBlock, Spliced, SameBytes, Cut, Multiple;
    PlugFacts(g, m, bs, i);
    ShrinkTied(g, m, bs, i, s);
    ShrinkHint(g, bs, i, s);
  }

  lemma ShrinkHint(g: Geometry, bs: seq<Block>, i: nat, s: nat)
    requires g.Ok() && Tiles(g, bs) && i < |bs| && bs[i].used
    requires Multiple(s, g.align) && s >= g.align && bs[i].off + g.hdr + s + g.hdr + g.align <= bs[i].next
    ensures var c := Cut(g, bs, i, s);
      && Tiles(g, c) && i + 1 < |c| && c[i + 1].off == bs[i].off + g.hdr + s && !c[i + 1].used
      && Redirected(c, i + 1, if c[i + 1].off < Hint(g, bs) then c[i + 1].off else Hint(g, bs)) == Hint(g, PlugHoles(c, i + 1))
  {
    hide Hint, PlugHoles, Redirected, GoodBlock, Cut, Multiple, Tiles;
    var c := Cut(g, bs, i, s);
    CutShape(g, bs, i, s);
    CutTiles(g, bs, i, s, c);
    HintCut(g, bs, i, s, c);
    PlugKeepsHint(g, c, i + 1);
  }

  lemma ShrinkCounts(g: Geometry, bs: seq<Block>, i: nat, s: nat)
    requires g.Ok() && WellFormed(g, bs) && i < |bs| && bs[i].used
    requires Multiple(s, g.align) && s > 0 && s + g.hdr + g.minSize < bs[i].next - bs[i].off - g.hdr
    ensures Used(Cut(g, bs, i, s)) == Used(bs) - {bs[i]} + {Block(bs[i].off, bs[i].off + g.hdr + s, true)}
    ensures WellFormed(g, Shrink(g, bs, i, s)) && Used(Shrink(g, bs, i, s)) == Used(Cut(g, bs, i, s))
    ensures UsedBytes(Shrink(g, bs, i, s)) == UsedBytes(bs) - (bs[i].next - bs[i].off - g.hdr - s)
  {
    hide UsedBytes, Cut, PlugHoles;
    ShrinkKeeps(g, bs, i, s);
    CutUsed(g, bs, i, s);
    UsedDistinct(g, bs, i);
  }

  lemma ShrinkRoom(g: Geometry, bs: seq<Block>, i: nat, s: nat)
    requires g.Ok() && Tiles(g, bs) && i < |bs|
    requires Multiple(s, g.align) && s > 0 && s + g.hdr + g.minSize < bs[i].next - bs[i].off - g.hdr
    ensures bs[i].off + g.hdr + s + g.hdr + g.align <= bs[i].next && s >= g.align
  {
    TailFits(g, bs, i, s);
    MultipleGap(0, s, g.align);
  }

  lemma ShrinkTied(g: Geometry, m: Mem, bs: seq<Block>, i: nat, s: nat)
    requires g.Ok() && Tiles(g, bs) && Tied(g, m, bs) && i < |bs| && bs[i].used
    requires bs[i].off + g.hdr + s + g.hdr <= bs[i].next
    ensures bs[i].off in m.headers && m.headers[bs[i].off].next == bs[i].next && bs[i].next in m.headers
    ensures var m' := Spliced(g, m, bs[i].off, bs[i].off + g.hdr + s);
      && Tied(g, m', Cut(g, bs, i, s))
      && Kept(g, Used(bs) - {bs[i]}, m, m')
      && SameBytes(m, m', bs[i].off + g.hdr, bs[i].off + g.hdr + s)
  {
    SplicedTied(g, m, bs, i, s);
    assert Halves(g, bs, i, s) == Cut(g, bs, i, s);
  }

  lemma ShrunkBytes(g: Geometry, bs: seq<Block>, i: nat, s: nat, c: seq<Block>, s': set<Block>, m: Mem, m1: Mem, m2: Mem)
    requires i < |bs|
    requires Used(c) == Used(bs) - {bs[i]} + {Block(bs[i].off, bs[i].off + g.hdr + s, true)} && s' == Used(c)
    requires Kept(g, Used(bs) - {bs[i]}, m, m1) && SameBytes(m, m1, bs[i].off + g.hdr, bs[i].off + g.hdr + s)
    requires Kept(g, Used(c), m1, m2)
    requires bs[i].next != bs[i].off + g.hdr + s
    ensures Kept(g, Used(bs) * s', m, m2) && SameBytes(m, m2, bs[i].off + g.hdr, bs[i].off + g.hdr + s)
  {
    var x := Block(bs[i].off, bs[i].off + g.hdr + s, true);
    assert x in Used(c);
    KeptOne(g, Used(c), x, m1, m2);
    hide SameBytes;
    KeptLess(g, Used(bs) - {bs[i]}, Used(bs) * s', m, m1);
    KeptLess(g, Used(c), Used(bs) * s', m1, m2);
    hide Used;
    KeptTrans(g, Used(bs) * s', m, m1, m2);
  }

  /** Copying into the payload of block `j` changes no header and no other block's bytes. */
  lemma CopyIntoBlock(g: Geometry, m: Mem, bs: seq<Block>, j: nat, src: nat, k: nat)
    requires g.Ok() && Tiles(g, bs) && Tied(g, m, bs) && j < |bs| && bs[j].off + g.hdr + k <= bs[j].next
    requires bs[j].off + g.hdr + k <= src || src + k <= bs[j].off + g.hdr
    ensures var m' := CopyBytes(m, g.hdr, bs[j].off + g.hdr, src, k);
      Tied(g, m', bs) && Kept(g, Used(bs) - {bs[j]}, m, m') && CopiedBytes(m, m', bs[j].off + g.hdr, src, k)
  {
    CopyInto(g, m, bs, j, src, k);
    BlocksAreBoundaries(g, bs);
    BoundaryEnd(g, bs);
    hide CopyBytes, Tiles, Boundary, Kept, Used, CopiedBytes;
    var m' := CopyBytes(m, g.hdr, bs[j].off + g.hdr, src, k);
    forall i: nat | i < |bs| ensures TiedAt(m', bs, i) {
      assert TiedAt(m, bs, i) && SameHeader(m, m', bs[i].off);
    }
    assert SameHeader(m, m', g.End());
  }

  lemma WriteKeepsTied(g: Geometry, m: Mem, bs: seq<Block>, p: nat, k: nat, b: Byte)
    requires g.Ok() && Tiles(g, bs) && Tied(g, m, bs) && Live(g, bs, p) && k < PayloadSize(g, bs, p)
    ensures Tied(g, PutByte(m, g.hdr, p + k, b), bs)
  {
    AllOrdered(g, bs);
    FindIsLive(g, bs, p);
    var i := Find(g, bs, p);
    assert forall j :: 0 <= j < |bs| ==> GoodBlock(g, bs[j]);
    var m' := PutByte(m, g.hdr, p + k, b);
    forall j: nat | j < |bs| ensures TiedAt(m', bs, j) {
      assert TiedAt(m, bs, j);
      assert j < i ==> bs[j].next <= bs[i].off;
    }
  }

  /** The three ways of rt_smem_realloc, spelled out on the size of the block's payload. */
  lemma ReallocLiveCases(g: Geometry, st: State, p: nat, newsize: nat)
    requires g.Ok() && Live(g, st.blocks, p)
    ensures var i := Find(g, st.blocks, p); var size := st.blocks[i].next - st.blocks[i].off - g.hdr;
      var r := SmallMemSpec.ReallocLive(g, st, p, newsize);
      && (size == newsize ==> r == (Some(p), st))
      && (newsize + g.hdr + g.minSize < size ==> r == (Some(p), st.(blocks := Shrink(g, st.blocks, i, newsize))))
      && (size != newsize && newsize + g.hdr + g.minSize >= size ==>
           r == (var (q, st') := SmallMemSpec.Alloc(g, st, newsize); (q, if q.Some? then SmallMemSpec.Free(g, st', p) else st')))
  {
    hide Shrink, SmallMemSpec.Alloc, SmallMemSpec.Free;
  }
}
