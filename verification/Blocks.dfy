/** Blocks in address order: the layout shared by the allocators that keep their headers in
    front of the payloads (rt-thread/src/mem.c and rt-thread/src/memheap.c).  What tiles, what
    splitting and merging do to the tiling, and what determines a layout. */
module Blocks {
  import opened Alignment

  /** RT_ALIGN_SIZE, SIZEOF_STRUCT_MEM, MIN_SIZE and mem_size_aligned. */
  datatype Geometry = Geometry(align: nat, hdr: nat, minSize: nat, size: nat) {
    ghost predicate Ok() {
      && align > 0 && hdr > 0 && minSize > 0
      && Multiple(hdr, align) && Multiple(size, align) && size >= align
    }

    /** Offset of the end stub. */
    function End(): nat { size + hdr }
  }

  /** A block occupies [off, next): a header, then the payload. */
  datatype Block = Block(off: nat, next: nat, used: bool)

  ghost predicate GoodBlock(g: Geometry, b: Block)
    requires g.Ok()
  {
    Multiple(b.off, g.align) && Multiple(b.next, g.align) && b.off + g.hdr + g.align <= b.next
  }

  /** The blocks tile [0, End()) without gap or overlap. */
  ghost predicate Tiles(g: Geometry, bs: seq<Block>)
    requires g.Ok()
  {
    && |bs| > 0 && bs[0].off == 0 && bs[|bs| - 1].next == g.End()
    && (forall i :: 0 <= i < |bs| ==> GoodBlock(g, bs[i]))
    && (forall i, j :: 0 <= i && j == i + 1 && j < |bs| ==> bs[i].next == bs[j].off)
  }

  ghost predicate NoFreeNeighbours(bs: seq<Block>) {
    forall i, j :: 0 <= i && j == i + 1 && j < |bs| ==> bs[i].used || bs[j].used
  }

  ghost predicate WellFormed(g: Geometry, bs: seq<Block>)
    requires g.Ok()
  {
    Tiles(g, bs) && NoFreeNeighbours(bs)
  }

  /** Two things are counted: the bytes of used blocks with their headers, and the payload bytes
      of free ones behind headers of `hdr` bytes. */
  datatype Kind = InUse | FreePayload(hdr: nat)

  function Weigh(k: Kind, b: Block): int {
    match k
    case InUse => if b.used then b.next - b.off else 0
    case FreePayload(hdr) => if b.used then 0 else b.next - b.off - hdr
  }

  function Total(k: Kind, bs: seq<Block>): int {
    TotalTo(k, bs, |bs|)
  }

  function TotalTo(k: Kind, bs: seq<Block>, n: nat): int
    requires n <= |bs|
  {
    if n == 0 then 0 else TotalTo(k, bs, n - 1) + Weigh(k, bs[n - 1])
  }

  function UsedBytes(bs: seq<Block>): int {
    Total(InUse, bs)
  }

  function Fits(g: Geometry, b: Block, s: nat): bool {
    !b.used && b.next - (b.off + g.hdr) >= s
  }

  /** Alignment and the MIN_SIZE_ALIGNED clamp. */
  function Clamp(g: Geometry, n: nat): (s: nat)
    requires g.Ok()
    ensures n <= s && Multiple(s, g.align)
  {
    if Align(n, g.align) < Align(g.minSize, g.align) then Align(g.minSize, g.align) else Align(n, g.align)
  }

  lemma ClampTwice(g: Geometry, n: nat)
    requires g.Ok()
    ensures Clamp(g, Clamp(g, n)) == Clamp(g, n)
  {
    AlignOfMultiple(Clamp(g, n), g.align);
  }

  lemma ClampWhole(g: Geometry)
    requires g.Ok() && g.minSize <= g.size
    ensures Clamp(g, g.size) == g.size
  {
    AlignOfMultiple(g.size, g.align);
    var m := Align(g.minSize, g.align);
    if g.size < m { MultipleGap(g.size, m, g.align); }
  }

  function Splits(g: Geometry, b: Block, s: nat): bool
    requires g.Ok()
  {
    b.next - (b.off + g.hdr) >= s + g.hdr + Align(g.minSize, g.align)
  }

  /** Cut block `i` after `s` payload bytes: the front is used, the rest a free block. */
  function Cut(g: Geometry, bs: seq<Block>, i: nat, s: nat): seq<Block>
    requires i < |bs|
  {
    var b := bs[i];
    var m := b.off + g.hdr + s;
    bs[..i] + [Block(b.off, m, true), Block(m, b.next, false)] + bs[i + 1..]
  }

  function Take(g: Geometry, bs: seq<Block>, i: nat, s: nat): seq<Block>
    requires g.Ok() && i < |bs|
  {
    if Splits(g, bs[i], s) then Cut(g, bs, i, s) else bs[i := bs[i].(used := true)]
  }

  /** Join block `i` with its right neighbour. */
  function Join(bs: seq<Block>, i: nat): seq<Block>
    requires i + 1 < |bs|
  {
    bs[..i] + [Block(bs[i].off, bs[i + 1].next, bs[i].used)] + bs[i + 2..]
  }

  function JoinRight(bs: seq<Block>, i: nat): (r: seq<Block>)
    requires i < |bs|
    ensures i < |r| && r[..i] == bs[..i]
  {
    if i + 1 < |bs| && !bs[i + 1].used then Join(bs, i) else bs
  }

  function JoinLeft(bs: seq<Block>, i: nat): seq<Block>
    requires i < |bs|
  {
    if i > 0 && !bs[i - 1].used then Join(bs, i - 1) else bs
  }

  function PlugHoles(bs: seq<Block>, i: nat): seq<Block>
    requires i < |bs|
  {
    JoinLeft(JoinRight(bs, i), i)
  }

  function Release(bs: seq<Block>, i: nat): seq<Block>
    requires i < |bs|
  {
    PlugHoles(bs[i := bs[i].(used := false)], i)
  }

  /** `p` is the address of the payload of the live block at index `i`. */
  predicate LiveAt(g: Geometry, bs: seq<Block>, p: nat, i: int) {
    0 <= i < |bs| && bs[i].used && bs[i].off + g.hdr == p
  }

  /** Index of the block whose payload starts at `p`. */
  function Find(g: Geometry, bs: seq<Block>, p: nat): (i: nat)
    ensures i <= |bs|
    ensures i < |bs| ==> LiveAt(g, bs, p, i)
    ensures forall k :: 0 <= k < i ==> !LiveAt(g, bs, p, k)
  {
    FindFrom(g, bs, p, 0)
  }

  function FindFrom(g: Geometry, bs: seq<Block>, p: nat, i: nat): (r: nat)
    requires i <= |bs|
    ensures i <= r <= |bs|
    ensures r < |bs| ==> LiveAt(g, bs, p, r)
    ensures forall k :: i <= k < r ==> !LiveAt(g, bs, p, k)
    decreases |bs| - i
  {
    if i == |bs| || LiveAt(g, bs, p, i) then i else FindFrom(g, bs, p, i + 1)
  }

  predicate Live(g: Geometry, bs: seq<Block>, p: nat) {
    Find(g, bs, p) < |bs|
  }

  /** Give back the tail of block `i`. */
  function Shrink(g: Geometry, bs: seq<Block>, i: nat, s: nat): seq<Block>
    requires i < |bs|
  {
    PlugHoles(Cut(g, bs, i, s), i + 1)
  }

  lemma {:induction false} Ordered(g: Geometry, bs: seq<Block>, i: nat, j: nat)
    requires g.Ok() && Tiles(g, bs) && i < j < |bs|
    ensures bs[i].next <= bs[j].off
  {
    if i + 1 < j { Ordered(g, bs, i, j - 1); assert GoodBlock(g, bs[j - 1]); }
  }

  lemma AllOrdered(g: Geometry, bs: seq<Block>)
    requires g.Ok() && Tiles(g, bs)
    ensures forall i, j :: 0 <= i < j < |bs| ==> bs[i].next <= bs[j].off
    ensures forall i :: 0 <= i < |bs| ==> bs[i].next <= g.End()
  {
    forall i, j | 0 <= i < j < |bs| ensures bs[i].next <= bs[j].off { Ordered(g, bs, i, j); }
    assert GoodBlock(g, bs[|bs| - 1]);
  }

  /** `r` is `bs` with block `i` cut after `s` payload bytes, said index by index. */
  ghost predicate IsCut(g: Geometry, bs: seq<Block>, i: nat, s: nat, r: seq<Block>)
    requires i < |bs|
  {
    var m := bs[i].off + g.hdr + s;
    && |r| == |bs| + 1
    && (forall k :: 0 <= k < i ==> r[k] == bs[k])
    && r[i] == Block(bs[i].off, m, true) && r[i + 1] == Block(m, bs[i].next, false)
    && (forall k :: i + 2 <= k < |r| ==> r[k] == bs[k - 1])
  }

  lemma CutShape(g: Geometry, bs: seq<Block>, i: nat, s: nat)
    requires i < |bs|
    ensures IsCut(g, bs, i, s, Cut(g, bs, i, s))
  {}

  lemma CutTiles(g: Geometry, bs: seq<Block>, i: nat, s: nat, r: seq<Block>)
    requires g.Ok() && Tiles(g, bs) && i < |bs| && IsCut(g, bs, i, s, r)
    requires Multiple(s, g.align) && s >= g.align
    requires bs[i].off + g.hdr + s + g.hdr + g.align <= bs[i].next
    ensures Tiles(g, r)
  {
    hide GoodBlock, IsCut;
    CutEnds(g, bs, i, s, r);
    forall k | 0 <= k < |r| ensures GoodBlock(g, r[k]) { CutGood(g, bs, i, s, r, k); }
    forall k, l | 0 <= k && l == k + 1 && l < |r| ensures r[k].next == r[l].off { CutMeets(g, bs, i, s, r, k); }
  }

  lemma CutEnds(g: Geometry, bs: seq<Block>, i: nat, s: nat, r: seq<Block>)
    requires g.Ok() && Tiles(g, bs) && i < |bs| && IsCut(g, bs, i, s, r)
    ensures |r| > 0 && r[0].off == 0 && r[|r| - 1].next == g.End()
  {}

  lemma CutGood(g: Geometry, bs: seq<Block>, i: nat, s: nat, r: seq<Block>, k: nat)
    requires g.Ok() && Tiles(g, bs) && i < |bs| && IsCut(g, bs, i, s, r) && k < |r|
    requires Multiple(s, g.align) && s >= g.align
    requires bs[i].off + g.hdr + s + g.hdr + g.align <= bs[i].next
    ensures GoodBlock(g, r[k])
  {
    assert GoodBlock(g, bs[i]);
    MultipleSum(bs[i].off, g.hdr, g.align);
    MultipleSum(bs[i].off + g.hdr, s, g.align);
    hide Multiple, Align;
    assert k < i ==> GoodBlock(g, bs[k]);
    assert k >= i + 2 ==> GoodBlock(g, bs[k - 1]);
  }

  lemma CutMeets(g: Geometry, bs: seq<Block>, i: nat, s: nat, r: seq<Block>, k: nat)
    requires g.Ok() && Tiles(g, bs) && i < |bs| && IsCut(g, bs, i, s, r) && k + 1 < |r|
    ensures r[k].next == r[k + 1].off
  {
    hide GoodBlock;
    if k >= i + 1 { assert bs[k - 1].next == bs[k].off; }
  }

  lemma JoinTiles(g: Geometry, bs: seq<Block>, i: nat)
    requires g.Ok() && Tiles(g, bs) && i + 1 < |bs|
    ensures Tiles(g, Join(bs, i))
  {
    var r := Join(bs, i);
    assert GoodBlock(g, bs[i]) && GoodBlock(g, bs[i + 1]);
    assert forall k :: 0 <= k < i ==> r[k] == bs[k];
    assert forall k :: i + 1 <= k < |r| ==> r[k] == bs[k + 1];
  }

  lemma RetagTiles(g: Geometry, bs: seq<Block>, i: nat, u: bool)
    requires g.Ok() && Tiles(g, bs) && i < |bs|
    ensures Tiles(g, bs[i := bs[i].(used := u)])
  {
    assert GoodBlock(g, bs[i]);
  }

  function Used(bs: seq<Block>): set<Block> {
    set b | b in bs && b.used
  }

  lemma {:induction false} TotalToConcat(k: Kind, a: seq<Block>, b: seq<Block>, n: nat)
    requires n <= |b|
    ensures TotalTo(k, a + b, |a| + n) == TotalTo(k, a, |a|) + TotalTo(k, b, n)
  {
    if n == 0 { TotalToPrefix(k, a, b, |a|); } else { TotalToConcat(k, a, b, n - 1); }
  }

  lemma {:induction false} TotalToPrefix(k: Kind, a: seq<Block>, b: seq<Block>, n: nat)
    requires n <= |a|
    ensures TotalTo(k, a + b, n) == TotalTo(k, a, n)
  {
    if n > 0 { TotalToPrefix(k, a, b, n - 1); }
  }

  lemma TotalOne(k: Kind, b: Block)
    ensures Total(k, [b]) == Weigh(k, b)
  {
    assert TotalTo(k, [b], 1) == TotalTo(k, [b], 0) + Weigh(k, b);
  }

  lemma TotalTwo(k: Kind, b: Block, c: Block)
    ensures Total(k, [b, c]) == Weigh(k, b) + Weigh(k, c)
  {
    assert TotalTo(k, [b, c], 2) == TotalTo(k, [b, c], 1) + Weigh(k, c);
    assert TotalTo(k, [b, c], 1) == TotalTo(k, [b, c], 0) + Weigh(k, b);
  }

  /** Replacing the middle of a sequence changes the total by the difference of the middles. */
  lemma TotalAround(k: Kind, pre: seq<Block>, mid: seq<Block>, post: seq<Block>)
    ensures Total(k, pre + mid + post) == Total(k, pre) + Total(k, mid) + Total(k, post)
  {
    TotalToConcat(k, pre, mid, |mid|);
    TotalToConcat(k, pre + mid, post, |post|);
  }

  lemma UsedAround(pre: seq<Block>, mid: seq<Block>, post: seq<Block>)
    ensures Used(pre + mid + post) == Used(pre) + Used(mid) + Used(post)
  {}

  lemma SplitAround(bs: seq<Block>, i: nat, n: nat)
    requires i + n <= |bs|
    ensures bs == bs[..i] + bs[i..i + n] + bs[i + n..]
  {}

  lemma CutTotal(k: Kind, g: Geometry, bs: seq<Block>, i: nat, s: nat)
    requires i < |bs|
    ensures var m := bs[i].off + g.hdr + s;
      Total(k, Cut(g, bs, i, s)) == Total(k, bs) - Weigh(k, bs[i])
        + Weigh(k, Block(bs[i].off, m, true)) + Weigh(k, Block(m, bs[i].next, false))
  {
    hide Total;
    var m := bs[i].off + g.hdr + s;
    var x, y := Block(bs[i].off, m, true), Block(m, bs[i].next, false);
    TotalAround(k, bs[..i], [x, y], bs[i + 1..]);
    TotalTwo(k, x, y);
    TotalAround(k, bs[..i], [bs[i]], bs[i + 1..]);
    TotalOne(k, bs[i]);
    assert bs == bs[..i] + [bs[i]] + bs[i + 1..];
  }

  lemma CutUsed(g: Geometry, bs: seq<Block>, i: nat, s: nat)
    requires i < |bs|
    ensures Used(Cut(g, bs, i, s)) == Used(bs[..i]) + Used(bs[i + 1..]) + {Block(bs[i].off, bs[i].off + g.hdr + s, true)}
  {
    var m := bs[i].off + g.hdr + s;
    UsedAround(bs[..i], [Block(bs[i].off, m, true), Block(m, bs[i].next, false)], bs[i + 1..]);
  }

  lemma JoinTotal(k: Kind, bs: seq<Block>, i: nat)
    requires i + 1 < |bs|
    ensures Total(k, Join(bs, i)) == Total(k, bs) - Weigh(k, bs[i]) - Weigh(k, bs[i + 1])
      + Weigh(k, Block(bs[i].off, bs[i + 1].next, bs[i].used))
  {
    hide Total;
    var x := Block(bs[i].off, bs[i + 1].next, bs[i].used);
    TotalAround(k, bs[..i], [x], bs[i + 2..]);
    TotalAround(k, bs[..i], [bs[i], bs[i + 1]], bs[i + 2..]);
    TotalTwo(k, bs[i], bs[i + 1]);
    TotalOne(k, x);
    SplitAround(bs, i, 2);
    assert bs[i..i + 2] == [bs[i], bs[i + 1]];
  }

  lemma RetagTotal(k: Kind, bs: seq<Block>, i: nat, u: bool)
    requires i < |bs|
    ensures Total(k, bs[i := bs[i].(used := u)]) == Total(k, bs) - Weigh(k, bs[i]) + Weigh(k, bs[i].(used := u))
  {
    hide Total;
    var r := bs[i := bs[i].(used := u)];
    TotalAround(k, bs[..i], [bs[i]], bs[i + 1..]);
    TotalAround(k, bs[..i], [r[i]], bs[i + 1..]);
    TotalOne(k, bs[i]); TotalOne(k, r[i]);
    assert bs == bs[..i] + [bs[i]] + bs[i + 1..] && r == bs[..i] + [r[i]] + bs[i + 1..];
  }

  lemma JoinUsed(bs: seq<Block>, i: nat)
    requires i + 1 < |bs| && !bs[i].used && !bs[i + 1].used
    ensures Used(Join(bs, i)) == Used(bs)
  {
    UsedAround(bs[..i], [Block(bs[i].off, bs[i + 1].next, false)], bs[i + 2..]);
    UsedAround(bs[..i], bs[i..i + 2], bs[i + 2..]);
    SplitAround(bs, i, 2);
    assert bs[i..i + 2] == [bs[i], bs[i + 1]];
  }

  lemma JoinCounts(bs: seq<Block>, i: nat)
    requires i + 1 < |bs| && !bs[i].used && !bs[i + 1].used
    ensures UsedBytes(Join(bs, i)) == UsedBytes(bs) && Used(Join(bs, i)) == Used(bs)
  {
    JoinTotal(InUse, bs, i);
    JoinUsed(bs, i);
  }

  /** Only block `i` may have a free neighbour although it is free. */
  ghost predicate NoFreeNeighboursBut(bs: seq<Block>, i: nat) {
    forall k, l :: 0 <= k && l == k + 1 && l < |bs| && k != i && l != i ==> bs[k].used || bs[l].used
  }

  /** plug_holes restores the invariant around a block just freed, whatever its neighbours are. */
  lemma PlugHolesRestores(g: Geometry, bs: seq<Block>, i: nat)
    requires g.Ok() && Tiles(g, bs) && i < |bs| && !bs[i].used && NoFreeNeighboursBut(bs, i)
    ensures WellFormed(g, PlugHoles(bs, i))
    ensures UsedBytes(PlugHoles(bs, i)) == UsedBytes(bs)
    ensures Used(PlugHoles(bs, i)) == Used(bs)
  {
    JoinRightRestores(g, bs, i);
    JoinLeftRestores(g, JoinRight(bs, i), i);
  }

  lemma JoinRightRestores(g: Geometry, bs: seq<Block>, i: nat)
    requires g.Ok() && Tiles(g, bs) && i < |bs| && !bs[i].used && NoFreeNeighboursBut(bs, i)
    ensures var r := JoinRight(bs, i);
      && Tiles(g, r) && !r[i].used && NoFreeNeighboursBut(r, i) && (i + 1 < |r| ==> r[i + 1].used)
      && UsedBytes(r) == UsedBytes(bs) && Used(r) == Used(bs)
  {
    if i + 1 < |bs| && !bs[i + 1].used {
      JoinTiles(g, bs, i);
      JoinCounts(bs, i);
      var r := Join(bs, i);
      assert forall k :: 0 <= k < i ==> r[k] == bs[k];
      assert forall k :: i + 1 <= k < |r| ==> r[k] == bs[k + 1];
    }
  }

  lemma JoinNeighbours(bs: seq<Block>, i: nat)
    requires i + 1 < |bs| && !bs[i].used && NoFreeNeighboursBut(bs, i + 1)
    requires i + 2 < |bs| ==> bs[i + 2].used
    ensures NoFreeNeighbours(Join(bs, i))
  {
    var r := Join(bs, i);
    assert forall k :: 0 <= k < i ==> r[k] == bs[k];
    assert forall k :: i + 1 <= k < |r| ==> r[k] == bs[k + 1];
  }

  lemma JoinLeftRestores(g: Geometry, bs: seq<Block>, i: nat)
    requires g.Ok() && Tiles(g, bs) && i < |bs| && !bs[i].used && NoFreeNeighboursBut(bs, i)
    requires i + 1 < |bs| ==> bs[i + 1].used
    ensures var r := JoinLeft(bs, i);
      WellFormed(g, r) && UsedBytes(r) == UsedBytes(bs) && Used(r) == Used(bs)
  {
    if i > 0 && !bs[i - 1].used {
      JoinTiles(g, bs, i - 1);
      JoinCounts(bs, i - 1);
      JoinNeighbours(bs, i - 1);
    }
  }

  lemma UsedDistinct(g: Geometry, bs: seq<Block>, i: nat)
    requires g.Ok() && Tiles(g, bs) && i < |bs|
    ensures Used(bs[..i]) + Used(bs[i + 1..]) == Used(bs) - {bs[i]}
  {
    UsedAround(bs[..i], [bs[i]], bs[i + 1..]);
    SplitAround(bs, i, 1);
    assert bs[i..i + 1] == [bs[i]];
    NotElsewhere(g, bs, i);
  }

  lemma NotElsewhere(g: Geometry, bs: seq<Block>, i: nat)
    requires g.Ok() && Tiles(g, bs) && i < |bs|
    ensures bs[i] !in bs[..i] && bs[i] !in bs[i + 1..]
  {
    AllOrdered(g, bs);
    assert GoodBlock(g, bs[i]);
  }

  lemma RetagCounts(g: Geometry, bs: seq<Block>, i: nat, u: bool)
    requires g.Ok() && Tiles(g, bs) && i < |bs|
    ensures UsedBytes(bs[i := bs[i].(used := u)]) == UsedBytes(bs) - Weigh(InUse, bs[i]) + Weigh(InUse, bs[i].(used := u))
    ensures Used(bs[i := bs[i].(used := u)]) == Used(bs) - {bs[i]} + (if u then {bs[i].(used := u)} else {})
  {
    RetagTotal(InUse, bs, i, u);
    RetagUsed(g, bs, i, u);
  }

  lemma RetagUsed(g: Geometry, bs: seq<Block>, i: nat, u: bool)
    requires g.Ok() && Tiles(g, bs) && i < |bs|
    ensures Used(bs[i := bs[i].(used := u)]) == Used(bs) - {bs[i]} + (if u then {bs[i].(used := u)} else {})
  {
    var r := bs[i := bs[i].(used := u)];
    UsedDistinct(g, bs, i);
    UsedAround(bs[..i], [r[i]], bs[i + 1..]);
    assert r == bs[..i] + [r[i]] + bs[i + 1..];
  }

  lemma ClampPositive(g: Geometry, n: nat)
    requires g.Ok()
    ensures Clamp(g, n) >= g.align && Align(g.minSize, g.align) >= g.align
  {
    MultipleGap(0, Align(g.minSize, g.align), g.align);
  }

  lemma SplitKeeps(g: Geometry, bs: seq<Block>, i: nat, s: nat, r: seq<Block>)
    requires g.Ok() && WellFormed(g, bs) && i < |bs| && !bs[i].used && Splits(g, bs[i], s)
    requires Multiple(s, g.align) && s >= g.align && IsCut(g, bs, i, s, r)
    ensures WellFormed(g, r)
  {
    ClampPositive(g, 0);
    CutTiles(g, bs, i, s, r);
    hide Align, Multiple;
  }

  /** Handing out block `i` adds exactly one used block, with room for `s` bytes. */
  lemma TakeKeeps(g: Geometry, bs: seq<Block>, i: nat, s: nat)
    requires g.Ok() && WellFormed(g, bs) && i < |bs| && Fits(g, bs[i], s)
    requires Multiple(s, g.align) && s >= g.align
    ensures var r := Take(g, bs, i, s);
      && WellFormed(g, r)
      && i < |r| && r[i].off == bs[i].off && r[i].used && r[i].next >= r[i].off + g.hdr + s
      && Used(r) == Used(bs) + {r[i]}
      && UsedBytes(r) == UsedBytes(bs) + Weigh(InUse, r[i])
  {
    assert bs[i] !in Used(bs);
    hide Align, Multiple, Total, Cut, Used;
    UsedDistinct(g, bs, i);
    if Splits(g, bs[i], s) {
      CutShape(g, bs, i, s);
      SplitKeeps(g, bs, i, s, Cut(g, bs, i, s));
      CutTotal(InUse, g, bs, i, s);
      CutUsed(g, bs, i, s);
    } else {
      RetagTiles(g, bs, i, true);
      RetagCounts(g, bs, i, true);
    }
  }

  /** A block delivered by a successful allocation: new, big enough, and the only change to the
      used blocks. */
  ghost predicate Delivers(g: Geometry, bs: seq<Block>, bs': seq<Block>, p: nat, n: nat) {
    exists b :: b in bs' && b.used && b.off + g.hdr == p && b.next - p >= n
      && b !in Used(bs) && Used(bs') == Used(bs) + {b}
  }

  lemma FreshBlock(g: Geometry, bs: seq<Block>, i: nat, b: Block)
    requires g.Ok() && Tiles(g, bs) && i < |bs| && !bs[i].used && b.off == bs[i].off
    ensures b !in Used(bs)
  {
    if b in Used(bs) {
      var k :| 0 <= k < |bs| && bs[k] == b;
      assert GoodBlock(g, bs[i]) && GoodBlock(g, bs[k]);
      if k < i { Ordered(g, bs, k, i); } else if i < k { Ordered(g, bs, i, k); }
    }
  }

  /** A pointer stays live as long as its block stays in the heap. */
  lemma LiveKept(g: Geometry, bs: seq<Block>, bs': seq<Block>, p: nat)
    requires Live(g, bs, p) && Used(bs) <= Used(bs')
    ensures Live(g, bs', p)
  {
    var b := bs[Find(g, bs, p)];
    assert b in Used(bs);
    var k :| 0 <= k < |bs'| && bs'[k] == b;
    assert LiveAt(g, bs', p, k);
  }

  lemma ReleaseKeeps(g: Geometry, bs: seq<Block>, i: nat)
    requires g.Ok() && WellFormed(g, bs) && i < |bs| && bs[i].used
    ensures var r := Release(bs, i);
      && WellFormed(g, r)
      && Used(r) == Used(bs) - {bs[i]}
      && UsedBytes(r) == UsedBytes(bs) - Weigh(InUse, bs[i])
  {
    RetagTiles(g, bs, i, false);
    RetagCounts(g, bs, i, false);
    PlugHolesRestores(g, bs[i := bs[i].(used := false)], i);
  }

  lemma ShrinkKeeps(g: Geometry, bs: seq<Block>, i: nat, s: nat)
    requires g.Ok() && WellFormed(g, bs) && i < |bs| && bs[i].used
    requires Multiple(s, g.align) && s > 0
    requires s + g.hdr + g.minSize < bs[i].next - bs[i].off - g.hdr
    ensures var r := Shrink(g, bs, i, s);
      && WellFormed(g, r)
      && Used(r) == Used(bs) - {bs[i]} + {Block(bs[i].off, bs[i].off + g.hdr + s, true)}
      && UsedBytes(r) == UsedBytes(bs) - Weigh(InUse, bs[i]) + g.hdr + s
  {
    hide Cut, Total, Multiple, Align, PlugHoles, Used, Tiles;
    var c := Cut(g, bs, i, s);
    MultipleGap(0, s, g.align);
    TailFits(g, bs, i, s);
    CutShape(g, bs, i, s);
    CutTiles(g, bs, i, s, c);
    CutTotal(InUse, g, bs, i, s);
    CutUsed(g, bs, i, s);
    UsedDistinct(g, bs, i);
    CutNeighbours(g, bs, i, s, c);
    PlugHolesRestores(g, c, i + 1);
  }

  lemma TailFits(g: Geometry, bs: seq<Block>, i: nat, s: nat)
    requires g.Ok() && Tiles(g, bs) && i < |bs|
    requires Multiple(s, g.align) && s + g.hdr + g.minSize < bs[i].next - bs[i].off - g.hdr
    ensures bs[i].off + g.hdr + s + g.hdr + g.align <= bs[i].next
  {
    var b := bs[i];
    assert GoodBlock(g, b);
    MultipleSum(b.off, g.hdr, g.align);
    MultipleSum(b.off + g.hdr, s, g.align);
    MultipleSum(b.off + g.hdr + s, g.hdr, g.align);
    MultipleGap(b.off + g.hdr + s + g.hdr, b.next, g.align);
  }

  lemma CutNeighbours(g: Geometry, bs: seq<Block>, i: nat, s: nat, r: seq<Block>)
    requires i < |bs| && NoFreeNeighbours(bs) && IsCut(g, bs, i, s, r)
    ensures NoFreeNeighboursBut(r, i + 1)
  {}

  /** Block `b` has been given up for one of at least `n` bytes with its payload at `q`. */
  ghost predicate Replaces(g: Geometry, bs: seq<Block>, bs': seq<Block>, b: Block, q: nat, n: nat) {
    exists c :: c in bs' && c.used && c.off + g.hdr == q && c.next - q >= n && Used(bs') == Used(bs) - {b} + {c}
  }

  lemma FindIsLive(g: Geometry, bs: seq<Block>, p: nat)
    requires Live(g, bs, p)
    ensures LiveAt(g, bs, p, Find(g, bs, p))
  {}

  lemma KeptReplaces(g: Geometry, bs: seq<Block>, i: nat)
    requires i < |bs| && bs[i].used
    ensures bs[i].next >= bs[i].off + g.hdr ==>
      Replaces(g, bs, bs, bs[i], bs[i].off + g.hdr, bs[i].next - bs[i].off - g.hdr)
  {
    assert bs[i] in bs && Used(bs) == Used(bs) - {bs[i]} + {bs[i]};
  }

  lemma ShrunkDelivers(g: Geometry, bs: seq<Block>, i: nat, s: nat)
    requires g.Ok() && WellFormed(g, bs) && i < |bs| && bs[i].used
    requires Multiple(s, g.align) && s > 0
    requires s + g.hdr + g.minSize < bs[i].next - bs[i].off - g.hdr
    ensures var r := Shrink(g, bs, i, s);
      && WellFormed(g, r)
      && UsedBytes(r) <= UsedBytes(bs)
      && Replaces(g, bs, r, bs[i], bs[i].off + g.hdr, s)
  {
    hide Shrink, UsedBytes;
    ShrinkKeeps(g, bs, i, s);
    var c := Block(bs[i].off, bs[i].off + g.hdr + s, true);
    assert c in Used(Shrink(g, bs, i, s));
  }

  /** The block behind a live pointer is the only used block with that payload address. */
  lemma SamePointer(g: Geometry, bs: seq<Block>, p: nat, b: Block)
    requires g.Ok() && Tiles(g, bs) && b in bs && b.used && b.off + g.hdr == p
    ensures Live(g, bs, p) && bs[Find(g, bs, p)] == b
  {
    var k :| 0 <= k < |bs| && bs[k] == b;
    assert LiveAt(g, bs, p, k);
    var i := Find(g, bs, p);
    AllOrdered(g, bs);
    assert GoodBlock(g, bs[i]) && GoodBlock(g, bs[k]);
  }

  /** The heap keeps no memory of its history: two heaps with the same used blocks are laid out
      identically, so the order in which blocks were freed cannot matter. */
  lemma LayoutDetermined(g: Geometry, cs: seq<Block>, bs: seq<Block>)
    requires g.Ok() && WellFormed(g, cs) && WellFormed(g, bs) && Used(cs) == Used(bs)
    ensures cs == bs
  {
    SamePrefix(g, cs, bs, 0);
  }

  lemma {:induction false} SamePrefix(g: Geometry, cs: seq<Block>, bs: seq<Block>, k: nat)
    requires g.Ok() && WellFormed(g, cs) && WellFormed(g, bs) && Used(cs) == Used(bs)
    requires k <= |cs| && k <= |bs| && cs[..k] == bs[..k]
    ensures cs == bs
    decreases |cs| - k
  {
    AllOrdered(g, cs);
    AllOrdered(g, bs);
    assert k > 0 ==> cs[k - 1] == cs[..k][k - 1] == bs[..k][k - 1] == bs[k - 1];
    if k == |cs| || k == |bs| {
      assert k > 0;
      assert cs == cs[..k] && bs == bs[..k];
    } else {
      assert cs[k].off == bs[k].off;
      SameBlock(g, cs, bs, k);
      SameBlock(g, bs, cs, k);
      assert cs[..k + 1] == cs[..k] + [cs[k]] && bs[..k + 1] == bs[..k] + [bs[k]];
      SamePrefix(g, cs, bs, k + 1);
    }
  }

  lemma SameBlock(g: Geometry, cs: seq<Block>, bs: seq<Block>, k: nat)
    requires g.Ok() && WellFormed(g, cs) && WellFormed(g, bs) && Used(cs) == Used(bs)
    requires k < |cs| && k < |bs| && cs[k].off == bs[k].off
    ensures cs[k].used ==> cs[k] == bs[k]
    ensures !cs[k].used && !bs[k].used ==> bs[k].next <= cs[k].next
  {
    AllOrdered(g, cs);
    AllOrdered(g, bs);
    assert GoodBlock(g, cs[k]) && GoodBlock(g, bs[k]);
    if cs[k].used {
      assert cs[k] in Used(bs);
      var j :| 0 <= j < |bs| && bs[j] == cs[k];
      assert GoodBlock(g, bs[j]);
    } else if !bs[k].used && k + 1 < |cs| {
      assert cs[k + 1] in Used(bs);
      var j :| 0 <= j < |bs| && bs[j] == cs[k + 1];
      assert GoodBlock(g, bs[j]) && GoodBlock(g, cs[k + 1]);
    }
  }

  /** The heap right after rt_smem_init. */
  function Empty(g: Geometry): seq<Block> {
    [Block(0, g.End(), false)]
  }

  lemma EmptyWellFormed(g: Geometry)
    requires g.Ok()
    ensures WellFormed(g, Empty(g)) && Used(Empty(g)) == {} && UsedBytes(Empty(g)) == 0
  {
    MultipleSum(g.size, g.hdr, g.align);
    TotalOne(InUse, Block(0, g.End(), false));
  }

  /** Live payloads are aligned, lie between the first header and the end stub, and do not meet. */
  lemma LivePayloads(g: Geometry, bs: seq<Block>, p: nat, q: nat)
    requires g.Ok() && WellFormed(g, bs) && Live(g, bs, p) && Live(g, bs, q)
    ensures Multiple(p, g.align)
    ensures var b := bs[Find(g, bs, p)]; g.hdr <= p < b.next <= g.End()
    ensures var b, c := bs[Find(g, bs, p)], bs[Find(g, bs, q)]; p < q ==> b.next <= q - g.hdr
  {
    hide Tiles, Multiple, NoFreeNeighbours;
    AllOrdered(g, bs);
    var i, j := Find(g, bs, p), Find(g, bs, q);
    PayloadAligned(g, bs, i);
    PayloadAligned(g, bs, j);
  }

  lemma PayloadAligned(g: Geometry, bs: seq<Block>, i: nat)
    requires g.Ok() && Tiles(g, bs) && i < |bs|
    ensures Multiple(bs[i].off + g.hdr, g.align) && bs[i].off + g.hdr < bs[i].next
  {
    hide Multiple;
    assert GoodBlock(g, bs[i]);
    MultipleSum(bs[i].off, g.hdr, g.align);
  }

  /** Block `i` in two, both halves tagged as block `i` was and free. */
  ghost function Halves(g: Geometry, bs: seq<Block>, i: nat, s: nat): seq<Block>
    requires i < |bs|
  {
    var b := bs[i];
    var m := b.off + g.hdr + s;
    bs[..i] + [Block(b.off, m, b.used), Block(m, b.next, false)] + bs[i + 1..]
  }

  lemma HalvesCut(g: Geometry, bs: seq<Block>, i: nat, s: nat)
    requires i < |bs|
    ensures var r := Halves(g, bs, i, s); var c := Cut(g, bs, i, s);
      && i < |r| && r[i].off == bs[i].off && r[i].used == bs[i].used && |c| == |r|
      && r[i := r[i].(used := true)] == c && c[i := c[i].(used := bs[i].used)] == r
  {}

  lemma HalvesUsed(g: Geometry, bs: seq<Block>, i: nat, s: nat)
    requires i < |bs| && !bs[i].used
    ensures Used(Halves(g, bs, i, s)) == Used(bs) && Used(bs) - {bs[i]} == Used(bs)
  {
    var m := bs[i].off + g.hdr + s;
    UsedAround(bs[..i], [Block(bs[i].off, m, false), Block(m, bs[i].next, false)], bs[i + 1..]);
    UsedAround(bs[..i], [bs[i]], bs[i + 1..]);
    assert bs == bs[..i] + [bs[i]] + bs[i + 1..];
  }

  lemma TwoBlocks(g: Geometry, bs: seq<Block>, b: Block, j: nat)
    requires g.Ok() && Tiles(g, bs) && b in bs && j < |bs| && b != bs[j]
    ensures b.off + g.hdr < b.next && (b.next <= bs[j].off || bs[j].next <= b.off)
  {
    var i :| 0 <= i < |bs| && bs[i] == b;
    InBlock(g, bs, i);
    if i < j { Ordered(g, bs, i, j); } else { Ordered(g, bs, j, i); }
  }

  /** The block an allocation delivered for a move, and its distance from the block moved. */
  lemma MoveTarget(g: Geometry, bs0: seq<Block>, bs: seq<Block>, p: nat, q: nat, n: nat) returns (j: nat)
    requires g.Ok() && Tiles(g, bs) && Live(g, bs0, p) && Delivers(g, bs0, bs, q, n)
    ensures j < |bs| && bs[j].used && bs[j].off + g.hdr == q && q + n <= bs[j].next
    ensures Used(bs) == Used(bs0) + {bs[j]} && bs[j] !in Used(bs0)
    ensures var b := bs0[Find(g, bs0, p)];
      b in Used(bs0) && Live(g, bs, p) && bs[Find(g, bs, p)] == b && b.off + g.hdr == p && p < b.next
      && (q + n <= b.off || b.next <= bs[j].off)
  {
    hide Tiles, Multiple, GoodBlock;
    var c :| c in bs && c.used && c.off + g.hdr == q && c.next - q >= n && c !in Used(bs0) && Used(bs) == Used(bs0) + {c};
    j :| 0 <= j < |bs| && bs[j] == c;
    FindIsLive(g, bs0, p);
    var b := bs0[Find(g, bs0, p)];
    assert b in Used(bs0) && b in Used(bs) && b != c;
    SamePointer(g, bs, p, b);
    TwoBlocks(g, bs, b, j);
  }

  lemma InBlock(g: Geometry, bs: seq<Block>, i: nat)
    requires g.Ok() && Tiles(g, bs) && i < |bs|
    ensures bs[i].off + g.hdr < bs[i].next
  {
    assert GoodBlock(g, bs[i]);
  }

  /** A free block with room for `s` bytes. */
  predicate Roomy(g: Geometry, b: Block, s: nat) {
    !b.used && b.next - b.off - g.hdr >= s
  }

  /** The block that an allocation of `s` bytes takes out of the free block `b`: all of it, unless
      what is left has room for a header and `m` bytes. */
  function Portion(g: Geometry, b: Block, s: nat, m: nat): Block {
    Block(b.off, if b.next - b.off - g.hdr >= s + g.hdr + m then b.off + g.hdr + s else b.next, true)
  }

  lemma TakeIsPortion(g: Geometry, bs: seq<Block>, i: nat, s: nat)
    requires g.Ok() && i < |bs|
    ensures var r := Take(g, bs, i, s); i < |r| && r[i] == Portion(g, bs[i], s, Align(g.minSize, g.align))
  {}
}
