/** In-band headers laid over a tiling: which stores leave which headers and which payload bytes
    alone. */
module Layout {
  import opened Alignment
  import opened Blocks
  import opened Memory

  ghost predicate HeaderIs<H>(m: Memory<H>, at: nat, h: H) {
    at in m.headers && m.headers[at] == h
  }

  /** The payloads of the blocks in `s` hold the same bytes in `m'` as in `m`. */
  ghost predicate Kept<H>(g: Geometry, s: set<Block>, m: Memory<H>, m': Memory<H>) {
    forall b :: b in s ==> SameBytes(m, m', b.off + g.hdr, b.next)
  }

  lemma KeptTrans<H>(g: Geometry, s: set<Block>, m: Memory<H>, m': Memory<H>, m'': Memory<H>)
    requires Kept(g, s, m, m') && Kept(g, s, m', m'')
    ensures Kept(g, s, m, m'')
  {}

  ghost predicate SameHeader<H>(m: Memory<H>, m': Memory<H>, at: nat) {
    (at in m.headers <==> at in m'.headers) && (at in m.headers ==> m.headers[at] == m'.headers[at])
  }

  /** Some block of `bs` starts at `at`, or the end stub does. */
  ghost predicate Boundary(g: Geometry, bs: seq<Block>, at: nat) {
    at == g.End() || exists j :: 0 <= j < |bs| && bs[j].off == at
  }

  /** Writing one header disturbs neither the other headers nor any payload. */
  lemma PutAtBoundary<H>(g: Geometry, m: Memory<H>, bs: seq<Block>, at: nat, h: H)
    requires g.Ok() && Tiles(g, bs) && Boundary(g, bs, at)
    ensures var m' := PutHeader(m, g.hdr, at, h);
      && HeaderIs(m', at, h)
      && (forall o :: Boundary(g, bs, o) && o != at ==> SameHeader(m, m', o))
      && Kept(g, Used(bs), m, m')
  {
    var m' := PutHeader(m, g.hdr, at, h);
    forall o | Boundary(g, bs, o) && o != at ensures SameHeader(m, m', o) {
      BoundariesApart(g, bs, at, o);
    }
    forall b | b in Used(bs) ensures SameBytes(m, m', b.off + g.hdr, b.next) {
      BoundaryOutside(g, bs, at, b);
    }
  }

  lemma BoundariesApart(g: Geometry, bs: seq<Block>, at: nat, o: nat)
    requires g.Ok() && Tiles(g, bs) && Boundary(g, bs, at) && Boundary(g, bs, o) && at != o
    ensures at + g.hdr <= o || o + g.hdr <= at
  {
    if at != g.End() && o != g.End() {
      var i :| 0 <= i < |bs| && bs[i].off == at;
      var j :| 0 <= j < |bs| && bs[j].off == o;
      assert GoodBlock(g, bs[i]) && GoodBlock(g, bs[j]);
      if i < j { Ordered(g, bs, i, j); } else { Ordered(g, bs, j, i); }
    } else {
      var i :| 0 <= i < |bs| && bs[i].off == (if at == g.End() then o else at);
      assert GoodBlock(g, bs[i]);
      if i < |bs| - 1 { Ordered(g, bs, i, |bs| - 1); assert GoodBlock(g, bs[|bs| - 1]); }
    }
  }

  lemma BoundaryOutside(g: Geometry, bs: seq<Block>, at: nat, b: Block)
    requires g.Ok() && Tiles(g, bs) && Boundary(g, bs, at) && b in bs
    ensures at + g.hdr <= b.off + g.hdr || b.next <= at
  {
    var j :| 0 <= j < |bs| && bs[j] == b;
    assert GoodBlock(g, bs[j]);
    if at == g.End() {
      if j < |bs| - 1 { Ordered(g, bs, j, |bs| - 1); assert GoodBlock(g, bs[|bs| - 1]); }
    } else {
      var i :| 0 <= i < |bs| && bs[i].off == at;
      assert GoodBlock(g, bs[i]);
      if i < j { Ordered(g, bs, i, j); } else if j < i { Ordered(g, bs, j, i); }
    }
  }

  lemma BlocksAreBoundaries(g: Geometry, bs: seq<Block>)
    requires g.Ok() && Tiles(g, bs)
    ensures forall k: nat :: k < |bs| ==> Boundary(g, bs, bs[k].off) && Boundary(g, bs, bs[k].next)
    ensures forall k, l :: 0 <= k < l < |bs| ==> bs[k].off < bs[l].off
    ensures forall k: nat :: k < |bs| ==> bs[k].off + g.hdr < bs[k].next <= g.End()
  {
    AllOrdered(g, bs);
    assert forall k :: 0 <= k < |bs| ==> GoodBlock(g, bs[k]);
    forall k: nat | k < |bs| ensures Boundary(g, bs, bs[k].next) {
      if k + 1 < |bs| { assert bs[k + 1].off == bs[k].next; }
    }
  }

  lemma PutInside<H>(g: Geometry, m: Memory<H>, bs: seq<Block>, i: nat, at: nat, h: H)
    requires g.Ok() && Tiles(g, bs) && i < |bs|
    requires bs[i].off + g.hdr <= at && at + g.hdr <= bs[i].next
    ensures var m' := PutHeader(m, g.hdr, at, h);
      && HeaderIs(m', at, h)
      && (forall o :: Boundary(g, bs, o) ==> SameHeader(m, m', o))
      && Kept(g, Used(bs) - {bs[i]}, m, m')
      && SameBytes(m, m', bs[i].off + g.hdr, at)
  {
    AllOrdered(g, bs);
    assert forall k :: 0 <= k < |bs| ==> GoodBlock(g, bs[k]);
  }

  lemma PutApart<H>(m: Memory<H>, width: nat, at: nat, h: H, o: nat)
    requires o + width <= at || at + width <= o
    requires o != at
    ensures SameHeader(m, PutHeader(m, width, at, h), o)
  {}

  lemma BoundaryEnd(g: Geometry, bs: seq<Block>)
    ensures Boundary(g, bs, g.End())
  {}

  lemma KeptSame<H>(g: Geometry, s: set<Block>, m: Memory<H>)
    ensures Kept(g, s, m, m)
  {}

  function Min(a: nat, b: nat): nat {
    if a < b then a else b
  }

  ghost function PayloadSize(g: Geometry, bs: seq<Block>, p: nat): nat
    requires Live(g, bs, p)
  {
    var b := bs[Find(g, bs, p)];
    if b.next >= p then b.next - p else 0
  }

  lemma KeptTwice<H>(g: Geometry, s: set<Block>, s': set<Block>, t: set<Block>, m: Memory<H>, m': Memory<H>, m'': Memory<H>)
    requires Kept(g, s, m, m') && Kept(g, s', m', m'') && t <= s && t <= s'
    ensures Kept(g, t, m, m'')
  {}

  lemma KeptLess<H>(g: Geometry, s: set<Block>, t: set<Block>, m: Memory<H>, m': Memory<H>)
    requires Kept(g, s, m, m') && t <= s
    ensures Kept(g, t, m, m')
  {}

  lemma CopiedInPlace<H>(m: Memory<H>, m': Memory<H>, p: nat, size: nat, n: nat)
    requires SameBytes(m, m', p, p + size) && n <= size
    ensures CopiedBytes(m, m', p, p, n)
  {}

  lemma BytesSame<H>(m: Memory<H>, lo: nat, hi: nat)
    ensures SameBytes(m, m, lo, hi)
  {}

  lemma KeptOne<H>(g: Geometry, s: set<Block>, b: Block, m: Memory<H>, m': Memory<H>)
    requires Kept(g, s, m, m') && b in s
    ensures SameBytes(m, m', b.off + g.hdr, b.next)
  {}

  lemma MovedBytes<H>(g: Geometry, s0: set<Block>, s1: set<Block>, s2: set<Block>, b: Block, c: Block,
                   p: nat, q: nat, k: nat, m0: Memory<H>, m1: Memory<H>, m2: Memory<H>, m3: Memory<H>)
    requires s1 == s0 + {c} && c !in s0 && b in s0 && s2 == s1 - {b}
    requires b.off + g.hdr == p && p + k <= b.next && c.off + g.hdr == q && q + k <= c.next
    requires Kept(g, s0, m0, m1) && Kept(g, s1 - {c}, m1, m2) && Kept(g, s2, m2, m3)
    requires CopiedBytes(m1, m2, q, p, k)
    ensures Kept(g, s0 * s2, m0, m3) && CopiedBytes(m0, m3, q, p, k)
  {
    KeptOne(g, s0, b, m0, m1);
    KeptOne(g, s2, c, m2, m3);
    CopiedChain(m0, m1, m2, m3, p, q, k);
    hide SameBytes, CopiedBytes;
    KeptLess(g, s0, s0 * s2, m0, m1);
    KeptLess(g, s1 - {c}, s0 * s2, m1, m2);
    KeptLess(g, s2, s0 * s2, m2, m3);
    KeptTrans(g, s0 * s2, m0, m1, m2);
    KeptTrans(g, s0 * s2, m0, m2, m3);
  }

  lemma CopiedChain<H>(m0: Memory<H>, m1: Memory<H>, m2: Memory<H>, m3: Memory<H>, p: nat, q: nat, k: nat)
    requires SameBytes(m0, m1, p, p + k) && CopiedBytes(m1, m2, q, p, k) && SameBytes(m2, m3, q, q + k)
    ensures CopiedBytes(m0, m3, q, p, k)
  {}

  /** memcpy into the payload of block `j`: no header moves, no other block's bytes change. */
  lemma CopyInto<H>(g: Geometry, m: Memory<H>, bs: seq<Block>, j: nat, src: nat, k: nat)
    requires g.Ok() && Tiles(g, bs) && j < |bs| && bs[j].off + g.hdr + k <= bs[j].next
    requires bs[j].off + g.hdr + k <= src || src + k <= bs[j].off + g.hdr
    ensures var m' := CopyBytes(m, g.hdr, bs[j].off + g.hdr, src, k);
      && (forall o :: Boundary(g, bs, o) ==> SameHeader(m, m', o))
      && Kept(g, Used(bs) - {bs[j]}, m, m') && CopiedBytes(m, m', bs[j].off + g.hdr, src, k)
  {
    var m' := CopyBytes(m, g.hdr, bs[j].off + g.hdr, src, k);
    forall o | Boundary(g, bs, o) ensures SameHeader(m, m', o) { BoundaryOutside(g, bs, o, bs[j]); }
    forall b | b in Used(bs) - {bs[j]} ensures SameBytes(m, m', b.off + g.hdr, b.next) {
      var i :| 0 <= i < |bs| && bs[i] == b;
      if i < j { Ordered(g, bs, i, j); } else { Ordered(g, bs, j, i); }
    }
  }

  /** A byte stored inside a live payload touches no header. */
  lemma WriteKeepsBoundaries<H>(g: Geometry, m: Memory<H>, bs: seq<Block>, p: nat, k: nat, b: Byte)
    requires g.Ok() && Tiles(g, bs) && Live(g, bs, p) && k < PayloadSize(g, bs, p)
    ensures forall o :: Boundary(g, bs, o) ==> SameHeader(m, PutByte(m, g.hdr, p + k, b), o)
  {
    var m' := PutByte(m, g.hdr, p + k, b);
    var i := Find(g, bs, p);
    FindIsLive(g, bs, p);
    forall o | Boundary(g, bs, o) ensures SameHeader(m, m', o) { BoundaryOutside(g, bs, o, bs[i]); }
  }
}
