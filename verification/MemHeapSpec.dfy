/** What the memory heap of rt-thread/src/memheap.c promises, over its blocks in address order
    and its free list in list order. */
module MemHeapSpec {
  import opened Alignment
  import opened Blocks
  import opened Lists
  import opened Memory

  /** RT_ALIGN_SIZE is 4 and RT_MEMHEAP_MINIALLOC is 12; `g.size` is the payload of the whole
      pool, so that the tail item sits at `g.End()`. */
  ghost predicate Pool(g: Geometry) {
    g.Ok() && g.align == 4 && g.minSize == 12
  }

  function PoolSize(g: Geometry): nat {
    g.size + 2 * g.hdr
  }

  /** `free` lists the offsets of the free items in free-list order. */
  datatype State = State(blocks: seq<Block>, free: seq<nat>, max: int)

  // ---------------------------------------------------------------- invariant

  function FreeOffs(bs: seq<Block>): set<nat> {
    set b | b in bs && !b.used :: b.off
  }

  function Elems(s: seq<nat>): set<nat> {
    set x | x in s
  }

  ghost predicate ListsFree(bs: seq<Block>, free: seq<nat>) {
    NoDup(free) && Elems(free) == FreeOffs(bs)
  }

  /** available_size: the payload bytes of the free items. */
  function Available(g: Geometry, bs: seq<Block>): int {
    Total(FreePayload(g.hdr), bs)
  }

  ghost predicate Inv(g: Geometry, st: State)
    requires g.Ok()
  {
    WellFormed(g, st.blocks) && ListsFree(st.blocks, st.free) && PoolSize(g) - Available(g, st.blocks) <= st.max
  }

  // ---------------------------------------------------------------- operations

  /** Index of the block at offset `o`. */
  function IndexOf(bs: seq<Block>, o: nat, i: nat): (r: nat)
    requires i <= |bs|
    ensures i <= r <= |bs|
    ensures r < |bs| ==> bs[r].off == o
    ensures forall k :: i <= k < r ==> bs[k].off != o
    decreases |bs| - i
  {
    if i == |bs| || bs[i].off == o then i else IndexOf(bs, o, i + 1)
  }

  function Payload(g: Geometry, b: Block): int {
    b.next - b.off - g.hdr
  }

  function SizeAt(g: Geometry, bs: seq<Block>, o: nat): int {
    var i := IndexOf(bs, o, 0);
    if i < |bs| then Payload(g, bs[i]) else 0
  }

  /** Position of the first item of the free list, from `k` on, that holds `s` bytes. */
  function FirstListed(g: Geometry, bs: seq<Block>, free: seq<nat>, s: nat, k: nat): (r: nat)
    requires k <= |free|
    ensures k <= r <= |free|
    ensures forall l :: k <= l < r ==> SizeAt(g, bs, free[l]) < s
    ensures r < |free| ==> SizeAt(g, bs, free[r]) >= s
    decreases |free| - k
  {
    if k == |free| || SizeAt(g, bs, free[k]) >= s then k else FirstListed(g, bs, free, s, k + 1)
  }

  /** Position of `o` in the list. */
  function Where(free: seq<nat>, o: nat, k: nat): (r: nat)
    requires k <= |free|
    ensures k <= r <= |free|
    ensures r < |free| ==> free[r] == o
    ensures forall l :: k <= l < r ==> free[l] != o
    decreases |free| - k
  {
    if k == |free| || free[k] == o then k else Where(free, o, k + 1)
  }

  function Drop(free: seq<nat>, k: nat): seq<nat>
    requires k < |free|
  {
    free[..k] + free[k + 1..]
  }

  function Unlisted(free: seq<nat>, o: nat): seq<nat> {
    var k := Where(free, o, 0);
    if k < |free| then Drop(free, k) else free
  }

  function Peaked(g: Geometry, max: int, bs: seq<Block>): int {
    if PoolSize(g) - Available(g, bs) > max then PoolSize(g) - Available(g, bs) else max
  }

  /** rt_memheap_alloc.  A request of zero bytes is served like one of twelve. */
  function Alloc(g: Geometry, st: State, n: nat): (r: (Option<nat>, State))
    requires g.Ok()
  {
    var s := Clamp(g, n);
    if s >= Available(g, st.blocks) then (None, st)
    else
      var k := FirstListed(g, st.blocks, st.free, s, 0);
      if k == |st.free| then (None, st)
      else
        var i := IndexOf(st.blocks, st.free[k], 0);
        if i == |st.blocks| then (None, st)
        else (Some(st.free[k] + g.hdr), Taken(g, st, k, i, s))
  }

  function Taken(g: Geometry, st: State, k: nat, i: nat, s: nat): State
    requires g.Ok() && k < |st.free| && i < |st.blocks|
  {
    var bs := Take(g, st.blocks, i, s);
    var rest := Drop(st.free, k);
    State(bs, if Splits(g, st.blocks[i], s) then [st.blocks[i].off + g.hdr + s] + rest else rest, Peaked(g, st.max, bs))
  }

  predicate FreeOnRight(bs: seq<Block>, i: nat) {
    i + 1 < |bs| && !bs[i + 1].used
  }

  predicate FreeOnLeft(bs: seq<Block>, i: nat) {
    0 < i <= |bs| && !bs[i - 1].used
  }

  /** The list once block `i` is free and merged: a right neighbour leaves it, and the block
      enters it at the front unless the left neighbour, already listed, has swallowed it. */
  function ReleasedList(bs: seq<Block>, free: seq<nat>, i: nat): seq<nat>
    requires i < |bs|
  {
    var rest := if FreeOnRight(bs, i) then Unlisted(free, bs[i + 1].off) else free;
    if FreeOnLeft(bs, i) then rest else [bs[i].off] + rest
  }

  /** rt_memheap_free.  Callers owe a live pointer. */
  function Free(g: Geometry, st: State, p: nat): State {
    var i := Find(g, st.blocks, p);
    if i < |st.blocks| then State(Release(st.blocks, i), ReleasedList(st.blocks, st.free, i), st.max) else st
  }

  /** In-place growth of block `i` to `s` payload bytes at the cost of its free right neighbour. */
  function Grown(g: Geometry, st: State, i: nat, s: nat): State
    requires i + 1 < |st.blocks|
  {
    var bs := Cut(g, Join(st.blocks, i), i, s);
    State(bs, [st.blocks[i].off + g.hdr + s] + Unlisted(st.free, st.blocks[i + 1].off), Peaked(g, st.max, bs))
  }

  /** In-place shrinking of block `i` to `s` payload bytes. */
  function Shrunk(g: Geometry, st: State, i: nat, s: nat): State
    requires i < |st.blocks|
  {
    State(Shrink(g, st.blocks, i, s),
          [st.blocks[i].off + g.hdr + s] +
          (if FreeOnRight(st.blocks, i) then Unlisted(st.free, st.blocks[i + 1].off) else st.free),
          st.max)
  }

  datatype Way = Stay | Grow | Move | ShrinkTail

  /** Which way rt_memheap_realloc goes for block `i` and a clamped size `s`. */
  function WayOf(g: Geometry, bs: seq<Block>, i: nat, s: nat): Way
    requires i < |bs|
  {
    var has := Payload(g, bs[i]);
    if s > has then
      if FreeOnRight(bs, i) && Payload(g, bs[i + 1]) + has > s + g.minSize then Grow else Move
    else if s + g.hdr + g.minSize >= has then Stay
    else ShrinkTail
  }

  /** rt_memheap_realloc; the pointer, when given, is live. */
  function Realloc(g: Geometry, st: State, p: Option<nat>, n: nat): (r: (Option<nat>, State))
    requires g.Ok()
  {
    if n == 0 then (None, if p.Some? then Free(g, st, p.value) else st)
    else if p.None? then Alloc(g, st, Clamp(g, n))
    else ReallocLive(g, st, p.value, Clamp(g, n))
  }

  function ReallocLive(g: Geometry, st: State, p: nat, s: nat): (r: (Option<nat>, State))
    requires g.Ok()
  {
    var i := Find(g, st.blocks, p);
    if i == |st.blocks| then (None, st)
    else
      match WayOf(g, st.blocks, i, s)
      case Stay => (Some(p), st)
      case Grow => (Some(p), Grown(g, st, i, s))
      case ShrinkTail => (Some(p), Shrunk(g, st, i, s))
      case Move =>
        var (q, st') := Alloc(g, st, s);
        (q, if q.Some? then Free(g, st', p) else st')
  }

  // ---------------------------------------------------------------- the list

  lemma UnlistedDrops(free: seq<nat>, o: nat)
    requires NoDup(free)
    ensures NoDup(Unlisted(free, o)) && Elems(Unlisted(free, o)) == Elems(free) - {o}
  {
    var k := Where(free, o, 0);
    if k < |free| {
      var r := Drop(free, k);
      assert forall l :: 0 <= l < |r| ==> r[l] == free[if l < k then l else l + 1];
      forall x | x in Elems(free) - {o} ensures x in Elems(r) {
        var l :| 0 <= l < |free| && free[l] == x;
        assert r[if l < k then l else l - 1] == x;
      }
    }
  }

  lemma DropUnlists(free: seq<nat>, k: nat)
    requires NoDup(free) && k < |free|
    ensures NoDup(Drop(free, k)) && Elems(Drop(free, k)) == Elems(free) - {free[k]}
  {
    UnlistedDrops(free, free[k]);
    assert Where(free, free[k], 0) == k;
  }

  lemma ConsLists(free: seq<nat>, o: nat)
    requires NoDup(free) && o !in Elems(free)
    ensures NoDup([o] + free) && Elems([o] + free) == Elems(free) + {o}
  {}

  // ---------------------------------------------------------------- the free blocks

  lemma FreeAround(pre: seq<Block>, mid: seq<Block>, post: seq<Block>)
    ensures FreeOffs(pre + mid + post) == FreeOffs(pre) + FreeOffs(mid) + FreeOffs(post)
  {
    var bs := pre + mid + post;
    forall o | o in FreeOffs(bs) ensures o in FreeOffs(pre) + FreeOffs(mid) + FreeOffs(post) {
      var b :| b in bs && !b.used && b.off == o;
      assert b in pre || b in mid || b in post;
    }
    forall o | o in FreeOffs(pre) + FreeOffs(mid) + FreeOffs(post) ensures o in FreeOffs(bs) {
      var b :| (b in pre || b in mid || b in post) && !b.used && b.off == o;
      assert b in bs;
    }
  }

  lemma FreeOne(b: Block)
    ensures FreeOffs([b]) == if b.used then {} else {b.off}
  {
    assert b in [b];
  }

  lemma FreeTwo(b: Block, c: Block)
    ensures FreeOffs([b, c]) == FreeOffs([b]) + FreeOffs([c])
  {
    FreeAround([b], [c], []);
    assert [b] + [c] + [] == [b, c];
  }

  /** The free blocks other than block `i`. */
  ghost function FreeBut(bs: seq<Block>, i: nat): set<nat>
    requires i < |bs|
  {
    FreeOffs(bs[..i]) + FreeOffs(bs[i + 1..])
  }

  lemma OffsDistinct(g: Geometry, bs: seq<Block>, i: nat, j: nat)
    requires g.Ok() && Tiles(g, bs) && i < j < |bs|
    ensures bs[i].off < bs[i].next <= bs[j].off
  {
    Ordered(g, bs, i, j);
    assert GoodBlock(g, bs[i]);
  }

  lemma FreeSplit(g: Geometry, bs: seq<Block>, i: nat)
    requires g.Ok() && Tiles(g, bs) && i < |bs|
    ensures FreeBut(bs, i) == FreeOffs(bs) - {bs[i].off}
    ensures bs[i].off in FreeOffs(bs) <==> !bs[i].used
  {
    NotAmongOthers(g, bs, i);
    hide FreeOffs, Tiles;
    assert FreeOffs(bs) == FreeOffs(bs[..i]) + FreeOffs([bs[i]]) + FreeOffs(bs[i + 1..]) by {
      FreeAround(bs[..i], bs[i..i + 1], bs[i + 1..]);
      SplitAround(bs, i, 1);
      assert bs[i..i + 1] == [bs[i]];
    }
    FreeOne(bs[i]);
    SetInsert(FreeOffs(bs[..i]), FreeOffs(bs[i + 1..]), FreeOffs([bs[i]]));
  }

  lemma NotAmongOthers(g: Geometry, bs: seq<Block>, i: nat)
    requires g.Ok() && Tiles(g, bs) && i < |bs|
    ensures bs[i].off !in FreeBut(bs, i)
  {
    if bs[i].off in FreeBut(bs, i) {
      var b :| (b in bs[..i] || b in bs[i + 1..]) && b.off == bs[i].off;
      var k :| 0 <= k < |bs| && k != i && bs[k] == b;
      if k < i { OffsDistinct(g, bs, k, i); } else { OffsDistinct(g, bs, i, k); }
    }
  }

  lemma InsideFresh(g: Geometry, bs: seq<Block>, i: nat, m: nat)
    requires g.Ok() && Tiles(g, bs) && i < |bs| && bs[i].off < m < bs[i].next
    ensures m !in FreeOffs(bs)
  {
    forall b | b in bs ensures b.off != m {
      var k :| 0 <= k < |bs| && bs[k] == b;
      if k < i { OffsDistinct(g, bs, k, i); } else if i < k { OffsDistinct(g, bs, i, k); }
    }
  }

  lemma RetagFree(g: Geometry, bs: seq<Block>, i: nat, u: bool)
    requires g.Ok() && Tiles(g, bs) && i < |bs|
    ensures FreeOffs(bs[i := bs[i].(used := u)]) == FreeOffs(bs) - {bs[i].off} + (if u then {} else {bs[i].off})
  {
    var r := bs[i := bs[i].(used := u)];
    hide FreeOffs, Tiles;
    FreeSplit(g, bs, i);
    assert FreeOffs(r) == FreeOffs(bs[..i]) + FreeOffs([r[i]]) + FreeOffs(bs[i + 1..]) by {
      FreeAround(bs[..i], [r[i]], bs[i + 1..]);
      assert r == bs[..i] + [r[i]] + bs[i + 1..];
    }
    FreeOne(r[i]);
    SetInsert(FreeOffs(bs[..i]), FreeOffs(bs[i + 1..]), FreeOffs([r[i]]));
  }

  lemma CutFree(g: Geometry, bs: seq<Block>, i: nat, s: nat)
    requires g.Ok() && Tiles(g, bs) && i < |bs|
    ensures FreeOffs(Cut(g, bs, i, s)) == FreeOffs(bs) - {bs[i].off} + {bs[i].off + g.hdr + s}
  {
    hide FreeOffs, Tiles;
    var m := bs[i].off + g.hdr + s;
    var x, y := Block(bs[i].off, m, true), Block(m, bs[i].next, false);
    FreeSplit(g, bs, i);
    FreeAround(bs[..i], [x, y], bs[i + 1..]);
    assert FreeOffs([x, y]) == {m} by { FreeTwo(x, y); FreeOne(x); FreeOne(y); }
    SetInsert(FreeOffs(bs[..i]), FreeOffs(bs[i + 1..]), {m});
  }

  lemma SetInsert(a: set<nat>, b: set<nat>, m: set<nat>)
    ensures a + m + b == a + b + m
  {}

  /** Joining takes the right block out of the free blocks. */
  lemma JoinFree(g: Geometry, bs: seq<Block>, i: nat)
    requires g.Ok() && Tiles(g, bs) && i + 1 < |bs|
    ensures FreeOffs(Join(bs, i)) == FreeOffs(bs) - {bs[i + 1].off}
  {
    hide FreeOffs, Tiles;
    var x := Block(bs[i].off, bs[i + 1].next, bs[i].used);
    FreeSplit(g, bs, i + 1);
    FreeAround(bs[..i], [x], bs[i + 2..]);
    assert FreeOffs(bs[..i + 1]) == FreeOffs(bs[..i]) + FreeOffs([bs[i]]) + FreeOffs([]) by {
      FreeAround(bs[..i], [bs[i]], []);
      assert bs[..i] + [bs[i]] + [] == bs[..i + 1];
    }
    assert FreeOffs([]) == {} by { FreeNone(); }
    assert FreeOffs([x]) == FreeOffs([bs[i]]) by { FreeOne(x); FreeOne(bs[i]); }
  }

  lemma FreeNone()
    ensures FreeOffs([]) == {}
  {}

  // ---------------------------------------------------------------- what each operation does to the layout

  lemma TakeLists(g: Geometry, bs: seq<Block>, i: nat, s: nat)
    requires g.Ok() && WellFormed(g, bs) && i < |bs| && Fits(g, bs[i], s)
    requires Multiple(s, g.align) && s >= g.align
    ensures var r := Take(g, bs, i, s);
      && WellFormed(g, r)
      && FreeOffs(r) == FreeOffs(bs) - {bs[i].off} + (if Splits(g, bs[i], s) then {bs[i].off + g.hdr + s} else {})
      && Available(g, r) == Available(g, bs) - (if Splits(g, bs[i], s) then s + g.hdr else Payload(g, bs[i]))
  {
    TakeKeeps(g, bs, i, s);
    hide Total, FreeOffs, Cut, WellFormed;
    if Splits(g, bs[i], s) {
      CutFree(g, bs, i, s);
      CutTotal(FreePayload(g.hdr), g, bs, i, s);
    } else {
      RetagFree(g, bs, i, true);
      RetagTotal(FreePayload(g.hdr), bs, i, true);
    }
  }

  lemma JoinRightLists(g: Geometry, bs: seq<Block>, i: nat)
    requires g.Ok() && Tiles(g, bs) && i < |bs| && !bs[i].used
    ensures var r := JoinRight(bs, i);
      && Tiles(g, r) && !r[i].used
      && FreeOffs(r) == FreeOffs(bs) - (if FreeOnRight(bs, i) then {bs[i + 1].off} else {})
      && Available(g, r) == Available(g, bs) + (if FreeOnRight(bs, i) then g.hdr else 0)
      && (i > 0 ==> r[i - 1] == bs[i - 1]) && r[i].off == bs[i].off
  {
    if FreeOnRight(bs, i) {
      assert bs[i].next == bs[i + 1].off;
      JoinTiles(g, bs, i);
      hide FreeOffs, Total;
      JoinFree(g, bs, i);
      JoinTotal(FreePayload(g.hdr), bs, i);
    }
  }

  lemma JoinLeftLists(g: Geometry, bs: seq<Block>, i: nat)
    requires g.Ok() && Tiles(g, bs) && i < |bs| && !bs[i].used
    ensures var r := JoinLeft(bs, i);
      && FreeOffs(r) == FreeOffs(bs) - (if FreeOnLeft(bs, i) then {bs[i].off} else {})
      && Available(g, r) == Available(g, bs) + (if FreeOnLeft(bs, i) then g.hdr else 0)
  {
    if FreeOnLeft(bs, i) {
      assert bs[i - 1].next == bs[i].off;
      hide FreeOffs, Total;
      JoinFree(g, bs, i - 1);
      JoinTotal(FreePayload(g.hdr), bs, i - 1);
    }
  }

  /** The free offsets once block `i` is freed and merged with its free neighbours. */
  ghost function ReleasedOffs(bs: seq<Block>, i: nat): set<nat>
    requires i < |bs|
  {
    FreeOffs(bs) - (if FreeOnRight(bs, i) then {bs[i + 1].off} else {}) + (if FreeOnLeft(bs, i) then {} else {bs[i].off})
  }

  lemma ReleaseLists(g: Geometry, bs: seq<Block>, i: nat)
    requires g.Ok() && Tiles(g, bs) && i < |bs| && bs[i].used
    ensures var r := Release(bs, i);
      && FreeOffs(r) == ReleasedOffs(bs, i)
      && Available(g, r) == Available(g, bs) + Payload(g, bs[i])
           + (if FreeOnRight(bs, i) then g.hdr else 0) + (if FreeOnLeft(bs, i) then g.hdr else 0)
  {
    hide FreeOffs, Total, JoinRight, JoinLeft;
    var c := bs[i := bs[i].(used := false)];
    RetagTiles(g, bs, i, false);
    RetagFree(g, bs, i, false);
    RetagTotal(FreePayload(g.hdr), bs, i, false);
    JoinRightLists(g, c, i);
    JoinLeftLists(g, JoinRight(c, i), i);
    FreeSplit(g, bs, i);
    if i + 1 < |bs| { OffsDistinct(g, bs, i, i + 1); }
    hide Tiles;
    SetRelease(FreeOffs(bs), if FreeOnRight(bs, i) then {bs[i + 1].off} else {}, bs[i].off);
  }

  lemma SetRelease(f: set<nat>, r: set<nat>, o: nat)
    requires o !in f && o !in r
    ensures f - {o} + {o} - r - {o} == f - r && f - {o} + {o} - r == f - r + {o}
  {}

  lemma ZeroIsMultiple(a: nat)
    requires a > 0
    ensures Multiple(0, a)
  {}

  lemma ShrinkLists(g: Geometry, bs: seq<Block>, i: nat, s: nat)
    requires g.Ok() && WellFormed(g, bs) && i < |bs| && bs[i].used
    requires Multiple(s, g.align) && s > 0 && s + g.hdr + g.minSize < Payload(g, bs[i])
    ensures var r := Shrink(g, bs, i, s);
      && FreeOffs(r) == FreeOffs(bs) + {bs[i].off + g.hdr + s} - (if FreeOnRight(bs, i) then {bs[i + 1].off} else {})
      && Available(g, r) == Available(g, bs) + Payload(g, bs[i]) - s - g.hdr + (if FreeOnRight(bs, i) then g.hdr else 0)
  {
    hide FreeOffs, Total, Cut, Multiple;
    var c := Cut(g, bs, i, s);
    TailFits(g, bs, i, s);
    MultipleGap(0, s, g.align) by { ZeroIsMultiple(g.align); }
    CutShape(g, bs, i, s);
    CutTiles(g, bs, i, s, c);
    FreeSplit(g, bs, i);
    CutFree(g, bs, i, s);
    CutTotal(FreePayload(g.hdr), g, bs, i, s);
    JoinRightLists(g, c, i + 1);
    assert JoinLeft(JoinRight(c, i + 1), i + 1) == JoinRight(c, i + 1);
  }

  lemma GrowKeeps(g: Geometry, bs: seq<Block>, i: nat, s: nat)
    requires g.Ok() && WellFormed(g, bs) && i < |bs| && bs[i].used
    requires Multiple(s, g.align) && WayOf(g, bs, i, s) == Grow
    ensures var r := Cut(g, Join(bs, i), i, s);
      && WellFormed(g, r)
      && Used(r) == Used(bs) - {bs[i]} + {Block(bs[i].off, bs[i].off + g.hdr + s, true)}
      && FreeOffs(r) == FreeOffs(bs) - {bs[i + 1].off} + {bs[i].off + g.hdr + s}
      && Available(g, r) == Available(g, bs) - (s - Payload(g, bs[i]))
  {
    hide FreeOffs, Total, Cut, Join, Used, NoFreeNeighbours, Tiles, Multiple;
    GrowJoins(g, bs, i, s);
    var j := Join(bs, i);
    JoinGap(g, bs, i);
    GrowCuts(g, j, i, s);
    JoinFree(g, bs, i);
    JoinTotal(FreePayload(g.hdr), bs, i);
    CutFree(g, j, i, s);
    CutTotal(FreePayload(g.hdr), g, j, i, s);
    FreeSplit(g, j, i);
  }

  lemma JoinGap(g: Geometry, bs: seq<Block>, i: nat)
    requires g.Ok() && WellFormed(g, bs) && i + 1 < |bs| && !bs[i + 1].used
    ensures var j := Join(bs, i); i < |j| && (i + 1 < |j| ==> j[i + 1].used)
  {
    var j := Join(bs, i);
    assert i + 1 < |j| ==> j[i + 1] == bs[i + 2];
  }

  lemma NotThere(g: Geometry, bs: seq<Block>, i: nat, b: Block)
    requires g.Ok() && Tiles(g, bs) && i < |bs| && b.off == bs[i].off && b != bs[i]
    ensures b !in bs
  {
    if b in bs {
      var k :| 0 <= k < |bs| && bs[k] == b;
      if k < i { OffsDistinct(g, bs, k, i); } else if i < k { OffsDistinct(g, bs, i, k); }
    }
  }

  lemma GrowJoins(g: Geometry, bs: seq<Block>, i: nat, s: nat)
    requires g.Ok() && WellFormed(g, bs) && i < |bs| && bs[i].used && WayOf(g, bs, i, s) == Grow
    ensures var j := Join(bs, i);
      && WellFormed(g, j) && i < |j| && j[i] == Block(bs[i].off, bs[i + 1].next, true)
      && Used(j) == Used(bs) - {bs[i]} + {j[i]} && j[i] !in Used(bs)
      && bs[i].off + g.hdr + s + g.hdr + g.minSize < bs[i + 1].next && bs[i].next == bs[i + 1].off
      && s > Payload(g, bs[i]) > 0
  {
    var j := Join(bs, i);
    assert GoodBlock(g, bs[i]) && GoodBlock(g, bs[i + 1]);
    JoinTiles(g, bs, i);
    JoinNeighboursUsed(bs, i);
    JoinUsedLeft(g, bs, i);
    NotThere(g, bs, i, j[i]);
  }

  lemma JoinNeighboursUsed(bs: seq<Block>, i: nat)
    requires i + 1 < |bs| && bs[i].used && NoFreeNeighbours(bs)
    ensures NoFreeNeighbours(Join(bs, i))
  {
    var j := Join(bs, i);
    assert forall k :: 0 <= k < i ==> j[k] == bs[k];
    assert forall k :: i + 1 <= k < |j| ==> j[k] == bs[k + 1];
  }

  lemma JoinUsedLeft(g: Geometry, bs: seq<Block>, i: nat)
    requires g.Ok() && Tiles(g, bs) && i + 1 < |bs| && bs[i].used && !bs[i + 1].used
    ensures Used(Join(bs, i)) == Used(bs) - {bs[i]} + {Block(bs[i].off, bs[i + 1].next, true)}
  {
    hide Tiles;
    var x := Block(bs[i].off, bs[i + 1].next, true);
    UsedDistinct(g, bs, i);
    UsedAround(bs[..i], [x], bs[i + 2..]);
    UsedAround([], [bs[i + 1]], bs[i + 2..]);
    assert bs[i + 1..] == [] + [bs[i + 1]] + bs[i + 2..];
    assert Used([x]) == {x} && Used([bs[i + 1]]) == {} && Used([]) == {};
  }

  lemma GrowCuts(g: Geometry, bs: seq<Block>, i: nat, s: nat)
    requires g.Ok() && WellFormed(g, bs) && i < |bs| && bs[i].used && Multiple(s, g.align) && s > 0
    requires s + g.hdr + g.minSize < Payload(g, bs[i]) && (i + 1 < |bs| ==> bs[i + 1].used)
    ensures WellFormed(g, Cut(g, bs, i, s))
    ensures Used(Cut(g, bs, i, s)) == Used(bs) - {bs[i]} + {Block(bs[i].off, bs[i].off + g.hdr + s, true)}
  {
    var c := Cut(g, bs, i, s);
    TailFits(g, bs, i, s);
    MultipleGap(0, s, g.align);
    CutShape(g, bs, i, s);
    CutTiles(g, bs, i, s, c);
    CutUsed(g, bs, i, s);
    UsedDistinct(g, bs, i);
    hide Cut, Used;
    CutNeighbours(g, bs, i, s, c);
  }

  // ---------------------------------------------------------------- what each operation delivers

  lemma ListedBlock(g: Geometry, st: State, k: nat)
    requires g.Ok() && Inv(g, st) && k < |st.free|
    ensures var i := IndexOf(st.blocks, st.free[k], 0);
      i < |st.blocks| && !st.blocks[i].used && st.blocks[i].off == st.free[k]
      && SizeAt(g, st.blocks, st.free[k]) == Payload(g, st.blocks[i])
  {
    var bs := st.blocks;
    assert st.free[k] in Elems(st.free);
    assert st.free[k] in FreeOffs(bs);
    var b :| b in bs && !b.used && b.off == st.free[k];
    var j :| 0 <= j < |bs| && bs[j] == b;
    SameIndex(g, bs, b.off, j);
  }

  lemma SameIndex(g: Geometry, bs: seq<Block>, o: nat, j: nat)
    requires g.Ok() && Tiles(g, bs) && j < |bs| && bs[j].off == o
    ensures IndexOf(bs, o, 0) == j
  {
    var i := IndexOf(bs, o, 0);
    if i < j { OffsDistinct(g, bs, i, j); }
  }

  /** The free list holds a block for every free block, so its search finds a fit if there is one. */
  lemma FirstListedFits(g: Geometry, st: State, s: nat)
    requires g.Ok() && Inv(g, st)
    ensures var k := FirstListed(g, st.blocks, st.free, s, 0);
      k == |st.free| <==> forall b :: b in st.blocks ==> !Fits(g, b, s)
  {
    var k := FirstListed(g, st.blocks, st.free, s, 0);
    if k < |st.free| {
      ListedBlock(g, st, k);
      assert st.blocks[IndexOf(st.blocks, st.free[k], 0)] in st.blocks;
    } else {
      forall b | b in st.blocks ensures !Fits(g, b, s) {
        if !b.used {
          assert b.off in FreeOffs(st.blocks);
          assert b.off in Elems(st.free);
          var l :| 0 <= l < |st.free| && st.free[l] == b.off;
          var j :| 0 <= j < |st.blocks| && st.blocks[j] == b;
          SameIndex(g, st.blocks, b.off, j);
        }
      }
    }
  }

  lemma TakenKeeps(g: Geometry, st: State, k: nat, i: nat, s: nat)
    requires g.Ok() && Inv(g, st) && k < |st.free| && i < |st.blocks|
    requires st.blocks[i].off == st.free[k] && Fits(g, st.blocks[i], s) && Multiple(s, g.align) && s >= g.align
    ensures Inv(g, Taken(g, st, k, i, s))
  {
    hide Available, FreeOffs, Elems, Take, Tiles, NoFreeNeighbours, NoDup, Drop, Multiple;
    TakeLists(g, st.blocks, i, s);
    DropUnlists(st.free, k);
    if Splits(g, st.blocks[i], s) {
      InsideFresh(g, st.blocks, i, st.blocks[i].off + g.hdr + s);
      ConsLists(Drop(st.free, k), st.blocks[i].off + g.hdr + s);
    }
  }

  /** rt_memheap_alloc keeps the invariant, delivers a block of at least `n` bytes, and refuses
      exactly when the clamped request reaches the available size or no free item holds it. */
  lemma AllocDelivers(g: Geometry, st: State, n: nat)
    requires g.Ok() && Inv(g, st)
    ensures var (p, st') := Alloc(g, st, n);
      && Inv(g, st')
      && (p.None? ==> st' == st)
      && (p.None? <==> Clamp(g, n) >= Available(g, st.blocks) || forall b :: b in st.blocks ==> !Fits(g, b, Clamp(g, n)))
      && (p.Some? ==> Multiple(p.value, g.align) && Delivers(g, st.blocks, st'.blocks, p.value, n))
      && Used(st.blocks) <= Used(st'.blocks)
  {
    hide Alloc, Available, Clamp, Taken, NoFreeNeighbours, ListsFree, Tiles;
    var k, i := AllocIs(g, st, n);
    ClampPositive(g, n);
    if Alloc(g, st, n).0.Some? {
      var s := Clamp(g, n);
      TakenKeeps(g, st, k, i, s);
      TakeDelivers(g, st.blocks, i, s, n);
      TakenBlocks(g, st, k, i, s);
    }
  }

  lemma TakenBlocks(g: Geometry, st: State, k: nat, i: nat, s: nat)
    requires g.Ok() && k < |st.free| && i < |st.blocks|
    ensures Taken(g, st, k, i, s).blocks == Take(g, st.blocks, i, s)
  {}

  /** When rt_memheap_alloc refuses, and which item it takes when it does not. */
  lemma AllocIs(g: Geometry, st: State, n: nat) returns (k: nat, i: nat)
    requires g.Ok() && Inv(g, st)
    ensures var s := Clamp(g, n);
      var refused := s >= Available(g, st.blocks) || forall b :: b in st.blocks ==> !Fits(g, b, s);
      && (refused ==> Alloc(g, st, n) == (None, st))
      && (!refused ==> k < |st.free| && i < |st.blocks| && st.blocks[i].off == st.free[k] && Fits(g, st.blocks[i], s))
      && (!refused ==> Alloc(g, st, n) == (Some(st.free[k] + g.hdr), Taken(g, st, k, i, s)))
  {
    hide Clamp, Taken, Available;
    k, i := 0, 0;
    var s := Clamp(g, n);
    FirstListedFits(g, st, s);
    if FirstListed(g, st.blocks, st.free, s, 0) < |st.free| {
      k := FirstListed(g, st.blocks, st.free, s, 0);
      ListedBlock(g, st, k);
      i := IndexOf(st.blocks, st.free[k], 0);
    }
  }

  lemma TakeDelivers(g: Geometry, bs: seq<Block>, i: nat, s: nat, n: nat)
    requires g.Ok() && WellFormed(g, bs) && i < |bs| && Fits(g, bs[i], s)
    requires Multiple(s, g.align) && s >= g.align && n <= s
    ensures Multiple(bs[i].off + g.hdr, g.align)
    ensures Delivers(g, bs, Take(g, bs, i, s), bs[i].off + g.hdr, n) && Used(bs) <= Used(Take(g, bs, i, s))
  {
    assert GoodBlock(g, bs[i]);
    MultipleSum(bs[i].off, g.hdr, g.align);
    TakeKeeps(g, bs, i, s);
    hide Take, Total, Used, Tiles;
    FreshBlock(g, bs, i, Take(g, bs, i, s)[i]);
    assert Take(g, bs, i, s)[i] in Take(g, bs, i, s);
  }

  /** The strict comparison at line 202 turns away one request that would fit: the one that asks
      for the whole payload of the only free item. */
  lemma AllocRefusesFit(g: Geometry, st: State, n: nat)
    requires g.Ok() && Inv(g, st)
    requires exists b :: b in st.blocks && Fits(g, b, Clamp(g, n))
    ensures Alloc(g, st, n).0.None? <==> |st.free| == 1 && SizeAt(g, st.blocks, st.free[0]) == Clamp(g, n)
  {
    AllocDelivers(g, st, n);
    hide Alloc, Clamp;
    var s := Clamp(g, n);
    var b :| b in st.blocks && Fits(g, b, s);
    var i :| 0 <= i < |st.blocks| && st.blocks[i] == b;
    AvailableAround(g, st.blocks, i);
    SameIndex(g, st.blocks, b.off, i);
    assert b.off in FreeOffs(st.blocks);
    assert b.off in Elems(st.free);
    var k :| 0 <= k < |st.free| && st.free[k] == b.off;
    if |st.free| == 1 {
      OnlyOneFree(g, st, i);
    } else {
      var o := st.free[if k == 0 then 1 else 0];
      ListedBlock(g, st, if k == 0 then 1 else 0);
      var j := IndexOf(st.blocks, o, 0);
      TwoFree(g, st.blocks, i, j);
    }
  }

  /** So a fresh pool cannot be asked for its one free item, though that fits. */
  lemma FreshPoolRefused(g: Geometry)
    requires g.Ok() && g.minSize <= g.size
    ensures Fits(g, Empty(g)[0], Clamp(g, g.size)) && Alloc(g, Init(g), g.size).0.None?
  {
    InitKeeps(g);
    ClampWhole(g);
    var st := Init(g);
    assert st.blocks[0] in st.blocks;
    assert IndexOf(st.blocks, 0, 0) == 0;
    hide Alloc, Clamp;
    AllocRefusesFit(g, st, g.size);
  }

  /** A free block's payload is part of the available size, and so are two of them. */
  lemma {:induction false} PrefixAvailable(g: Geometry, bs: seq<Block>, n: nat, m: nat)
    requires g.Ok() && Tiles(g, bs) && n <= m <= |bs|
    ensures TotalTo(FreePayload(g.hdr), bs, n) <= TotalTo(FreePayload(g.hdr), bs, m)
    decreases m - n
  {
    if n < m {
      assert GoodBlock(g, bs[m - 1]);
      PrefixAvailable(g, bs, n, m - 1);
    }
  }

  lemma AvailableAround(g: Geometry, bs: seq<Block>, i: nat)
    requires g.Ok() && Tiles(g, bs) && i < |bs| && !bs[i].used
    ensures Payload(g, bs[i]) <= Available(g, bs)
  {
    PrefixAvailable(g, bs, 0, i);
    PrefixAvailable(g, bs, i + 1, |bs|);
  }

  lemma TwoFree(g: Geometry, bs: seq<Block>, i: nat, j: nat)
    requires g.Ok() && Tiles(g, bs) && i < |bs| && j < |bs| && i != j && !bs[i].used && !bs[j].used
    ensures Payload(g, bs[i]) < Available(g, bs)
  {
    var lo, hi := if i < j then i else j, if i < j then j else i;
    assert GoodBlock(g, bs[i]) && GoodBlock(g, bs[j]);
    hide Tiles, Multiple;
    PrefixAvailable(g, bs, 0, lo);
    PrefixAvailable(g, bs, lo + 1, hi);
    PrefixAvailable(g, bs, hi + 1, |bs|);
  }

  lemma OnlyOneFree(g: Geometry, st: State, i: nat)
    requires g.Ok() && Inv(g, st) && |st.free| == 1 && i < |st.blocks| && !st.blocks[i].used
    ensures Available(g, st.blocks) == Payload(g, st.blocks[i])
  {
    var bs := st.blocks;
    assert bs[i] in bs;
    assert bs[i].off in Elems(st.free);
    forall j: nat | j < |bs| && !bs[j].used ensures j == i {
      assert bs[j] in bs;
      assert bs[j].off in FreeOffs(bs);
      assert bs[j].off in Elems(st.free);
      if i < j { OffsDistinct(g, bs, i, j); } else if j < i { OffsDistinct(g, bs, j, i); }
    }
    UsedWeighNothing(g, bs, 0, i);
    UsedWeighNothing(g, bs, i + 1, |bs|);
  }

  lemma {:induction false} UsedWeighNothing(g: Geometry, bs: seq<Block>, n: nat, m: nat)
    requires n <= m <= |bs| && forall j :: n <= j < m ==> bs[j].used
    ensures TotalTo(FreePayload(g.hdr), bs, n) == TotalTo(FreePayload(g.hdr), bs, m)
    decreases m - n
  {
    if n < m { UsedWeighNothing(g, bs, n, m - 1); }
  }

  /** The headers that freeing block `i` saves: one for every free neighbour it is merged with. */
  function Merged(g: Geometry, bs: seq<Block>, i: nat): nat {
    (if FreeOnRight(bs, i) then g.hdr else 0) + (if FreeOnLeft(bs, i) then g.hdr else 0)
  }

  /** rt_memheap_free keeps the invariant and removes exactly the block it was given; its payload and
      the headers saved become available. */
  lemma FreeDelivers(g: Geometry, st: State, p: nat)
    requires g.Ok() && Inv(g, st) && Live(g, st.blocks, p)
    ensures var st' := Free(g, st, p); var b := st.blocks[Find(g, st.blocks, p)];
      && Inv(g, st')
      && st'.max == st.max
      && Used(st'.blocks) == Used(st.blocks) - {b}
      && Available(g, st'.blocks) == Available(g, st.blocks) + Payload(g, b) + Merged(g, st.blocks, Find(g, st.blocks, p))
  {
    var i := Find(g, st.blocks, p);
    FindIsLive(g, st.blocks, p);
    ReleasedKeeps(g, st, i);
    hide Release, ReleasedList, Used, Available, Tiles;
  }

  lemma ReleasedKeeps(g: Geometry, st: State, i: nat)
    requires g.Ok() && Inv(g, st) && i < |st.blocks| && st.blocks[i].used
    ensures var bs := Release(st.blocks, i);
      && Inv(g, State(bs, ReleasedList(st.blocks, st.free, i), st.max))
      && Used(bs) == Used(st.blocks) - {st.blocks[i]}
      && Available(g, bs) == Available(g, st.blocks) + Payload(g, st.blocks[i]) + Merged(g, st.blocks, i)
  {
    assert Payload(g, st.blocks[i]) >= 0 by { assert GoodBlock(g, st.blocks[i]); }
    hide Release, Available, Multiple, Payload, ReleasedOffs, FreeOffs, Elems, NoDup, Tiles, NoFreeNeighbours, Used, GoodBlock, ReleasedList;
    ReleaseKeeps(g, st.blocks, i);
    ReleaseLists(g, st.blocks, i);
    ReleasedListFacts(g, st.blocks, st.free, i);
  }

  lemma ReleasedListFacts(g: Geometry, bs: seq<Block>, free: seq<nat>, i: nat)
    requires g.Ok() && Tiles(g, bs) && ListsFree(bs, free) && i < |bs| && bs[i].used
    ensures var r := ReleasedList(bs, free, i);
      NoDup(r) && Elems(r) == ReleasedOffs(bs, i)
  {
    FreeSplit(g, bs, i);
    hide FreeOffs, Elems, NoDup, Unlisted, Tiles;
    if FreeOnRight(bs, i) { UnlistedDrops(free, bs[i + 1].off); }
    var rest := if FreeOnRight(bs, i) then Unlisted(free, bs[i + 1].off) else free;
    if !FreeOnLeft(bs, i) { ConsLists(rest, bs[i].off); }
  }

  lemma GrownKeeps(g: Geometry, st: State, i: nat, s: nat)
    requires g.Ok() && Inv(g, st) && i < |st.blocks| && st.blocks[i].used
    requires Multiple(s, g.align) && WayOf(g, st.blocks, i, s) == Grow
    ensures Inv(g, Grown(g, st, i, s))
    ensures Replaces(g, st.blocks, Grown(g, st, i, s).blocks, st.blocks[i], st.blocks[i].off + g.hdr, s)
  {
    hide Available, FreeOffs, Elems, NoDup, Unlisted, Tiles, NoFreeNeighbours, Used, Multiple, Cut, Join;
    GrowKeeps(g, st.blocks, i, s);
    GrownListFacts(g, st.blocks, st.free, i, s);
    JoinGap(g, st.blocks, i);
    CutReplaces(g, st.blocks, Cut(g, Join(st.blocks, i), i, s), i, s);
  }

  lemma GrownListFacts(g: Geometry, bs: seq<Block>, free: seq<nat>, i: nat, s: nat)
    requires g.Ok() && WellFormed(g, bs) && ListsFree(bs, free) && i < |bs| && bs[i].used && WayOf(g, bs, i, s) == Grow
    ensures var m := bs[i].off + g.hdr + s; var r := [m] + Unlisted(free, bs[i + 1].off);
      NoDup(r) && Elems(r) == FreeOffs(bs) - {bs[i + 1].off} + {m}
  {
    GrownFresh(g, bs, i, s);
    hide FreeOffs, Elems, NoDup, Unlisted, Tiles, NoFreeNeighbours;
    UnlistedDrops(free, bs[i + 1].off);
    ConsLists(Unlisted(free, bs[i + 1].off), bs[i].off + g.hdr + s);
  }

  /** The offset of the tail left by growth is new to the free list, or is the old neighbour's own. */
  lemma GrownFresh(g: Geometry, bs: seq<Block>, i: nat, s: nat)
    requires g.Ok() && WellFormed(g, bs) && i < |bs| && bs[i].used && WayOf(g, bs, i, s) == Grow
    ensures bs[i].off + g.hdr + s !in FreeOffs(bs) - {bs[i + 1].off}
  {
    var m := bs[i].off + g.hdr + s;
    assert bs[i].next == bs[i + 1].off;
    assert GoodBlock(g, bs[i]);
    if m != bs[i + 1].off { InsideFresh(g, bs, if m < bs[i].next then i else i + 1, m); }
  }

  lemma CutReplaces(g: Geometry, bs: seq<Block>, r: seq<Block>, i: nat, s: nat)
    requires i < |bs| && Used(r) == Used(bs) - {bs[i]} + {Block(bs[i].off, bs[i].off + g.hdr + s, true)}
    ensures Replaces(g, bs, r, bs[i], bs[i].off + g.hdr, s)
  {
    var c := Block(bs[i].off, bs[i].off + g.hdr + s, true);
    assert c in Used(r);
  }

  lemma ShrunkKeeps(g: Geometry, st: State, i: nat, s: nat)
    requires g.Ok() && Inv(g, st) && i < |st.blocks| && st.blocks[i].used
    requires Multiple(s, g.align) && s > 0 && WayOf(g, st.blocks, i, s) == ShrinkTail
    ensures Inv(g, Shrunk(g, st, i, s))
    ensures Replaces(g, st.blocks, Shrunk(g, st, i, s).blocks, st.blocks[i], st.blocks[i].off + g.hdr, s)
  {
    hide Available, FreeOffs, Elems, NoDup, Unlisted, Tiles, NoFreeNeighbours, Used, Multiple, Shrink;
    ShrinkKeeps(g, st.blocks, i, s);
    ShrinkLists(g, st.blocks, i, s);
    ShrunkListFacts(g, st.blocks, st.free, i, s);
    CutReplaces(g, st.blocks, Shrink(g, st.blocks, i, s), i, s);
  }

  lemma ShrunkListFacts(g: Geometry, bs: seq<Block>, free: seq<nat>, i: nat, s: nat)
    requires g.Ok() && Tiles(g, bs) && ListsFree(bs, free) && i < |bs|
    requires s < Payload(g, bs[i])
    ensures var m := bs[i].off + g.hdr + s;
      var rest := if FreeOnRight(bs, i) then Unlisted(free, bs[i + 1].off) else free;
      NoDup([m] + rest) && Elems([m] + rest) == FreeOffs(bs) + {m} - (if FreeOnRight(bs, i) then {bs[i + 1].off} else {})
  {
    hide FreeOffs, Elems, NoDup, Unlisted, Tiles;
    var m := bs[i].off + g.hdr + s;
    InsideFresh(g, bs, i, m);
    if FreeOnRight(bs, i) {
      ShrinkApart(g, bs, i, m);
      UnlistedDrops(free, bs[i + 1].off);
    }
    ConsLists(if FreeOnRight(bs, i) then Unlisted(free, bs[i + 1].off) else free, m);
  }

  lemma ShrinkApart(g: Geometry, bs: seq<Block>, i: nat, m: nat)
    requires g.Ok() && Tiles(g, bs) && i + 1 < |bs| && m < bs[i].next
    ensures m != bs[i + 1].off
  {
    assert bs[i].next == bs[i + 1].off;
  }

  /** rt_memheap_realloc keeps the invariant.  A live block that is resized is replaced by one of at
      least `n` bytes and every other used block stays; a failure leaves the heap untouched; a
      request of zero bytes frees.  The block stays at its address unless it has to grow and its
      right neighbour cannot give it the room. */
  lemma ReallocDelivers(g: Geometry, st: State, p: nat, n: nat)
    requires g.Ok() && Inv(g, st) && Live(g, st.blocks, p)
    ensures var (q, st') := Realloc(g, st, Some(p), n);
      var b := st.blocks[Find(g, st.blocks, p)];
      && Inv(g, st')
      && (n == 0 ==> q.None? && Used(st'.blocks) == Used(st.blocks) - {b})
      && (n > 0 && q.None? ==> st' == st)
      && (q.Some? ==> Replaces(g, st.blocks, st'.blocks, b, q.value, n))
      && (n > 0 && WayOf(g, st.blocks, Find(g, st.blocks, p), Clamp(g, n)) != Move ==> q == Some(p))
  {
    if n == 0 {
      hide Free, Available;
      FreeDelivers(g, st, p);
    } else {
      ClampPositive(g, n);
      ReallocLiveDelivers(g, st, p, Clamp(g, n));
      LessReplaced(g, st, p, Clamp(g, n), n);
    }
  }

  /** Exactly when a resize of a live item to a nonzero size fails: when the item must move, and the
      request is not below the available size or fits no free item. */
  lemma ReallocFails(g: Geometry, st: State, p: nat, n: nat)
    requires g.Ok() && Inv(g, st) && Live(g, st.blocks, p) && n > 0
    ensures var s := Clamp(g, n);
      Realloc(g, st, Some(p), n).0.None? <==>
        && WayOf(g, st.blocks, Find(g, st.blocks, p), s) == Move
        && (s >= Available(g, st.blocks) || forall b :: b in st.blocks ==> !Fits(g, b, s))
  {
    hide Alloc, Clamp, Available, Fits, Multiple;
    ClampTwice(g, n);
    AllocDelivers(g, st, Clamp(g, n));
  }

  lemma LessReplaced(g: Geometry, st: State, p: nat, m: nat, n: nat)
    requires g.Ok() && Live(g, st.blocks, p) && n <= m
    ensures var (q, st') := ReallocLive(g, st, p, m); var b := st.blocks[Find(g, st.blocks, p)];
      q.Some? && Replaces(g, st.blocks, st'.blocks, b, q.value, m) ==> Replaces(g, st.blocks, st'.blocks, b, q.value, n)
  {
    hide ReallocLive;
  }

  lemma ReallocLiveDelivers(g: Geometry, st: State, p: nat, s: nat)
    requires g.Ok() && Inv(g, st) && Live(g, st.blocks, p) && Multiple(s, g.align) && s > 0
    ensures var (q, st') := ReallocLive(g, st, p, s);
      var i := Find(g, st.blocks, p);
      && Inv(g, st')
      && (q.None? ==> st' == st)
      && (q.Some? ==> Replaces(g, st.blocks, st'.blocks, st.blocks[i], q.value, s))
      && (WayOf(g, st.blocks, i, s) != Move ==> q == Some(p))
  {
    hide Grown, Shrunk, Alloc, Free, Replaces, Inv, Multiple;
    var i := Find(g, st.blocks, p);
    FindIsLive(g, st.blocks, p);
    match WayOf(g, st.blocks, i, s)
    case Stay => StayReplaces(g, st.blocks, i, s);
    case Grow => GrownKeeps(g, st, i, s);
    case ShrinkTail => ShrunkKeeps(g, st, i, s);
    case Move =>
      AllocDelivers(g, st, s);
      MovedDelivers(g, st, p, s);
  }

  lemma StayReplaces(g: Geometry, bs: seq<Block>, i: nat, s: nat)
    requires i < |bs| && bs[i].used && s <= Payload(g, bs[i])
    ensures Replaces(g, bs, bs, bs[i], bs[i].off + g.hdr, s)
  {
    assert bs[i] in bs && Used(bs) == Used(bs) - {bs[i]} + {bs[i]};
  }

  lemma MovedDelivers(g: Geometry, st: State, p: nat, n: nat)
    requires g.Ok() && Inv(g, st) && Live(g, st.blocks, p)
    ensures var (q, st') := Alloc(g, st, n);
      var b := st.blocks[Find(g, st.blocks, p)];
      q.Some? ==> Inv(g, Free(g, st', p)) && Replaces(g, st.blocks, Free(g, st', p).blocks, b, q.value, n)
  {
    hide Alloc, Free, Available, NoFreeNeighbours, ListsFree, Multiple;
    AllocDelivers(g, st, n);
    var bs := st.blocks;
    var b := bs[Find(g, bs, p)];
    var (q, st') := Alloc(g, st, n);
    if q.Some? {
      var c :| c in st'.blocks && c.used && c.off + g.hdr == q.value && c.next - q.value >= n
        && c !in Used(bs) && Used(st'.blocks) == Used(bs) + {c};
      FindIsLive(g, bs, p);
      assert b in Used(bs);
      SamePointer(g, st'.blocks, p, b);
      FreeDelivers(g, st', p);
      assert c in Used(Free(g, st', p).blocks);
    }
  }

  /** Every byte of the pool up to the tail item is in a used block, in a free payload, or in the
      header of a free item. */
  lemma PoolConserved(g: Geometry, st: State)
    requires g.Ok() && Inv(g, st)
    ensures UsedBytes(st.blocks) + Available(g, st.blocks) + g.hdr * |st.free| == g.End()
  {
    CountsToEnd(g, st.blocks, |st.blocks|);
    FreeCountIs(g, st.blocks, |st.blocks|);
    assert FreeOffsTo(st.blocks, |st.blocks|) == FreeOffs(st.blocks);
    ElemsCount(st.free);
  }

  function FreeCount(bs: seq<Block>, n: nat): nat
    requires n <= |bs|
  {
    if n == 0 then 0 else FreeCount(bs, n - 1) + if bs[n - 1].used then 0 else 1
  }

  lemma {:induction false} CountsToEnd(g: Geometry, bs: seq<Block>, n: nat)
    requires g.Ok() && Tiles(g, bs) && 0 < n <= |bs|
    ensures TotalTo(InUse, bs, n) + TotalTo(FreePayload(g.hdr), bs, n) + g.hdr * FreeCount(bs, n) == bs[n - 1].next
  {
    hide GoodBlock, Multiple;
    if n > 1 {
      CountsToEnd(g, bs, n - 1);
      assert bs[n - 2].next == bs[n - 1].off;
      assert g.hdr * FreeCount(bs, n) == g.hdr * FreeCount(bs, n - 1) + if bs[n - 1].used then 0 else g.hdr;
    } else {
      assert FreeCount(bs, 0) == 0 && TotalTo(InUse, bs, 0) == 0 && TotalTo(FreePayload(g.hdr), bs, 0) == 0;
    }
  }

  ghost function FreeOffsTo(bs: seq<Block>, n: nat): set<nat>
    requires n <= |bs|
  {
    set i | 0 <= i < n && !bs[i].used :: bs[i].off
  }

  lemma {:induction false} FreeCountIs(g: Geometry, bs: seq<Block>, n: nat)
    requires g.Ok() && Tiles(g, bs) && n <= |bs|
    ensures |FreeOffsTo(bs, n)| == FreeCount(bs, n)
  {
    hide Tiles;
    if n > 0 {
      FreeCountIs(g, bs, n - 1);
      LastFreeOff(g, bs, n);
    }
  }

  lemma LastFreeOff(g: Geometry, bs: seq<Block>, n: nat)
    requires g.Ok() && Tiles(g, bs) && 0 < n <= |bs|
    ensures bs[n - 1].off !in FreeOffsTo(bs, n - 1)
    ensures FreeOffsTo(bs, n) == FreeOffsTo(bs, n - 1) + (if bs[n - 1].used then {} else {bs[n - 1].off})
  {
    hide Tiles, Multiple;
    forall i | 0 <= i < n - 1 ensures bs[i].off != bs[n - 1].off { OffsDistinct(g, bs, i, n - 1); }
  }

  lemma {:induction false} ElemsCount(s: seq<nat>)
    requires NoDup(s)
    ensures |Elems(s)| == |s|
  {
    if s != [] {
      var t := s[..|s| - 1];
      ElemsCount(t);
      assert Elems(s) == Elems(t) + {s[|s| - 1]};
    }
  }

  // ---------------------------------------------------------------- runs

  /** The pool right after rt_memheap_init: one free item, listed, and the tail. */
  function Init(g: Geometry): State {
    State(Empty(g), [0], 2 * g.hdr)
  }

  lemma InitKeeps(g: Geometry)
    requires g.Ok()
    ensures Inv(g, Init(g)) && Available(g, Empty(g)) == g.size
  {
    EmptyWellFormed(g);
    FreeOne(Block(0, g.End(), false));
    TotalOne(FreePayload(g.hdr), Block(0, g.End(), false));
    assert Elems([0]) == {0};
  }

  datatype Op = DoAlloc(n: nat) | DoFree(p: nat) | DoRealloc(q: Option<nat>, m: nat)

  /** What the callers owe: only live pointers are freed or resized. */
  predicate Legal(g: Geometry, st: State, op: Op) {
    match op
    case DoAlloc(_) => true
    case DoFree(p) => Live(g, st.blocks, p)
    case DoRealloc(q, _) => q.Some? ==> Live(g, st.blocks, q.value)
  }

  function Step(g: Geometry, st: State, op: Op): State
    requires g.Ok()
  {
    match op
    case DoAlloc(n) => Alloc(g, st, n).1
    case DoFree(p) => Free(g, st, p)
    case DoRealloc(q, n) => Realloc(g, st, q, n).1
  }

  ghost predicate IsRun(g: Geometry, trace: seq<State>, ops: seq<Op>)
    requires g.Ok()
  {
    && |trace| == |ops| + 1 && trace[0] == Init(g)
    && forall k :: 0 <= k < |ops| ==> Legal(g, trace[k], ops[k]) && trace[k + 1] == Step(g, trace[k], ops[k])
  }

  lemma StepKeepsInv(g: Geometry, st: State, op: Op)
    requires g.Ok() && Inv(g, st) && Legal(g, st, op)
    ensures Inv(g, Step(g, st, op))
  {
    hide Inv, Alloc, Free, ReallocLive, Clamp;
    match op
    case DoAlloc(n) => AllocDelivers(g, st, n);
    case DoFree(p) => FreeDelivers(g, st, p);
    case DoRealloc(q, n) =>
      if q.Some? { ReallocDelivers(g, st, q.value, n); } else { AllocDelivers(g, st, Clamp(g, n)); }
  }

  /** The invariant holds in every state of every run. */
  lemma {:induction false} RunKeepsInv(g: Geometry, trace: seq<State>, ops: seq<Op>, k: nat)
    requires g.Ok() && IsRun(g, trace, ops) && k < |trace|
    ensures Inv(g, trace[k])
  {
    if k == 0 {
      InitKeeps(g);
    } else {
      RunKeepsInv(g, trace, ops, k - 1);
      hide Step, Inv;
      StepKeepsInv(g, trace[k - 1], ops[k - 1]);
    }
  }

  /** A run that ends with nothing live ends with the initial layout and everything available. */
  lemma RunFreesAll(g: Geometry, trace: seq<State>, ops: seq<Op>)
    requires g.Ok() && IsRun(g, trace, ops) && Used(trace[|trace| - 1].blocks) == {}
    ensures trace[|trace| - 1].blocks == Empty(g) && trace[|trace| - 1].free == [0]
  {
    var st := trace[|trace| - 1];
    RunKeepsInv(g, trace, ops, |trace| - 1);
    EmptyWellFormed(g);
    LayoutDetermined(g, st.blocks, Empty(g));
    FreeOne(Block(0, g.End(), false));
    ElemsCount(st.free);
    assert st.free[0] in Elems(st.free);
  }

  /** The layouts the pool passes through in one call: a realloc that moves holds both items for a
      moment. */
  ghost function Moments(g: Geometry, st: State, op: Op): seq<seq<Block>>
    requires g.Ok()
  {
    if op.DoRealloc? && op.q.Some? && op.m > 0 && Moves(g, st, op.q.value, Clamp(g, op.m))
    then [Alloc(g, st, Clamp(g, op.m)).1.blocks, Step(g, st, op).blocks]
    else [Step(g, st, op).blocks]
  }

  predicate Moves(g: Geometry, st: State, p: nat, s: nat) {
    var i := Find(g, st.blocks, p);
    i < |st.blocks| && WayOf(g, st.blocks, i, s) == Move
  }

  /** The largest of `max` and the bytes not available in the layouts given. */
  function Peak(g: Geometry, max: int, moments: seq<seq<Block>>): int
    decreases |moments|
  {
    if moments == [] then max else Peak(g, Peaked(g, max, moments[0]), moments[1..])
  }

  lemma StepPeak(g: Geometry, st: State, op: Op)
    requires g.Ok() && Inv(g, st) && Legal(g, st, op)
    ensures Step(g, st, op).max == Peak(g, st.max, Moments(g, st, op))
  {
    hide WellFormed, ListsFree, Find, Available, Free, Clamp, Alloc, Grown, Shrunk, WayOf;
    StepKeepsInv(g, st, op);
    var after := Step(g, st, op).blocks;
    PeakOne(g, st.max, after);
    match op
    case DoAlloc(n) => AllocMax(g, st, n);
    case DoFree(p) => FreeKeepsMax(g, st, p);
    case DoRealloc(q, n) =>
      if q.None? { AllocMax(g, st, Clamp(g, n)); } else {
        var s := Clamp(g, n);
        AllocMax(g, st, s);
        AllocDelivers(g, st, s);
        PeakTwo(g, st.max, Alloc(g, st, s).1.blocks, after);
        FreeKeepsMax(g, Alloc(g, st, s).1, q.value);
        FreeKeepsMax(g, st, q.value);
        ResizedMax(g, st, Find(g, st.blocks, q.value), s);
      }
  }

  lemma AllocMax(g: Geometry, st: State, n: nat)
    requires g.Ok() && Inv(g, st)
    ensures var s := Alloc(g, st, n).1; s.max == Peaked(g, st.max, s.blocks)
  {
    hide Available, Take, Clamp, WellFormed, ListsFree;
  }

  lemma FreeKeepsMax(g: Geometry, st: State, p: nat)
    ensures Free(g, st, p).max == st.max
  {}

  lemma ResizedMax(g: Geometry, st: State, i: nat, s: nat)
    ensures i + 1 < |st.blocks| ==> Grown(g, st, i, s).max == Peaked(g, st.max, Grown(g, st, i, s).blocks)
    ensures i < |st.blocks| ==> Shrunk(g, st, i, s).max == st.max
    ensures i < |st.blocks| && WayOf(g, st.blocks, i, s) == Grow ==> i + 1 < |st.blocks|
  {}

  lemma PeakOne(g: Geometry, max: int, a: seq<Block>)
    ensures Peak(g, max, [a]) == Peaked(g, max, a)
  {
    assert [a][1..] == [];
  }

  lemma PeakTwo(g: Geometry, max: int, a: seq<Block>, b: seq<Block>)
    ensures Peak(g, max, [a, b]) == Peaked(g, Peaked(g, max, a), b)
  {
    assert [a, b][1..] == [b];
    PeakOne(g, Peaked(g, max, a), b);
  }

  /** The most that was not available at any moment of the first `k` calls of a run; the two headers
      of the empty pool count from the start. */
  ghost function HighWater(g: Geometry, trace: seq<State>, ops: seq<Op>, k: nat): int
    requires g.Ok() && k <= |ops| < |trace|
  {
    if k == 0 then 2 * g.hdr else Peak(g, HighWater(g, trace, ops, k - 1), Moments(g, trace[k - 1], ops[k - 1]))
  }

  /** `max_used_size` is the high-water mark of `pool_size - available_size`. */
  lemma {:induction false} MaxIsHighWater(g: Geometry, trace: seq<State>, ops: seq<Op>, k: nat)
    requires g.Ok() && IsRun(g, trace, ops) && k <= |ops|
    ensures trace[k].max == HighWater(g, trace, ops, k)
  {
    if k > 0 {
      MaxIsHighWater(g, trace, ops, k - 1);
      RunKeepsInv(g, trace, ops, k - 1);
      hide Step, Moments, Inv;
      StepPeak(g, trace[k - 1], ops[k - 1]);
    }
  }

  // ---------------------------------------------------------------- what the calls come to

  /** Item `i` is the first one on the free list, at position `k`, with room for `s` bytes. */
  ghost predicate FirstRoomy(g: Geometry, st: State, k: nat, i: nat, s: nat) {
    && k < |st.free| && i < |st.blocks| && st.blocks[i].off == st.free[k] && Roomy(g, st.blocks[i], s)
    && forall l, b :: 0 <= l < k && b in st.blocks && b.off == st.free[l] ==> !Roomy(g, b, s)
  }

  /** What handing out a portion of item `i` leaves: the item leaves the list, and the rest of it, if
      there is one, is listed first. */
  ghost predicate Handed(g: Geometry, st: State, st': State, k: nat, i: nat, s: nat, m: nat)
    requires k < |st.free| && i < |st.blocks|
  {
    var b := st.blocks[i];
    var rest := if b.next - b.off - g.hdr >= s + g.hdr + m then [b.off + g.hdr + s] else [];
    && Used(st'.blocks) == Used(st.blocks) + {Portion(g, b, s, m)}
    && st'.free == rest + (st.free[..k] + st.free[k + 1..])
  }

  /** rt_memheap_alloc to the byte, with `w` the request and `m` the least allocation rounded up, and
      `s` the greater of them. */
  lemma AllocExactly(g: Geometry, st: State, n: nat, w: nat, m: nat)
    requires g.Ok() && Inv(g, st) && Rounded(n, g.align, w) && Rounded(g.minSize, g.align, m)
    ensures var (p, st') := Alloc(g, st, n); var s := if w < m then m else w;
      && (p.None? <==> s >= Available(g, st.blocks) || forall b :: b in st.blocks ==> !Roomy(g, b, s))
      && (p.None? ==> st' == st)
      && (p.Some? ==> exists k: nat, i: nat :: FirstRoomy(g, st, k, i, s) && p.value == st.free[k] + g.hdr && Handed(g, st, st', k, i, s, m))
  {
    hide Inv, WellFormed, Multiple, Available, Used, Align, Rounded, Alloc, Taken, Handed, FirstRoomy;
    RoundedIsAlign(n, g.align, w);
    RoundedIsAlign(g.minSize, g.align, m);
    var s := Clamp(g, n);
    ClampPositive(g, n);
    assert forall b :: Fits(g, b, s) <==> Roomy(g, b, s);
    var k, i := AllocIs(g, st, n);
    if !(s >= Available(g, st.blocks) || forall b :: b in st.blocks ==> !Fits(g, b, s)) {
      AllocTakesFirst(g, st, n, k, i);
      HandedIs(g, st, k, i, s);
    }
  }

  /** The item taken is the first on the list that fits. */
  lemma AllocTakesFirst(g: Geometry, st: State, n: nat, k: nat, i: nat)
    requires g.Ok() && Inv(g, st) && k < |st.free| && i < |st.blocks| && st.blocks[i].off == st.free[k] && Fits(g, st.blocks[i], Clamp(g, n))
    requires Alloc(g, st, n) == (Some(st.free[k] + g.hdr), Taken(g, st, k, i, Clamp(g, n)))
    ensures FirstRoomy(g, st, k, i, Clamp(g, n))
  {
    hide Taken, Clamp, WellFormed, Available, Splits, Multiple;
    var s := Clamp(g, n);
    var j := FirstListed(g, st.blocks, st.free, s, 0);
    assert NoDup(st.free) && WellFormed(g, st.blocks);
    assert j < |st.free| && st.free[j] == st.free[k];
    forall l, b | 0 <= l < k && b in st.blocks && b.off == st.free[l] ensures !Roomy(g, b, s) {
      var x :| 0 <= x < |st.blocks| && st.blocks[x] == b;
      SameIndex(g, st.blocks, st.free[l], x) by { assert Tiles(g, st.blocks) by { Tile(g, st.blocks); } }
    }
  }

  lemma Tile(g: Geometry, bs: seq<Block>)
    requires g.Ok() && WellFormed(g, bs)
    ensures Tiles(g, bs)
  {}

  lemma HandedIs(g: Geometry, st: State, k: nat, i: nat, s: nat)
    requires g.Ok() && Inv(g, st) && k < |st.free| && i < |st.blocks| && st.blocks[i].off == st.free[k] && Fits(g, st.blocks[i], s)
    requires Multiple(s, g.align) && s >= g.align
    ensures Handed(g, st, Taken(g, st, k, i, s), k, i, s, Align(g.minSize, g.align))
  {
    hide WellFormed, Multiple, Available, Used, Align, Take;
    TakeKeeps(g, st.blocks, i, s);
    TakeIsPortion(g, st.blocks, i, s);
  }

  /** Taking an offset off the list. */
  lemma UnlistedIsWithout(free: seq<nat>, o: nat)
    ensures Unlisted(free, o) == Without(free, o)
  {
    hide Without;
    var k := WithoutShape(free, o);
    var l := Where(free, o, 0);
    assert l < |free| ==> free[l] == o;
  }

  /** A free right neighbour is on the list, and if there is none nothing on it is at its place. */
  lemma RightOffList(g: Geometry, st: State, i: nat)
    requires g.Ok() && Inv(g, st) && i < |st.blocks|
    ensures (if FreeOnRight(st.blocks, i) then Unlisted(st.free, st.blocks[i + 1].off) else st.free) == Without(st.free, st.blocks[i].next)
  {
    hide NoDup, Without, Unlisted, NoFreeNeighbours;
    var o := st.blocks[i].next;
    UnlistedIsWithout(st.free, o);
    if !FreeOnRight(st.blocks, i) && o in st.free {
      assert o in Elems(st.free);
      var b :| b in st.blocks && !b.used && b.off == o;
      var j :| 0 <= j < |st.blocks| && st.blocks[j] == b;
      if j <= i { RightBehind(g, st.blocks, j, i); } else if i + 1 < j { OffsDistinct(g, st.blocks, i + 1, j); }
    }
    var k := WithoutShape(st.free, o);
  }

  lemma RightBehind(g: Geometry, bs: seq<Block>, j: nat, i: nat)
    requires g.Ok() && Tiles(g, bs) && j <= i < |bs|
    ensures bs[j].off < bs[i].next
  {
    if j < i { OffsDistinct(g, bs, j, i); }
    assert GoodBlock(g, bs[i]);
  }

  /** The block at index `i` is found by its payload address. */
  lemma FoundAt(g: Geometry, bs: seq<Block>, i: nat)
    requires g.Ok() && WellFormed(g, bs) && i < |bs| && bs[i].used
    ensures Live(g, bs, bs[i].off + g.hdr) && Find(g, bs, bs[i].off + g.hdr) == i
  {
    var f := Find(g, bs, bs[i].off + g.hdr);
    assert LiveAt(g, bs, bs[i].off + g.hdr, i);
    if f < i { OffsDistinct(g, bs, f, i); }
  }

  /** rt_memheap_free: the item leaves the used ones; on the list its free right neighbour is gone, and
      it comes first unless it became part of a free left neighbour, which stays where it was. */
  lemma FreeExactly(g: Geometry, st: State, i: nat)
    requires g.Ok() && Inv(g, st) && i < |st.blocks| && st.blocks[i].used
    ensures var b := st.blocks[i]; var st' := Free(g, st, b.off + g.hdr);
      && Used(st'.blocks) == Used(st.blocks) - {b} && st'.max == st.max
      && st'.free == (if i > 0 && !st.blocks[i - 1].used then [] else [b.off]) + Without(st.free, b.next)
  {
    hide WellFormed, Available, NoDup, Without, Unlisted, Release, ListsFree, Used;
    FoundAt(g, st.blocks, i);
    ReleasedKeeps(g, st, i);
    RightOffList(g, st, i);
    assert [] + Without(st.free, st.blocks[i].next) == Without(st.free, st.blocks[i].next);
  }

  /** rt_memheap_realloc of a live item to the byte, with `s` the clamped size.  It stays if it is large
      enough and what would be cut off is not more than a header and the least allocation; it is cut
      if it is; it grows into a free right neighbour if that leaves more than the least allocation;
      and otherwise it is allocated anew and freed.  A part cut off comes first on the list, and a
      right neighbour it is joined with leaves it. */
  lemma ReallocExactly(g: Geometry, st: State, i: nat, n: nat, w: nat, m: nat)
    requires g.Ok() && Inv(g, st) && i < |st.blocks| && st.blocks[i].used && n > 0
    requires Rounded(n, g.align, w) && Rounded(g.minSize, g.align, m)
    ensures var bs := st.blocks; var b := bs[i]; var p := b.off + g.hdr; var size := b.next - p; var s := if w < m then m else w;
      var room := if i + 1 < |bs| && !bs[i + 1].used then bs[i + 1].next - bs[i + 1].off - g.hdr + size > s + g.minSize else false;
      var (q, st') := Realloc(g, st, Some(p), n);
      && (s <= size <= s + g.hdr + g.minSize ==> q == Some(p) && st' == st)
      && (s + g.hdr + g.minSize < size || (s > size && room) ==>
            && q == Some(p) && Used(st'.blocks) == Used(bs) - {b} + {Block(b.off, p + s, true)}
            && st'.free == [p + s] + Without(st.free, b.next))
      && (s > size && !room ==>
            && q == Alloc(g, st, s).0 && (q.None? ==> st' == st)
            && (q.Some? ==> st' == Free(g, Alloc(g, st, s).1, p)))
  {
    hide WellFormed, ListsFree, Available, Multiple, Used, Align, Rounded, Alloc, Free, Shrunk, Grown, Find, Without;
    RoundedIsAlign(n, g.align, w);
    RoundedIsAlign(g.minSize, g.align, m);
    var bs, s := st.blocks, Clamp(g, n);
    FoundAt(g, bs, i);
    ClampPositive(g, n);
    ResizedExactly(g, st, i, s);
    AllocDelivers(g, st, s);
  }

  lemma ResizedExactly(g: Geometry, st: State, i: nat, s: nat)
    requires g.Ok() && Inv(g, st) && i < |st.blocks| && st.blocks[i].used && Multiple(s, g.align) && s > 0
    ensures var b := st.blocks[i];
      && (WayOf(g, st.blocks, i, s) == Grow ==>
            && Used(Grown(g, st, i, s).blocks) == Used(st.blocks) - {b} + {Block(b.off, b.off + g.hdr + s, true)}
            && Grown(g, st, i, s).free == [b.off + g.hdr + s] + Without(st.free, b.next))
      && (WayOf(g, st.blocks, i, s) == ShrinkTail ==>
            && Used(Shrunk(g, st, i, s).blocks) == Used(st.blocks) - {b} + {Block(b.off, b.off + g.hdr + s, true)}
            && Shrunk(g, st, i, s).free == [b.off + g.hdr + s] + Without(st.free, b.next))
  {
    hide Multiple, Available, NoDup, Without, Unlisted, Shrink, Cut, Join, ListsFree, Used, WellFormed;
    RightOffList(g, st, i);
    if WayOf(g, st.blocks, i, s) == Grow { GrowKeeps(g, st.blocks, i, s); }
    if WayOf(g, st.blocks, i, s) == ShrinkTail { ShrinkKeeps(g, st.blocks, i, s); }
  }

  /** rt_memheap_realloc without a pointer allocates; to 0 bytes it frees and returns null. */
  lemma ReallocEdges(g: Geometry, st: State, i: nat, n: nat, w: nat, m: nat)
    requires g.Ok() && Inv(g, st) && i < |st.blocks| && st.blocks[i].used
    requires Rounded(n, g.align, w) && Rounded(g.minSize, g.align, m) && n > 0
    ensures Realloc(g, st, None, n) == Alloc(g, st, if w < m then m else w) && Realloc(g, st, None, 0) == (None, st)
    ensures var (q, st') := Realloc(g, st, Some(st.blocks[i].off + g.hdr), 0);
      q == None && Used(st'.blocks) == Used(st.blocks) - {st.blocks[i]} && st'.max == st.max
  {
    hide WellFormed, ListsFree, Available, Multiple, Used, Rounded, Alloc, Free, Find, Align;
    RoundedIsAlign(n, g.align, w);
    RoundedIsAlign(g.minSize, g.align, m);
    FreeExactly(g, st, i);
  }
}
