/** What the small-memory heap of rt-thread/src/mem.c promises, over sequences of blocks.

    A heap is the sequence of its blocks in address order.  The operations below are the
    specification that the pointer code of `SmallMem.SmallHeap` is proved to compute, and
    the theorems here hold of every run of them. */
module SmallMemSpec {
  import opened Alignment
  import opened Blocks
  import opened Memory

  datatype State = State(blocks: seq<Block>, max: nat)

  ghost predicate Inv(g: Geometry, st: State)
    requires g.Ok()
  {
    WellFormed(g, st.blocks) && UsedBytes(st.blocks) <= st.max
  }

  /** Index of the lowest block from `i` on that is free and holds `s` bytes. */
  function FirstFit(g: Geometry, bs: seq<Block>, s: nat, i: nat): (r: nat)
    requires i <= |bs|
    ensures i <= r <= |bs|
    ensures forall k :: i <= k < r ==> !Fits(g, bs[k], s)
    ensures r < |bs| ==> Fits(g, bs[r], s)
    decreases |bs| - i
  {
    if i == |bs| || Fits(g, bs[i], s) then i else FirstFit(g, bs, s, i + 1)
  }

  /** Index of the lowest free block from `i` on. */
  function LowestFree(bs: seq<Block>, i: nat): (r: nat)
    requires i <= |bs|
    ensures i <= r <= |bs|
    ensures forall k :: i <= k < r ==> bs[k].used
    ensures r < |bs| ==> !bs[r].used
    decreases |bs| - i
  {
    if i == |bs| || !bs[i].used then i else LowestFree(bs, i + 1)
  }

  /** Where `lfree` points: the lowest free block, or the end stub. */
  function Hint(g: Geometry, bs: seq<Block>): nat {
    var i := LowestFree(bs, 0);
    if i < |bs| then bs[i].off else g.End()
  }

  /** A state whose high-water mark takes the new total into account. */
  function Charged(st: State, bs: seq<Block>): State {
    State(bs, if st.max < UsedBytes(bs) then UsedBytes(bs) else st.max)
  }

  /** rt_smem_alloc. */
  function Alloc(g: Geometry, st: State, n: nat): (r: (Option<nat>, State))
    requires g.Ok()
  {
    if n == 0 || Align(n, g.align) > g.size then (None, st)
    else
      var s := Clamp(g, n);
      var i := FirstFit(g, st.blocks, s, 0);
      if i == |st.blocks| then (None, st)
      else (Some(st.blocks[i].off + g.hdr), Charged(st, Take(g, st.blocks, i, s)))
  }

  /** rt_smem_free.  Callers owe a live pointer; nothing is claimed about any other. */
  function Free(g: Geometry, st: State, p: nat): State {
    var i := Find(g, st.blocks, p);
    if i < |st.blocks| then st.(blocks := Release(st.blocks, i)) else st
  }

  datatype Resized = InPlace | Shrunk | Moved

  /** Which way rt_smem_realloc goes for a block whose payload has `size` bytes. */
  function Resizing(g: Geometry, size: int, newsize: nat): Resized {
    if size == newsize then InPlace
    else if newsize + g.hdr + g.minSize < size then Shrunk
    else Moved
  }

  /** rt_smem_realloc; the pointer, when given, is live. */
  function Realloc(g: Geometry, st: State, p: Option<nat>, n: nat): (r: (Option<nat>, State))
    requires g.Ok()
  {
    var newsize := Align(n, g.align);
    if newsize > g.size then (None, st)
    else if newsize == 0 then (None, if p.Some? then Free(g, st, p.value) else st)
    else if p.None? then Alloc(g, st, newsize)
    else ReallocLive(g, st, p.value, newsize)
  }

  function ReallocLive(g: Geometry, st: State, p: nat, newsize: nat): (r: (Option<nat>, State))
    requires g.Ok()
  {
    var i := Find(g, st.blocks, p);
    if i == |st.blocks| then (None, st)
    else
      match Resizing(g, st.blocks[i].next - st.blocks[i].off - g.hdr, newsize)
      case InPlace => (Some(p), st)
      case Shrunk => (Some(p), st.(blocks := Shrink(g, st.blocks, i, newsize)))
      case Moved =>
        var (q, st') := Alloc(g, st, newsize);
        (q, if q.Some? then Free(g, st', p) else st')
  }

  lemma FirstFitLowest(g: Geometry, bs: seq<Block>, s: nat)
    requires g.Ok() && Tiles(g, bs)
    ensures var i := FirstFit(g, bs, s, 0);
      && (i == |bs| <==> forall b :: b in bs ==> !Fits(g, b, s))
      && (i < |bs| ==> forall b :: b in bs && Fits(g, b, s) ==> bs[i].off <= b.off)
  {
    var i := FirstFit(g, bs, s, 0);
    AllOrdered(g, bs);
    if i < |bs| {
      assert bs[i] in bs;
      assert GoodBlock(g, bs[i]);
    }
  }

  lemma FitsHeap(g: Geometry, bs: seq<Block>, b: Block, s: nat)
    requires g.Ok() && Tiles(g, bs) && b in bs && Fits(g, b, s)
    ensures s <= g.size
  {
    AllOrdered(g, bs);
  }

  /** rt_smem_alloc keeps the invariant; it returns null exactly when no free block holds the
      aligned and clamped request, and otherwise takes the lowest one that does. */
  lemma AllocDelivers(g: Geometry, st: State, n: nat)
    requires g.Ok() && Inv(g, st)
    ensures var (p, st') := Alloc(g, st, n);
      && Inv(g, st')
      && (p.None? ==> st' == st)
      && (n > 0 ==> (p.None? <==> forall b :: b in st.blocks ==> !Fits(g, b, Clamp(g, n))))
      && (p.Some? ==> Multiple(p.value, g.align) && Delivers(g, st.blocks, st'.blocks, p.value, n))
      && (p.Some? ==> forall b :: b in st.blocks && Fits(g, b, Clamp(g, n)) ==> p.value <= b.off + g.hdr)
      && Used(st.blocks) <= Used(st'.blocks)
  {
    var bs := st.blocks;
    var s := Clamp(g, n);
    ClampPositive(g, n);
    FirstFitLowest(g, bs, s);
    var i := FirstFit(g, bs, s, 0);
    if i < |bs| {
      assert bs[i] in bs;
      FitsHeap(g, bs, bs[i], s);
      TakeKeeps(g, bs, i, s);
      var r := Take(g, bs, i, s);
      assert GoodBlock(g, bs[i]);
      MultipleSum(bs[i].off, g.hdr, g.align);
      FreshBlock(g, bs, i, r[i]);
      assert r[i] in r;
    }
  }

  /** rt_smem_free keeps the invariant and removes exactly the block it was given. */
  lemma FreeDelivers(g: Geometry, st: State, p: nat)
    requires g.Ok() && Inv(g, st) && Live(g, st.blocks, p)
    ensures var st' := Free(g, st, p); var b := st.blocks[Find(g, st.blocks, p)];
      && Inv(g, st')
      && st'.max == st.max
      && Used(st'.blocks) == Used(st.blocks) - {b}
      && UsedBytes(st'.blocks) == UsedBytes(st.blocks) - (b.next - b.off)
  {
    var i := Find(g, st.blocks, p);
    ReleaseKeeps(g, st.blocks, i);
    assert GoodBlock(g, st.blocks[i]);
  }

  /** rt_smem_realloc keeps the invariant.  When it succeeds on a live pointer, the old block is
      replaced by one at least as large as asked for and every other used block stays; when it
      fails the heap is untouched.  A request of zero bytes frees. */
  lemma ReallocDelivers(g: Geometry, st: State, p: Option<nat>, n: nat)
    requires g.Ok() && Inv(g, st)
    requires p.Some? ==> Live(g, st.blocks, p.value)
    ensures var (q, st') := Realloc(g, st, p, n);
      && Inv(g, st')
      && (n > 0 && q.None? ==> st' == st)
      && (p.Some? ==> var b := st.blocks[Find(g, st.blocks, p.value)];
           && (n == 0 ==> Used(st'.blocks) == Used(st.blocks) - {b})
           && (q.Some? ==> Replaces(g, st.blocks, st'.blocks, b, q.value, n)))
  {
    hide Alloc, Free, ReallocLive, Replaces, UsedBytes;
    var newsize := Align(n, g.align);
    AllocDelivers(g, st, newsize);
    if p.Some? {
      FreeDelivers(g, st, p.value);
      if 0 < newsize {
        ReallocLiveDelivers(g, st, p.value, newsize);
        LessReplaces(g, st, p.value, newsize, n);
      }
    }
  }

  /** Exactly when a resize of a live block to a nonzero size fails: when the size is beyond the heap,
      or the block must move and no free block fits. */
  lemma ReallocFails(g: Geometry, st: State, p: nat, n: nat)
    requires g.Ok() && Inv(g, st) && Live(g, st.blocks, p) && n > 0
    ensures var b := st.blocks[Find(g, st.blocks, p)]; var newsize := Align(n, g.align);
      Realloc(g, st, Some(p), n).0.None? <==>
        || newsize > g.size
        || (Resizing(g, b.next - b.off - g.hdr, newsize) == Moved && forall c :: c in st.blocks ==> !Fits(g, c, Clamp(g, n)))
  {
    hide Alloc, Fits, Multiple, WellFormed, Shrink;
    AlignOfMultiple(Align(n, g.align), g.align);
    AllocDelivers(g, st, Align(n, g.align));
  }

  /** A block that shrinks by too little to leave room for a remainder must move, so even a smaller
      size may be refused: in a heap taken up by one block every such size is. */
  lemma SmallerRefused(g: Geometry, max: nat, n: nat)
    requires g.Ok() && g.size + g.hdr <= max
    requires 0 < Align(n, g.align) < g.size <= Align(n, g.align) + g.hdr + g.minSize
    ensures var st := State([Block(0, g.End(), true)], max);
      Inv(g, st) && Live(g, st.blocks, g.hdr) && Realloc(g, st, Some(g.hdr), n).0.None?
  {
    var st := State([Block(0, g.End(), true)], max);
    OneBlock(g);
    assert LiveAt(g, st.blocks, g.hdr, 0);
    assert Find(g, st.blocks, g.hdr) == 0;
    hide Realloc, Fits, Align, WellFormed;
    assert forall c :: c in st.blocks ==> c == st.blocks[0] && !Fits(g, c, Clamp(g, n)) by { NotFree(g, n); }
    ReallocFails(g, st, g.hdr, n);
  }

  /** Such a heap comes about by asking a fresh one for its whole size. */
  lemma WholeHeapTaken(g: Geometry)
    requires g.Ok() && g.minSize <= g.size
    ensures Alloc(g, State(Empty(g), 0), g.size) == (Some(g.hdr), State([Block(0, g.End(), true)], g.End()))
  {
    AlignOfMultiple(g.size, g.align);
    ClampWhole(g);
    OneBlock(g);
    hide Clamp, Align, Multiple, UsedBytes, Tiles, NoFreeNeighbours;
    assert Take(g, Empty(g), 0, g.size) == [Block(0, g.End(), true)];
  }

  lemma NotFree(g: Geometry, n: nat)
    requires g.Ok()
    ensures !Fits(g, Block(0, g.End(), true), Clamp(g, n))
  {}

  lemma OneBlock(g: Geometry)
    requires g.Ok()
    ensures var bs := [Block(0, g.End(), true)]; WellFormed(g, bs) && UsedBytes(bs) == g.End()
  {
    MultipleSum(g.size, g.hdr, g.align);
    TotalOne(InUse, Block(0, g.End(), true));
  }

  lemma LessReplaces(g: Geometry, st: State, p: nat, m: nat, n: nat)
    requires g.Ok() && Live(g, st.blocks, p) && n <= m
    ensures var (q, st') := ReallocLive(g, st, p, m); var b := st.blocks[Find(g, st.blocks, p)];
      q.Some? && Replaces(g, st.blocks, st'.blocks, b, q.value, m) ==> Replaces(g, st.blocks, st'.blocks, b, q.value, n)
  {
    hide ReallocLive;
  }

  lemma ReallocLiveDelivers(g: Geometry, st: State, p: nat, newsize: nat)
    requires g.Ok() && Inv(g, st) && Live(g, st.blocks, p)
    requires Multiple(newsize, g.align) && newsize > 0
    ensures var (q, st') := ReallocLive(g, st, p, newsize);
      var b := st.blocks[Find(g, st.blocks, p)];
      && Inv(g, st')
      && (q.None? ==> st' == st)
      && (q.Some? ==> Replaces(g, st.blocks, st'.blocks, b, q.value, newsize))
  {
    hide Shrink, UsedBytes, Alloc, Free, Replaces, Multiple, Align, WellFormed;
    var i := Find(g, st.blocks, p);
    FindIsLive(g, st.blocks, p);
    match Resizing(g, st.blocks[i].next - st.blocks[i].off - g.hdr, newsize)
    case InPlace =>
      KeptReplaces(g, st.blocks, i);
    case Shrunk =>
      ShrunkDelivers(g, st.blocks, i, newsize);
    case Moved =>
      AllocDelivers(g, st, newsize);
      MovedDelivers(g, st, p, newsize);
  }

  lemma MovedDelivers(g: Geometry, st: State, p: nat, n: nat)
    requires g.Ok() && Inv(g, st) && Live(g, st.blocks, p)
    ensures var (q, st') := Alloc(g, st, n);
      var b := st.blocks[Find(g, st.blocks, p)];
      q.Some? ==> Live(g, st'.blocks, p) && Inv(g, Free(g, st', p)) && Replaces(g, st.blocks, Free(g, st', p).blocks, b, q.value, n)
  {
    hide Alloc, Free, UsedBytes;
    AllocDelivers(g, st, n);
    var bs := st.blocks;
    var b := bs[Find(g, bs, p)];
    var (q, st') := Alloc(g, st, n);
    if q.Some? {
      var c :| c in st'.blocks && c.used && c.off + g.hdr == q.value && c.next - q.value >= n
        && c !in Used(bs) && Used(st'.blocks) == Used(bs) + {c};
      LiveKept(g, bs, st'.blocks, p);
      FreeDelivers(g, st', p);
      assert b in Used(bs);
      SamePointer(g, st'.blocks, p, b);
      assert c in Used(Free(g, st', p).blocks);
    }
  }

  /** Freeing what was just allocated puts the heap back exactly as it was. */
  lemma FreeUndoesAlloc(g: Geometry, st: State, n: nat)
    requires g.Ok() && Inv(g, st) && Alloc(g, st, n).0.Some?
    ensures var (p, st') := Alloc(g, st, n);
      Live(g, st'.blocks, p.value) && Free(g, st', p.value).blocks == st.blocks
  {
    AllocDelivers(g, st, n);
    var (p, st') := Alloc(g, st, n);
    var b :| b in st'.blocks && b.used && b.off + g.hdr == p.value
      && b !in Used(st.blocks) && Used(st'.blocks) == Used(st.blocks) + {b};
    SamePointer(g, st'.blocks, p.value, b);
    FreeDelivers(g, st', p.value);
    LayoutDetermined(g, Free(g, st', p.value).blocks, st.blocks);
  }

  /** Two frees commute. */
  lemma FreesCommute(g: Geometry, st: State, p: nat, q: nat)
    requires g.Ok() && Inv(g, st) && Live(g, st.blocks, p) && Live(g, st.blocks, q) && p != q
    ensures Live(g, Free(g, st, p).blocks, q) && Live(g, Free(g, st, q).blocks, p)
    ensures Free(g, Free(g, st, p), q) == Free(g, Free(g, st, q), p)
  {
    hide Free, UsedBytes;
    FreeLeavesOther(g, st, p, q);
    FreeLeavesOther(g, st, q, p);
    FreeDelivers(g, Free(g, st, p), q);
    FreeDelivers(g, Free(g, st, q), p);
    var x, y := Free(g, Free(g, st, p), q), Free(g, Free(g, st, q), p);
    LayoutDetermined(g, x.blocks, y.blocks);
    assert x == State(x.blocks, st.max) && y == State(y.blocks, st.max);
  }

  lemma FreeLeavesOther(g: Geometry, st: State, p: nat, q: nat)
    requires g.Ok() && Inv(g, st) && Live(g, st.blocks, p) && Live(g, st.blocks, q) && p != q
    ensures var st' := Free(g, st, p);
      && Inv(g, st') && st'.max == st.max && Live(g, st'.blocks, q)
      && st'.blocks[Find(g, st'.blocks, q)] == st.blocks[Find(g, st.blocks, q)]
      && Used(st'.blocks) == Used(st.blocks) - {st.blocks[Find(g, st.blocks, p)]}
  {
    hide Free, UsedBytes;
    FreeDelivers(g, st, p);
    var b := st.blocks[Find(g, st.blocks, q)];
    FindIsLive(g, st.blocks, q);
    FindIsLive(g, st.blocks, p);
    assert b in Used(Free(g, st, p).blocks);
    SamePointer(g, Free(g, st, p).blocks, q, b);
  }

  /** When nothing is live, the heap is one free block again, whatever happened before. */
  lemma AllFreed(g: Geometry, st: State)
    requires g.Ok() && Inv(g, st) && Used(st.blocks) == {}
    ensures st.blocks == Empty(g) && UsedBytes(st.blocks) == 0
  {
    EmptyWellFormed(g);
    LayoutDetermined(g, st.blocks, Empty(g));
  }

  datatype Op = DoAlloc(n: nat) | DoFree(p: nat) | DoRealloc(q: Option<nat>, m: nat)

  /** What the callers owe: only live pointers are freed or resized. */
  predicate Legal(g: Geometry, st: State, op: Op) {
    match op
    case DoAlloc(_) => true
    case DoFree(p) => Live(g, st.blocks, p)
    case DoRealloc(q, _) => q.Some? ==> Live(g, st.blocks, q.value)
  }

  function Step(g: Geometry, st: State, op: Op): State
    requires g.Ok()
  {
    match op
    case DoAlloc(n) => Alloc(g, st, n).1
    case DoFree(p) => Free(g, st, p)
    case DoRealloc(q, n) => Realloc(g, st, q, n).1
  }

  /** `trace` is a run of the heap: it starts empty and every step is a legal call. */
  ghost predicate IsRun(g: Geometry, trace: seq<State>, ops: seq<Op>)
    requires g.Ok()
  {
    && |trace| == |ops| + 1 && trace[0] == State(Empty(g), 0)
    && forall k :: 0 <= k < |ops| ==> Legal(g, trace[k], ops[k]) && trace[k + 1] == Step(g, trace[k], ops[k])
  }

  lemma StepKeepsInv(g: Geometry, st: State, op: Op)
    requires g.Ok() && Inv(g, st) && Legal(g, st, op)
    ensures Inv(g, Step(g, st, op))
  {
    hide Alloc, Free, Realloc, UsedBytes;
    match op
    case DoAlloc(n) => AllocDelivers(g, st, n);
    case DoFree(p) => FreeDelivers(g, st, p);
    case DoRealloc(q, n) => ReallocDelivers(g, st, q, n);
  }

  /** The invariant holds in every state of every run. */
  lemma {:induction false} RunKeepsInv(g: Geometry, trace: seq<State>, ops: seq<Op>, k: nat)
    requires g.Ok() && IsRun(g, trace, ops) && k < |trace|
    ensures Inv(g, trace[k])
  {
    if k == 0 {
      EmptyWellFormed(g);
    } else {
      RunKeepsInv(g, trace, ops, k - 1);
      hide Step, UsedBytes;
      StepKeepsInv(g, trace[k - 1], ops[k - 1]);
    }
  }

  /** A run that ends with nothing live ends in the initial layout. */
  lemma RunFreesAll(g: Geometry, trace: seq<State>, ops: seq<Op>)
    requires g.Ok() && IsRun(g, trace, ops) && Used(trace[|trace| - 1].blocks) == {}
    ensures trace[|trace| - 1].blocks == Empty(g)
  {
    RunKeepsInv(g, trace, ops, |trace| - 1);
    AllFreed(g, trace[|trace| - 1]);
  }

  /** The layouts the heap passes through in one call: a realloc that moves holds both blocks for
      a moment. */
  ghost function Moments(g: Geometry, st: State, op: Op): seq<seq<Block>>
    requires g.Ok()
  {
    var newsize := if op.DoRealloc? then Align(op.m, g.align) else 0;
    if op.DoRealloc? && op.q.Some? && 0 < newsize <= g.size && Moves(g, st, op.q.value, newsize)
    then [Alloc(g, st, newsize).1.blocks, Step(g, st, op).blocks]
    else [Step(g, st, op).blocks]
  }

  predicate Moves(g: Geometry, st: State, p: nat, newsize: nat) {
    var i := Find(g, st.blocks, p);
    i < |st.blocks| && Resizing(g, st.blocks[i].next - st.blocks[i].off - g.hdr, newsize) == Moved
  }

  /** The largest of `max` and the bytes in use in the layouts given. */
  function Peak(max: int, moments: seq<seq<Block>>): int
    decreases |moments|
  {
    if moments == [] then max else Peak(if UsedBytes(moments[0]) > max then UsedBytes(moments[0]) else max, moments[1..])
  }

  lemma StepPeak(g: Geometry, st: State, op: Op)
    requires g.Ok() && Inv(g, st) && Legal(g, st, op)
    ensures Step(g, st, op).max == Peak(st.max, Moments(g, st, op))
  {
    hide WellFormed, Find, UsedBytes, Free, Take, FirstFit, Shrink;
    StepKeepsInv(g, st, op);
    var after := Step(g, st, op).blocks;
    PeakOne(st.max, after);
    if op.DoRealloc? && op.q.Some? {
      var newsize := Align(op.m, g.align);
      AllocDelivers(g, st, newsize);
      PeakTwo(st.max, Alloc(g, st, newsize).1.blocks, after);
      FreeKeepsMax(g, Alloc(g, st, newsize).1, op.q.value);
      FreeKeepsMax(g, st, op.q.value);
    } else if op.DoFree? {
      FreeKeepsMax(g, st, op.p);
    }
  }

  lemma FreeKeepsMax(g: Geometry, st: State, p: nat)
    ensures Free(g, st, p).max == st.max
  {}

  lemma PeakOne(max: int, a: seq<Block>)
    ensures Peak(max, [a]) == if UsedBytes(a) > max then UsedBytes(a) else max
  {
    assert [a][1..] == [];
  }

  lemma PeakTwo(max: int, a: seq<Block>, b: seq<Block>)
    ensures Peak(max, [a, b]) == Peak(Peak(max, [a]), [b])
  {
    assert [a, b][1..] == [b] && [a][1..] == [];
  }

  /** The largest number of bytes in use at any moment of the first `k` calls of a run. */
  ghost function HighWater(g: Geometry, trace: seq<State>, ops: seq<Op>, k: nat): int
    requires g.Ok() && k <= |ops| < |trace|
  {
    if k == 0 then 0 else Peak(HighWater(g, trace, ops, k - 1), Moments(g, trace[k - 1], ops[k - 1]))
  }

  /** `max` is the high-water mark of `used`. */
  lemma {:induction false} MaxIsHighWater(g: Geometry, trace: seq<State>, ops: seq<Op>, k: nat)
    requires g.Ok() && IsRun(g, trace, ops) && k <= |ops|
    ensures trace[k].max == HighWater(g, trace, ops, k)
  {
    if k > 0 {
      MaxIsHighWater(g, trace, ops, k - 1);
      RunKeepsInv(g, trace, ops, k - 1);
      hide Step, Moments, Inv;
      StepPeak(g, trace[k - 1], ops[k - 1]);
    }
  }

  // ---------------------------------------------------------------- what the calls come to

  /** `b` is the lowest free block with room for `s` bytes, and `p` its payload. */
  ghost predicate Lowest(g: Geometry, bs: seq<Block>, b: Block, s: nat, p: nat) {
    b in bs && Roomy(g, b, s) && p == b.off + g.hdr && forall c :: c in bs && Roomy(g, c, s) ==> b.off <= c.off
  }

  /** rt_smem_alloc to the byte: with `w` the request rounded up, `m` the least block size rounded up
      and `s` the greater of them, it hands out a portion of the lowest free block with room for `s`,
      and returns null exactly for 0 bytes or when there is none. */
  lemma AllocExactly(g: Geometry, st: State, n: nat, w: nat, m: nat)
    requires g.Ok() && Inv(g, st) && Rounded(n, g.align, w) && Rounded(g.minSize, g.align, m)
    ensures var (p, st') := Alloc(g, st, n); var s := if w < m then m else w; var bs := st.blocks;
      && (p.None? <==> n == 0 || forall b :: b in bs ==> !Roomy(g, b, s))
      && (p.None? ==> st' == st)
      && (p.Some? ==> exists b :: Lowest(g, bs, b, s, p.value) && Used(st'.blocks) == Used(bs) + {Portion(g, b, s, m)})
  {
    hide WellFormed, Multiple, UsedBytes, Used, Align, Rounded, Take;
    RoundedIsAlign(n, g.align, w);
    RoundedIsAlign(g.minSize, g.align, m);
    var bs := st.blocks;
    var s := Clamp(g, n);
    Tiled(g, st);
    ClampPositive(g, n);
    FirstFitLowest(g, bs, s);
    assert forall b :: Fits(g, b, s) <==> Roomy(g, b, s);
    var i := FirstFit(g, bs, s, 0);
    if i < |bs| {
      assert bs[i] in bs;
      FitsHeap(g, bs, bs[i], s);
      TakeKeeps(g, bs, i, s);
      TakeIsPortion(g, bs, i, s);
      if n > 0 { assert Lowest(g, bs, bs[i], s, bs[i].off + g.hdr); }
    }
  }

  lemma Tiled(g: Geometry, st: State)
    requires g.Ok() && Inv(g, st)
    ensures WellFormed(g, st.blocks) && Tiles(g, st.blocks)
  {}

  /** rt_smem_realloc of a live block to the byte, with `w` the new size rounded up.  It returns null
      beyond the size of the heap; a block that has exactly that size stays; one with room behind the
      new size for a header and more than the least size is cut there; any other is allocated anew
      and freed. */
  lemma ReallocExactly(g: Geometry, st: State, b: Block, n: nat, w: nat)
    requires g.Ok() && Inv(g, st) && b in st.blocks && b.used && n > 0 && Rounded(n, g.align, w)
    ensures var p := b.off + g.hdr; var size := b.next - p; var (q, st') := Realloc(g, st, Some(p), n);
      && (w > g.size ==> q == None && st' == st)
      && (size == w <= g.size ==> q == Some(p) && st' == st)
      && (w + g.hdr + g.minSize < size && w <= g.size ==>
            q == Some(p) && st'.max == st.max && Used(st'.blocks) == Used(st.blocks) - {b} + {Block(b.off, p + w, true)})
      && (size != w && size <= w + g.hdr + g.minSize && w <= g.size ==>
            var (r, st'') := Alloc(g, st, w);
            && q == r && (q.None? ==> st' == st)
            && (q.Some? ==> Used(st'.blocks) == Used(st''.blocks) - {b} && st'.max == st''.max && b in Used(st''.blocks)))
  {
    hide WellFormed, Multiple, UsedBytes, Used, Align, Rounded, Alloc, Free, Shrink, Find;
    RoundedIsAlign(n, g.align, w);
    Tiled(g, st);
    SamePointer(g, st.blocks, b.off + g.hdr, b);
    AlignPositive(n, g.align);
    var size := b.next - b.off - g.hdr;
    if w <= g.size {
      if w + g.hdr + g.minSize < size {
        ShrinkKeeps(g, st.blocks, Find(g, st.blocks, b.off + g.hdr), w);
      } else if size != w {
        AllocDelivers(g, st, w);
        MovesAway(g, st, b, w);
      }
    }
  }

  /** Freeing a block after an allocation that left it alone. */
  lemma MovesAway(g: Geometry, st: State, b: Block, w: nat)
    requires g.Ok() && Inv(g, st) && b in st.blocks && b.used
    ensures var (r, s) := Alloc(g, st, w); var t := Free(g, s, b.off + g.hdr);
      r.Some? ==> b in Used(s.blocks) && Used(t.blocks) == Used(s.blocks) - {b} && t.max == s.max
  {
    hide WellFormed, Multiple, UsedBytes, Align, Alloc, Free, Find;
    AllocDelivers(g, st, w);
    var (r, s) := Alloc(g, st, w);
    assert b in Used(st.blocks);
    if r.Some? {
      Tiled(g, s);
      SamePointer(g, s.blocks, b.off + g.hdr, b);
      FreeDelivers(g, s, b.off + g.hdr);
    }
  }

  /** rt_smem_realloc without a pointer allocates, and to 0 bytes frees and returns null. */
  lemma ReallocEdges(g: Geometry, st: State, b: Block, n: nat, w: nat)
    requires g.Ok() && Inv(g, st) && b in st.blocks && b.used && Rounded(n, g.align, w) && 0 < w <= g.size
    ensures Realloc(g, st, None, n) == Alloc(g, st, w)
    ensures var (q, st') := Realloc(g, st, Some(b.off + g.hdr), 0);
      q == None && st'.max == st.max && Used(st'.blocks) == Used(st.blocks) - {b}
    ensures Realloc(g, st, None, 0) == (None, st)
  {
    hide WellFormed, Multiple, UsedBytes, Rounded, Alloc, Free, Find;
    RoundedIsAlign(n, g.align, w);
    Tiled(g, st);
    SamePointer(g, st.blocks, b.off + g.hdr, b);
    FreeDelivers(g, st, b.off + g.hdr);
  }
}
