/** What the slab allocator keeps: zones of equal chunks, the lists of zones with a free chunk,
    the idle zones, and the table that leads from a page back to its owner
    (rt-thread/src/slab.c, lines 488-650 and 664-859). */
module SlabSpec {
  import opened Memory
  import opened Alignment
  import opened Lists
  import opened SizeClasses
  import opened P = SlabPagesSpec

  /** zone_page_cnt, zone_limit and sizeof(struct rt_slab_zone). */
  datatype Config = Config(zonePages: nat, limit: nat, hdr: nat) {
    ghost predicate Ok() {
      zonePages in {8, 16, 32} && limit == (if zonePages == 8 then 8192 else 16384) && 0 < hdr <= PAGE
    }

    function ZoneSize(): nat { zonePages * PAGE }

    /** z_nmax of a zone of class `i`. */
    function Max(i: nat): nat
      requires i < CLASSES
    {
      ZoneChunks(ZoneSize(), hdr, ChunkOf(i))
    }

    /** The largest class zones are made for. */
    predicate Served(i: nat) { i < CLASSES && ChunkOf(i) <= limit }
  }

  /** struct rt_slab_memusage. */
  datatype Usage = Unused | Small(offset: nat) | Large(pages: nat)

  /** A zone in use: `free` is the chunk list behind z_freechunk, by chunk number. */
  datatype Zone = Zone(cls: nat, uindex: nat, free: seq<nat>, nfree: nat)

  /** Who holds a page. */
  datatype Owner = InZone(z: nat) | InLarge(p: nat)

  /** An allocation: chunk `c` of zone `z`, or the pages from `p` on. */
  datatype Pointer = Chunk(z: nat, c: nat) | Pages(p: nat)

  /** `lists` is zone_array, `idle` the zone_free list.  `owner` records who was given a page. */
  datatype State = State(runs: seq<Run>, usage: map<nat, Usage>, owner: map<nat, Owner>, zones: map<nat, Zone>,
                         lists: seq<seq<nat>>, idle: seq<nat>, used: int, max: int)

  predicate IsZone(st: State, z: nat) {
    z in st.zones || z in st.idle
  }

  ghost predicate OwnedAt(cfg: Config, st: State, q: nat)
    requires q in st.owner
  {
    match st.owner[q]
    case InZone(z) => IsZone(st, z) && Within(q, z, cfg.zonePages) && q in st.usage && st.usage[q] == Small(q - z)
    case InLarge(p) => IsLarge(st, p) && p in st.usage && st.usage[p].Large? && Within(q, p, st.usage[p].pages)
  }

  ghost predicate Holds(st: State, a: nat, n: nat, o: Owner) {
    forall q :: Within(q, a, n) ==> q in st.owner && st.owner[q] == o
  }

  predicate IsLarge(st: State, p: nat) {
    p in st.owner && st.owner[p] == InLarge(p)
  }

  /** Free pages, zones and large allocations partition the heap, and the table tells whose a page is. */
  ghost predicate PagesOk(cfg: Config, st: State, all: set<nat>) {
    && Canonical(st.runs, 1) && P.Pages(st.runs) !! st.owner.Keys && P.Pages(st.runs) + st.owner.Keys == all && 0 !in all
    && (forall q :: q in st.owner ==> OwnedAt(cfg, st, q))
    && (forall z :: IsZone(st, z) ==> Holds(st, z, cfg.zonePages, InZone(z)))
    && (forall p :: IsLarge(st, p) ==> p in st.usage && st.usage[p].Large? && Holds(st, p, st.usage[p].pages, InLarge(p)))
  }

  /** z_nfree counts the chunks never handed out and those on the free list. */
  ghost predicate GoodZone(cfg: Config, zn: Zone) {
    && cfg.Served(zn.cls) && zn.uindex < cfg.Max(zn.cls)
    && NoDup(zn.free) && (forall c :: c in zn.free ==> c <= zn.uindex)
    && zn.nfree == cfg.Max(zn.cls) - 1 - zn.uindex + |zn.free|
  }

  /** A zone on the lists without a live chunk. */
  ghost predicate Spare(cfg: Config, st: State, z: nat) {
    z in st.zones && st.zones[z].cls < CLASSES && st.zones[z].nfree == cfg.Max(st.zones[z].cls)
  }

  /** A zone of class `i` with a free chunk. */
  ghost predicate Ready(st: State, i: nat, z: nat) {
    z in st.zones && st.zones[z].cls == i && st.zones[z].nfree > 0
  }

  /** zone_array[i] lists exactly the zones of class i with a free chunk, at most one wholly free. */
  ghost predicate ListsOk(cfg: Config, st: State) {
    && |st.lists| == CLASSES
    && (forall i: nat :: i < CLASSES ==> NoDup(st.lists[i]))
    && (forall i: nat, z :: i < CLASSES ==> (z in st.lists[i] <==> Ready(st, i, z)))
    && (forall y, z :: Spare(cfg, st, y) && Spare(cfg, st, z) && st.zones[y].cls == st.zones[z].cls ==> y == z)
  }

  /** zone_free holds at most two zones, none of them in use. */
  ghost predicate IdleOk(st: State) {
    |st.idle| <= 2 && NoDup(st.idle) && forall z :: z in st.idle ==> z !in st.zones
  }

  ghost predicate ZonesOk(cfg: Config, st: State) {
    forall z :: z in st.zones ==> GoodZone(cfg, st.zones[z])
  }

  ghost predicate Inv(cfg: Config, st: State, all: set<nat>) {
    cfg.Ok() && PagesOk(cfg, st, all) && ZonesOk(cfg, st) && ListsOk(cfg, st) && IdleOk(st)
  }

  /** `ptr` is a live allocation. */
  predicate Live(st: State, ptr: Pointer) {
    match ptr
    case Chunk(z, c) => z in st.zones && c <= st.zones[z].uindex && c !in st.zones[z].free
    case Pages(p) => IsLarge(st, p)
  }

  /** `ptr` is live, or a chunk that has been live before in its zone. */
  predicate Known(st: State, ptr: Pointer) {
    match ptr
    case Chunk(z, c) => z in st.zones && c <= st.zones[z].uindex
    case Pages(p) => IsLarge(st, p)
  }

  /** Bytes the allocation may use. */
  ghost function Capacity(st: State, ptr: Pointer): nat {
    match ptr
    case Chunk(z, c) => if z in st.zones && st.zones[z].cls < CLASSES then ChunkOf(st.zones[z].cls) else 0
    case Pages(p) => if p in st.usage && st.usage[p].Large? then st.usage[p].pages * PAGE else 0
  }

  function Charge(st: State, n: int): State {
    st.(used := st.used + n, max := if st.used + n > st.max then st.used + n else st.max)
  }

  /** Pages [a, a + n) get the owner and the table entries given. */
  function Give(st: State, runs: seq<Run>, a: nat, n: nat, o: Owner, usage: map<nat, Usage>): State {
    st.(runs := runs, owner := st.owner + (map q | q in Interval(a, n) :: o), usage := st.usage + usage)
  }

  function TakeBack(st: State, a: nat, n: nat, usage: map<nat, Usage>): State {
    st.(runs := P.Free(st.runs, a, n), owner := st.owner - Interval(a, n), usage := st.usage + usage)
  }

  function ZoneEntries(z: nat, n: nat): map<nat, Usage> {
    map q | q in Interval(z, n) :: Small(if q >= z then q - z else 0)
  }

  function FreeEntries(z: nat, n: nat): map<nat, Usage> {
    map q | q in Interval(z, n) :: Unused
  }

  /** Allocate out of the first zone of class `i` that has a free chunk. */
  function TakeChunk(cfg: Config, st: State, i: nat): (Option<Pointer>, State)
    requires i < CLASSES && |st.lists| == CLASSES && st.lists[i] != [] && st.lists[i][0] in st.zones
    requires var zn := st.zones[st.lists[i][0]]; zn.nfree > 0 && (zn.uindex + 1 == cfg.Max(i) ==> zn.free != [])
  {
    var z := st.lists[i][0];
    var zn := st.zones[z];
    var lists := if zn.nfree - 1 == 0 then st.lists[i := st.lists[i][1..]] else st.lists;
    var (c, zn') :=
      if zn.uindex + 1 != cfg.Max(i) then (zn.uindex + 1, zn.(nfree := zn.nfree - 1, uindex := zn.uindex + 1))
      else (zn.free[0], zn.(nfree := zn.nfree - 1, free := zn.free[1..]));
    (Some(Chunk(z, c)), Charge(st.(zones := st.zones[z := zn'], lists := lists), ChunkOf(i)))
  }

  /** A new zone of class `i`, from the idle list or from the page allocator. */
  function NewZone(cfg: Config, st: State): (Option<nat>, State) {
    if st.idle != [] then (Some(st.idle[0]), st.(idle := st.idle[1..]))
    else
      var (z, runs) := P.Alloc(st.runs, cfg.zonePages);
      if z.None? then (None, st)
      else (z, Give(st, runs, z.value, cfg.zonePages, InZone(z.value), ZoneEntries(z.value, cfg.zonePages)))
  }

  function OpenZone(cfg: Config, st: State, i: nat): (Option<Pointer>, State)
    requires i < CLASSES && |st.lists| == CLASSES && cfg.Max(i) > 0
  {
    var (z, s) := NewZone(cfg, st);
    if z.None? then (None, st)
    else (Some(Chunk(z.value, 0)),
          Charge(s.(zones := s.zones[z.value := Zone(i, 0, [], cfg.Max(i) - 1)], lists := s.lists[i := [z.value] + s.lists[i]]), ChunkOf(i)))
  }

  /** RT_ALIGN to the page size, in pages. */
  function PageCount(n: nat): nat {
    (n + (PAGE - 1)) / PAGE
  }

  function AllocPages(st: State, n: nat): (Option<Pointer>, State) {
    var (p, runs) := P.Alloc(st.runs, n);
    if p.None? then (None, st)
    else (Some(Pages(p.value)), Charge(Give(st, runs, p.value, n, InLarge(p.value), map[p.value := Large(n)]), n * PAGE))
  }

  /** rt_slab_alloc. */
  ghost function Alloc(cfg: Config, st: State, size: nat, all: set<nat>): (Option<Pointer>, State)
    requires Inv(cfg, st, all)
  {
    if size == 0 then (None, st)
    else if size >= cfg.limit then AllocPages(st, PageCount(size))
    else
      AllocReady(cfg, st, size, all);
      var i := ZoneIndex(size).0;
      if st.lists[i] != [] then TakeChunk(cfg, st, i) else OpenZone(cfg, st, i)
  }

  lemma AllocReady(cfg: Config, st: State, size: nat, all: set<nat>)
    requires Inv(cfg, st, all) && 0 < size < cfg.limit
    ensures var i := ZoneIndex(size).0;
      && cfg.Served(i) && size <= ChunkOf(i) == ZoneIndex(size).1 && |st.lists| == CLASSES && cfg.Max(i) >= 2
      && (st.lists[i] != [] ==>
            var z := st.lists[i][0];
            && z in st.zones && st.zones[z].cls == i && st.zones[z].nfree > 0
            && (st.zones[z].uindex + 1 == cfg.Max(i) ==> st.zones[z].free != []))
  {
    hide ZoneIndex, PagesOk;
    ZoneIndexIsBestFit(size);
    var (i, c) := ZoneIndex(size);
    if cfg.limit < c { LimitIsChunk(cfg, size); }
    ServedMax(cfg, i);
    if st.lists[i] != [] { assert st.lists[i][0] in st.lists[i]; assert GoodZone(cfg, st.zones[st.lists[i][0]]); }
  }

  lemma LimitIsChunk(cfg: Config, size: nat)
    requires cfg.Ok() && 0 < size < cfg.limit
    ensures ZoneIndex(size).1 <= cfg.limit
  {
    hide ZoneIndex;
    ZoneIndexIsBestFit(size);
    var i := ZoneIndex(size).0;
    assert ChunkOf(63) == 8192 && ChunkOf(71) == 16384;
    if i > 63 { if i - 1 > 63 { ChunksIncrease(63, i - 1); } } else if i < 63 { ChunksIncrease(i, 63); }
    if i < 71 { ChunksIncrease(i, 71); }
  }

  lemma ServedMax(cfg: Config, i: nat)
    requires cfg.Ok() && cfg.Served(i)
    ensures cfg.Max(i) >= 2 && ChunkOf(i) >= 8 && 4 * ChunkOf(i) <= cfg.ZoneSize()
  {
    if i < 71 { ChunksIncrease(i, 71); } else { ChunksIncrease(70, 71); }
    ZoneHolds(cfg.ZoneSize(), cfg.hdr, ChunkOf(i));
  }

  /** The zone goes to the idle list; a third idle zone goes back to the page allocator. */
  function Retire(cfg: Config, st: State, z: nat): State
    requires z in st.zones && st.zones[z].cls < |st.lists|
  {
    var i := st.zones[z].cls;
    var s := st.(zones := st.zones - {z}, lists := st.lists[i := Without(st.lists[i], z)], idle := [z] + st.idle);
    if |s.idle| > 2 then TakeBack(s.(idle := st.idle), z, cfg.zonePages, FreeEntries(z, cfg.zonePages)) else s
  }

  /** rt_slab_free of chunk `c` of zone `z`. */
  function FreeChunk(cfg: Config, st: State, z: nat, c: nat): State
    requires z in st.zones && st.zones[z].cls < CLASSES == |st.lists|
  {
    var zn := st.zones[z];
    var i := zn.cls;
    var zn' := zn.(free := [c] + zn.free, nfree := zn.nfree + 1);
    var lists := if zn.nfree == 0 then st.lists[i := [z] + st.lists[i]] else st.lists;
    var s := st.(zones := st.zones[z := zn'], lists := lists, used := st.used - ChunkOf(i));
    if zn'.nfree == cfg.Max(i) && lists[i] != [z] then Retire(cfg, s, z) else s
  }

  /** rt_slab_free of a large allocation: its table entry keeps the type and loses the count. */
  function FreePages(st: State, p: nat): State
    requires p in st.usage && st.usage[p].Large?
  {
    TakeBack(st, p, st.usage[p].pages, map[p := Large(0)]).(used := st.used - st.usage[p].pages * PAGE)
  }

  ghost function Free(cfg: Config, st: State, ptr: Pointer, all: set<nat>): State
    requires Inv(cfg, st, all) && Live(st, ptr)
  {
    match ptr
    case Chunk(z, c) => assert GoodZone(cfg, st.zones[z]); FreeChunk(cfg, st, z, c)
    case Pages(p) => FreePages(st, p)
  }

  lemma PagesSame(cfg: Config, st: State, s: State, all: set<nat>)
    requires PagesOk(cfg, st, all) && s.runs == st.runs && s.owner == st.owner && s.usage == st.usage
    requires forall z :: IsZone(s, z) <==> IsZone(st, z)
    ensures PagesOk(cfg, s, all)
  {
    hide Canonical, P.Pages, Holds;
    forall q | q in s.owner ensures OwnedAt(cfg, s, q) { assert OwnedAt(cfg, st, q); }
    forall z | IsZone(s, z) ensures Holds(s, z, cfg.zonePages, InZone(z)) { SameHolds(st, s, z, cfg.zonePages, InZone(z)); }
    forall p | IsLarge(s, p) ensures p in s.usage && s.usage[p].Large? && Holds(s, p, s.usage[p].pages, InLarge(p)) {
      assert IsLarge(st, p);
      SameHolds(st, s, p, s.usage[p].pages, InLarge(p));
    }
  }

  lemma SameHolds(st: State, s: State, a: nat, n: nat, o: Owner)
    requires Holds(st, a, n, o)
    requires forall q :: Within(q, a, n) && q in st.owner ==> q in s.owner && s.owner[q] == st.owner[q]
    ensures Holds(s, a, n, o)
  {}

  /** Pages [a, a + n), held by nobody in `st`, are held by `o` in `s`; nothing else differs. */
  ghost predicate Grew(st: State, s: State, a: nat, n: nat, o: Owner) {
    && (forall q :: q in s.owner <==> q in st.owner || Within(q, a, n))
    && (forall q :: q in s.owner ==> s.owner[q] == if Within(q, a, n) then o else st.owner[q])
    && (forall q :: q in st.owner ==> !Within(q, a, n))
    && (forall q :: q in st.owner && q in st.usage ==> q in s.usage && s.usage[q] == st.usage[q])
  }

  /** Pages [a, a + n) are held by nobody in `s`; nothing else differs from `st`. */
  ghost predicate Shrank(st: State, s: State, a: nat, n: nat) {
    && (forall q :: q in s.owner <==> q in st.owner && !Within(q, a, n))
    && (forall q :: q in s.owner ==> s.owner[q] == st.owner[q])
    && (forall q :: q in s.owner && q in st.usage ==> q in s.usage && s.usage[q] == st.usage[q])
  }

  lemma GiveGrew(st: State, runs: seq<Run>, a: nat, n: nat, o: Owner, usage: map<nat, Usage>, s: State, all: set<nat>)
    requires Canonical(st.runs, 1) && P.Pages(st.runs) !! st.owner.Keys && P.Pages(st.runs) + st.owner.Keys == all
    requires P.Alloc(st.runs, n) == (Some(a), runs) && usage.Keys <= Interval(a, n)
    requires var g := Give(st, runs, a, n, o, usage); s.runs == g.runs && s.owner == g.owner && s.usage == g.usage
    ensures Grew(st, s, a, n, o) && Canonical(s.runs, 1) && n > 0
    ensures P.Pages(s.runs) !! s.owner.Keys && P.Pages(s.runs) + s.owner.Keys == all
  {
    hide Canonical, P.Pages, P.Alloc;
    P.AllocDelivers(st.runs, 1, n);
    assert FreeRun(st.runs, a, n);
    assert forall q :: q in Interval(a, n) <==> Within(q, a, n);
    assert s.owner.Keys == st.owner.Keys + Interval(a, n);
  }

  lemma OldOwned(cfg: Config, st: State, s: State, a: nat, n: nat, o: Owner, q: nat)
    requires Grew(st, s, a, n, o) && q in st.owner && OwnedAt(cfg, st, q)
    requires forall z :: IsZone(st, z) ==> IsZone(s, z)
    ensures q in s.owner && OwnedAt(cfg, s, q)
  {}

  lemma OldHolds(st: State, s: State, a: nat, n: nat, o: Owner, b: nat, m: nat, o': Owner)
    requires Grew(st, s, a, n, o) && Holds(st, b, m, o')
    ensures Holds(s, b, m, o')
  {}

  lemma NewHolds(st: State, s: State, a: nat, n: nat, o: Owner)
    requires Grew(st, s, a, n, o)
    ensures Holds(s, a, n, o)
  {}

  /** Pages the page allocator has just handed out become a zone. */
  lemma ZoneGiven(cfg: Config, st: State, s: State, z: nat, all: set<nat>)
    requires cfg.Ok() && PagesOk(cfg, st, all) && P.Alloc(st.runs, cfg.zonePages).0 == Some(z)
    requires var g := Give(st, P.Alloc(st.runs, cfg.zonePages).1, z, cfg.zonePages, InZone(z), ZoneEntries(z, cfg.zonePages));
      s.runs == g.runs && s.owner == g.owner && s.usage == g.usage
    requires forall x :: IsZone(s, x) <==> IsZone(st, x) || x == z
    ensures PagesOk(cfg, s, all) && !IsZone(st, z)
    ensures forall x :: IsLarge(s, x) <==> IsLarge(st, x)
    ensures forall q :: q in st.owner && q in st.usage ==> q in s.usage && s.usage[q] == st.usage[q]
  {
    hide Canonical, P.Pages, P.Alloc, Grew, OwnedAt, Holds;
    var n, o := cfg.zonePages, InZone(z);
    var usage := ZoneEntries(z, n);
    GiveGrew(st, P.Alloc(st.runs, n).1, z, n, o, usage, s, all);
    NewHolds(st, s, z, n, o);
    GrewLarge(st, s, z, n, o);
    ZoneFresh(st, s, z, n);
    forall q | q in st.owner && q in st.usage ensures q in s.usage && s.usage[q] == st.usage[q] { OldEntry(st, s, z, n, o, q); }
    forall q | q in s.owner ensures OwnedAt(cfg, s, q) {
      if q in st.owner { OldOwned(cfg, st, s, z, n, o, q); } else { NewZoneOwned(cfg, st, s, z, q); }
    }
    forall x | IsZone(s, x) ensures Holds(s, x, n, InZone(x)) {
      if x != z { OldHolds(st, s, z, n, o, x, n, InZone(x)); }
    }
    forall p | IsLarge(s, p) ensures p in s.usage && s.usage[p].Large? && Holds(s, p, s.usage[p].pages, InLarge(p)) {
      OldEntry(st, s, z, n, o, p);
      OldHolds(st, s, z, n, o, p, st.usage[p].pages, InLarge(p));
    }
  }

  lemma OldEntry(st: State, s: State, a: nat, n: nat, o: Owner, p: nat)
    requires Grew(st, s, a, n, o) && p in st.owner && p in st.usage
    ensures p in s.usage && s.usage[p] == st.usage[p]
  {}

  lemma GrewLarge(st: State, s: State, a: nat, n: nat, o: Owner)
    requires Grew(st, s, a, n, o) && n > 0
    ensures forall x :: IsLarge(s, x) <==> IsLarge(st, x) || (o == InLarge(x) && Within(x, a, n))
  {}

  lemma ZoneFresh(st: State, s: State, z: nat, n: nat)
    requires Grew(st, s, z, n, InZone(z)) && n > 0
    ensures IsZone(st, z) ==> !Holds(st, z, n, InZone(z))
  {
    assert Within(z, z, n);
  }

  lemma NewZoneOwned(cfg: Config, st: State, s: State, z: nat, q: nat)
    requires Grew(st, s, z, cfg.zonePages, InZone(z)) && q in s.owner && q !in st.owner && IsZone(s, z)
    requires s.usage == st.usage + ZoneEntries(z, cfg.zonePages)
    ensures OwnedAt(cfg, s, q)
  {
    assert Within(q, z, cfg.zonePages);
    assert q in ZoneEntries(z, cfg.zonePages) by { assert q in Interval(z, cfg.zonePages); }
  }

  /** Pages the page allocator has just handed out become a large allocation. */
  lemma LargeGiven(cfg: Config, st: State, s: State, p: nat, n: nat, all: set<nat>)
    requires PagesOk(cfg, st, all) && n > 0 && P.Alloc(st.runs, n).0 == Some(p)
    requires var g := Give(st, P.Alloc(st.runs, n).1, p, n, InLarge(p), map[p := Large(n)]);
      s.runs == g.runs && s.owner == g.owner && s.usage == g.usage
    requires forall x :: IsZone(s, x) <==> IsZone(st, x)
    ensures PagesOk(cfg, s, all) && !IsLarge(st, p) && (forall x :: IsLarge(s, x) <==> IsLarge(st, x) || x == p)
    ensures p in s.usage && s.usage[p] == Large(n)
    ensures forall q :: q in st.owner && q in st.usage ==> q in s.usage && s.usage[q] == st.usage[q]
  {
    hide Canonical, P.Pages, P.Alloc, Grew, OwnedAt, Holds;
    var o := InLarge(p);
    LargeKeys(p, n);
    GiveGrew(st, P.Alloc(st.runs, n).1, p, n, o, map[p := Large(n)], s, all);
    NewHolds(st, s, p, n, o);
    GrewLarge(st, s, p, n, o);
    LargeFresh(st, s, p, n);
    forall q | q in st.owner && q in st.usage ensures q in s.usage && s.usage[q] == st.usage[q] { OldEntry(st, s, p, n, o, q); }
    forall q | q in s.owner ensures OwnedAt(cfg, s, q) {
      if q in st.owner { OldOwned(cfg, st, s, p, n, o, q); } else { NewLargeOwned(cfg, st, s, p, n, q); }
    }
    forall x | IsZone(s, x) ensures Holds(s, x, cfg.zonePages, InZone(x)) { OldHolds(st, s, p, n, o, x, cfg.zonePages, InZone(x)); }
    forall x | IsLarge(s, x) ensures x in s.usage && s.usage[x].Large? && Holds(s, x, s.usage[x].pages, InLarge(x)) {
      if x != p {
        OldEntry(st, s, p, n, o, x);
        OldHolds(st, s, p, n, o, x, st.usage[x].pages, InLarge(x));
      }
    }
  }

  lemma LargeKeys(p: nat, n: nat)
    ensures n > 0 ==> map[p := Large(n)].Keys <= Interval(p, n)
  {
    assert n > 0 ==> Within(p, p, n);
  }

  lemma LargeFresh(st: State, s: State, p: nat, n: nat)
    requires Grew(st, s, p, n, InLarge(p)) && n > 0
    ensures p !in st.owner && Within(p, p, n)
  {
    assert Within(p, p, n);
  }

  lemma NewLargeOwned(cfg: Config, st: State, s: State, p: nat, n: nat, q: nat)
    requires Grew(st, s, p, n, InLarge(p)) && q in s.owner && q !in st.owner && n > 0
    requires p in s.usage && s.usage[p] == Large(n)
    ensures OwnedAt(cfg, s, q)
  {
    assert Within(q, p, n) && Within(p, p, n);
  }

  /** The pages of a zone, or of a large allocation, go back. */
  lemma Taken(cfg: Config, st: State, s: State, a: nat, n: nat, o: Owner, usage: map<nat, Usage>, all: set<nat>)
    requires PagesOk(cfg, st, all) && n > 0 && a > 0 && Holds(st, a, n, o)
    requires forall q :: q in st.owner && st.owner[q] == o ==> Within(q, a, n)
    requires usage.Keys <= Interval(a, n)
    requires var g := TakeBack(st, a, n, usage); s.runs == g.runs && s.owner == g.owner && s.usage == g.usage
    requires forall z :: IsZone(s, z) <==> IsZone(st, z) && o != InZone(z)
    ensures PagesOk(cfg, s, all) && (forall x :: IsLarge(s, x) <==> IsLarge(st, x) && o != InLarge(x))
    ensures forall q :: q in s.owner && q in st.usage ==> q in s.usage && s.usage[q] == st.usage[q]
  {
    hide Canonical, P.Pages, P.Free, Shrank, OwnedAt, Holds;
    TakeShrank(cfg, st, s, a, n, o, usage, all);
    ShrankLarge(st, s, a, n, o);
    forall q | q in s.owner && q in st.usage ensures q in s.usage && s.usage[q] == st.usage[q] { StillEntry(st, s, a, n, q); }
    forall q | q in s.owner ensures OwnedAt(cfg, s, q) { StillOwned(cfg, st, s, a, n, o, q); }
    forall x | IsZone(s, x) ensures Holds(s, x, cfg.zonePages, InZone(x)) { OthersHold(st, s, a, n, o, x, cfg.zonePages, InZone(x)); }
    forall x | IsLarge(s, x) ensures x in s.usage && s.usage[x].Large? && Holds(s, x, s.usage[x].pages, InLarge(x)) {
      StillEntry(st, s, a, n, x);
      OthersHold(st, s, a, n, o, x, st.usage[x].pages, InLarge(x));
    }
  }

  lemma TakeShrank(cfg: Config, st: State, s: State, a: nat, n: nat, o: Owner, usage: map<nat, Usage>, all: set<nat>)
    requires Canonical(st.runs, 1) && P.Pages(st.runs) !! st.owner.Keys && P.Pages(st.runs) + st.owner.Keys == all
    requires n > 0 && a > 0 && Holds(st, a, n, o) && usage.Keys <= Interval(a, n)
    requires var g := TakeBack(st, a, n, usage); s.runs == g.runs && s.owner == g.owner && s.usage == g.usage
    ensures Shrank(st, s, a, n) && Canonical(s.runs, 1) && Interval(a, n) !! P.Pages(st.runs)
    ensures P.Pages(s.runs) !! s.owner.Keys && P.Pages(s.runs) + s.owner.Keys == all
  {
    hide Canonical, P.Pages, P.Free;
    assert forall q :: q in Interval(a, n) <==> Within(q, a, n);
    assert Interval(a, n) <= st.owner.Keys;
    P.FreeDelivers(st.runs, 1, a, n);
    assert s.owner.Keys == st.owner.Keys - Interval(a, n);
  }

  lemma ShrankLarge(st: State, s: State, a: nat, n: nat, o: Owner)
    requires Shrank(st, s, a, n) && Holds(st, a, n, o) && (forall q :: q in st.owner && st.owner[q] == o ==> Within(q, a, n))
    ensures forall x :: IsLarge(s, x) <==> IsLarge(st, x) && o != InLarge(x)
  {}

  lemma StillOwned(cfg: Config, st: State, s: State, a: nat, n: nat, o: Owner, q: nat)
    requires Shrank(st, s, a, n) && q in s.owner && OwnedAt(cfg, st, q)
    requires forall x :: x in st.owner && st.owner[x] == o ==> Within(x, a, n)
    requires forall z :: IsZone(s, z) <==> IsZone(st, z) && o != InZone(z)
    requires forall x :: IsLarge(s, x) <==> IsLarge(st, x) && o != InLarge(x)
    ensures OwnedAt(cfg, s, q)
  {}

  lemma StillEntry(st: State, s: State, a: nat, n: nat, p: nat)
    requires Shrank(st, s, a, n) && p in s.owner && p in st.usage
    ensures p in s.usage && s.usage[p] == st.usage[p]
  {}

  lemma OthersHold(st: State, s: State, a: nat, n: nat, o: Owner, b: nat, m: nat, o': Owner)
    requires Shrank(st, s, a, n) && Holds(st, a, n, o) && Holds(st, b, m, o') && o != o'
    ensures Holds(s, b, m, o')
  {
    forall q | Within(q, b, m) ensures q in s.owner && s.owner[q] == o' { assert q in st.owner && st.owner[q] == o'; }
  }

  /** Allocating from a listed zone: the chunk was free, is live, and no other changes hands. */
  lemma TakeChunkDelivers(cfg: Config, st: State, size: nat, all: set<nat>)
    requires Inv(cfg, st, all) && 0 < size < cfg.limit
    requires var i := ZoneIndex(size).0; i < |st.lists| && st.lists[i] != []
    ensures var i := ZoneIndex(size).0; var (r, s) := Alloc(cfg, st, size, all);
      && Inv(cfg, s, all) && r.Some? && !Live(st, r.value) && Capacity(s, r.value) == ChunkOf(i) >= size
      && s.used == st.used + ChunkOf(i) && s.max == (if s.used > st.max then s.used else st.max)
      && (forall q :: Live(s, q) <==> Live(st, q) || q == r.value)
      && (forall q :: Live(st, q) ==> Capacity(s, q) == Capacity(st, q))
  {
    hide ZoneIndex, PagesOk, NoDup, GoodZone, TakeChunk, ListsOk, IsLarge, Live, Capacity;
    AllocReady(cfg, st, size, all);
    var i := ZoneIndex(size).0;
    var z := st.lists[i][0];
    var (r, s) := TakeChunk(cfg, st, i);
    assert GoodZone(cfg, st.zones[z]);
    TakeShape(cfg, st, i);
    PagesSame(cfg, st, s, all);
    FreeBound(cfg, st.zones[z]);
    TakenZone(cfg, st, i);
    TakenLists(cfg, st, s, i);
    TakenLive(st, s, z, r.value.c);
  }

  /** What a chunk taken in zone `z` changes about the live allocations. */
  lemma TakenLive(st: State, s: State, z: nat, c: nat)
    requires z in st.zones && st.zones[z].cls < CLASSES && s.zones.Keys == st.zones.Keys && s.owner == st.owner && s.usage == st.usage
    requires (forall y :: y in st.zones && y != z ==> s.zones[y] == st.zones[y]) && s.zones[z].cls == st.zones[z].cls
    requires TakenFrom(st.zones[z], s.zones[z], c)
    ensures !Live(st, Chunk(z, c)) && Capacity(s, Chunk(z, c)) == ChunkOf(st.zones[z].cls)
    ensures (forall q :: Live(s, q) <==> Live(st, q) || q == Chunk(z, c)) && (forall q :: Live(st, q) ==> Capacity(s, q) == Capacity(st, q))
  {
    hide IsLarge, ChunkOf;
    LargeSame(st, s);
    forall q ensures Live(s, q) <==> Live(st, q) || q == Chunk(z, c) {
      if q.Chunk? && q.z == z {
        TakenAt(st.zones[z], s.zones[z], c, q.c);
      } else if q.Chunk? && q.z in st.zones {
        assert s.zones[q.z] == st.zones[q.z];
      }
    }
  }

  lemma TakenAt(zn: Zone, zn': Zone, c: nat, d: nat)
    requires TakenFrom(zn, zn', c)
    ensures d <= zn'.uindex && d !in zn'.free <==> (d <= zn.uindex && d !in zn.free) || d == c
  {}

  lemma TakeShape(cfg: Config, st: State, i: nat)
    requires i < CLASSES && |st.lists| == CLASSES && st.lists[i] != [] && st.lists[i][0] in st.zones
    requires var zn := st.zones[st.lists[i][0]]; zn.cls == i && zn.nfree > 0 && (zn.uindex + 1 == cfg.Max(i) ==> zn.free != [])
    ensures var z := st.lists[i][0]; var zn := st.zones[z]; var (r, s) := TakeChunk(cfg, st, i);
      && s.runs == st.runs && s.owner == st.owner && s.usage == st.usage && s.idle == st.idle && s.zones.Keys == st.zones.Keys
      && s.zones[z].cls == i && s.zones[z].nfree == zn.nfree - 1 && (forall y :: y in st.zones && y != z ==> s.zones[y] == st.zones[y])
      && s.lists == (if zn.nfree == 1 then st.lists[i := st.lists[i][1..]] else st.lists)
      && r.Some? && s.used == st.used + ChunkOf(i) && s.max == (if s.used > st.max then s.used else st.max)
  {}

  /** Chunk `c` was not live in the zone, is so now, and no other chunk changes. */
  ghost predicate TakenFrom(zn: Zone, zn': Zone, c: nat) {
    && (c > zn.uindex || c in zn.free)
    && (forall d: nat :: d <= zn'.uindex && d !in zn'.free <==> (d <= zn.uindex && d !in zn.free) || d == c)
  }

  lemma TakenZone(cfg: Config, st: State, i: nat)
    requires i < CLASSES && |st.lists| == CLASSES && st.lists[i] != [] && st.lists[i][0] in st.zones
    requires var zn := st.zones[st.lists[i][0]]; GoodZone(cfg, zn) && zn.cls == i && zn.nfree > 0
    requires var zn := st.zones[st.lists[i][0]]; zn.uindex + 1 == cfg.Max(i) ==> zn.free != []
    ensures var z := st.lists[i][0]; var (r, s) := TakeChunk(cfg, st, i); var zn := st.zones[z];
      && r.value.Chunk? && r.value.z == z && z in s.zones && GoodZone(cfg, s.zones[z])
      && TakenFrom(zn, s.zones[z], r.value.c)
  {
    var zn := st.zones[st.lists[i][0]];
    if zn.uindex + 1 == cfg.Max(i) { TailFacts(zn.free); }
  }

  lemma FreeBound(cfg: Config, zn: Zone)
    requires GoodZone(cfg, zn)
    ensures zn.nfree <= cfg.Max(zn.cls)
    ensures zn.nfree == cfg.Max(zn.cls) ==> forall c: nat :: c <= zn.uindex ==> c in zn.free
  {
    ElementCount(zn.free);
    RangeCount(zn.uindex + 1);
    assert forall x :: x in Elements(zn.free) ==> x in Range(zn.uindex + 1);
    SubsetSize(Elements(zn.free), Range(zn.uindex + 1));
    if |zn.free| == zn.uindex + 1 {
      forall c: nat | c <= zn.uindex ensures c in zn.free { Pigeonhole(zn.free, zn.uindex + 1, c); }
    }
  }

  lemma TakenLists(cfg: Config, st: State, s: State, i: nat)
    requires ListsOk(cfg, st) && i < CLASSES && st.lists[i] != [] && st.lists[i][0] in st.zones
    requires var z := st.lists[i][0]; var zn := st.zones[z];
      && zn.cls == i && 0 < zn.nfree <= cfg.Max(i) && z in s.zones && s.zones.Keys == st.zones.Keys
      && s.zones[z].cls == i && s.zones[z].nfree == zn.nfree - 1
      && (forall y :: y in st.zones && y != z ==> s.zones[y] == st.zones[y])
      && s.lists == (if zn.nfree == 1 then st.lists[i := st.lists[i][1..]] else st.lists)
    ensures ListsOk(cfg, s)
  {
    hide NoDup;
    var z := st.lists[i][0];
    TailFacts(st.lists[i]);
    forall j: nat | j < CLASSES ensures NoDup(s.lists[j]) { assert NoDup(st.lists[j]); }
    forall j: nat, y | j < CLASSES ensures y in s.lists[j] <==> Ready(s, j, y) {
      assert y in st.lists[j] <==> Ready(st, j, y);
    }
    forall y, y' | Spare(cfg, s, y) && Spare(cfg, s, y') && s.zones[y].cls == s.zones[y'].cls ensures y == y' {
      assert Spare(cfg, st, y) && Spare(cfg, st, y');
    }
  }

  /** Allocating when no zone of the class has a free chunk: an idle zone, or new pages, or failure. */
  lemma OpenZoneDelivers(cfg: Config, st: State, size: nat, all: set<nat>)
    requires Inv(cfg, st, all) && 0 < size < cfg.limit
    requires var i := ZoneIndex(size).0; i < |st.lists| && st.lists[i] == []
    ensures var i := ZoneIndex(size).0; var (r, s) := Alloc(cfg, st, size, all);
      && (r.None? <==> st.idle == [] && forall a :: !FreeRun(st.runs, a, cfg.zonePages))
      && (r.None? ==> s == st)
      && (r.Some? ==>
            && Inv(cfg, s, all) && !Live(st, r.value) && Capacity(s, r.value) == ChunkOf(i) >= size
            && s.used == st.used + ChunkOf(i) && s.max == (if s.used > st.max then s.used else st.max)
            && (forall q :: Live(s, q) <==> Live(st, q) || q == r.value)
            && (forall q :: Live(st, q) ==> Capacity(s, q) == Capacity(st, q)))
  {
    hide ZoneIndex, PagesOk, P.Alloc;
    AllocReady(cfg, st, size, all);
    var i := ZoneIndex(size).0;
    P.AllocDelivers(st.runs, 1, cfg.zonePages) by { assert PagesOk(cfg, st, all) && Canonical(st.runs, 1) by { PagesCanonical(cfg, st, all); } }
    var (z, s) := NewZone(cfg, st);
    if z.Some? { OpenedZone(cfg, st, z.value, i, all); }
  }

  lemma PagesCanonical(cfg: Config, st: State, all: set<nat>)
    requires PagesOk(cfg, st, all)
    ensures Canonical(st.runs, 1)
  {}

  lemma OpenedZone(cfg: Config, st: State, z: nat, i: nat, all: set<nat>)
    requires Inv(cfg, st, all) && cfg.Served(i) && st.lists[i] == [] && cfg.Max(i) >= 2 && NewZone(cfg, st).0 == Some(z)
    ensures var (r, s) := OpenZone(cfg, st, i);
      && r == Some(Chunk(z, 0)) && Inv(cfg, s, all) && z !in st.zones && Capacity(s, r.value) == ChunkOf(i)
      && s.used == st.used + ChunkOf(i) && s.max == (if s.used > st.max then s.used else st.max)
      && (forall q :: Live(s, q) <==> Live(st, q) || q == r.value)
      && (forall q :: Live(st, q) ==> Capacity(s, q) == Capacity(st, q))
  {
    hide PagesOk, P.Alloc, P.Pages, Canonical, NewZone, IsLarge;
    var s := OpenZone(cfg, st, i).1;
    OpenedPages(cfg, st, z, all);
    PagesSame(cfg, NewZone(cfg, st).1.(zones := s.zones), s, all);
    LargeSame(NewZone(cfg, st).1, s);
    OpenedLists(cfg, st, s, z, i);
    EntriesKept(cfg, st, s, all);
  }

  /** A large allocation keeps its table entry. */
  lemma EntriesKept(cfg: Config, st: State, s: State, all: set<nat>)
    requires PagesOk(cfg, st, all)
    requires forall q :: q in st.owner && q in st.usage ==> q in s.usage && s.usage[q] == st.usage[q]
    ensures forall p :: IsLarge(st, p) ==> p in s.usage && p in st.usage && s.usage[p] == st.usage[p] && st.usage[p].Large?
  {}

  lemma LargeSame(st: State, s: State)
    requires st.owner == s.owner
    ensures forall p :: IsLarge(s, p) <==> IsLarge(st, p)
  {}

  lemma OpenedPages(cfg: Config, st: State, z: nat, all: set<nat>)
    requires Inv(cfg, st, all) && NewZone(cfg, st).0 == Some(z)
    ensures var t := NewZone(cfg, st).1;
      && z !in st.zones && t.zones == st.zones && t.lists == st.lists && t.used == st.used && t.max == st.max
      && |t.idle| <= 2 && NoDup(t.idle) && z !in t.idle && (forall y :: y in t.idle ==> y in st.idle)
      && (forall s: State :: s == t.(zones := s.zones) && s.zones.Keys == st.zones.Keys + {z} ==> PagesOk(cfg, s, all))
      && (forall p :: IsLarge(t, p) <==> IsLarge(st, p))
      && (forall q :: q in st.owner && q in st.usage ==> q in t.usage && t.usage[q] == st.usage[q])
  {
    hide PagesOk, P.Alloc, P.Pages, Canonical;
    var t := NewZone(cfg, st).1;
    if st.idle != [] {
      TailFacts(st.idle);
      forall s: State | s == t.(zones := s.zones) && s.zones.Keys == st.zones.Keys + {z} ensures PagesOk(cfg, s, all) {
        PagesSame(cfg, st, s, all);
      }
    } else {
      var s0 := t.(zones := t.zones[z := Zone(0, 0, [], 0)]);
      ZoneGiven(cfg, st, s0, z, all);
      forall s: State | s == t.(zones := s.zones) && s.zones.Keys == st.zones.Keys + {z} ensures PagesOk(cfg, s, all) {
        PagesSame(cfg, s0, s, all);
      }
    }
  }

  lemma OpenedLists(cfg: Config, st: State, s: State, z: nat, i: nat)
    requires ListsOk(cfg, st) && i < CLASSES && st.lists[i] == [] && z !in st.zones && cfg.Max(i) >= 2
    requires s.zones == st.zones[z := Zone(i, 0, [], cfg.Max(i) - 1)] && s.lists == st.lists[i := [z] + st.lists[i]]
    ensures ListsOk(cfg, s)
  {
    forall j: nat | j < CLASSES ensures NoDup(s.lists[j]) { assert NoDup(st.lists[j]); }
    forall j: nat, y | j < CLASSES ensures y in s.lists[j] <==> Ready(s, j, y) {
      assert y in st.lists[j] <==> Ready(st, j, y);
    }
    forall y, y' | Spare(cfg, s, y) && Spare(cfg, s, y') && s.zones[y].cls == s.zones[y'].cls ensures y == y' {
      assert Spare(cfg, st, y) && Spare(cfg, st, y');
    }
  }

  /** Allocating pages directly: it fails exactly when no stretch of pages is long enough. */
  lemma AllocPagesDelivers(cfg: Config, st: State, size: nat, all: set<nat>)
    requires Inv(cfg, st, all) && size >= cfg.limit
    ensures var (r, s) := Alloc(cfg, st, size, all);
      && (r.None? <==> forall a :: !FreeRun(st.runs, a, PageCount(size)))
      && (r.None? ==> s == st)
      && (r.Some? ==>
            && Inv(cfg, s, all) && !Live(st, r.value) && Capacity(s, r.value) == PageCount(size) * PAGE >= size
            && s.used == st.used + Capacity(s, r.value) && s.max == (if s.used > st.max then s.used else st.max)
            && (forall q :: Live(s, q) <==> Live(st, q) || q == r.value)
            && (forall q :: Live(st, q) ==> Capacity(s, q) == Capacity(st, q)))
  {
    hide PagesOk, P.Alloc, P.Pages, Canonical, ListsOk, IdleOk, ZonesOk, IsLarge;
    var n := PageCount(size);
    PageCountBounds(size);
    PagesCanonical(cfg, st, all);
    P.AllocDelivers(st.runs, 1, n);
    var (r, s) := AllocPages(st, n);
    if r.Some? {
      LargeGiven(cfg, st, s, r.value.p, n, all);
      EntriesKept(cfg, st, s, all);
      SameZonesOk(cfg, st, s);
    }
  }

  lemma SameZonesOk(cfg: Config, st: State, s: State)
    requires s.zones == st.zones && s.lists == st.lists && s.idle == st.idle
    ensures ZonesOk(cfg, st) ==> ZonesOk(cfg, s)
    ensures ListsOk(cfg, st) ==> ListsOk(cfg, s)
    ensures IdleOk(st) ==> IdleOk(s)
  {}

  lemma PageCountBounds(n: nat)
    ensures n <= PageCount(n) * PAGE < n + PAGE
  {}

  /** rt_slab_alloc on every request: it fails exactly when the size is 0 or nothing large enough is
      left; otherwise the pointer was not live, becomes live, offers the size, and is the only
      change to what is live. */
  lemma AllocDelivers(cfg: Config, st: State, size: nat, all: set<nat>)
    requires Inv(cfg, st, all)
    ensures var (r, s) := Alloc(cfg, st, size, all);
      && Inv(cfg, s, all)
      && (r.None? <==> Exhausted(cfg, st, size))
      && (r.None? ==> s == st)
      && (r.Some? ==>
            && !Live(st, r.value) && Capacity(s, r.value) >= size && s.used == st.used + Capacity(s, r.value)
            && s.max == (if s.used > st.max then s.used else st.max)
            && (forall q :: Live(s, q) <==> Live(st, q) || q == r.value)
            && (forall q :: Live(st, q) ==> Capacity(s, q) == Capacity(st, q)))
  {
    hide PagesOk, NoDup, IsLarge, TakeChunk, OpenZone, AllocPages, Capacity, FreeRun, ZoneIndex;
    var (r, s) := Alloc(cfg, st, size, all);
    if size == 0 {
    } else if size >= cfg.limit {
      AllocPagesDelivers(cfg, st, size, all);
      if r.None? { assert s == st; }
    } else {
      AllocReady(cfg, st, size, all);
      var i := ZoneIndex(size).0;
      if st.lists[i] == [] {
        OpenZoneDelivers(cfg, st, size, all);
        forall z ensures !Ready(st, i, z) { assert z !in st.lists[i]; }
      } else {
        TakeChunkDelivers(cfg, st, size, all);
        assert Ready(st, i, st.lists[i][0]);
      }
    }
  }

  /** No free chunk of the class, no idle zone and no stretch of pages for a new one; for a large
      request, no stretch of pages. */
  ghost predicate Exhausted(cfg: Config, st: State, size: nat) {
    || size == 0
    || (size >= cfg.limit && forall a :: !FreeRun(st.runs, a, PageCount(size)))
    || (size < cfg.limit && (forall z :: !Ready(st, ZoneIndex(size).0, z)) && st.idle == [] && forall a :: !FreeRun(st.runs, a, cfg.zonePages))
  }

  /** The state after the chunk is pushed, before a wholly free zone is retired. */
  function Pushed(cfg: Config, st: State, z: nat, c: nat): State
    requires z in st.zones && st.zones[z].cls < CLASSES == |st.lists|
  {
    var zn := st.zones[z];
    var lists := if zn.nfree == 0 then st.lists[zn.cls := [z] + st.lists[zn.cls]] else st.lists;
    st.(zones := st.zones[z := zn.(free := [c] + zn.free, nfree := zn.nfree + 1)], lists := lists, used := st.used - ChunkOf(zn.cls))
  }

  lemma PushedZone(cfg: Config, zn: Zone, c: nat)
    requires GoodZone(cfg, zn) && c <= zn.uindex && c !in zn.free
    ensures GoodZone(cfg, zn.(free := [c] + zn.free, nfree := zn.nfree + 1)) && zn.nfree < cfg.Max(zn.cls)
    ensures forall x :: x in [c] + zn.free <==> x == c || x in zn.free
  {
    ConsNoDup(c, zn.free);
    FreeBound(cfg, zn.(free := [c] + zn.free, nfree := zn.nfree + 1));
  }

  /** Pushing keeps the lists, except that the zone may now be the second wholly free one. */
  lemma PushedLists(cfg: Config, st: State, z: nat, c: nat)
    requires ListsOk(cfg, st) && z in st.zones && st.zones[z].cls < CLASSES && st.zones[z].nfree < cfg.Max(st.zones[z].cls)
    ensures var s := Pushed(cfg, st, z, c);
      && |s.lists| == CLASSES && (forall j: nat :: j < CLASSES ==> NoDup(s.lists[j]))
      && (forall j: nat, y :: j < CLASSES ==> (y in s.lists[j] <==> Ready(s, j, y)))
      && (forall y, y' :: Spare(cfg, s, y) && Spare(cfg, s, y') && s.zones[y].cls == s.zones[y'].cls && y != z && y' != z ==> y == y')
  {
    hide NoDup;
    var s := Pushed(cfg, st, z, c);
    var i := st.zones[z].cls;
    assert z in st.lists[i] <==> Ready(st, i, z);
    forall j: nat | j < CLASSES ensures NoDup(s.lists[j]) {
      assert NoDup(st.lists[j]);
      if st.zones[z].nfree == 0 { ConsNoDup(z, st.lists[i]); }
    }
    forall j: nat, y | j < CLASSES ensures y in s.lists[j] <==> Ready(s, j, y) {
      assert y in st.lists[j] <==> Ready(st, j, y);
      if st.zones[z].nfree == 0 { ConsNoDup(z, st.lists[i]) by { assert NoDup(st.lists[i]); } }
    }
    forall y, y' | Spare(cfg, s, y) && Spare(cfg, s, y') && s.zones[y].cls == s.zones[y'].cls && y != z && y' != z ensures y == y' {
      assert Spare(cfg, st, y) && Spare(cfg, st, y');
    }
  }

  /** What holds once a chunk has been pushed and its zone turns out to be wholly free, one of
      perhaps two such zones of its class. */
  ghost predicate Pushable(cfg: Config, s: State, z: nat, all: set<nat>) {
    && cfg.Ok() && PagesOk(cfg, s, all) && ZonesOk(cfg, s) && IdleOk(s) && z in s.zones && s.zones[z].cls < CLASSES == |s.lists|
    && s.zones[z].nfree > 0 && (forall c: nat :: c <= s.zones[z].uindex ==> c in s.zones[z].free)
    && (forall j: nat :: j < CLASSES ==> NoDup(s.lists[j]))
    && (forall j: nat, y :: j < CLASSES ==> (y in s.lists[j] <==> Ready(s, j, y)))
    && (forall y, y' :: Spare(cfg, s, y) && Spare(cfg, s, y') && s.zones[y].cls == s.zones[y'].cls && y != z && y' != z ==> y == y')
  }

  /** Whether rt_slab_free retires the zone it has just pushed a chunk on. */
  predicate Retires(cfg: Config, s: State, z: nat)
    requires z in s.zones && s.zones[z].cls < CLASSES == |s.lists|
  {
    s.zones[z].nfree == cfg.Max(s.zones[z].cls) && s.lists[s.zones[z].cls] != [z]
  }

  lemma PushDelivers(cfg: Config, st: State, z: nat, c: nat, all: set<nat>)
    requires Inv(cfg, st, all) && Live(st, Chunk(z, c))
    ensures st.zones[z].cls < CLASSES == |st.lists|
    ensures var s := Pushed(cfg, st, z, c);
      && Free(cfg, st, Chunk(z, c), all) == (if Retires(cfg, s, z) then Retire(cfg, s, z) else s)
      && (Retires(cfg, s, z) ==> Pushable(cfg, s, z, all)) && (!Retires(cfg, s, z) ==> Inv(cfg, s, all))
      && Ready(s, s.zones[z].cls, z) && z in s.lists[s.zones[z].cls]
      && (forall q :: Live(s, q) <==> Live(st, q) && q != Chunk(z, c)) && (forall q :: Capacity(s, q) == Capacity(st, q))
  {
    hide PagesOk, NoDup, IsLarge, Canonical, P.Pages, P.Free, TakeBack, ListsOk, IdleOk, GoodZone, ZoneChunks, Without;
    var zn := st.zones[z];
    Classes(cfg, st);
    var s := Pushed(cfg, st, z, c);
    assert GoodZone(cfg, zn);
    PushedZone(cfg, zn, c);
    SameIdle(st, s);
    PushedLists(cfg, st, z, c);
    PagesSame(cfg, st, s, all);
    LargeSame(st, s);
    assert ZonesOk(cfg, s);
    assert Ready(s, zn.cls, z);
    if Retires(cfg, s, z) {
      FreeBound(cfg, s.zones[z]);
    } else {
      forall j | cfg.Served(j) ensures cfg.Max(j) > 0 { ServedMax(cfg, j); }
      SameServed(cfg, s);
      NotRetired(cfg, s, z);
    }
  }

  /** Freeing a chunk: it stops being live, nothing else does, even if its zone is retired. */
  lemma FreeChunkDelivers(cfg: Config, st: State, z: nat, c: nat, all: set<nat>)
    requires Inv(cfg, st, all) && Live(st, Chunk(z, c))
    ensures var s := Free(cfg, st, Chunk(z, c), all);
      && Inv(cfg, s, all) && s.used == st.used - Capacity(st, Chunk(z, c)) && s.max == st.max
      && (forall q :: Live(s, q) <==> Live(st, q) && q != Chunk(z, c))
      && (forall q :: Live(s, q) ==> Capacity(s, q) == Capacity(st, q))
  {
    hide Inv, IsLarge, Live, Free, FreeChunk, Retire, Capacity, ZoneChunks;
    ChunkCapacity(st, z, c);
    PushDelivers(cfg, st, z, c, all);
    var s := Pushed(cfg, st, z, c);
    if Retires(cfg, s, z) { RetireDelivers(cfg, s, z, all); }
  }

  lemma ChunkCapacity(st: State, z: nat, c: nat)
    requires Live(st, Chunk(z, c))
    ensures z in st.zones && (st.zones[z].cls < CLASSES ==> Capacity(st, Chunk(z, c)) == ChunkOf(st.zones[z].cls))
  {}

  lemma SameServed(cfg: Config, s: State)
    requires ZonesOk(cfg, s)
    ensures forall y :: y in s.zones ==> cfg.Served(s.zones[y].cls)
  {
    forall y | y in s.zones ensures cfg.Served(s.zones[y].cls) { assert GoodZone(cfg, s.zones[y]); }
  }

  /** A wholly free zone leaves the lists; nothing live is in it, so nothing live is lost. */
  lemma RetireDelivers(cfg: Config, s: State, z: nat, all: set<nat>)
    requires Pushable(cfg, s, z, all)
    ensures var t := Retire(cfg, s, z);
      && Inv(cfg, t, all) && t.used == s.used && t.max == s.max
      && (forall q :: Live(t, q) <==> Live(s, q)) && (forall q :: Live(t, q) ==> Capacity(t, q) == Capacity(s, q))
  {
    hide PagesOk, IsLarge, Canonical, P.Pages, P.Free, TakeBack, ListsOk, NoDup, GoodZone, ZoneChunks, Without;
    var t := Retire(cfg, s, z);
    RetiredPages(cfg, s, z, all);
    RetiredLists(cfg, s, z, t);
    EntriesAfter(cfg, s, t, all);
    assert ZonesOk(cfg, t);
  }

  lemma EntriesAfter(cfg: Config, s: State, t: State, all: set<nat>)
    requires PagesOk(cfg, s, all) && (forall p :: IsLarge(t, p) <==> IsLarge(s, p))
    requires forall q :: q in t.owner && q in s.usage ==> q in t.usage && t.usage[q] == s.usage[q]
    ensures forall p :: IsLarge(s, p) ==> p in s.usage && p in t.usage && s.usage[p] == t.usage[p]
  {}

  lemma RetiredLists(cfg: Config, s: State, z: nat, t: State)
    requires z in s.zones && s.zones[z].cls < CLASSES == |s.lists|
    requires t.zones == s.zones - {z} && t.lists == s.lists[s.zones[z].cls := Without(s.lists[s.zones[z].cls], z)]
    requires forall j: nat :: j < CLASSES ==> NoDup(s.lists[j])
    requires forall j: nat, y :: j < CLASSES ==> (y in s.lists[j] <==> Ready(s, j, y))
    requires forall y, y' :: Spare(cfg, s, y) && Spare(cfg, s, y') && s.zones[y].cls == s.zones[y'].cls && y != z && y' != z ==> y == y'
    ensures ListsOk(cfg, t)
  {
    hide NoDup, ZoneChunks, Without;
    var i := s.zones[z].cls;
    WithoutFacts(s.lists[i], z);
    forall j: nat | j < CLASSES ensures NoDup(t.lists[j]) {}
    forall j: nat, y | j < CLASSES ensures y in t.lists[j] <==> Ready(t, j, y) {
      assert y in s.lists[j] <==> Ready(s, j, y);
    }
    forall y, y' | Spare(cfg, t, y) && Spare(cfg, t, y') && t.zones[y].cls == t.zones[y'].cls ensures y == y' {
      assert Spare(cfg, s, y) && Spare(cfg, s, y');
    }
  }

  lemma RetiredPages(cfg: Config, s: State, z: nat, all: set<nat>)
    requires cfg.Ok() && PagesOk(cfg, s, all) && IdleOk(s) && z in s.zones && s.zones[z].cls < |s.lists|
    ensures var t := Retire(cfg, s, z);
      && PagesOk(cfg, t, all) && IdleOk(t)
      && t.zones == s.zones - {z} && t.lists == s.lists[s.zones[z].cls := Without(s.lists[s.zones[z].cls], z)]
      && t.used == s.used && t.max == s.max && (forall p :: IsLarge(t, p) <==> IsLarge(s, p))
      && (forall q :: q in t.owner && q in s.usage ==> q in t.usage && t.usage[q] == s.usage[q])
  {
    hide PagesOk, IsLarge, Canonical, P.Pages, P.Free, Without;
    var t := Retire(cfg, s, z);
    if |s.idle| == 2 {
      ZonePages(cfg, s, z, all);
      Taken(cfg, s, t, z, cfg.zonePages, InZone(z), FreeEntries(z, cfg.zonePages), all);
    } else {
      PagesSame(cfg, s, t, all);
      LargeSame(s, t);
      ConsNoDup(z, s.idle);
    }
  }

  /** A zone holds its pages, and every page recorded as its own is one of them. */
  lemma ZonePages(cfg: Config, s: State, z: nat, all: set<nat>)
    requires cfg.Ok() && PagesOk(cfg, s, all) && IsZone(s, z)
    ensures z > 0 && Holds(s, z, cfg.zonePages, InZone(z))
    ensures forall q :: q in s.owner && s.owner[q] == InZone(z) ==> Within(q, z, cfg.zonePages)
  {
    hide Canonical, P.Pages;
    assert Holds(s, z, cfg.zonePages, InZone(z));
    assert Within(z, z, cfg.zonePages);
    assert z in s.owner.Keys;
    forall q | q in s.owner && s.owner[q] == InZone(z) ensures Within(q, z, cfg.zonePages) { assert OwnedAt(cfg, s, q); }
  }

  lemma LargePages(cfg: Config, s: State, p: nat, all: set<nat>)
    requires PagesOk(cfg, s, all) && IsLarge(s, p)
    ensures p > 0 && p in s.usage && s.usage[p].Large? && s.usage[p].pages > 0 && Holds(s, p, s.usage[p].pages, InLarge(p))
    ensures forall q :: q in s.owner && s.owner[q] == InLarge(p) ==> Within(q, p, s.usage[p].pages)
  {
    hide Canonical, P.Pages;
    assert p in s.owner.Keys;
    assert OwnedAt(cfg, s, p);
    forall q | q in s.owner && s.owner[q] == InLarge(p) ensures Within(q, p, s.usage[p].pages) { assert OwnedAt(cfg, s, q); }
  }

  /** Freeing a large allocation. */
  lemma FreePagesDelivers(cfg: Config, st: State, p: nat, all: set<nat>)
    requires Inv(cfg, st, all) && IsLarge(st, p)
    ensures var s := Free(cfg, st, Pages(p), all);
      && Inv(cfg, s, all) && s.used == st.used - Capacity(st, Pages(p)) && s.max == st.max
      && (forall q :: Live(s, q) <==> Live(st, q) && q != Pages(p))
      && (forall q :: Live(s, q) ==> Capacity(s, q) == Capacity(st, q))
  {
    hide PagesOk, NoDup, IsLarge, Canonical, P.Pages, P.Free, ListsOk, IdleOk, ZonesOk, GoodZone, ZoneChunks;
    LargePages(cfg, st, p, all);
    LargeKeys2(p, st.usage[p].pages);
    var s := FreePages(st, p);
    Taken(cfg, st, s, p, st.usage[p].pages, InLarge(p), map[p := Large(0)], all);
    SameZonesOk(cfg, st, s);
    LargeEntries(cfg, st, s, p, all);
  }

  lemma LargeEntries(cfg: Config, st: State, s: State, p: nat, all: set<nat>)
    requires PagesOk(cfg, st, all) && (forall x :: IsLarge(s, x) <==> IsLarge(st, x) && InLarge(p) != InLarge(x))
    requires s.usage == st.usage + map[p := Large(0)]
    ensures forall x :: IsLarge(s, x) ==> x != p && x in st.usage && x in s.usage && s.usage[x] == st.usage[x]
  {}

  lemma LargeKeys2(p: nat, n: nat)
    ensures n > 0 ==> map[p := Large(0)].Keys <= Interval(p, n)
  {
    assert n > 0 ==> Within(p, p, n);
  }

  lemma SameIdle(st: State, s: State)
    requires IdleOk(st) && s.idle == st.idle && s.zones.Keys == st.zones.Keys
    ensures IdleOk(s)
  {}

  lemma Classes(cfg: Config, st: State)
    requires ListsOk(cfg, st) && ZonesOk(cfg, st)
    ensures |st.lists| == CLASSES && forall z :: z in st.zones ==> st.zones[z].cls < CLASSES
  {}

  lemma NotRetired(cfg: Config, s: State, z: nat)
    requires z in s.zones && s.zones[z].cls < CLASSES == |s.lists|
    requires s.zones[z].nfree != cfg.Max(s.zones[z].cls) || s.lists[s.zones[z].cls] == [z]
    requires forall j: nat :: j < CLASSES ==> NoDup(s.lists[j])
    requires forall j: nat, y :: j < CLASSES ==> (y in s.lists[j] <==> Ready(s, j, y))
    requires forall y, y' :: Spare(cfg, s, y) && Spare(cfg, s, y') && s.zones[y].cls == s.zones[y'].cls && y != z && y' != z ==> y == y'
    requires forall i :: cfg.Served(i) ==> cfg.Max(i) > 0
    requires forall y :: y in s.zones ==> cfg.Served(s.zones[y].cls)
    ensures ListsOk(cfg, s)
  {
    hide NoDup, ZoneChunks;
    var i := s.zones[z].cls;
    if s.zones[z].nfree == cfg.Max(i) {
      forall y | Spare(cfg, s, y) && s.zones[y].cls == i ensures y == z {
        assert Ready(s, i, y);
        assert y in s.lists[i];
      }
    }
  }

  /** rt_slab_free of any live pointer: that pointer dies, and nothing else. */
  lemma FreeDelivers(cfg: Config, st: State, ptr: Pointer, all: set<nat>)
    requires Inv(cfg, st, all) && Live(st, ptr)
    ensures var s := Free(cfg, st, ptr, all);
      && Inv(cfg, s, all) && s.used == st.used - Capacity(st, ptr) && s.max == st.max
      && (forall q :: Live(s, q) <==> Live(st, q) && q != ptr)
      && (forall q :: Live(s, q) ==> Capacity(s, q) == Capacity(st, q))
  {
    hide PagesOk, NoDup, IsLarge, Free, Capacity, ListsOk, IdleOk, ZonesOk;
    match ptr
    case Chunk(z, c) => FreeChunkDelivers(cfg, st, z, c, all);
    case Pages(p) => FreePagesDelivers(cfg, st, p, all);
  }

  /** The size rt_slab_realloc goes on with: for a chunk, zoneindex has rounded it. */
  function Wanted(ptr: Pointer, size: nat): nat
    requires size > 0
  {
    if ptr.Chunk? then ZoneIndex(size).1 else size
  }

  /** rt_slab_realloc. */
  ghost function Realloc(cfg: Config, st: State, ptr: Option<Pointer>, size: nat, all: set<nat>): (Option<Pointer>, State)
    requires Inv(cfg, st, all) && (ptr.Some? ==> Live(st, ptr.value))
  {
    if ptr.None? then Alloc(cfg, st, size, all)
    else if size == 0 then (None, Free(cfg, st, ptr.value, all))
    else
      var want := Wanted(ptr.value, size);
      if ptr.value.Chunk? && Capacity(st, ptr.value) == want then (ptr, st)
      else
        var (q, s) := Alloc(cfg, st, want, all);
        AllocDelivers(cfg, st, want, all);
        if q.None? then (None, st) else (q, Free(cfg, s, ptr.value, all))
  }

  /** A successful realloc trades the old pointer for one with room for the new size, rounded up as
      the bound on its memcpy is; a failed one leaves everything as it was. */
  lemma ReallocDelivers(cfg: Config, st: State, ptr: Pointer, size: nat, all: set<nat>)
    requires Inv(cfg, st, all) && Live(st, ptr)
    ensures var (r, s) := Realloc(cfg, st, Some(ptr), size, all);
      && Inv(cfg, s, all)
      && (size == 0 ==> r.None? && forall q :: Live(s, q) <==> Live(st, q) && q != ptr)
      && (size > 0 && r.None? ==> s == st)
      && (r.Some? ==>
            && size > 0 && Live(s, r.value) && Capacity(s, r.value) >= Wanted(ptr, size) >= size && (r.value == ptr || !Live(st, r.value))
            && (r.value == ptr ==> s == st)
            && (forall q :: Live(s, q) <==> (Live(st, q) && q != ptr) || q == r.value)
            && (forall q :: Live(s, q) && Live(st, q) ==> Capacity(s, q) == Capacity(st, q)))
  {
    hide PagesOk, NoDup, IsLarge, Free, Alloc, Capacity, ListsOk, IdleOk, ZonesOk, Live, ZoneIndex, Exhausted;
    if size == 0 { FreeDelivers(cfg, st, ptr, all); } else {
      RoundedUp(size);
      var want := Wanted(ptr, size);
      AllocDelivers(cfg, st, want, all);
      var (q, s) := Alloc(cfg, st, want, all);
      if q.Some? { FreeDelivers(cfg, s, ptr, all); }
    }
  }

  /** Exactly when a resize to a nonzero size fails: when the chunk does not already have the size,
      and nothing is left for it. */
  lemma ReallocFails(cfg: Config, st: State, ptr: Pointer, size: nat, all: set<nat>)
    requires Inv(cfg, st, all) && Live(st, ptr) && size > 0
    ensures var want := Wanted(ptr, size);
      Realloc(cfg, st, Some(ptr), size, all).0.None? <==> !(ptr.Chunk? && Capacity(st, ptr) == want) && Exhausted(cfg, st, want)
  {
    hide Inv, Free, Alloc, Capacity, Live, Wanted, Exhausted;
    AllocDelivers(cfg, st, Wanted(ptr, size), all);
  }

  lemma RoundedUp(size: nat)
    requires size > 0
    ensures size <= ZoneIndex(size).1
  {
    if size < 16384 { ZoneIndexIsBestFit(size); }
  }

  /** The address handed out. */
  ghost function Start(cfg: Config, st: State, ptr: Pointer): nat {
    match ptr
    case Chunk(z, c) =>
      if z in st.zones && st.zones[z].cls < CLASSES
      then z * PAGE + BaseOffset(cfg.hdr, ChunkOf(st.zones[z].cls)) + Times(c, ChunkOf(st.zones[z].cls)) else 0
    case Pages(p) => p * PAGE
  }

  function Home(ptr: Pointer): nat {
    match ptr case Chunk(z, c) => z case Pages(p) => p
  }

  function HomeOwner(ptr: Pointer): Owner {
    match ptr case Chunk(z, c) => InZone(z) case Pages(p) => InLarge(p)
  }

  ghost function HomePages(cfg: Config, st: State, ptr: Pointer): nat {
    match ptr
    case Chunk(z, c) => cfg.zonePages
    case Pages(p) => if p in st.usage && st.usage[p].Large? then st.usage[p].pages else 0
  }

  /** An allocation lies in the pages of its owner, behind the zone header if there is one. */
  lemma LiveInside(cfg: Config, st: State, ptr: Pointer, all: set<nat>)
    requires Inv(cfg, st, all) && Known(st, ptr)
    ensures var h, n := Home(ptr), HomePages(cfg, st, ptr);
      && n > 0 && Holds(st, h, n, HomeOwner(ptr)) && Capacity(st, ptr) > 0
      && h * PAGE + (if ptr.Chunk? then cfg.hdr else 0) <= Start(cfg, st, ptr)
      && Start(cfg, st, ptr) + Capacity(st, ptr) <= (h + n) * PAGE
  {
    match ptr
    case Chunk(z, c) =>
      hide PagesOk, ListsOk, ZoneChunks;
      ZonePages(cfg, st, z, all);
      assert GoodZone(cfg, st.zones[z]);
      ServedMax(cfg, st.zones[z].cls);
      ZoneHolds(cfg.ZoneSize(), cfg.hdr, ChunkOf(st.zones[z].cls));
      TimesMonotone(c, cfg.Max(st.zones[z].cls), ChunkOf(st.zones[z].cls));
    case Pages(p) =>
      hide PagesOk, ListsOk, ZonesOk;
      LargePages(cfg, st, p, all);
  }

  /** Two live allocations never share a byte, nor does a live one with a chunk on a free list. */
  lemma LiveApart(cfg: Config, st: State, p: Pointer, q: Pointer, all: set<nat>)
    requires Inv(cfg, st, all) && Known(st, p) && Known(st, q) && p != q
    ensures Start(cfg, st, p) + Capacity(st, p) <= Start(cfg, st, q) || Start(cfg, st, q) + Capacity(st, q) <= Start(cfg, st, p)
  {
    hide PagesOk, ListsOk, IdleOk, ZonesOk;
    if p.Chunk? && q.Chunk? && p.z == q.z {
      var k := if st.zones[p.z].cls < CLASSES then ChunkOf(st.zones[p.z].cls) else 0;
      if p.c < q.c { TimesMonotone(p.c, q.c, k); } else { TimesMonotone(q.c, p.c, k); }
    } else {
      hide Start, Capacity, Known, Holds;
      LiveInside(cfg, st, p, all);
      LiveInside(cfg, st, q, all);
      HoldsApart(st, Home(p), HomePages(cfg, st, p), HomeOwner(p), Home(q), HomePages(cfg, st, q), HomeOwner(q));
    }
  }

  lemma HoldsApart(st: State, a: nat, n: nat, o: Owner, b: nat, m: nat, o': Owner)
    requires Holds(st, a, n, o) && Holds(st, b, m, o') && o != o' && n > 0 && m > 0
    ensures a + n <= b || b + m <= a
  {
    if a <= b { assert Within(b, b, m); assert !Within(b, a, n); } else { assert Within(a, a, n); assert !Within(a, b, m); }
  }

  /** What the page table says of the address of a live allocation leads back to its zone or its
      page count, so rt_slab_free and rt_slab_realloc recover the owner from the pointer alone. */
  lemma TableLeadsBack(cfg: Config, st: State, ptr: Pointer, all: set<nat>)
    requires Inv(cfg, st, all) && Live(st, ptr)
    ensures var q := Start(cfg, st, ptr) / PAGE; q in st.usage && match st.usage[q]
      case Small(offset) => ptr.Chunk? && offset <= q && ptr.z == q - offset
      case Large(n) => ptr == Pages(q) && n > 0 && Capacity(st, ptr) == n * PAGE
      case Unused => false
  {
    hide PagesOk, ListsOk, IdleOk, ZonesOk;
    LiveInside(cfg, st, ptr, all);
    var q := Start(cfg, st, ptr) / PAGE;
    match ptr
    case Chunk(z, c) =>
      assert Within(q, z, cfg.zonePages);
      OwnedPage(cfg, st, q, all);
    case Pages(p) => LargePages(cfg, st, p, all);
  }

  lemma OwnedPage(cfg: Config, st: State, q: nat, all: set<nat>)
    requires PagesOk(cfg, st, all) && q in st.owner
    ensures OwnedAt(cfg, st, q)
  {}

  /** Power-of-two chunks of up to a page are aligned to their size, large allocations to the page. */
  lemma LiveAligned(cfg: Config, st: State, ptr: Pointer, all: set<nat>)
    requires Inv(cfg, st, all) && Live(st, ptr)
    ensures ptr.Pages? ==> Multiple(Start(cfg, st, ptr), PAGE)
    ensures ptr.Chunk? && PowerOfTwo(Capacity(st, ptr)) && Capacity(st, ptr) <= PAGE ==> Multiple(Start(cfg, st, ptr), Capacity(st, ptr))
  {
    match ptr
    case Chunk(z, c) =>
      hide PagesOk, ListsOk;
      assert GoodZone(cfg, st.zones[z]);
      ServedMax(cfg, st.zones[z].cls);
      ChunkAligned(cfg, z, ChunkOf(st.zones[z].cls), c);
    case Pages(p) => ProductIsMultiple(p, PAGE);
  }

  lemma ChunkAligned(cfg: Config, z: nat, k: nat, c: nat)
    requires k >= 8
    ensures PowerOfTwo(k) && k <= PAGE ==> Multiple(z * PAGE + BaseOffset(cfg.hdr, k) + Times(c, k), k)
  {
    if PowerOfTwo(k) && k <= PAGE {
      hide Times, Multiple, Align;
      PageMultiple(z, k);
      TimesIsMultiple(c, k);
      MultipleSum(z * PAGE, Align(cfg.hdr, k), k);
      MultipleSum(z * PAGE + Align(cfg.hdr, k), Times(c, k), k);
    }
  }

  lemma PageMultiple(z: nat, k: nat)
    requires PowerOfTwo(k) && k <= PAGE
    ensures Multiple(z * PAGE, k)
  {
    var q := PAGE / k;
    assert q * k == PAGE;
    ProductIsMultiple(z * q, k);
    assert z * q * k == z * (q * k);
  }

  /** rt_slab_init over `npages` pages from `start` on, the first of which hold the page table of
      four bytes an entry. */
  function Init(start: nat, npages: nat): State {
    State(P.Alloc([Run(start, npages)], PageCount(npages * 4)).1, map[], map[], map[], seq(CLASSES, _ => []), [], 0, 0)
  }

  lemma InitInv(cfg: Config, start: nat, npages: nat)
    requires cfg.Ok() && start > 0 && npages > 0
    ensures Inv(cfg, Init(start, npages), P.Pages(Init(start, npages).runs))
  {
    hide P.Alloc;
    P.AllocDelivers([Run(start, npages)], 1, PageCount(npages * 4));
    P.PagesAbove(Init(start, npages).runs, 1);
  }

  datatype Op = Get(size: nat) | Put(k: nat) | Resize(k: nat, size: nat)

  /** The allocator and what its clients hold. */
  datatype Clients = Clients(st: State, held: seq<Pointer>)

  ghost predicate Legal(s: Clients, op: Op) {
    op.Get? || op.k < |s.held|
  }

  function Dropped(held: seq<Pointer>, k: nat): seq<Pointer>
    requires k < |held|
  {
    held[..k] + held[k + 1..]
  }

  ghost function Step(cfg: Config, s: Clients, op: Op, all: set<nat>): Clients
    requires Legal(s, op) && Inv(cfg, s.st, all) && (forall q :: q in s.held ==> Live(s.st, q))
  {
    match op
    case Get(size) => var (r, st) := Alloc(cfg, s.st, size, all); Clients(st, if r.Some? then s.held + [r.value] else s.held)
    case Put(k) => Clients(Free(cfg, s.st, s.held[k], all), Dropped(s.held, k))
    case Resize(k, size) =>
      var (r, st) := Realloc(cfg, s.st, Some(s.held[k]), size, all);
      Clients(st, if size == 0 then Dropped(s.held, k) else if r.Some? then Dropped(s.held, k) + [r.value] else s.held)
  }

  ghost function Charged(st: State, held: seq<Pointer>): int {
    if held == [] then 0 else Charged(st, held[..|held| - 1]) + Capacity(st, held[|held| - 1])
  }

  ghost predicate Distinct(held: seq<Pointer>) {
    forall i, j :: 0 <= i < j < |held| ==> held[i] != held[j]
  }

  /** Clients hold exactly the live pointers, and `used` is what these are charged. */
  ghost predicate Accounts(cfg: Config, s: Clients, all: set<nat>) {
    && Inv(cfg, s.st, all) && Distinct(s.held) && (forall q :: q in s.held <==> Live(s.st, q))
    && s.st.used == Charged(s.st, s.held) && s.st.used <= s.st.max
  }

  lemma {:induction false} ChargedSame(st: State, st': State, held: seq<Pointer>)
    requires forall q :: q in held ==> Capacity(st', q) == Capacity(st, q)
    ensures Charged(st', held) == Charged(st, held)
  {
    hide Capacity;
    if held != [] { ChargedSame(st, st', held[..|held| - 1]); }
  }

  lemma {:induction false} ChargedDropped(st: State, held: seq<Pointer>, k: nat)
    requires k < |held|
    ensures Charged(st, Dropped(held, k)) == Charged(st, held) - Capacity(st, held[k])
  {
    hide Capacity;
    var n := |held| - 1;
    if k == n {
      assert Dropped(held, k) == held[..n];
    } else {
      ChargedDropped(st, held[..n], k);
      assert Dropped(held, k)[..n - 1] == Dropped(held[..n], k);
    }
  }

  lemma DroppedFacts(held: seq<Pointer>, k: nat)
    requires Distinct(held) && k < |held|
    ensures Distinct(Dropped(held, k)) && forall q :: q in Dropped(held, k) <==> q in held && q != held[k]
  {
    var w := Dropped(held, k);
    assert forall i :: 0 <= i < |w| ==> w[i] == (if i < k then held[i] else held[i + 1]);
    forall q | q in held && q != held[k] ensures q in w {
      var i :| 0 <= i < |held| && held[i] == q;
      assert w[if i < k then i else i - 1] == q;
    }
  }

  lemma AppendFacts(st: State, held: seq<Pointer>, p: Pointer)
    requires Distinct(held) && p !in held
    ensures Distinct(held + [p]) && (forall q :: q in held + [p] <==> q in held || q == p)
    ensures Charged(st, held + [p]) == Charged(st, held) + Capacity(st, p)
  {
    assert (held + [p])[..|held|] == held;
  }

  lemma GetAccounts(cfg: Config, s: Clients, size: nat, all: set<nat>)
    requires Accounts(cfg, s, all)
    ensures Accounts(cfg, Step(cfg, s, Get(size), all), all)
  {
    hide Inv, Alloc, Live, Capacity, Exhausted, Distinct, Charged;
    AllocDelivers(cfg, s.st, size, all);
    var (r, st) := Alloc(cfg, s.st, size, all);
    if r.Some? {
      AppendFacts(st, s.held, r.value);
      ChargedSame(s.st, st, s.held);
    }
  }

  lemma PutAccounts(cfg: Config, s: Clients, k: nat, all: set<nat>)
    requires Accounts(cfg, s, all) && k < |s.held|
    ensures Accounts(cfg, Step(cfg, s, Put(k), all), all)
  {
    hide Inv, Free, Live, Capacity, Distinct, Charged, Dropped;
    FreeDelivers(cfg, s.st, s.held[k], all);
    DroppedFacts(s.held, k);
    ChargedDropped(s.st, s.held, k);
    var st := Free(cfg, s.st, s.held[k], all);
    ChargedSame(s.st, st, Dropped(s.held, k));
  }

  /** A realloc that moves is an allocation followed by a free. */
  lemma ResizeAccounts(cfg: Config, s: Clients, k: nat, size: nat, all: set<nat>)
    requires Accounts(cfg, s, all) && k < |s.held|
    ensures Accounts(cfg, Step(cfg, s, Resize(k, size), all), all)
  {
    hide Inv, Free, Alloc, Live, Distinct, Charged, Dropped, Wanted, Capacity;
    var p := s.held[k];
    if size == 0 {
      PutAccounts(cfg, s, k, all);
    } else if p.Chunk? && Capacity(s.st, p) == Wanted(p, size) {
      DroppedFacts(s.held, k);
      ChargedDropped(s.st, s.held, k);
      AppendFacts(s.st, Dropped(s.held, k), p);
    } else {
      var want := Wanted(p, size);
      GetAccounts(cfg, s, want, all);
      var t := Step(cfg, s, Get(want), all);
      var (r, st) := Alloc(cfg, s.st, want, all);
      if r.Some? {
        PutAccounts(cfg, t, k, all);
        DroppedAppend(s.held, k, r.value);
      }
    }
  }

  lemma DroppedAppend(held: seq<Pointer>, k: nat, p: Pointer)
    requires k < |held|
    ensures (held + [p])[k] == held[k] && Dropped(held + [p], k) == Dropped(held, k) + [p]
  {}

  lemma StepAccounts(cfg: Config, s: Clients, op: Op, all: set<nat>)
    requires Accounts(cfg, s, all) && Legal(s, op)
    ensures Accounts(cfg, Step(cfg, s, op, all), all)
  {
    match op
    case Get(size) => GetAccounts(cfg, s, size, all);
    case Put(k) => PutAccounts(cfg, s, k, all);
    case Resize(k, size) => ResizeAccounts(cfg, s, k, size, all);
  }

  ghost predicate IsRun(cfg: Config, s: Clients, ops: seq<Op>, t: Clients, all: set<nat>)
    requires Accounts(cfg, s, all)
    decreases |ops|
  {
    if ops == [] then s == t
    else Legal(s, ops[0]) && (StepAccounts(cfg, s, ops[0], all); IsRun(cfg, Step(cfg, s, ops[0], all), ops[1..], t, all))
  }

  /** Every run from initialisation keeps the whole invariant, and once everything is freed no
      byte is charged and nothing is live. */
  lemma {:induction false} RunAccounts(cfg: Config, s: Clients, ops: seq<Op>, t: Clients, all: set<nat>)
    requires Accounts(cfg, s, all) && IsRun(cfg, s, ops, t, all)
    ensures Accounts(cfg, t, all)
    ensures t.held == [] ==> t.st.used == 0 && forall q :: !Live(t.st, q)
    decreases |ops|
  {
    hide Inv, Step, Live, Distinct;
    if ops != [] {
      StepAccounts(cfg, s, ops[0], all);
      RunAccounts(cfg, Step(cfg, s, ops[0], all), ops[1..], t, all);
    } else {
      forall q | t.held == [] ensures !Live(t.st, q) { assert q !in t.held; }
    }
  }

  lemma InitAccounts(cfg: Config, start: nat, npages: nat)
    requires cfg.Ok() && start > 0 && npages > 0
    ensures Accounts(cfg, Clients(Init(start, npages), []), P.Pages(Init(start, npages).runs))
  {
    InitInv(cfg, start, npages);
  }

  /** What is charged at the moments one call passes through: a resize that moves holds both
      allocations for a moment. */
  ghost function Moments(cfg: Config, s: Clients, op: Op, all: set<nat>): seq<int>
    requires Accounts(cfg, s, all) && Legal(s, op)
  {
    var after := Step(cfg, s, op, all).st.used;
    match op
    case Resize(k, size) => if size > 0 && Moves(s.st, s.held[k], size) then [Alloc(cfg, s.st, Wanted(s.held[k], size), all).1.used, after] else [after]
    case _ => [after]
  }

  /** A resize to a nonzero size that asks for another allocation. */
  ghost predicate Moves(st: State, ptr: Pointer, size: nat)
    requires size > 0
  {
    !(ptr.Chunk? && Capacity(st, ptr) == Wanted(ptr, size))
  }

  function Peak(max: int, moments: seq<int>): int
    decreases |moments|
  {
    if moments == [] then max else Peak(if moments[0] > max then moments[0] else max, moments[1..])
  }

  lemma PeakOne(max: int, a: int)
    ensures Peak(max, [a]) == if a > max then a else max
  {
    assert [a][1..] == [];
  }

  lemma PeakTwo(max: int, a: int, b: int)
    ensures Peak(max, [a, b]) == Peak(Peak(max, [a]), [b])
  {
    PeakOne(max, a);
    assert [a, b][1..] == [b];
  }

  lemma StepPeak(cfg: Config, s: Clients, op: Op, all: set<nat>)
    requires Accounts(cfg, s, all) && Legal(s, op)
    ensures Step(cfg, s, op, all).st.max == Peak(s.st.max, Moments(cfg, s, op, all))
  {
    hide Inv, Alloc, Free, Capacity, Live, Wanted, Exhausted, Charged, Distinct, Peak;
    PeakOne(s.st.max, Step(cfg, s, op, all).st.used);
    match op
    case Get(size) =>
      AllocDelivers(cfg, s.st, size, all);
      var (q, t) := Alloc(cfg, s.st, size, all);
      assert Step(cfg, s, op, all).st == t;
      assert t.max == if t.used > s.st.max then t.used else s.st.max;
    case Put(k) => FreeDelivers(cfg, s.st, s.held[k], all);
    case Resize(k, size) =>
      var p := s.held[k];
      if size == 0 {
        FreeDelivers(cfg, s.st, p, all);
      } else if Moves(s.st, p, size) {
        var want := Wanted(p, size);
        AllocDelivers(cfg, s.st, want, all);
        var (q, t) := Alloc(cfg, s.st, want, all);
        if q.Some? { FreeDelivers(cfg, t, p, all); }
        PeakOne(s.st.max, t.used);
        PeakTwo(s.st.max, t.used, Step(cfg, s, op, all).st.used);
        PeakOne(Peak(s.st.max, [t.used]), Step(cfg, s, op, all).st.used);
      }
  }

  /** The greatest of `high` and all that is charged at any moment of a run. */
  ghost function HighWater(cfg: Config, s: Clients, ops: seq<Op>, t: Clients, high: int, all: set<nat>): int
    requires Accounts(cfg, s, all) && IsRun(cfg, s, ops, t, all)
    decreases |ops|
  {
    if ops == [] then high
    else
      StepAccounts(cfg, s, ops[0], all);
      HighWater(cfg, Step(cfg, s, ops[0], all), ops[1..], t, Peak(high, Moments(cfg, s, ops[0], all)), all)
  }

  /** `max` is the high-water mark of everything charged over a run. */
  lemma {:induction false} MaxIsHighWater(cfg: Config, s: Clients, ops: seq<Op>, t: Clients, all: set<nat>)
    requires Accounts(cfg, s, all) && IsRun(cfg, s, ops, t, all)
    ensures t.st.max == HighWater(cfg, s, ops, t, s.st.max, all)
    decreases |ops|
  {
    hide Inv, Live, Distinct, Charged, Step, Moments, Peak;
    if ops != [] {
      StepAccounts(cfg, s, ops[0], all);
      StepPeak(cfg, s, ops[0], all);
      MaxIsHighWater(cfg, Step(cfg, s, ops[0], all), ops[1..], t, all);
    }
  }

  // ---------------------------------------------------------------- what the calls come to

  /** `i` is the smallest class whose chunks hold `size` bytes. */
  predicate Serves(i: nat, size: nat) {
    i < CLASSES && size <= ChunkOf(i) && (i > 0 ==> ChunkOf(i - 1) < size)
  }

  lemma OneClassServes(i: nat, size: nat)
    requires Serves(i, size) && 0 < size < 16384
    ensures ZoneIndex(size) == (i, ChunkOf(i))
  {
    hide ZoneIndex, ChunkOf;
    ZoneIndexIsBestFit(size);
    var j := ZoneIndex(size).0;
    if i < j {
      if i < j - 1 { ChunksIncrease(i, j - 1); }
    } else if j < i {
      if j < i - 1 { ChunksIncrease(j, i - 1); }
    }
  }

  /** A chunk already of the smallest class that serves the new size stays where it is. */
  lemma FittingChunkStays(cfg: Config, st: State, z: nat, c: nat, i: nat, size: nat, all: set<nat>)
    requires Inv(cfg, st, all) && Live(st, Chunk(z, c)) && st.zones[z].cls == i
    requires 0 < size < 16384 && Serves(i, size)
    ensures Realloc(cfg, st, Some(Chunk(z, c)), size, all) == (Some(Chunk(z, c)), st)
  {
    hide Inv, Alloc, Free, ZoneIndex, ChunkOf;
    OneClassServes(i, size);
  }

  /** Any other resize asks for a new allocation: of the chunk size of the class that serves it when it
      comes from a chunk, and of the size itself otherwise. */
  lemma ResizeAsksFor(cfg: Config, st: State, ptr: Pointer, i: nat, size: nat, all: set<nat>)
    requires Inv(cfg, st, all) && Live(st, ptr) && size > 0
    ensures ptr.Chunk? && size < 16384 && Serves(i, size) && Capacity(st, ptr) != ChunkOf(i) ==>
      Realloc(cfg, st, Some(ptr), size, all).0 == Alloc(cfg, st, ChunkOf(i), all).0
    ensures ptr.Pages? ==> Realloc(cfg, st, Some(ptr), size, all).0 == Alloc(cfg, st, size, all).0
    ensures ptr.Chunk? && size >= 16384 && Capacity(st, ptr) != size ==>
      Realloc(cfg, st, Some(ptr), size, all).0 == Alloc(cfg, st, size, all).0
  {
    hide Inv, Alloc, Free, ChunkOf, Capacity, Live;
    if size < 16384 && Serves(i, size) { OneClassServes(i, size); }
    assert size >= 16384 ==> ZoneIndex(size) == (0, size);
  }

  /** What is taken, in order of preference: the untouched or, failing that, the last freed chunk of the
      first listed zone; the first chunk of an idle zone; the first chunk of the lowest free stretch of
      pages.  A large request takes the lowest stretch of just enough pages. */
  lemma AllocTakes(cfg: Config, st: State, size: nat, i: nat, all: set<nat>)
    requires Inv(cfg, st, all) && size > 0 && (size < cfg.limit ==> Serves(i, size))
    ensures var (r, s) := Alloc(cfg, st, size, all); r.Some? ==>
      && (size >= cfg.limit ==>
            r.value.Pages? && LowestStretch(st.runs, r.value.p, Capacity(s, r.value) / PAGE)
            && Capacity(s, r.value) % PAGE == 0 && size <= Capacity(s, r.value) < size + PAGE && s.idle == st.idle && s.zones == st.zones)
      && (size < cfg.limit ==> r.value.Chunk? && Capacity(s, r.value) == ChunkOf(i) && |st.lists| == CLASSES)
      && (size < cfg.limit && st.lists[i] != [] ==>
            r.value.z == st.lists[i][0] && r.value.z in st.zones && s.idle == st.idle && s.runs == st.runs
            && var zn := st.zones[r.value.z]; if zn.uindex + 1 < cfg.Max(i) then r.value.c == zn.uindex + 1 else zn.free != [] && r.value.c == zn.free[0])
      && (size < cfg.limit && st.lists[i] == [] && st.idle != [] ==>
            r.value == Chunk(st.idle[0], 0) && s.idle == st.idle[1..] && s.runs == st.runs)
      && (size < cfg.limit && st.lists[i] == [] && st.idle == [] ==>
            r.value.c == 0 && LowestStretch(st.runs, r.value.z, cfg.zonePages) && s.idle == [])
  {
    if size >= cfg.limit {
      LargeTakes(cfg, st, size, all);
    } else {
      hide Inv, ZoneIndex, ChunkOf, AllocPages, TakeChunk, OpenZone, LowestStretch, Capacity;
      LimitBelow(cfg, st, all);
      OneClassServes(i, size);
      AllocReady(cfg, st, size, all);
      if st.lists[i] != [] { ListedTakes(cfg, st, i, size, all); } else { OpeningTakes(cfg, st, i, size, all); }
    }
  }

  lemma LimitBelow(cfg: Config, st: State, all: set<nat>)
    requires Inv(cfg, st, all)
    ensures cfg.limit <= 16384
  {}

  /** The lowest `n` consecutive free pages start at `p`. */
  ghost predicate LowestStretch(runs: seq<Run>, p: nat, n: nat) {
    FreeRun(runs, p, n) && forall a :: FreeRun(runs, a, n) ==> p <= a
  }

  lemma LargeTakes(cfg: Config, st: State, size: nat, all: set<nat>)
    requires Inv(cfg, st, all) && size >= cfg.limit && size > 0
    ensures var (r, s) := Alloc(cfg, st, size, all); r.Some? ==>
      && r.value.Pages? && LowestStretch(st.runs, r.value.p, Capacity(s, r.value) / PAGE)
      && Capacity(s, r.value) % PAGE == 0 && size <= Capacity(s, r.value) < size + PAGE && s.idle == st.idle && s.zones == st.zones
  {
    hide Canonical, P.Pages, P.Alloc, FreeRun, ListsOk, ZonesOk;
    var n := PageCount(size);
    P.AllocDelivers(st.runs, 1, n);
    var (r, s) := Alloc(cfg, st, size, all);
    var (p, runs) := P.Alloc(st.runs, n);
    if r.Some? {
      assert r.value == Pages(p.value);
      assert Capacity(s, r.value) == n * PAGE && n * PAGE / PAGE == n && (n * PAGE) % PAGE == 0;
      assert LowestStretch(st.runs, p.value, n);
    }
  }

  lemma ListedTakes(cfg: Config, st: State, i: nat, size: nat, all: set<nat>)
    requires Inv(cfg, st, all) && 0 < size < cfg.limit && ZoneIndex(size).0 == i < CLASSES == |st.lists| && st.lists[i] != []
    ensures var (r, s) := Alloc(cfg, st, size, all);
      && r.Some? && r.value.Chunk? && Capacity(s, r.value) == ChunkOf(i) && r.value.z == st.lists[i][0] && r.value.z in st.zones
      && s.idle == st.idle && s.runs == st.runs
      && var zn := st.zones[r.value.z]; if zn.uindex + 1 < cfg.Max(i) then r.value.c == zn.uindex + 1 else zn.free != [] && r.value.c == zn.free[0]
  {
    hide ZoneIndex, ChunkOf, PagesOk, NoDup;
    AllocReady(cfg, st, size, all);
    TakeShape(cfg, st, i);
    assert GoodZone(cfg, st.zones[st.lists[i][0]]);
  }

  lemma OpeningTakes(cfg: Config, st: State, i: nat, size: nat, all: set<nat>)
    requires Inv(cfg, st, all) && 0 < size < cfg.limit && ZoneIndex(size).0 == i < CLASSES == |st.lists| && st.lists[i] == []
    ensures var (r, s) := Alloc(cfg, st, size, all); r.Some? ==>
      && r.value.Chunk? && Capacity(s, r.value) == ChunkOf(i) && r.value.c == 0
      && (st.idle != [] ==> r.value.z == st.idle[0] && s.idle == st.idle[1..] && s.runs == st.runs)
      && (st.idle == [] ==> LowestStretch(st.runs, r.value.z, cfg.zonePages) && s.idle == [])
  {
    hide ZoneIndex, ChunkOf, Canonical, P.Pages, P.Alloc, FreeRun, ListsOk, ZonesOk;
    AllocReady(cfg, st, size, all);
    P.AllocDelivers(st.runs, 1, cfg.zonePages);
  }

  /** A zone has no live chunk exactly when it counts all its chunks as free. */
  lemma NoneLiveIff(cfg: Config, zn: Zone)
    requires GoodZone(cfg, zn)
    ensures zn.nfree == cfg.Max(zn.cls) <==> forall d: nat :: d <= zn.uindex ==> d in zn.free
  {
    FreeBound(cfg, zn);
    if forall d: nat :: d <= zn.uindex ==> d in zn.free {
      ElementCount(zn.free);
      RangeCount(zn.uindex + 1);
      assert forall x :: x in Elements(zn.free) <==> x in Range(zn.uindex + 1);
      assert Elements(zn.free) == Range(zn.uindex + 1);
    }
  }

  /** `c` is the only live chunk of zone `z`. */
  ghost predicate LastChunk(st: State, z: nat, c: nat) {
    forall d: nat :: Live(st, Chunk(z, d)) ==> d == c
  }

  /** No other zone of the class of `z` has a free chunk. */
  ghost predicate NoCompanion(st: State, z: nat)
    requires z in st.zones
  {
    forall y :: Ready(st, st.zones[z].cls, y) ==> y == z
  }

  lemma RetiresIff(cfg: Config, st: State, z: nat, c: nat, all: set<nat>)
    requires Inv(cfg, st, all) && Live(st, Chunk(z, c)) && st.zones[z].cls < CLASSES == |st.lists|
    ensures Retires(cfg, Pushed(cfg, st, z, c), z) <==> LastChunk(st, z, c) && !NoCompanion(st, z)
  {
    hide PagesOk, NoDup, ZoneChunks, GoodZone;
    var zn := st.zones[z];
    var i := zn.cls;
    var s := Pushed(cfg, st, z, c);
    assert GoodZone(cfg, zn);
    PushedZone(cfg, zn, c);
    NoneLiveIff(cfg, s.zones[z]);
    assert LastChunk(st, z, c) <==> forall d: nat :: d <= zn.uindex ==> d in [c] + zn.free by { OthersFree(st, z, c); }
    OnlyOneListed(st, s, z, i);
  }

  lemma OthersFree(st: State, z: nat, c: nat)
    requires Live(st, Chunk(z, c))
    ensures LastChunk(st, z, c) <==> forall d: nat :: d <= st.zones[z].uindex ==> d in [c] + st.zones[z].free
  {
    var zn := st.zones[z];
    assert forall d: nat :: d in [c] + zn.free <==> d == c || d in zn.free;
    assert forall d: nat :: Live(st, Chunk(z, d)) <==> d <= zn.uindex && d !in zn.free;
  }

  lemma OnlyOneListed(st: State, s: State, z: nat, i: nat)
    requires z in st.zones && st.zones[z].cls == i < |st.lists| && NoDup(st.lists[i]) && forall y :: y in st.lists[i] <==> Ready(st, i, y)
    requires |s.lists| == |st.lists| && s.lists[i] == if st.zones[z].nfree == 0 then [z] + st.lists[i] else st.lists[i]
    ensures s.lists[i] == [z] <==> NoCompanion(st, z)
  {
    var l := st.lists[i];
    if NoCompanion(st, z) {
      forall y | y in l ensures y == z { assert Ready(st, i, y); }
      AtMostOne(l, z);
      assert |l| > 0 ==> l[0] in l;
      assert Ready(st, i, z) ==> z in l;
    }
    if s.lists[i] == [z] {
      forall y | Ready(st, i, y) ensures y == z { assert y in l; assert y in s.lists[i]; }
    }
  }

  lemma AtMostOne(l: seq<nat>, z: nat)
    requires NoDup(l) && forall y :: y in l ==> y == z
    ensures |l| <= 1
  {
    ElementCount(l);
    assert Elements(l) <= {z};
    SubsetSize(Elements(l), {z});
  }

  /** What becomes of the zone when a chunk is freed: if that was its last live chunk and another zone of
      its class has a free one, the zone becomes idle, or goes back to the page allocator if two are
      idle already; otherwise it stays, with the chunk first on its list, and, if it was full, first
      among the zones of its class. */
  lemma FreeLeavesZone(cfg: Config, st: State, z: nat, c: nat, all: set<nat>)
    requires Inv(cfg, st, all) && Live(st, Chunk(z, c))
    ensures var zn := st.zones[z]; var s := Free(cfg, st, Chunk(z, c), all);
      if LastChunk(st, z, c) && !NoCompanion(st, z) then
        && s.zones == st.zones - {z}
        && (if |st.idle| < 2 then s.idle == [z] + st.idle && s.runs == st.runs
            else s.idle == st.idle && P.Pages(s.runs) == P.Pages(st.runs) + Interval(z, cfg.zonePages))
      else
        && s.zones == st.zones[z := Zone(zn.cls, zn.uindex, [c] + zn.free, zn.nfree + 1)] && s.idle == st.idle && s.runs == st.runs
        && zn.cls < |st.lists| && s.lists == if zn.nfree == 0 then st.lists[zn.cls := [z] + st.lists[zn.cls]] else st.lists
  {
    hide Inv, LastChunk, NoCompanion, Retires, Retire, Free, Pushable;
    PushDelivers(cfg, st, z, c, all);
    RetiresIff(cfg, st, z, c, all);
    PushedIs(cfg, st, z, c);
    var s := Pushed(cfg, st, z, c);
    if Retires(cfg, s, z) { RetireGoes(cfg, s, z, all); }
  }

  lemma PushedIs(cfg: Config, st: State, z: nat, c: nat)
    requires z in st.zones && st.zones[z].cls < CLASSES == |st.lists|
    ensures var zn := st.zones[z]; var s := Pushed(cfg, st, z, c);
      && s.zones == st.zones[z := Zone(zn.cls, zn.uindex, [c] + zn.free, zn.nfree + 1)] && s.zones - {z} == st.zones - {z}
      && s.idle == st.idle && s.runs == st.runs
      && s.lists == if zn.nfree == 0 then st.lists[zn.cls := [z] + st.lists[zn.cls]] else st.lists
  {}

  lemma RetireGoes(cfg: Config, s: State, z: nat, all: set<nat>)
    requires Pushable(cfg, s, z, all)
    ensures var t := Retire(cfg, s, z);
      && t.zones == s.zones - {z}
      && (if |s.idle| < 2 then t.idle == [z] + s.idle && t.runs == s.runs
          else t.idle == s.idle && P.Pages(t.runs) == P.Pages(s.runs) + Interval(z, cfg.zonePages))
  {
    hide Canonical, P.Pages, P.Free, NoDup, GoodZone, ZoneChunks, Without;
    assert Holds(s, z, cfg.zonePages, InZone(z)) by { assert IsZone(s, z); }
    assert Interval(z, cfg.zonePages) !! P.Pages(s.runs) by {
      forall q | q in Interval(z, cfg.zonePages) ensures q !in P.Pages(s.runs) { assert Within(q, z, cfg.zonePages); }
    }
    assert z >= 1 by { assert Within(z, z, cfg.zonePages); assert z in s.owner; }
    P.FreeDelivers(s.runs, 1, z, cfg.zonePages);
  }
}
