/** The slab allocator statement by statement (rt-thread/src/slab.c, lines 488-859): zone headers,
    the z_next and c_next links, the list heads and the page table, tied to SlabSpec. */
module Slab {
  import opened Memory
  import opened Alignment
  import opened Lists
  import opened SizeClasses
  import P = SlabPagesSpec
  import opened SlabPages
  import opened S = SlabSpec

  const ZALLOC_SLAB_MAGIC := 0x51ab51ab
  const RT_UINT32_MAX := 0xffffffff
  const ZONE_RELEASE_THRESH := 2

  /** struct rt_slab_zone.  Zones are named by page number, chunks by address; 0 is null. */
  datatype ZoneHead = ZoneHead(magic: nat, nfree: nat, nmax: nat, next: nat, base: nat, uindex: nat, chunk: nat,
                               zi: nat, freechunk: nat)

  ghost function Addr(cfg: Config, z: nat, cls: nat, c: nat): nat
    requires cls < CLASSES
  {
    z * PAGE + BaseOffset(cfg.hdr, ChunkOf(cls)) + Times(c, ChunkOf(cls))
  }

  /** The address of entry `k` of a free chunk list, or null behind its end. */
  ghost function ChunkAt(cfg: Config, z: nat, zn: Zone, k: nat): nat
    requires zn.cls < CLASSES
  {
    if k < |zn.free| then Addr(cfg, z, zn.cls, zn.free[k]) else 0
  }

  ghost predicate LinkAt(cfg: Config, z: nat, zn: Zone, links: map<nat, nat>, k: nat)
    requires zn.cls < CLASSES && k < |zn.free|
  {
    ChunkAt(cfg, z, zn, k) in links && links[ChunkAt(cfg, z, zn, k)] == ChunkAt(cfg, z, zn, k + 1)
  }

  ghost predicate FreeChain(cfg: Config, z: nat, zn: Zone, head: nat, links: map<nat, nat>)
    requires zn.cls < CLASSES
  {
    head == ChunkAt(cfg, z, zn, 0) && forall k: nat :: k < |zn.free| ==> LinkAt(cfg, z, zn, links, k)
  }

  ghost predicate ZoneTied(cfg: Config, z: nat, zn: Zone, h: ZoneHead, links: map<nat, nat>) {
    && zn.cls < CLASSES && h.magic == ZALLOC_SLAB_MAGIC
    && h.nfree == zn.nfree && h.nmax == cfg.Max(zn.cls) && h.uindex == zn.uindex && h.zi == zn.cls
    && h.chunk == ChunkOf(zn.cls) && h.base == z * PAGE + BaseOffset(cfg.hdr, h.chunk)
    && FreeChain(cfg, z, zn, h.freechunk, links)
  }

  ghost function First(list: seq<nat>, k: nat): nat {
    if k < |list| then list[k] else 0
  }

  ghost predicate NextAt(zones: map<nat, ZoneHead>, list: seq<nat>, k: nat)
    requires k < |list|
  {
    list[k] in zones && zones[list[k]].next == First(list, k + 1)
  }

  /** The z_next links from `head` run through `list`. */
  ghost predicate Chain(zones: map<nat, ZoneHead>, head: nat, list: seq<nat>) {
    head == First(list, 0) && forall k: nat :: k < |list| ==> NextAt(zones, list, k)
  }

  ghost predicate Tied(cfg: Config, st: State, zones: map<nat, ZoneHead>, links: map<nat, nat>, zoneArray: seq<nat>,
                       zoneFree: nat, zoneFreeCnt: nat) {
    && |zoneArray| == CLASSES == |st.lists|
    && (forall z :: z in st.zones ==> z in zones && ZoneTied(cfg, z, st.zones[z], zones[z], links))
    && (forall i: nat :: i < CLASSES ==> Chain(zones, zoneArray[i], st.lists[i]))
    && Chain(zones, zoneFree, st.idle) && zoneFreeCnt == |st.idle|
  }

  /** What rt_slab_alloc does to the header of the zone it takes a chunk from. */
  ghost function TakenHead(h: ZoneHead, links: map<nat, nat>): ZoneHead {
    var g := h.(nfree := if h.nfree > 0 then h.nfree - 1 else 0, next := if h.nfree == 1 then 0 else h.next);
    if h.uindex + 1 != h.nmax then g.(uindex := h.uindex + 1)
    else g.(freechunk := if h.freechunk in links then links[h.freechunk] else 0)
  }

  lemma ListFacts(cfg: Config, st: State, all: set<nat>)
    requires Inv(cfg, st, all)
    ensures |st.lists| == CLASSES
    ensures forall i: nat, z :: i < CLASSES && z in st.lists[i] ==> z in st.zones && st.zones[z].cls == i && st.zones[z].nfree > 0
    ensures forall i: nat :: i < CLASSES ==> NoDup(st.lists[i])
    ensures forall z :: z in st.idle ==> z !in st.zones
    ensures forall z :: z in st.zones ==> st.zones[z].cls < CLASSES
    ensures NoDup(st.idle)
  {
    hide PagesOk;
    forall z | z in st.zones ensures st.zones[z].cls < CLASSES { assert GoodZone(cfg, st.zones[z]); }
    forall i: nat, z | i < CLASSES && z in st.lists[i] ensures z in st.zones && st.zones[z].cls == i && st.zones[z].nfree > 0 {
      assert Ready(st, i, z);
    }
  }

  lemma ChainSame(zones: map<nat, ZoneHead>, zones': map<nat, ZoneHead>, head: nat, list: seq<nat>)
    requires Chain(zones, head, list) && forall y :: y in list && y in zones ==> y in zones' && zones'[y].next == zones[y].next
    ensures Chain(zones', head, list)
  {
    forall k: nat | k < |list| ensures NextAt(zones', list, k) { assert NextAt(zones, list, k); assert list[k] in list; }
  }

  lemma ChainPop(zones: map<nat, ZoneHead>, head: nat, list: seq<nat>)
    requires Chain(zones, head, list) && list != []
    ensures head == list[0] && head in zones && Chain(zones, zones[head].next, list[1..])
  {
    assert NextAt(zones, list, 0);
    forall k: nat | k < |list[1..]| ensures NextAt(zones, list[1..], k) { assert NextAt(zones, list, k + 1); }
  }

  lemma ChainPush(zones: map<nat, ZoneHead>, head: nat, list: seq<nat>, z: nat)
    requires Chain(zones, head, list) && z in zones && zones[z].next == head
    ensures Chain(zones, z, [z] + list)
  {
    var l := [z] + list;
    forall k: nat | k < |l| ensures NextAt(zones, l, k) { if k > 0 { assert NextAt(zones, list, k - 1); } }
  }

  lemma TakeFacts(cfg: Config, st: State, zones: map<nat, ZoneHead>, links: map<nat, nat>, zoneArray: seq<nat>,
                  zoneFree: nat, zoneFreeCnt: nat, i: nat, all: set<nat>)
    requires Inv(cfg, st, all) && Tied(cfg, st, zones, links, zoneArray, zoneFree, zoneFreeCnt) && i < CLASSES && st.lists[i] != []
    ensures var z := st.lists[i][0];
      && zoneArray[i] == z && z in zones && z in st.zones && st.zones[z].cls == i && zones[z].nfree == st.zones[z].nfree > 0
      && zones[z].nmax == cfg.Max(i) && zones[z].uindex == st.zones[z].uindex && zones[z].chunk == ChunkOf(i)
      && zones[z].base == z * PAGE + BaseOffset(cfg.hdr, ChunkOf(i))
      && (st.zones[z].free != [] ==> zones[z].freechunk in links && zones[z].freechunk == Addr(cfg, z, i, st.zones[z].free[0]))
  {
    hide ZoneChunks, PowerOfTwo, BaseOffset, PagesOk;
    ListFacts(cfg, st, all);
    var z := st.lists[i][0];
    assert Chain(zones, zoneArray[i], st.lists[i]);
    assert z in st.lists[i];
    assert ZoneTied(cfg, z, st.zones[z], zones[z], links);
    if st.zones[z].free != [] { assert LinkAt(cfg, z, st.zones[z], links, 0); }
  }

  /** Zone list `i` is not empty, and its first zone has a chunk to give. */
  ghost predicate CanTake(cfg: Config, st: State, i: nat) {
    && i < CLASSES == |st.lists| && st.lists[i] != [] && st.lists[i][0] in st.zones
    && var zn := st.zones[st.lists[i][0]]; zn.cls == i && zn.nfree > 0 && (zn.uindex + 1 == cfg.Max(i) ==> zn.free != [])
  }

  lemma TakeReady(cfg: Config, st: State, i: nat, all: set<nat>)
    requires Inv(cfg, st, all) && i < |st.lists| && st.lists[i] != []
    ensures CanTake(cfg, st, i)
  {
    hide ZoneChunks, PagesOk;
    assert st.lists[i][0] in st.lists[i] && Ready(st, i, st.lists[i][0]);
    assert GoodZone(cfg, st.zones[st.lists[i][0]]);
  }

  lemma TakenTied(cfg: Config, st: State, zones: map<nat, ZoneHead>, links: map<nat, nat>, zoneArray: seq<nat>,
                  zoneFree: nat, zoneFreeCnt: nat, i: nat, all: set<nat>)
    requires Inv(cfg, st, all) && Tied(cfg, st, zones, links, zoneArray, zoneFree, zoneFreeCnt) && CanTake(cfg, st, i)
    requires st.lists[i][0] in zones
    ensures var z := st.lists[i][0]; var h := zones[z];
      Tied(cfg, TakeChunk(cfg, st, i).1, zones[z := TakenHead(h, links)], links,
           if h.nfree == 1 then zoneArray[i := h.next] else zoneArray, zoneFree, zoneFreeCnt)
  {
    hide ZoneChunks, PowerOfTwo, BaseOffset, PagesOk, Chain, NoDup, FreeChain, TakeChunk, TakenHead;
    var z := st.lists[i][0];
    var h := zones[z];
    var s := TakeChunk(cfg, st, i).1;
    var zones' := zones[z := TakenHead(h, links)];
    ListFacts(cfg, st, all);
    assert ZoneTied(cfg, z, st.zones[z], h, links);
    TakeShape(cfg, st, i);
    HeadNext(h, links);
    TailFacts(st.lists[i]);
    TakenZones(cfg, st, zones, links, zoneArray, zoneFree, zoneFreeCnt, i);
    assert z in st.lists[i];
    forall j: nat | j < CLASSES ensures Chain(zones', (if h.nfree == 1 then zoneArray[i := h.next] else zoneArray)[j], s.lists[j]) {
      assert Chain(zones, zoneArray[j], st.lists[j]);
      if h.nfree == 1 && j == i {
        ChainPop(zones, zoneArray[i], st.lists[i]);
        ChainSame(zones, zones', h.next, st.lists[i][1..]);
      } else {
        ChainSame(zones, zones', zoneArray[j], st.lists[j]);
      }
    }
    ChainSame(zones, zones', zoneFree, st.idle);
  }

  lemma HeadNext(h: ZoneHead, links: map<nat, nat>)
    ensures TakenHead(h, links).next == if h.nfree == 1 then 0 else h.next
  {}

  lemma TakenZones(cfg: Config, st: State, zones: map<nat, ZoneHead>, links: map<nat, nat>, zoneArray: seq<nat>,
                   zoneFree: nat, zoneFreeCnt: nat, i: nat)
    requires Tied(cfg, st, zones, links, zoneArray, zoneFree, zoneFreeCnt) && CanTake(cfg, st, i)
    requires st.lists[i][0] in zones
    ensures var z := st.lists[i][0]; var s := TakeChunk(cfg, st, i).1; var zones' := zones[z := TakenHead(zones[z], links)];
      forall y :: y in s.zones ==> y in zones' && ZoneTied(cfg, y, s.zones[y], zones'[y], links)
  {
    hide ZoneChunks, PowerOfTwo, BaseOffset, Chain, FreeChain;
    var z := st.lists[i][0];
    var s := TakeChunk(cfg, st, i).1;
    assert ZoneTied(cfg, z, st.zones[z], zones[z], links);
    TakenChain(cfg, z, st.zones[z], zones[z], links, s.zones[z]);
    forall y | y in s.zones && y != z ensures y in zones && ZoneTied(cfg, y, s.zones[y], zones[y], links) {
      assert ZoneTied(cfg, y, st.zones[y], zones[y], links);
    }
  }

  lemma TakenChain(cfg: Config, z: nat, zn: Zone, h: ZoneHead, links: map<nat, nat>, zn': Zone)
    requires ZoneTied(cfg, z, zn, h, links) && (zn.uindex + 1 == cfg.Max(zn.cls) ==> zn.free != [])
    requires zn'.cls == zn.cls && zn'.free == if zn.uindex + 1 != cfg.Max(zn.cls) then zn.free else zn.free[1..]
    ensures FreeChain(cfg, z, zn', TakenHead(h, links).freechunk, links)
  {
    hide ZoneChunks, PowerOfTwo, BaseOffset;
    if zn.uindex + 1 == cfg.Max(zn.cls) {
      assert LinkAt(cfg, z, zn, links, 0);
      assert forall k: nat :: ChunkAt(cfg, z, zn', k) == ChunkAt(cfg, z, zn, k + 1);
      forall k: nat | k < |zn'.free| ensures LinkAt(cfg, z, zn', links, k) { assert LinkAt(cfg, z, zn, links, k + 1); }
    } else {
      SameChain(cfg, z, zn, zn', h.freechunk, links);
    }
  }

  lemma SameChain(cfg: Config, z: nat, zn: Zone, zn': Zone, head: nat, links: map<nat, nat>)
    requires zn.cls < CLASSES && zn'.cls == zn.cls && zn'.free == zn.free && FreeChain(cfg, z, zn, head, links)
    ensures FreeChain(cfg, z, zn', head, links)
  {
    assert forall k: nat :: ChunkAt(cfg, z, zn', k) == ChunkAt(cfg, z, zn, k);
    forall k: nat | k < |zn'.free| ensures LinkAt(cfg, z, zn', links, k) { assert LinkAt(cfg, z, zn, links, k); }
  }

  /** The pointer and the statistics of an allocation from a listed zone. */
  lemma TakeResult(cfg: Config, st: State, size: nat, i: nat, all: set<nat>)
    requires Inv(cfg, st, all) && 0 < size < cfg.limit && ZoneIndex(size).0 == i && CanTake(cfg, st, i)
    ensures S.Alloc(cfg, st, size, all) == TakeChunk(cfg, st, i) && Inv(cfg, TakeChunk(cfg, st, i).1, all)
    ensures cfg.Served(i) && ZoneIndex(size).1 == ChunkOf(i)
    ensures var (r, s) := TakeChunk(cfg, st, i); var z := st.lists[i][0]; var zn := st.zones[z];
      && s.runs == st.runs && s.usage == st.usage && r.Some?
      && s.used == st.used + ChunkOf(i) && s.max == (if s.used > st.max then s.used else st.max)
      && Start(cfg, s, r.value) == Addr(cfg, z, i, if zn.uindex + 1 != cfg.Max(i) then zn.uindex + 1 else zn.free[0])
  {
    hide ZoneIndex, PagesOk, NoDup, ZoneChunks, PowerOfTwo, BaseOffset;
    AllocCases(cfg, st, size, all);
    TakeChunkDelivers(cfg, st, size, all);
  }

  /** Zones are doubled, up to 128 KB, while they stay below a thousandth of the heap. */
  function ZoneSizeFor(limsize: nat): nat {
    if 128 * 1024 < limsize / 1024 then 128 * 1024 else if 64 * 1024 < limsize / 1024 then 64 * 1024 else 32 * 1024
  }

  lemma InitTied(cfg: Config, start: nat, npages: nat)
    ensures Tied(cfg, Init(start, npages), map[], map[], seq(CLASSES, _ => 0), 0, 0)
  {
    hide ZoneChunks;
  }

  /** The byte at `a` is the same, defined or not. */
  ghost predicate SameByte(b: map<nat, Byte>, r: map<nat, Byte>, a: nat) {
    (a in b <==> a in r) && (a in b ==> r[a] == b[a])
  }

  ghost predicate SameRange(b: map<nat, Byte>, r: map<nat, Byte>, lo: nat, hi: nat) {
    forall a :: lo <= a < hi ==> SameByte(b, r, a)
  }

  /** The `n` bytes of `r` at `dst` are the `n` bytes of `b` at `src`. */
  ghost predicate CopiedRange(b: map<nat, Byte>, r: map<nat, Byte>, dst: nat, src: nat, n: nat) {
    forall a :: dst <= a < dst + n ==> (Shift(a, dst, src) in b <==> a in r) && (a in r ==> r[a] == b[Shift(a, dst, src)])
  }

  /** What the clients have stored in their allocations. */
  class ClientMemory {
    var bytes: map<nat, Byte>

    constructor ()
      ensures bytes == map[]
    {
      bytes := map[];
    }

    /** memcpy between ranges that do not overlap; an indeterminate byte stays indeterminate. */
    method Copy(dst: nat, src: nat, n: nat)
      requires dst + n <= src || src + n <= dst
      modifies this
      ensures CopiedRange(old(bytes), bytes, dst, src, n)
      ensures forall a: nat :: a < dst || dst + n <= a ==> SameByte(old(bytes), bytes, a)
    {
      bytes := (map a | a in bytes && !(dst <= a < dst + n) :: bytes[a])
        + (map a: nat | dst <= a < dst + n && Shift(a, dst, src) in bytes :: bytes[Shift(a, dst, src)]);
    }
  }

  class SlabHeap {
    const cfg: Config
    const pages: PageList
    const client: ClientMemory
    ghost const all: set<nat>
    var usage: map<nat, Usage>
    var zones: map<nat, ZoneHead>
    var links: map<nat, nat>
    var zoneArray: seq<nat>
    var zoneFree: nat
    var zoneFreeCnt: nat
    var used: int
    var max: int
    ghost var owner: map<nat, Owner>
    ghost var inUse: map<nat, Zone>
    ghost var lists: seq<seq<nat>>
    ghost var idle: seq<nat>

    ghost function Model(): State
      reads this, pages
    {
      State(pages.runs, usage, owner, inUse, lists, idle, used, max)
    }

    ghost predicate Valid()
      reads this, pages
    {
      pages.Valid() && Inv(cfg, Model(), all) && Tied(cfg, Model(), zones, links, zoneArray, zoneFree, zoneFreeCnt)
    }

    /** rt_slab_init, once the bounds are aligned: `npages` pages from `start` on. */
    constructor (start: nat, npages: nat, hdr: nat)
      requires start > 0 && npages > 0 && 0 < hdr <= PAGE
      ensures Valid() && fresh(pages) && fresh(client) && Model() == Init(start, npages) && all == P.Pages(pages.runs)
      ensures cfg.hdr == hdr && cfg.ZoneSize() == ZoneSizeFor(npages * PAGE)
    {
      hide Inv, Tied, P.Alloc, P.Pages, P.Canonical, Listed;
      var zoneSize := ChooseZoneSize(npages * PAGE);
      var limit := zoneSize / 4;
      if limit > 16 * 1024 { limit := 16 * 1024; }
      cfg := Config(zoneSize / PAGE, limit, hdr);
      pages := new PageList(start, npages);
      client := new ClientMemory();
      usage, zones, links := map[], map[], map[];
      zoneArray := seq(CLASSES, _ => 0);
      zoneFree, zoneFreeCnt, used, max := 0, 0, 0, 0;
      owner, inUse, lists, idle := map[], map[], seq(CLASSES, _ => []), [];
      all := P.Pages(P.Alloc([P.Run(start, npages)], PageCount(npages * 4)).1);
      new;
      var table := pages.Alloc((npages * 4 + (PAGE - 1)) / PAGE);
      InitInv(cfg, start, npages);
      InitTied(cfg, start, npages);
    }

    /** The loop that picks the zone size. */
    static method ChooseZoneSize(limsize: nat) returns (z: nat)
      ensures z == ZoneSizeFor(limsize)
    {
      z := 32 * 1024;
      while z < 128 * 1024 && z * 2 < limsize / 1024
        invariant z in {32 * 1024, 64 * 1024, 128 * 1024}
        invariant z > 32 * 1024 ==> z < limsize / 1024
        decreases 128 * 1024 - z
      {
        z := z * 2;
      }
    }

    /** The abstract state becomes `st`, as far as it is not read off the fields. */
    ghost method Adopt(st: State)
      modifies this`owner, this`inUse, this`lists, this`idle
      ensures owner == st.owner && inUse == st.zones && lists == st.lists && idle == st.idle
    {
      owner, inUse, lists, idle := st.owner, st.zones, st.lists, st.idle;
    }

    /** The statistics every successful allocation updates. */
    method Charge(n: nat)
      modifies this`used, this`max
      ensures used == old(used) + n && max == (if used > old(max) then used else old(max))
    {
      used := used + n;
      if used > max { max := used; }
    }

    /** rt_slab_alloc; `ptr` names the result for the specification. */
    method Alloc(size: nat) returns (r: Option<nat>, ghost ptr: Option<Pointer>)
      requires Valid()
      modifies this, pages
      ensures Valid() && (ptr, Model()) == S.Alloc(cfg, old(Model()), size, all)
      ensures r == (if ptr.Some? then Some(Start(cfg, Model(), ptr.value)) else None)
    {
      hide Inv, Tied, S.Alloc, AllocPages, TakeChunk, OpenZone, ZoneIndex, Start;
      AllocCases(cfg, Model(), size, all);
      if size == 0 { return None, None; }
      if size >= cfg.limit {
        r, ptr := AllocLarge(size);
        return;
      }
      var (zi, chunk) := ZoneIndex(size);
      Heads(cfg, Model(), zones, links, zoneArray, zoneFree, zoneFreeCnt, all);
      if zoneArray[zi] != 0 {
        r, ptr := FromZone(size, zi, chunk);
      } else {
        r, ptr := FromNewZone(size, zi, chunk);
      }
    }

    /** The branch for sizes from zone_limit on. */
    method AllocLarge(size: nat) returns (r: Option<nat>, ghost ptr: Option<Pointer>)
      requires Valid() && size >= cfg.limit
      modifies this, pages
      ensures Valid() && (ptr, Model()) == S.AllocPages(old(Model()), PageCount(size))
      ensures r == (if ptr.Some? then Some(Start(cfg, Model(), ptr.value)) else None)
    {
      hide Inv, Tied, P.Alloc, P.Canonical, Listed;
      ghost var st := Model();
      PageCase(cfg, st, size, all);
      var n := (size + (PAGE - 1)) / PAGE;
      var chunk := pages.Alloc(n);
      NoPagesLeft(st, n);
      if chunk.None? { return None, None; }
      usage := usage[chunk.value := Large(n)];
      Charge(n * PAGE);
      ghost var st' := S.AllocPages(st, n).1;
      assert usage == st.usage + map[chunk.value := Large(n)];
      Adopt(st');
      SameTied(cfg, st, st', zones, links, zoneArray, zoneFree, zoneFreeCnt);
      return Some(chunk.value * PAGE), Some(Pages(chunk.value));
    }

    /** The branch that finds a zone with a free chunk. */
    method FromZone(size: nat, zi: nat, chunkSize: nat) returns (r: Option<nat>, ghost ptr: Option<Pointer>)
      requires Valid() && 0 < size < cfg.limit && ZoneIndex(size) == (zi, chunkSize) && zi < |lists| && lists[zi] != []
      modifies this
      ensures Valid() && (ptr, Model()) == S.Alloc(cfg, old(Model()), size, all)
      ensures ptr.Some? && r == Some(Start(cfg, Model(), ptr.value))
    {
      hide Inv, P.Canonical, Listed, ZoneIndex, ZoneChunks, BaseOffset, Tied, TakeChunk, Start, Times, S.Alloc, TakenHead, P.Pages;
      ghost var st := Model();
      Heads(cfg, st, zones, links, zoneArray, zoneFree, zoneFreeCnt, all);
      TakeReady(cfg, st, zi, all);
      TakeResult(cfg, st, size, zi, all);
      TakeFacts(cfg, st, zones, links, zoneArray, zoneFree, zoneFreeCnt, zi, all);
      TakenTied(cfg, st, zones, links, zoneArray, zoneFree, zoneFreeCnt, zi, all);
      var z := zoneArray[zi];
      var h := zones[z];
      h := h.(nfree := h.nfree - 1);
      if h.nfree == 0 {
        zoneArray := zoneArray[zi := h.next];
        h := h.(next := 0);
      }
      var chunk;
      if h.uindex + 1 != h.nmax {
        h := h.(uindex := h.uindex + 1);
        chunk := h.base + h.uindex * chunkSize;
        TimesIsProduct(h.uindex, chunkSize);
      } else {
        chunk := h.freechunk;
        h := h.(freechunk := links[chunk]);
      }
      HeadTaken(zones[z], links, h);
      zones := zones[z := h];
      Charge(h.chunk);
      ptr := S.Alloc(cfg, st, size, all).0;
      Adopt(S.Alloc(cfg, st, size, all).1);
      r := Some(chunk);
    }

    /** The branch that opens a new zone. */
    method FromNewZone(size: nat, zi: nat, chunkSize: nat) returns (r: Option<nat>, ghost ptr: Option<Pointer>)
      requires Valid() && 0 < size < cfg.limit && ZoneIndex(size) == (zi, chunkSize) && zi < |lists| && lists[zi] == []
      modifies this, pages
      ensures Valid() && (ptr, Model()) == S.Alloc(cfg, old(Model()), size, all)
      ensures r == (if ptr.Some? then Some(Start(cfg, Model(), ptr.value)) else None)
    {
      hide Inv, P.Canonical, Listed, ZoneIndex, ZoneChunks, BaseOffset, Tied, Start, Times, S.Alloc, OpenZone, P.Pages, NewZone, Chain;
      ghost var st := Model();
      OpenResult(cfg, st, size, zi, all);
      Heads(cfg, st, zones, links, zoneArray, zoneFree, zoneFreeCnt, all);
      var z := GetZone();
      if z == 0 {
        FreeTied(cfg, st, zones, links, zoneArray, old(zoneFree), old(zoneFreeCnt), zoneFree, zoneFreeCnt);
        return None, None;
      }
      var off := BaseOffset(cfg.hdr, chunkSize);
      var nmax := (cfg.ZoneSize() - off) / chunkSize;
      NewMax(cfg, zi, chunkSize);
      OpenTied(cfg, st, zones, links, zoneArray, old(zoneFree), old(zoneFreeCnt), zoneFree, zoneFreeCnt, zi, z, all);
      zones := zones[z := ZoneHead(ZALLOC_SLAB_MAGIC, nmax - 1, nmax, zoneArray[zi], z * PAGE + off, 0, chunkSize, zi, 0)];
      zoneArray := zoneArray[zi := z];
      Charge(zones[z].chunk);
      Adopt(OpenZone(cfg, st, zi).1);
      return Some(zones[z].base + 0 * chunkSize), Some(Chunk(z, 0));
    }

    /** rt_slab_free; `p` names the pointer for the specification. */
    method Free(ptr: nat, ghost p: Pointer)
      requires Valid() && (ptr != 0 ==> Live(Model(), p) && ptr == Start(cfg, Model(), p))
      modifies this, pages
      ensures Valid() && Model() == (if ptr == 0 then old(Model()) else S.Free(cfg, old(Model()), p, all))
    {
      hide Inv, Tied, Start, S.Free, FreeChunk, FreePages, P.Pages, P.Canonical, Listed;
      if ptr == 0 { return; }
      TableLeadsBack(cfg, Model(), p, all);
      var q := ptr / PAGE;
      if usage[q].Large? {
        FreeLarge(q);
        return;
      }
      var z := q - usage[q].offset;
      PushChunk(z, ptr, p.c);
    }

    /** The branch for a large allocation. */
    method FreeLarge(p: nat)
      requires Valid() && Live(Model(), Pages(p)) && p in usage && usage[p].Large?
      modifies this, pages
      ensures Valid() && Model() == S.Free(cfg, old(Model()), Pages(p), all)
    {
      hide Inv, Tied, P.Pages, P.Canonical, Listed, P.Free;
      ghost var st := Model();
      LargeBack(cfg, st, p, all);
      var size := usage[p].pages;
      usage := usage[p := Large(0)];
      used := used - size * PAGE;
      pages.Free(p, size);
      assert usage == st.usage + map[p := Large(0)];
      ghost var s := S.Free(cfg, st, Pages(p), all);
      Adopt(s);
      SameTied(cfg, st, s, zones, links, zoneArray, zoneFree, zoneFreeCnt);
    }

    /** The branch for a chunk: push it, relist its zone if that was full, retire it if it is wholly
        free and not the only one listed. */
    method PushChunk(z: nat, ptr: nat, ghost c: nat)
      requires Valid() && Live(Model(), Chunk(z, c)) && ptr == Start(cfg, Model(), Chunk(z, c))
      modifies this, pages
      ensures Valid() && Model() == S.Free(cfg, old(Model()), Chunk(z, c), all)
    {
      hide Inv, Tied, P.Pages, P.Canonical, Listed, P.Free, Start, Pushed, S.Free, FreeChunk, S.Retire, Pushable, ZoneChunks;
      ghost var st := Model();
      PushReady(cfg, st, zones, links, zoneArray, zoneFree, zoneFreeCnt, z, c, all);
      PushTied(cfg, st, zones, links, zoneArray, zoneFree, zoneFreeCnt, z, c, all);
      assert zones[z].magic == ZALLOC_SLAB_MAGIC;
      var h := zones[z];
      links := links[ptr := h.freechunk];
      h := h.(freechunk := ptr);
      used := used - h.chunk;
      if h.nfree == 0 {
        h := h.(next := zoneArray[h.zi]);
        zoneArray := zoneArray[h.zi := z];
      }
      h := h.(nfree := h.nfree + 1);
      zones := zones[z := h];
      Adopt(Pushed(cfg, st, z, c));
      ListTied(cfg, Model(), zones, links, zoneArray, zoneFree, zoneFreeCnt, h.zi);
      OnlyOne(zones, zoneArray[h.zi], lists[h.zi], z);
      if h.nfree == h.nmax && (h.next != 0 || zoneArray[h.zi] != z) {
        Retire(z);
      }
    }

    /** A wholly free zone moves to the idle list; a third idle zone is given back. */
    method Retire(z: nat)
      requires pages.Valid() && Pushable(cfg, Model(), z, all) && Tied(cfg, Model(), zones, links, zoneArray, zoneFree, zoneFreeCnt)
      modifies this, pages
      ensures Valid() && Model() == S.Retire(cfg, old(Model()), z)
    {
      hide Tied, P.Pages, P.Canonical, Listed, P.Free, Inv, Chain, Without, Pushable, S.Retire, P.Interval, ZoneChunks;
      ghost var st := Model();
      RetireReady(cfg, st, zones, links, zoneArray, zoneFree, zoneFreeCnt, z, all);
      Unlist(z);
      RetireTied(cfg, st, old(zones), zones, links, old(zoneArray), zoneArray, zoneFree, zoneFreeCnt, z, all);
      zones := zones[z := zones[z].(magic := RT_UINT32_MAX, next := zoneFree)];
      zoneFree := z;
      zoneFreeCnt := zoneFreeCnt + 1;
      if zoneFreeCnt > ZONE_RELEASE_THRESH {
        var y := zoneFree;
        zoneFree := zones[y].next;
        zoneFreeCnt := zoneFreeCnt - 1;
        UnmarkZone(y);
        pages.Free(y, cfg.zonePages);
      }
      Adopt(S.Retire(cfg, st, z));
    }

    /** The walk through a pointer to the link that takes a zone off its list. */
    method Unlist(z: nat)
      requires z in zones && zones[z].zi < |zoneArray| && z != 0
      requires zones[z].zi < |lists| && z in lists[zones[z].zi] && NoDup(lists[zones[z].zi]) && 0 !in lists[zones[z].zi]
      requires Chain(zones, zoneArray[zones[z].zi], lists[zones[z].zi])
      modifies this`zones, this`zoneArray
      ensures var i := old(zones[z].zi); var l := Without(lists[i], z);
        && |zoneArray| == |old(zoneArray)| && (forall j: nat :: j < |zoneArray| && j != i ==> zoneArray[j] == old(zoneArray)[j])
        && Chain(zones, zoneArray[i], l)
        && zones.Keys == old(zones).Keys
        && (forall y :: y in zones ==> zones[y] == old(zones)[y].(next := zones[y].next))
        && (forall y :: y in zones && y !in l ==> zones[y] == old(zones)[y])
    {
      hide Chain, NoDup, Without;
      var i := zones[z].zi;
      ghost var list := lists[i];
      ghost var k := 0;
      var prev, cur := 0, zoneArray[i];
      RemoveFrom(list, z, 0);
      ChainHere(zones, zoneArray[i], list, 0);
      while cur != z
        invariant k < |list| && cur == list[k] && z in list[k..] && prev == (if k == 0 then 0 else list[k - 1])
        invariant Without(list, z) == list[..k] + Without(list[k..], z)
        modifies {}
        decreases |list| - k
      {
        ChainHere(zones, zoneArray[i], list, k);
        RemoveFrom(list, z, k);
        prev, cur := cur, zones[cur].next;
        k := k + 1;
      }
      ChainHere(zones, zoneArray[i], list, k);
      RemoveFrom(list, z, k);
      UnlinkChain(zones, zoneArray[i], list, k, z);
      if prev == 0 {
        zoneArray := zoneArray[i := zones[z].next];
      } else {
        zones := zones[prev := zones[prev].(next := zones[z].next)];
      }
    }

    /** rt_slab_realloc; `p` and `q` name the pointers for the specification.  The bytes that fit both
        sizes arrive, and no other allocation's bytes change. */
    method Realloc(ptr: nat, size: nat, ghost p: Pointer) returns (r: Option<nat>, ghost q: Option<Pointer>)
      requires Valid() && (ptr != 0 ==> Live(Model(), p) && ptr == Start(cfg, Model(), p))
      modifies this, pages, client
      ensures Valid()
      ensures (q, Model()) == S.Realloc(cfg, old(Model()), if ptr == 0 then None else Some(p), size, all)
      ensures r == (if q.Some? then Some(Start(cfg, Model(), q.value)) else None)
      ensures ptr != 0 && q.Some? ==>
        size > 0 && CopiedRange(old(client.bytes), client.bytes, r.value, ptr, Least(Wanted(p, size), Capacity(old(Model()), p)))
      ensures Undisturbed(cfg, old(Model()), Model(), old(client.bytes), client.bytes)
    {
      hide Inv, Tied, Start, S.Free, S.Alloc, P.Pages, P.Canonical, Listed, ZoneIndex, Capacity, Live, Exhausted, CopiedRange, Undisturbed;
      ghost var st := Model();
      AllSame(client.bytes);
      if ptr == 0 {
        r, q := Alloc(size);
        NothingDisturbed(cfg, st, Model(), client.bytes);
        return;
      }
      if size == 0 {
        Free(ptr, p);
        NothingDisturbed(cfg, st, Model(), client.bytes);
        return None, None;
      }
      TableLeadsBack(cfg, st, p, all);
      var entry := usage[ptr / PAGE];
      if entry.Large? {
        r, q := Trade(ptr, size, entry.pages * PAGE, p);
      } else {
        var z := ptr / PAGE - entry.offset;
        ChunkHead(cfg, st, zones, links, zoneArray, zoneFree, zoneFreeCnt, p, all);
        var want := ZoneIndex(size).1;
        if zones[z].chunk == want {
          NothingDisturbed(cfg, st, st, client.bytes);
          return Some(ptr), Some(p);
        }
        r, q := Trade(ptr, want, zones[z].chunk, p);
      }
    }

    /** Allocate, copy, free: the tail of both branches of rt_slab_realloc. */
    method Trade(ptr: nat, want: nat, has: nat, ghost p: Pointer) returns (r: Option<nat>, ghost q: Option<Pointer>)
      requires Valid() && Live(Model(), p) && ptr == Start(cfg, Model(), p) > 0 && has == Capacity(Model(), p)
      modifies this, pages, client
      ensures Valid()
      ensures var (x, s) := S.Alloc(cfg, old(Model()), want, all);
        && Inv(cfg, s, all) && q == x && (q.None? ==> Model() == s == old(Model()))
        && (q.Some? ==> Live(s, p) && q.value != p && Model() == S.Free(cfg, s, p, all))
      ensures r == (if q.Some? then Some(Start(cfg, Model(), q.value)) else None)
      ensures q.Some? ==> CopiedRange(old(client.bytes), client.bytes, r.value, ptr, Least(want, has))
      ensures Undisturbed(cfg, old(Model()), Model(), old(client.bytes), client.bytes)
    {
      hide Inv, Tied, Start, S.Free, S.Alloc, P.Pages, P.Canonical, Listed, Capacity, Live, Exhausted, CopiedRange, Undisturbed, SameByte;
      ghost var st := Model();
      AllocDelivers(cfg, st, want, all);
      r, q := Alloc(want);
      if r.None? {
        NothingDisturbed(cfg, st, st, client.bytes);
        return;
      }
      ghost var s := Model();
      StartSame(cfg, st, s, p, all);
      ApartLive(cfg, s, p, q.value, all);
      client.Copy(r.value, ptr, Least(want, has));
      FreeDelivers(cfg, s, p, all);
      Free(ptr, p);
      StartSame(cfg, s, Model(), q.value, all);
      OnlyTheNew(cfg, st, Model(), q.value, Least(want, has), old(client.bytes), client.bytes, all);
    }

    /** A zone off the idle list, or else from the page allocator; null when there is neither. */
    method GetZone() returns (z: nat)
      requires Valid()
      modifies this`zoneFree, this`zoneFreeCnt, this`usage, pages
      ensures pages.Valid()
      ensures var (x, t) := NewZone(cfg, old(Model()));
        && x == (if z == 0 then None else Some(z)) && pages.runs == t.runs && usage == t.usage
        && Chain(zones, zoneFree, t.idle) && zoneFreeCnt == |t.idle|
    {
      hide Inv, P.Canonical, Listed, P.Alloc, P.Pages;
      ghost var st := Model();
      Heads(cfg, st, zones, links, zoneArray, zoneFree, zoneFreeCnt, all);
      z := zoneFree;
      if z != 0 {
        ChainPop(zones, zoneFree, idle);
        zoneFree := zones[z].next;
        zoneFreeCnt := zoneFreeCnt - 1;
      } else {
        NoPagesLeft(st, cfg.zonePages);
        GivenPage(cfg, st, all);
        var p := pages.Alloc(cfg.zonePages);
        if p.None? { return; }
        z := p.value;
        MarkZone(z);
      }
    }

    /** The loop that enters a zone in the page table. */
    method MarkZone(z: nat)
      modifies this`usage
      ensures usage == old(usage) + ZoneEntries(z, cfg.zonePages)
    {
      var off := 0;
      while off < cfg.zonePages
        invariant off <= cfg.zonePages
        invariant usage == old(usage) + ZoneEntries(z, off)
      {
        usage := usage[z + off := Small(off)];
        off := off + 1;
        EntriesGrow(old(usage), z, off);
      }
    }

    /** The loop that strikes a zone from the page table. */
    method UnmarkZone(z: nat)
      modifies this`usage
      ensures usage == old(usage) + FreeEntries(z, cfg.zonePages)
    {
      var i := 0;
      while i < cfg.zonePages
        invariant i <= cfg.zonePages
        invariant usage == old(usage) + FreeEntries(z, i)
      {
        usage := usage[z + i := Unused];
        i := i + 1;
        EntriesGrow(old(usage), z, i);
      }
    }
  }

  lemma ChainHere(zones: map<nat, ZoneHead>, head: nat, list: seq<nat>, k: nat)
    requires Chain(zones, head, list)
    ensures head == First(list, 0) && (k < |list| ==> NextAt(zones, list, k))
  {}

  lemma RemoveFrom(list: seq<nat>, z: nat, k: nat)
    requires k < |list| && z in list[k..]
    ensures list[k] == z ==> list[..k] + Without(list[k..], z) == list[..k] + list[k + 1..]
    ensures list[k] != z ==> k + 1 < |list| && z in list[k + 1..] && list[..k] + Without(list[k..], z) == list[..k + 1] + Without(list[k + 1..], z)
    ensures list[..0] + Without(list[0..], z) == Without(list, z)
  {
    assert list[k..][0] == list[k] && list[k..][1..] == list[k + 1..];
    assert list[k..] == [list[k]] + list[k + 1..];
    assert list[0..] == list;
  }

  /** Taking entry `k` off a chain: the list head, or the link before it, is set past it. */
  lemma UnlinkChain(zones: map<nat, ZoneHead>, head: nat, list: seq<nat>, k: nat, z: nat)
    requires Chain(zones, head, list) && NoDup(list) && k < |list| && list[k] == z && z in zones
    ensures var l := list[..k] + list[k + 1..];
      if k == 0 then Chain(zones, zones[z].next, l)
      else list[k - 1] in zones && Chain(zones[list[k - 1] := zones[list[k - 1]].(next := zones[z].next)], head, l)
    ensures forall y :: y in list[..k] + list[k + 1..] <==> y in list && y != z
  {
    var l := list[..k] + list[k + 1..];
    assert NextAt(zones, list, k);
    forall y | y in list && y != z ensures y in l {
      var i :| 0 <= i < |list| && list[i] == y;
      assert l[if i < k then i else i - 1] == y;
    }
    if k == 0 {
      ChainPop(zones, head, list);
      assert l == list[1..];
    } else {
      assert NextAt(zones, list, k - 1);
      var zones' := zones[list[k - 1] := zones[list[k - 1]].(next := zones[z].next)];
      forall i: nat | i < |l| ensures NextAt(zones', l, i) {
        if i < k { assert NextAt(zones, list, i); } else { assert NextAt(zones, list, i + 1); }
      }
    }
  }

  /** A list that holds `z` is [z] exactly when `z` is its head and links to nothing. */
  lemma OnlyOne(zones: map<nat, ZoneHead>, head: nat, list: seq<nat>, z: nat)
    requires Chain(zones, head, list) && z in list && 0 !in list
    ensures z in zones && (list != [z] <==> zones[z].next != 0 || head != z)
  {
    var k :| 0 <= k < |list| && list[k] == z;
    assert NextAt(zones, list, k);
    assert NextAt(zones, list, 0);
  }

  lemma ListTied(cfg: Config, st: State, zones: map<nat, ZoneHead>, links: map<nat, nat>, zoneArray: seq<nat>,
                 zoneFree: nat, zoneFreeCnt: nat, i: nat)
    requires Tied(cfg, st, zones, links, zoneArray, zoneFree, zoneFreeCnt) && i < CLASSES
    ensures |zoneArray| == CLASSES == |st.lists| && Chain(zones, zoneArray[i], st.lists[i])
  {}

  function Least(a: nat, b: nat): nat {
    if a < b then a else b
  }

  /** Whatever is live before and after holds the bytes it held. */
  ghost predicate Undisturbed(cfg: Config, st: State, s: State, b: map<nat, Byte>, r: map<nat, Byte>) {
    forall o :: Live(st, o) && Live(s, o) ==> SameRange(b, r, Start(cfg, s, o), Start(cfg, s, o) + Capacity(s, o))
  }

  lemma NothingDisturbed(cfg: Config, st: State, s: State, b: map<nat, Byte>)
    ensures Undisturbed(cfg, st, s, b, b)
  {
    hide Live, Start, Capacity;
  }

  lemma AllSame(b: map<nat, Byte>)
    ensures forall p: nat, n: nat :: CopiedRange(b, b, p, p, n)
  {}

  /** Two live allocations do not overlap. */
  lemma ApartLive(cfg: Config, st: State, p: Pointer, q: Pointer, all: set<nat>)
    requires Inv(cfg, st, all) && Live(st, p) && Live(st, q) && p != q
    ensures Start(cfg, st, p) + Capacity(st, p) <= Start(cfg, st, q) || Start(cfg, st, q) + Capacity(st, q) <= Start(cfg, st, p)
  {
    hide Inv, Start, Capacity, IsLarge;
    LiveApart(cfg, st, p, q, all);
  }

  /** Stores inside a new allocation disturb no other. */
  lemma OnlyTheNew(cfg: Config, st: State, s: State, q: Pointer, n: nat, b: map<nat, Byte>, r: map<nat, Byte>, all: set<nat>)
    requires Inv(cfg, s, all) && Live(s, q) && !Live(st, q) && n <= Capacity(s, q)
    requires forall a: nat :: a < Start(cfg, s, q) || Start(cfg, s, q) + n <= a ==> SameByte(b, r, a)
    ensures Undisturbed(cfg, st, s, b, r)
  {
    hide Inv, Live, Start, Capacity, SameByte;
    forall o | Live(st, o) && Live(s, o) ensures SameRange(b, r, Start(cfg, s, o), Start(cfg, s, o) + Capacity(s, o)) {
      ApartLive(cfg, s, o, q, all);
    }
  }

  lemma StartSame(cfg: Config, st: State, s: State, p: Pointer, all: set<nat>)
    requires Inv(cfg, st, all) && Inv(cfg, s, all) && Live(st, p) && Live(s, p) && Capacity(s, p) == Capacity(st, p)
    ensures Start(cfg, s, p) == Start(cfg, st, p)
  {
    hide Inv, BaseOffset, ChunkOf, Times;
    ListFacts(cfg, st, all);
    ListFacts(cfg, s, all);
  }

  lemma ChunkHead(cfg: Config, st: State, zones: map<nat, ZoneHead>, links: map<nat, nat>, zoneArray: seq<nat>,
                  zoneFree: nat, zoneFreeCnt: nat, p: Pointer, all: set<nat>)
    requires Inv(cfg, st, all) && Live(st, p) && p.Chunk? && Tied(cfg, st, zones, links, zoneArray, zoneFree, zoneFreeCnt)
    ensures p.z in zones && zones[p.z].chunk == Capacity(st, p)
  {
    hide PagesOk, ZoneChunks, BaseOffset, Chain, FreeChain;
    assert ZoneTied(cfg, p.z, st.zones[p.z], zones[p.z], links);
  }

  lemma LargeBack(cfg: Config, st: State, p: nat, all: set<nat>)
    requires Inv(cfg, st, all) && IsLarge(st, p)
    ensures p > 0 && p in st.usage && st.usage[p].Large? && st.usage[p].pages > 0
    ensures P.Interval(p, st.usage[p].pages) !! P.Pages(st.runs)
    ensures var s := S.Free(cfg, st, Pages(p), all); var n := st.usage[p].pages;
      && Inv(cfg, s, all) && s.runs == P.Free(st.runs, p, n) && s.usage == st.usage + map[p := Large(0)]
      && s.used == st.used - n * PAGE && s.max == st.max && s.zones == st.zones && s.lists == st.lists && s.idle == st.idle
  {
    hide P.Canonical, P.Pages, P.Free, ListsOk, ZonesOk, IdleOk;
    LargePages(cfg, st, p, all);
    FreePagesDelivers(cfg, st, p, all);
    var n := st.usage[p].pages;
    assert forall q :: q in P.Interval(p, n) ==> P.Within(q, p, n);
  }

  lemma PushReady(cfg: Config, st: State, zones: map<nat, ZoneHead>, links: map<nat, nat>, zoneArray: seq<nat>,
                  zoneFree: nat, zoneFreeCnt: nat, z: nat, c: nat, all: set<nat>)
    requires Inv(cfg, st, all) && Live(st, Chunk(z, c)) && Tied(cfg, st, zones, links, zoneArray, zoneFree, zoneFreeCnt)
    ensures z in st.zones && st.zones[z].cls < CLASSES == |st.lists| == |zoneArray| && z in zones && z > 0
    ensures var zn := st.zones[z]; var h := zones[z];
      && h.magic == ZALLOC_SLAB_MAGIC && h.zi == zn.cls && h.nfree == zn.nfree && h.nmax == cfg.Max(zn.cls) && h.chunk == ChunkOf(zn.cls)
      && Start(cfg, st, Chunk(z, c)) == Addr(cfg, z, zn.cls, c) > 0
    ensures var s := Pushed(cfg, st, z, c);
      && s.runs == st.runs && s.usage == st.usage && s.used == st.used - ChunkOf(st.zones[z].cls) && s.max == st.max
      && z in s.zones && s.zones[z].cls == st.zones[z].cls && s.zones[z].nfree == st.zones[z].nfree + 1 && |s.lists| == CLASSES
      && s.lists == (if st.zones[z].nfree == 0 then st.lists[s.zones[z].cls := [z] + st.lists[s.zones[z].cls]] else st.lists)
      && z in s.lists[s.zones[z].cls] && 0 !in s.lists[s.zones[z].cls]
      && (Retires(cfg, s, z) ==> Pushable(cfg, s, z, all)) && (!Retires(cfg, s, z) ==> Inv(cfg, s, all))
      && S.Free(cfg, st, Chunk(z, c), all) == (if Retires(cfg, s, z) then S.Retire(cfg, s, z) else s)
  {
    hide P.Canonical, P.Pages, PagesOk, NoDup, ZoneChunks, Pushable, S.Retire, S.Free, Retires, PowerOfTwo;
    PushDelivers(cfg, st, z, c, all);
    assert ZoneTied(cfg, z, st.zones[z], zones[z], links);
    Heads(cfg, st, zones, links, zoneArray, zoneFree, zoneFreeCnt, all);
    ListFacts(cfg, st, all);
    assert IsZone(st, z);
    assert !IsZone(st, 0);
  }

  /** Chunks of zones in use have different addresses. */
  lemma AddrApart(cfg: Config, st: State, z: nat, c: nat, y: nat, d: nat, all: set<nat>)
    requires Inv(cfg, st, all) && Known(st, Chunk(z, c)) && Known(st, Chunk(y, d)) && (z != y || c != d)
    requires st.zones[z].cls < CLASSES && st.zones[y].cls < CLASSES
    ensures Addr(cfg, z, st.zones[z].cls, c) != Addr(cfg, y, st.zones[y].cls, d)
  {
    hide PagesOk, ListsOk, IdleOk, ZonesOk, BaseOffset, Times, ChunkOf;
    LiveApart(cfg, st, Chunk(z, c), Chunk(y, d), all);
    CapacityPositive(cfg, st, Chunk(z, c), all);
    CapacityPositive(cfg, st, Chunk(y, d), all);
  }

  lemma CapacityPositive(cfg: Config, st: State, p: Pointer, all: set<nat>)
    requires Inv(cfg, st, all) && Known(st, p)
    ensures Capacity(st, p) > 0
  {
    hide Inv, Known, Capacity;
    LiveInside(cfg, st, p, all);
  }

  lemma ChainElsewhere(cfg: Config, z: nat, zn: Zone, head: nat, links: map<nat, nat>, ptr: nat, v: nat)
    requires zn.cls < CLASSES && FreeChain(cfg, z, zn, head, links)
    requires forall k: nat :: k < |zn.free| ==> ChunkAt(cfg, z, zn, k) != ptr
    ensures FreeChain(cfg, z, zn, head, links[ptr := v])
  {
    hide Addr, ChunkAt;
    var links' := links[ptr := v];
    forall k: nat | k < |zn.free| ensures LinkAt(cfg, z, zn, links', k) { assert LinkAt(cfg, z, zn, links, k); }
  }

  lemma ChainPushed(cfg: Config, z: nat, zn: Zone, head: nat, links: map<nat, nat>, c: nat, zn': Zone)
    requires zn.cls < CLASSES && FreeChain(cfg, z, zn, head, links) && zn'.cls == zn.cls && zn'.free == [c] + zn.free
    requires Addr(cfg, z, zn.cls, c) in links && links[Addr(cfg, z, zn.cls, c)] == head
    ensures FreeChain(cfg, z, zn', Addr(cfg, z, zn.cls, c), links)
  {
    hide Addr;
    assert forall k: nat :: ChunkAt(cfg, z, zn', k + 1) == ChunkAt(cfg, z, zn, k);
    forall k: nat | k < |zn'.free| ensures LinkAt(cfg, z, zn', links, k) {
      if k > 0 { assert LinkAt(cfg, z, zn, links, k - 1); assert ChunkAt(cfg, z, zn', k - 1 + 1) == ChunkAt(cfg, z, zn, k - 1); }
    }
  }

  /** The stores rt_slab_free makes when it pushes a chunk. */
  lemma PushTied(cfg: Config, st: State, zones: map<nat, ZoneHead>, links: map<nat, nat>, zoneArray: seq<nat>,
                 zoneFree: nat, zoneFreeCnt: nat, z: nat, c: nat, all: set<nat>)
    requires Inv(cfg, st, all) && Live(st, Chunk(z, c)) && Tied(cfg, st, zones, links, zoneArray, zoneFree, zoneFreeCnt)
    requires z in st.zones && st.zones[z].cls < CLASSES == |st.lists| && z in zones
    ensures var h := zones[z]; var i := st.zones[z].cls; var ptr := Addr(cfg, z, i, c);
      var h' := h.(freechunk := ptr, next := if h.nfree == 0 then zoneArray[i] else h.next, nfree := h.nfree + 1);
      Tied(cfg, Pushed(cfg, st, z, c), zones[z := h'], links[ptr := h.freechunk],
           if h.nfree == 0 then zoneArray[i := z] else zoneArray, zoneFree, zoneFreeCnt)
  {
    hide PagesOk, NoDup, ZoneChunks, PowerOfTwo, BaseOffset, Chain, Addr;
    var h, i := zones[z], st.zones[z].cls;
    var ptr := Addr(cfg, z, i, c);
    var h' := h.(freechunk := ptr, next := if h.nfree == 0 then zoneArray[i] else h.next, nfree := h.nfree + 1);
    PushZonesTied(cfg, st, zones, links, zoneArray, zoneFree, zoneFreeCnt, z, c, all);
    PushChains(cfg, st, zones, links, zoneArray, zoneFree, zoneFreeCnt, z, h', all);
  }

  lemma PushZonesTied(cfg: Config, st: State, zones: map<nat, ZoneHead>, links: map<nat, nat>, zoneArray: seq<nat>,
                      zoneFree: nat, zoneFreeCnt: nat, z: nat, c: nat, all: set<nat>)
    requires Inv(cfg, st, all) && Live(st, Chunk(z, c)) && Tied(cfg, st, zones, links, zoneArray, zoneFree, zoneFreeCnt)
    requires z in st.zones && st.zones[z].cls < CLASSES == |st.lists| && z in zones
    ensures var h := zones[z]; var i := st.zones[z].cls; var ptr := Addr(cfg, z, i, c);
      var h' := h.(freechunk := ptr, next := if h.nfree == 0 then zoneArray[i] else h.next, nfree := h.nfree + 1);
      forall y :: y in st.zones ==> y in zones && ZoneTied(cfg, y, Pushed(cfg, st, z, c).zones[y], zones[z := h'][y], links[ptr := h.freechunk])
  {
    hide PagesOk, NoDup, ZoneChunks, PowerOfTwo, BaseOffset, Chain, Addr, ListsOk;
    var s := Pushed(cfg, st, z, c);
    var h, i := zones[z], st.zones[z].cls;
    var ptr := Addr(cfg, z, i, c);
    forall y | y in st.zones ensures y in zones && FreeChain(cfg, y, st.zones[y], zones[y].freechunk, links[ptr := h.freechunk]) && st.zones[y].cls < CLASSES {
      var zn := st.zones[y];
      assert ZoneTied(cfg, y, zn, zones[y], links) && GoodZone(cfg, zn);
      forall k: nat | k < |zn.free| ensures ChunkAt(cfg, y, zn, k) != ptr {
        assert zn.free[k] in zn.free;
        AddrApart(cfg, st, z, c, y, zn.free[k], all);
      }
      ChainElsewhere(cfg, y, zn, zones[y].freechunk, links, ptr, h.freechunk);
    }
    ChainPushed(cfg, z, st.zones[z], h.freechunk, links[ptr := h.freechunk], c, s.zones[z]);
    forall y | y in st.zones ensures ZoneTied(cfg, y, st.zones[y], zones[y], links) {}
  }

  lemma PushChains(cfg: Config, st: State, zones: map<nat, ZoneHead>, links: map<nat, nat>, zoneArray: seq<nat>,
                   zoneFree: nat, zoneFreeCnt: nat, z: nat, h': ZoneHead, all: set<nat>)
    requires Inv(cfg, st, all) && Tied(cfg, st, zones, links, zoneArray, zoneFree, zoneFreeCnt)
    requires z in st.zones && st.zones[z].cls < CLASSES == |st.lists| && z in zones
    requires h'.next == if zones[z].nfree == 0 then zoneArray[st.zones[z].cls] else zones[z].next
    ensures zones[z].nfree == st.zones[z].nfree
    ensures var i := st.zones[z].cls; var full := zones[z].nfree == 0; var zones' := zones[z := h'];
      var zoneArray' := if full then zoneArray[i := z] else zoneArray; var lists' := if full then st.lists[i := [z] + st.lists[i]] else st.lists;
      && (forall j: nat :: j < CLASSES ==> Chain(zones', zoneArray'[j], lists'[j]))
      && Chain(zones', zoneFree, st.idle)
  {
    hide PagesOk, NoDup, ZoneChunks, PowerOfTwo, BaseOffset, Chain, Addr, FreeChain, ListsOk, ZonesOk;
    var i := st.zones[z].cls;
    ListFacts(cfg, st, all);
    assert ZoneTied(cfg, z, st.zones[z], zones[z], links);
    forall j: nat | j < CLASSES ensures Chain(zones[z := h'], zoneArray[j], st.lists[j]) {
      assert Chain(zones, zoneArray[j], st.lists[j]);
      ChainSame(zones, zones[z := h'], zoneArray[j], st.lists[j]);
    }
    if zones[z].nfree == 0 { ChainPush(zones[z := h'], zoneArray[i], st.lists[i], z); }
    ChainSame(zones, zones[z := h'], zoneFree, st.idle);
  }

  lemma RetireReady(cfg: Config, st: State, zones: map<nat, ZoneHead>, links: map<nat, nat>, zoneArray: seq<nat>,
                    zoneFree: nat, zoneFreeCnt: nat, z: nat, all: set<nat>)
    requires Pushable(cfg, st, z, all) && Tied(cfg, st, zones, links, zoneArray, zoneFree, zoneFreeCnt)
    ensures z in st.zones && st.zones[z].cls < CLASSES == |st.lists| == |zoneArray| && z in zones && z > 0
    ensures var i := st.zones[z].cls;
      zones[z].zi == i && z in st.lists[i] && 0 !in st.lists[i] && NoDup(st.lists[i]) && Chain(zones, zoneArray[i], st.lists[i])
    ensures zoneFreeCnt == |st.idle| <= 2 && P.Interval(z, cfg.zonePages) !! P.Pages(st.runs) && cfg.zonePages > 0
    ensures var t := S.Retire(cfg, st, z);
      && Inv(cfg, t, all) && t.used == st.used && t.max == st.max
      && (if |st.idle| == 2 then t.runs == P.Free(st.runs, z, cfg.zonePages) && t.usage == st.usage + FreeEntries(z, cfg.zonePages)
          else t.runs == st.runs && t.usage == st.usage)
  {
    hide P.Canonical, P.Pages, P.Free, NoDup, ZoneChunks, PowerOfTwo, Without, Chain, BaseOffset, Addr, ZonesOk;
    var i := st.zones[z].cls;
    assert ZoneTied(cfg, z, st.zones[z], zones[z], links);
    assert Chain(zones, zoneArray[i], st.lists[i]);
    RetireDelivers(cfg, st, z, all);
    ZonePages(cfg, st, z, all);
    assert Ready(st, i, z);
    if 0 in st.lists[i] { assert Ready(st, i, 0); ZonePages(cfg, st, 0, all); }
    assert forall q :: q in P.Interval(z, cfg.zonePages) ==> P.Within(q, z, cfg.zonePages);
  }

  lemma RetireTied(cfg: Config, st: State, zones: map<nat, ZoneHead>, zones': map<nat, ZoneHead>, links: map<nat, nat>,
                   zoneArray: seq<nat>, zoneArray': seq<nat>, zoneFree: nat, zoneFreeCnt: nat, z: nat, all: set<nat>)
    requires Pushable(cfg, st, z, all) && Tied(cfg, st, zones, links, zoneArray, zoneFree, zoneFreeCnt)
    requires z in zones && zones'.Keys == zones.Keys && |zoneArray'| == |zoneArray|
    requires st.zones[z].cls < |zoneArray| && forall j: nat :: j < |zoneArray| && j != st.zones[z].cls ==> zoneArray'[j] == zoneArray[j]
    requires var i := st.zones[z].cls; var l := Without(st.lists[i], z);
      && Chain(zones', zoneArray'[i], l)
      && (forall y :: y in zones' ==> zones'[y] == zones[y].(next := zones'[y].next))
      && (forall y :: y in zones' && y !in l ==> zones'[y] == zones[y])
    ensures var zones'' := zones'[z := zones'[z].(magic := RT_UINT32_MAX, next := zoneFree)];
      if |st.idle| == 2 then Tied(cfg, S.Retire(cfg, st, z), zones'', links, zoneArray', zoneFree, zoneFreeCnt)
      else Tied(cfg, S.Retire(cfg, st, z), zones'', links, zoneArray', z, zoneFreeCnt + 1)
  {
    hide P.Canonical, P.Pages, P.Free, NoDup, ZoneChunks, PowerOfTwo, Without, Chain, BaseOffset, PagesOk, FreeChain, ZonesOk, S.Retire, ListsOk;
    var zones'' := zones'[z := zones'[z].(magic := RT_UINT32_MAX, next := zoneFree)];
    RetiredShape(cfg, st, z);
    RetiredZones(cfg, st, zones, zones', links, zoneArray, zoneFree, zoneFreeCnt, z, all);
    RetiredChains(cfg, st, zones, zones', zones'', zoneArray, zoneArray', zoneFree, z, all) by {
      forall j: nat | j < CLASSES ensures Chain(zones, zoneArray[j], st.lists[j]) {}
    }
  }

  lemma RetiredShape(cfg: Config, st: State, z: nat)
    requires z in st.zones && st.zones[z].cls < CLASSES == |st.lists|
    ensures var t := S.Retire(cfg, st, z); var i := st.zones[z].cls;
      && t.zones == st.zones - {z} && t.lists == st.lists[i := Without(st.lists[i], z)]
      && t.idle == (if |st.idle| >= 2 then st.idle else [z] + st.idle)
  {
    hide P.Free, Without;
  }

  lemma RetiredZones(cfg: Config, st: State, zones: map<nat, ZoneHead>, zones': map<nat, ZoneHead>, links: map<nat, nat>,
                     zoneArray: seq<nat>, zoneFree: nat, zoneFreeCnt: nat, z: nat, all: set<nat>)
    requires Tied(cfg, st, zones, links, zoneArray, zoneFree, zoneFreeCnt) && zones'.Keys == zones.Keys
    requires forall y :: y in zones' ==> zones'[y] == zones[y].(next := zones'[y].next)
    ensures forall y :: y in st.zones - {z} ==> y in zones' && ZoneTied(cfg, y, st.zones[y], zones'[y], links)
  {
    hide ZoneChunks, PowerOfTwo, Chain, BaseOffset, FreeChain;
    forall y | y in st.zones - {z} ensures y in zones' && ZoneTied(cfg, y, st.zones[y], zones'[y], links) {
      assert ZoneTied(cfg, y, st.zones[y], zones[y], links);
    }
  }

  lemma RetiredChains(cfg: Config, st: State, zones: map<nat, ZoneHead>, zones': map<nat, ZoneHead>, zones'': map<nat, ZoneHead>,
                      zoneArray: seq<nat>, zoneArray': seq<nat>, zoneFree: nat, z: nat, all: set<nat>)
    requires Pushable(cfg, st, z, all) && |zoneArray'| == |zoneArray| == CLASSES
    requires z in zones && zones'.Keys == zones.Keys
    requires forall j: nat :: j < CLASSES ==> Chain(zones, zoneArray[j], st.lists[j])
    requires forall j: nat :: j < |zoneArray| && j != st.zones[z].cls ==> zoneArray'[j] == zoneArray[j]
    requires var l := Without(st.lists[st.zones[z].cls], z);
      Chain(zones', zoneArray'[st.zones[z].cls], l) && (forall y :: y in zones' && y !in l ==> zones'[y] == zones[y])
    requires Chain(zones, zoneFree, st.idle)
    requires zones'' == zones'[z := zones'[z].(magic := RT_UINT32_MAX, next := zoneFree)]
    ensures var lists' := st.lists[st.zones[z].cls := Without(st.lists[st.zones[z].cls], z)];
      forall j: nat :: j < CLASSES ==> Chain(zones'', zoneArray'[j], lists'[j])
    ensures Chain(zones'', zoneFree, st.idle) && Chain(zones'', z, [z] + st.idle)
  {
    hide NoDup, Without, Chain, PagesOk, ZonesOk;
    var i := st.zones[z].cls;
    var l := Without(st.lists[i], z);
    WithoutFacts(st.lists[i], z);
    ChainSame(zones', zones'', zoneArray'[i], l);
    forall y | y in st.idle ensures y !in l && y != z { assert y in st.lists[i] ==> Ready(st, i, y); }
    forall j: nat | j < CLASSES && j != i ensures Chain(zones'', zoneArray'[j], st.lists[j]) {
      forall y | y in st.lists[j] ensures y !in l && y != z {
        assert Ready(st, j, y);
        assert y in st.lists[i] ==> Ready(st, i, y);
      }
      ChainSame(zones, zones'', zoneArray[j], st.lists[j]);
    }
    ChainSame(zones, zones'', zoneFree, st.idle);
    ChainPush(zones'', zoneFree, st.idle, z);
  }

  lemma EntriesGrow(m: map<nat, Usage>, z: nat, n: nat)
    requires n > 0
    ensures m + ZoneEntries(z, n) == (m + ZoneEntries(z, n - 1))[z + n - 1 := Small(n - 1)]
    ensures m + FreeEntries(z, n) == (m + FreeEntries(z, n - 1))[z + n - 1 := Unused]
  {
    assert forall q :: q in P.Interval(z, n) <==> q in P.Interval(z, n - 1) || q == z + n - 1;
  }

  lemma GivenPage(cfg: Config, st: State, all: set<nat>)
    requires Inv(cfg, st, all)
    ensures P.Alloc(st.runs, cfg.zonePages).0.Some? ==> P.Alloc(st.runs, cfg.zonePages).0.value > 0
  {
    hide P.Alloc;
    PagesCanonical(cfg, st, all);
    P.AllocDelivers(st.runs, 1, cfg.zonePages);
  }

  lemma NewMax(cfg: Config, i: nat, c: nat)
    requires cfg.Ok() && cfg.Served(i) && c == ChunkOf(i)
    ensures cfg.ZoneSize() >= BaseOffset(cfg.hdr, c) && cfg.Max(i) == (cfg.ZoneSize() - BaseOffset(cfg.hdr, c)) / c >= 2
  {
    ServedMax(cfg, i);
    QuotientIsDiv(cfg.ZoneSize() - BaseOffset(cfg.hdr, c), c);
  }

  lemma OpenResult(cfg: Config, st: State, size: nat, i: nat, all: set<nat>)
    requires Inv(cfg, st, all) && 0 < size < cfg.limit && ZoneIndex(size).0 == i && i < |st.lists| && st.lists[i] == []
    ensures cfg.Ok() && cfg.Served(i) && ZoneIndex(size).1 == ChunkOf(i) && |st.lists| == CLASSES && cfg.Max(i) >= 2
    ensures S.Alloc(cfg, st, size, all) == OpenZone(cfg, st, i)
    ensures var (r, s) := OpenZone(cfg, st, i); var (x, t) := NewZone(cfg, st);
      && (x.None? <==> r.None?) && (x.None? ==> s == st && t == st)
      && (x.Some? ==>
            && Inv(cfg, s, all) && s.runs == t.runs && s.usage == t.usage && r == Some(Chunk(x.value, 0))
            && s.used == st.used + ChunkOf(i) && s.max == (if s.used > st.max then s.used else st.max)
            && Start(cfg, s, r.value) == x.value * PAGE + BaseOffset(cfg.hdr, ChunkOf(i)))
  {
    hide ZoneIndex, PagesOk, P.Alloc, ZoneChunks, BaseOffset;
    AllocCases(cfg, st, size, all);
    OpenZoneDelivers(cfg, st, size, all);
  }

  lemma FreeTied(cfg: Config, st: State, zones: map<nat, ZoneHead>, links: map<nat, nat>, zoneArray: seq<nat>,
                 zoneFree0: nat, zoneFreeCnt0: nat, zoneFree: nat, zoneFreeCnt: nat)
    requires Tied(cfg, st, zones, links, zoneArray, zoneFree0, zoneFreeCnt0)
    requires Chain(zones, zoneFree, st.idle) && zoneFreeCnt == |st.idle|
    ensures Tied(cfg, st, zones, links, zoneArray, zoneFree, zoneFreeCnt)
  {}

  lemma OpenTied(cfg: Config, st: State, zones: map<nat, ZoneHead>, links: map<nat, nat>, zoneArray: seq<nat>,
                 zoneFree0: nat, zoneFreeCnt0: nat, zoneFree: nat, zoneFreeCnt: nat, i: nat, z: nat, all: set<nat>)
    requires Inv(cfg, st, all) && Tied(cfg, st, zones, links, zoneArray, zoneFree0, zoneFreeCnt0)
    requires i < CLASSES == |st.lists| && cfg.Served(i) && st.lists[i] == [] && cfg.Max(i) >= 2
    requires NewZone(cfg, st).0 == Some(z) && Chain(zones, zoneFree, NewZone(cfg, st).1.idle) && zoneFreeCnt == |NewZone(cfg, st).1.idle|
    ensures |zoneArray| == CLASSES
    ensures var c := ChunkOf(i); var n := cfg.Max(i);
      var h := ZoneHead(ZALLOC_SLAB_MAGIC, n - 1, n, zoneArray[i], z * PAGE + BaseOffset(cfg.hdr, c), 0, c, i, 0);
      Tied(cfg, OpenZone(cfg, st, i).1, zones[z := h], links, zoneArray[i := z], zoneFree, zoneFreeCnt)
  {
    hide ZoneChunks, PowerOfTwo, BaseOffset, PagesOk, Chain, NoDup, NewZone;
    var c, n := ChunkOf(i), cfg.Max(i);
    var h := ZoneHead(ZALLOC_SLAB_MAGIC, n - 1, n, zoneArray[i], z * PAGE + BaseOffset(cfg.hdr, c), 0, c, i, 0);
    var s := OpenZone(cfg, st, i).1;
    OpenedPages(cfg, st, z, all);
    ListFacts(cfg, st, all);
    assert ZoneTied(cfg, z, s.zones[z], h, links);
    forall y | y in s.zones && y != z ensures y in zones && ZoneTied(cfg, y, s.zones[y], zones[y], links) {
      assert ZoneTied(cfg, y, st.zones[y], zones[y], links);
    }
    forall j: nat | j < CLASSES ensures Chain(zones[z := h], zoneArray[i := z][j], s.lists[j]) {
      OpenChain(cfg, st, zones, zoneArray, i, z, h, j, all);
    }
    ChainSame(zones, zones[z := h], zoneFree, s.idle);
  }

  /** The list of class `j` around a new zone of class `i`. */
  lemma OpenChain(cfg: Config, st: State, zones: map<nat, ZoneHead>, zoneArray: seq<nat>, i: nat, z: nat, h: ZoneHead, j: nat, all: set<nat>)
    requires Inv(cfg, st, all) && z !in st.zones && i < CLASSES && j < CLASSES == |zoneArray| && h.next == zoneArray[i]
    requires Chain(zones, zoneArray[j], st.lists[j])
    ensures Chain(zones[z := h], zoneArray[i := z][j], if j == i then [z] + st.lists[j] else st.lists[j])
  {
    hide PagesOk, NoDup, Chain, ZonesOk;
    assert z in st.lists[j] ==> Ready(st, j, z);
    ChainSame(zones, zones[z := h], zoneArray[j], st.lists[j]);
    if j == i { ChainPush(zones[z := h], zoneArray[i], st.lists[i], z); }
  }

  lemma HeadTaken(h: ZoneHead, links: map<nat, nat>, t: ZoneHead)
    requires h.nfree > 0 && (h.uindex + 1 == h.nmax ==> h.freechunk in links)
    requires t == h.(nfree := h.nfree - 1, next := if h.nfree == 1 then 0 else h.next,
                     uindex := if h.uindex + 1 != h.nmax then h.uindex + 1 else h.uindex,
                     freechunk := if h.uindex + 1 != h.nmax then h.freechunk else links[h.freechunk])
    ensures t == TakenHead(h, links)
  {}

  lemma NoPagesLeft(st: State, n: nat)
    ensures P.Alloc(st.runs, n).0.None? ==> P.Alloc(st.runs, n).1 == st.runs
  {}

  lemma PageCase(cfg: Config, st: State, size: nat, all: set<nat>)
    requires Inv(cfg, st, all) && size >= cfg.limit
    ensures Inv(cfg, S.AllocPages(st, PageCount(size)).1, all)
      && PageCount(size) > 0
  {
    hide PagesOk, P.Alloc;
    AllocPagesDelivers(cfg, st, size, all);
    PageCountBounds(size);
  }

  lemma SameTied(cfg: Config, st: State, s: State, zones: map<nat, ZoneHead>, links: map<nat, nat>, zoneArray: seq<nat>,
                 zoneFree: nat, zoneFreeCnt: nat)
    requires Tied(cfg, st, zones, links, zoneArray, zoneFree, zoneFreeCnt)
    requires s.zones == st.zones && s.lists == st.lists && s.idle == st.idle
    ensures Tied(cfg, s, zones, links, zoneArray, zoneFree, zoneFreeCnt)
  {}

  lemma AllocCases(cfg: Config, st: State, size: nat, all: set<nat>)
    requires Inv(cfg, st, all)
    ensures size == 0 ==> S.Alloc(cfg, st, size, all) == (None, st)
    ensures size >= cfg.limit && size > 0 ==> S.Alloc(cfg, st, size, all) == AllocPages(st, PageCount(size))
    ensures 0 < size < cfg.limit ==>
      var i := ZoneIndex(size).0;
      && cfg.Served(i) && ChunkOf(i) == ZoneIndex(size).1 && |st.lists| == CLASSES && cfg.Max(i) >= 2
      && (st.lists[i] != [] ==>
            && st.lists[i][0] in st.zones && st.zones[st.lists[i][0]].cls == i && st.zones[st.lists[i][0]].nfree > 0
            && (st.zones[st.lists[i][0]].uindex + 1 == cfg.Max(i) ==> st.zones[st.lists[i][0]].free != []))
      && S.Alloc(cfg, st, size, all) == if st.lists[i] != [] then TakeChunk(cfg, st, i) else OpenZone(cfg, st, i)
  {
    hide ZoneIndex, PagesOk;
    if 0 < size < cfg.limit { AllocReady(cfg, st, size, all); }
  }

  /** No zone is page 0, so a list is empty exactly when its head is null. */
  lemma Heads(cfg: Config, st: State, zones: map<nat, ZoneHead>, links: map<nat, nat>, zoneArray: seq<nat>,
                   zoneFree: nat, zoneFreeCnt: nat, all: set<nat>)
    requires Inv(cfg, st, all) && Tied(cfg, st, zones, links, zoneArray, zoneFree, zoneFreeCnt)
    ensures |zoneArray| == CLASSES == |st.lists|
    ensures forall i: nat :: i < CLASSES ==> (zoneArray[i] == 0 <==> st.lists[i] == []) && (st.lists[i] != [] ==> zoneArray[i] == st.lists[i][0])
    ensures (zoneFree == 0 <==> st.idle == []) && (st.idle != [] ==> zoneFree == st.idle[0])
    ensures forall z :: IsZone(st, z) ==> z > 0
  {
    forall z | IsZone(st, z) ensures z > 0 { ZonePages(cfg, st, z, all); }
    hide PagesOk;
    assert st.idle != [] ==> st.idle[0] in st.idle && IsZone(st, st.idle[0]);
    forall i: nat | i < CLASSES ensures (zoneArray[i] == 0 <==> st.lists[i] == []) && (st.lists[i] != [] ==> zoneArray[i] == st.lists[i][0]) {
      assert Chain(zones, zoneArray[i], st.lists[i]);
      if st.lists[i] != [] { assert st.lists[i][0] in st.lists[i]; assert Ready(st, i, st.lists[i][0]); assert IsZone(st, st.lists[i][0]); }
    }
  }
}
