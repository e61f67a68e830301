/** The page allocator under the slab zones (rt-thread/src/slab.c, lines 201-306): free runs of
    pages kept sorted, disjoint and never touching. */
module SlabPagesSpec {
  import opened Memory

  /** A run of `count` free pages from page number `start` on. */
  datatype Run = Run(start: nat, count: nat) {
    function End(): nat { start + count }
  }

  predicate Within(p: nat, a: nat, n: nat) {
    a <= p < a + n
  }

  function Interval(a: nat, n: nat): set<nat> {
    set p: nat | a <= p < a + n && Within(p, a, n)
  }

  function Pages(rs: seq<Run>): set<nat> {
    if rs == [] then {} else Interval(rs[0].start, rs[0].count) + Pages(rs[1..])
  }

  /** Sorted by address from `lo` on, no run empty, no two runs touching. */
  ghost predicate Canonical(rs: seq<Run>, lo: nat) {
    rs == [] || (lo <= rs[0].start && rs[0].count > 0 && Canonical(rs[1..], rs[0].End() + 1))
  }

  /** Index of the first run, from `i` on, with at least `n` pages. */
  function FirstFit(rs: seq<Run>, n: nat, i: nat): (k: nat)
    requires i <= |rs|
    ensures i <= k <= |rs|
    ensures k < |rs| ==> rs[k].count >= n
    ensures forall j :: i <= j < k ==> rs[j].count < n
    decreases |rs| - i
  {
    if i == |rs| || rs[i].count >= n then i else FirstFit(rs, n, i + 1)
  }

  function Alloc(rs: seq<Run>, n: nat): (Option<nat>, seq<Run>) {
    var k := FirstFit(rs, n, 0);
    if n == 0 || k == |rs| then (None, rs)
    else if rs[k].count > n then (Some(rs[k].start), rs[..k] + [Run(rs[k].start + n, rs[k].count - n)] + rs[k + 1..])
    else (Some(rs[k].start), rs[..k] + rs[k + 1..])
  }

  function Free(rs: seq<Run>, a: nat, n: nat): seq<Run> {
    if rs == [] then [Run(a, n)]
    else if rs[0].End() == a then
      if |rs| > 1 && a + n == rs[1].start then [Run(rs[0].start, rs[0].count + n + rs[1].count)] + rs[2..]
      else [Run(rs[0].start, rs[0].count + n)] + rs[1..]
    else if rs[0].start == a + n then [Run(a, n + rs[0].count)] + rs[1..]
    else if rs[0].start > a + n then [Run(a, n)] + rs
    else [rs[0]] + Free(rs[1..], a, n)
  }

  ghost predicate FreeRun(rs: seq<Run>, a: nat, n: nat) {
    Interval(a, n) <= Pages(rs)
  }

  lemma {:induction false} PagesAbove(rs: seq<Run>, lo: nat)
    requires Canonical(rs, lo)
    ensures forall p :: p in Pages(rs) ==> lo <= p
  {
    if rs != [] { PagesAbove(rs[1..], rs[0].End() + 1); }
  }

  lemma {:induction false} CanonicalLower(rs: seq<Run>, lo: nat, lo': nat)
    requires Canonical(rs, lo) && (rs == [] || lo' <= rs[0].start)
    ensures Canonical(rs, lo')
  {}

  /** The set of free pages determines the list. */
  lemma {:induction false} CanonicalUnique(a: seq<Run>, b: seq<Run>, lo: nat, lo': nat)
    requires Canonical(a, lo) && Canonical(b, lo') && Pages(a) == Pages(b)
    ensures a == b
  {
    if a == [] || b == [] {
      NoPages(a, lo);
      NoPages(b, lo');
    } else {
      assert a[0].start in Pages(a) && b[0].start in Pages(b);
      FirstRun(a, lo);
      FirstRun(b, lo');
      PagesAbove(a, a[0].start) by { CanonicalLower(a, lo, a[0].start); }
      PagesAbove(b, b[0].start) by { CanonicalLower(b, lo', b[0].start); }
      assert a[0].start == b[0].start;
      assert a[0].End() !in Interval(b[0].start, b[0].count);
      assert b[0].End() !in Interval(a[0].start, a[0].count);
      assert Pages(a[1..]) == Pages(a) - Interval(a[0].start, a[0].count);
      assert Pages(b[1..]) == Pages(b) - Interval(b[0].start, b[0].count);
      CanonicalUnique(a[1..], b[1..], a[0].End() + 1, b[0].End() + 1);
      assert a == [a[0]] + a[1..] && b == [b[0]] + b[1..];
    }
  }

  lemma NoPages(rs: seq<Run>, lo: nat)
    requires Canonical(rs, lo)
    ensures Pages(rs) == {} <==> rs == []
  {
    if rs != [] { assert rs[0].start in Interval(rs[0].start, rs[0].count); }
  }

  lemma FirstRun(rs: seq<Run>, lo: nat)
    requires Canonical(rs, lo) && rs != []
    ensures Pages(rs[1..]) !! Interval(rs[0].start, rs[0].count) && rs[0].End() !in Pages(rs)
  {
    PagesAbove(rs[1..], rs[0].End() + 1);
  }

  lemma Headed(r: Run, rs: seq<Run>)
    ensures Pages([r] + rs) == Interval(r.start, r.count) + Pages(rs)
    ensures forall lo: nat :: Canonical([r] + rs, lo) <==> lo <= r.start && r.count > 0 && Canonical(rs, r.End() + 1)
  {
    assert ([r] + rs)[1..] == rs;
  }

  lemma Adjacent(a: nat, n: nat, m: nat)
    ensures Interval(a, n + m) == Interval(a, n) + Interval(a + n, m)
  {}

  /** Freeing pages that are not free adds exactly them, and coalesces. */
  lemma {:induction false} FreeDelivers(rs: seq<Run>, lo: nat, a: nat, n: nat)
    requires Canonical(rs, lo) && lo <= a && n > 0 && Interval(a, n) !! Pages(rs)
    ensures Canonical(Free(rs, a, n), lo)
    ensures Pages(Free(rs, a, n)) == Pages(rs) + Interval(a, n)
  {
    hide Interval;
    if rs == [] {
      Headed(Run(a, n), []);
    } else {
      var b := rs[0];
      Apart(rs, a, n);
      if b.End() == a {
        Adjacent(b.start, b.count, n);
        if |rs| > 1 && a + n == rs[1].start {
          assert rs[1..][1..] == rs[2..];
          Adjacent(b.start, b.count + n, rs[1].count);
          Headed(Run(b.start, b.count + n + rs[1].count), rs[2..]);
        } else {
          Headed(Run(b.start, b.count + n), rs[1..]);
          if |rs| > 1 { Apart(rs[1..], a, n); }
          CanonicalLower(rs[1..], b.End() + 1, a + n + 1);
        }
      } else if b.start == a + n {
        Adjacent(a, n, b.count);
        Headed(Run(a, n + b.count), rs[1..]);
      } else if b.start > a + n {
        Headed(Run(a, n), rs);
        CanonicalLower(rs, lo, a + n + 1);
      } else {
        FreeDelivers(rs[1..], b.End() + 1, a, n);
        Headed(b, Free(rs[1..], a, n));
      }
    }
  }

  lemma Apart(rs: seq<Run>, a: nat, n: nat)
    requires rs != [] && rs[0].count > 0 && n > 0 && Interval(a, n) !! Pages(rs)
    ensures a + n <= rs[0].start || rs[0].End() <= a
  {
    assert rs[0].start in Interval(rs[0].start, rs[0].count) && a in Interval(a, n);
    if rs[0].start <= a { assert a !in Interval(rs[0].start, rs[0].count); }
    else { assert rs[0].start !in Interval(a, n); }
  }

  lemma {:induction false} PagesConcat(a: seq<Run>, b: seq<Run>)
    ensures Pages(a + b) == Pages(a) + Pages(b)
  {
    if a == [] { assert a + b == b; } else {
      PagesConcat(a[1..], b);
      assert (a + b)[1..] == a[1..] + b;
    }
  }

  /** Replacing the head of a tail by a run that starts no lower and ends no higher keeps order. */
  lemma {:induction false} CanonicalSplice(a: seq<Run>, r: Run, b: seq<Run>, m: seq<Run>, lo: nat)
    requires Canonical(a + [r] + b, lo) && |m| <= 1
    requires m != [] ==> r.start <= m[0].start && m[0].count > 0 && m[0].End() <= r.End()
    ensures Canonical(a + m + b, lo)
    decreases |a|
  {
    if a == [] {
      assert ([] + [r] + b)[1..] == b;
      if m == [] {
        assert [] + m + b == b;
        CanonicalLower(b, r.End() + 1, lo) by { if b != [] { assert b[0].start >= r.End() + 1; } }
      } else {
        assert ([] + m + b)[1..] == b;
        CanonicalLower(b, r.End() + 1, m[0].End() + 1);
      }
    } else {
      assert (a + [r] + b)[1..] == a[1..] + [r] + b;
      assert (a + m + b)[1..] == a[1..] + m + b;
      CanonicalSplice(a[1..], r, b, m, a[0].End() + 1);
    }
  }

  /** Consecutive free pages lie in one run. */
  lemma {:induction false} InOneRun(rs: seq<Run>, lo: nat, a: nat, n: nat) returns (k: nat)
    requires Canonical(rs, lo) && n > 0 && FreeRun(rs, a, n)
    ensures k < |rs| && rs[k].start <= a && a + n <= rs[k].End()
  {
    assert a in Interval(a, n);
    PagesAbove(rs[1..], rs[0].End() + 1);
    if a in Interval(rs[0].start, rs[0].count) {
      FirstRun(rs, lo);
      assert rs[0].End() !in Interval(a, n);
      k := 0;
    } else {
      forall p | p in Interval(a, n) ensures p in Pages(rs[1..]) { assert p in Pages(rs); }
      k := InOneRun(rs[1..], rs[0].End() + 1, a, n);
      k := k + 1;
    }
  }

  lemma {:induction false} RunIsFree(rs: seq<Run>, k: nat)
    requires k < |rs|
    ensures FreeRun(rs, rs[k].start, rs[k].count)
  {
    if k > 0 { RunIsFree(rs[1..], k - 1); }
  }

  /** rt_slab_page_alloc fails exactly when no `n` consecutive pages are free (or n is 0), and
      otherwise takes the lowest such stretch and nothing else. */
  lemma AllocDelivers(rs: seq<Run>, lo: nat, n: nat)
    requires Canonical(rs, lo)
    ensures var (p, rs') := Alloc(rs, n);
      && Canonical(rs', lo)
      && (p.None? <==> n == 0 || forall a :: !FreeRun(rs, a, n))
      && (p.None? ==> rs' == rs)
      && (p.Some? ==>
            && lo <= p.value && FreeRun(rs, p.value, n)
            && (forall a :: FreeRun(rs, a, n) ==> p.value <= a)
            && Pages(rs') == Pages(rs) - Interval(p.value, n))
  {
    var k := FirstFit(rs, n, 0);
    if n > 0 {
      forall a | FreeRun(rs, a, n) ensures k < |rs| && rs[k].start <= a {
        var j := InOneRun(rs, lo, a, n);
        if k < j { RunsOrdered(rs, lo, k, j); }
      }
      if k < |rs| { AllocAt(rs, lo, n, k); }
    }
  }

  lemma {:induction false} RunsOrdered(rs: seq<Run>, lo: nat, j: nat, k: nat)
    requires Canonical(rs, lo) && j < k < |rs|
    ensures lo <= rs[j].start && rs[j].End() < rs[k].start
    decreases k
  {
    if j > 0 { RunsOrdered(rs[1..], rs[0].End() + 1, j - 1, k - 1); }
    else if k > 1 {
      RunsOrdered(rs[1..], rs[0].End() + 1, 0, k - 1);
    }
  }

  lemma AllocAt(rs: seq<Run>, lo: nat, n: nat, k: nat)
    requires Canonical(rs, lo) && n > 0 && k == FirstFit(rs, n, 0) < |rs|
    ensures var (p, rs') := Alloc(rs, n);
      && Canonical(rs', lo) && p == Some(rs[k].start) && lo <= rs[k].start
      && FreeRun(rs, rs[k].start, n) && Pages(rs') == Pages(rs) - Interval(rs[k].start, n)
  {
    hide Canonical, Pages, Interval;
    var r, a, b := rs[k], rs[..k], rs[k + 1..];
    var m := if r.count > n then [Run(r.start + n, r.count - n)] else [];
    assert rs == a + [r] + b;
    assert Alloc(rs, n).1 == a + m + b;
    CanonicalSplice(a, r, b, m, lo);
    RunIsFree(rs, k);
    AllocLower(rs, lo, k, n);
    Parts(a, r, b, lo);
    PagesConcat(a + m, b);
    PagesConcat(a, m);
    RestPages(r, n);
  }

  lemma AllocLower(rs: seq<Run>, lo: nat, k: nat, n: nat)
    requires Canonical(rs, lo) && k < |rs| && 0 < n <= rs[k].count && FreeRun(rs, rs[k].start, rs[k].count)
    ensures lo <= rs[k].start && FreeRun(rs, rs[k].start, n)
  {
    PagesAbove(rs, lo);
    assert rs[k].start in Interval(rs[k].start, rs[k].count);
  }

  lemma RestPages(r: Run, n: nat)
    requires n <= r.count
    ensures var m := if r.count > n then [Run(r.start + n, r.count - n)] else [];
      Pages(m) == Interval(r.start, r.count) - Interval(r.start, n) && Interval(r.start, n) <= Interval(r.start, r.count)
  {
    if r.count > n { assert [Run(r.start + n, r.count - n)][1..] == []; }
  }

  /** The pages of a canonical list around one run. */
  lemma {:induction false} Parts(a: seq<Run>, r: Run, b: seq<Run>, lo: nat)
    requires Canonical(a + [r] + b, lo)
    ensures Pages(a + [r] + b) == Pages(a) + Interval(r.start, r.count) + Pages(b)
    ensures Pages(a) !! Interval(r.start, r.count) && Pages(b) !! Interval(r.start, r.count)
    decreases |a|
  {
    var rs := a + [r] + b;
    if a == [] {
      assert rs[1..] == b;
      FirstRun(rs, lo);
    } else {
      assert rs[1..] == a[1..] + [r] + b;
      Parts(a[1..], r, b, a[0].End() + 1);
      PagesAbove(rs[1..], rs[0].End() + 1);
      assert Interval(r.start, r.count) <= Pages(rs[1..]);
    }
  }

  /** Giving back the pages of an allocation restores the list itself. */
  lemma FreeUndoesAlloc(rs: seq<Run>, lo: nat, n: nat)
    requires Canonical(rs, lo) && Alloc(rs, n).0.Some?
    ensures Free(Alloc(rs, n).1, Alloc(rs, n).0.value, n) == rs
  {
    hide Canonical, Free, Pages, Interval, Alloc;
    var (p, rs') := Alloc(rs, n);
    AllocDelivers(rs, lo, n);
    FreeDelivers(rs', lo, p.value, n);
    CanonicalUnique(rs, Free(rs', p.value, n), lo, lo);
  }

  /** The order in which two stretches are freed leaves no trace in the list. */
  lemma FreesCommute(rs: seq<Run>, lo: nat, a: nat, n: nat, b: nat, m: nat)
    requires Canonical(rs, lo) && lo <= a && lo <= b && n > 0 && m > 0
    requires Interval(a, n) !! Pages(rs) && Interval(b, m) !! Pages(rs) && Interval(a, n) !! Interval(b, m)
    ensures Free(Free(rs, a, n), b, m) == Free(Free(rs, b, m), a, n)
  {
    hide Canonical, Free, Pages, Interval;
    FreeDelivers(rs, lo, a, n);
    FreeDelivers(rs, lo, b, m);
    FreeDelivers(Free(rs, a, n), lo, b, m);
    FreeDelivers(Free(rs, b, m), lo, a, n);
    CanonicalUnique(Free(Free(rs, a, n), b, m), Free(Free(rs, b, m), a, n), lo, lo);
  }

  /** A client takes pages or gives back pages it holds. */
  datatype Op = Take(n: nat) | Give(a: nat, n: nat)

  datatype System = System(runs: seq<Run>, held: set<nat>)

  ghost predicate Legal(s: System, op: Op) {
    op.Give? ==> op.n > 0 && Interval(op.a, op.n) <= s.held
  }

  function Step(s: System, op: Op): System {
    match op
    case Take(n) =>
      var (p, rs) := Alloc(s.runs, n);
      System(rs, if p.Some? then s.held + Interval(p.value, n) else s.held)
    case Give(a, n) => System(Free(s.runs, a, n), s.held - Interval(a, n))
  }

  ghost predicate IsRun(s: System, ops: seq<Op>, t: System)
    decreases |ops|
  {
    if ops == [] then s == t else Legal(s, ops[0]) && IsRun(Step(s, ops[0]), ops[1..], t)
  }

  ghost predicate Inv(s: System, all: set<nat>, lo: nat) {
    Canonical(s.runs, lo) && Pages(s.runs) !! s.held && Pages(s.runs) + s.held == all && (forall p :: p in s.held ==> lo <= p)
  }

  lemma StepKeepsInv(s: System, op: Op, all: set<nat>, lo: nat)
    requires Inv(s, all, lo) && Legal(s, op)
    ensures Inv(Step(s, op), all, lo)
  {
    hide Canonical, Pages, Free, Alloc;
    match op
    case Take(n) =>
      AllocDelivers(s.runs, lo, n);
      PagesAbove(s.runs, lo);
      var (p, rs) := Alloc(s.runs, n);
      assert p.Some? ==> Interval(p.value, n) <= Pages(s.runs);
    case Give(a, n) =>
      assert a in Interval(a, n);
      FreeDelivers(s.runs, lo, a, n);
  }

  /** Over any run no page is lost or handed out twice, and once everything is given back, in
      whatever order and pieces, the list is the one the run started from. */
  lemma {:induction false} RunConservesPages(s: System, ops: seq<Op>, t: System, lo: nat)
    requires Inv(s, Pages(s.runs) + s.held, lo) && IsRun(s, ops, t)
    ensures Inv(t, Pages(s.runs) + s.held, lo)
    ensures s.held == {} && t.held == {} ==> t.runs == s.runs
  {
    RunKeepsInv(s, ops, t, Pages(s.runs) + s.held, lo);
    if s.held == {} && t.held == {} { CanonicalUnique(s.runs, t.runs, lo, lo); }
  }

  lemma {:induction false} RunKeepsInv(s: System, ops: seq<Op>, t: System, all: set<nat>, lo: nat)
    requires Inv(s, all, lo) && IsRun(s, ops, t)
    ensures Inv(t, all, lo)
    decreases |ops|
  {
    if ops != [] {
      StepKeepsInv(s, ops[0], all, lo);
      RunKeepsInv(Step(s, ops[0]), ops[1..], t, all, lo);
    }
  }
}

/** The list itself: page heads linked by `next`, walked through a pointer to the link. */
module SlabPages {
  import opened Memory
  import opened S = SlabPagesSpec

  /** struct rt_slab_page, kept in the first words of a free run. */
  datatype PageHead = PageHead(next: nat, page: nat)

  /** Entry `k` of the list holds run `k` and links to run `k + 1`, or to null. */
  ghost predicate Holds(nodes: map<nat, PageHead>, rs: seq<Run>, k: nat)
    requires k < |rs|
  {
    rs[k].start in nodes && nodes[rs[k].start] == PageHead(HeadOf(rs, k + 1), rs[k].count)
  }

  ghost function HeadOf(rs: seq<Run>, k: nat): nat {
    if k < |rs| then rs[k].start else 0
  }

  ghost predicate Listed(nodes: map<nat, PageHead>, head: nat, rs: seq<Run>) {
    head == HeadOf(rs, 0) && forall k: nat :: k < |rs| ==> Holds(nodes, rs, k)
  }

  lemma Positions(rs: seq<Run>)
    requires Canonical(rs, 1)
    ensures forall i: nat :: i < |rs| ==> 0 < rs[i].start
    ensures forall i, j :: 0 <= i < j < |rs| ==> rs[i].End() < rs[j].start
  {
    forall i: nat | i < |rs| ensures 0 < rs[i].start { RunIsFree(rs, i); PositiveAt(rs, i, 1); }
    forall i, j | 0 <= i < j < |rs| ensures rs[i].End() < rs[j].start { RunsOrdered(rs, 1, i, j); }
  }

  lemma {:induction false} PositiveAt(rs: seq<Run>, i: nat, lo: nat)
    requires Canonical(rs, lo) && i < |rs|
    ensures lo <= rs[i].start
  {
    if i > 0 { PositiveAt(rs[1..], i - 1, rs[0].End() + 1); }
  }

  ghost predicate Untouched(nodes: map<nat, PageHead>, nodes': map<nat, PageHead>, p: nat) {
    p in nodes ==> p in nodes' && nodes'[p] == nodes[p]
  }

  function Spliced(rs: seq<Run>, k: nat, m: seq<Run>, j: nat): seq<Run>
    requires k <= j <= |rs|
  {
    rs[..k] + m + rs[j..]
  }

  /** The stores that turn the list of `rs` into the list of `Spliced(rs, k, m, j)`. */
  lemma Relinked(nodes: map<nat, PageHead>, head: nat, nodes': map<nat, PageHead>, head': nat,
                 rs: seq<Run>, k: nat, m: seq<Run>, j: nat)
    requires k <= j <= |rs| && |m| <= 1 && Listed(nodes, head, rs)
    requires var rs' := Spliced(rs, k, m, j);
      && (k > 0 ==> head' == head && Holds(nodes', rs', k - 1))
      && (k == 0 ==> head' == HeadOf(rs', 0))
      && (m != [] ==> Holds(nodes', rs', k))
    requires forall i: nat :: i < |rs| && (i + 1 < k || j <= i) ==> Untouched(nodes, nodes', rs[i].start)
    ensures Listed(nodes', head', Spliced(rs, k, m, j))
  {
    hide Canonical, Pages;
    var rs' := Spliced(rs, k, m, j);
    forall i: nat | i < |rs'| ensures Holds(nodes', rs', i) {
      if i < k {
        if i + 1 < k { assert Holds(nodes, rs, i); assert rs'[i + 1] == rs[i + 1]; }
      } else if i >= k + |m| {
        var o := i - k - |m| + j;
        assert rs'[i] == rs[o];
        assert Holds(nodes, rs, o);
        assert HeadOf(rs', i + 1) == HeadOf(rs, o + 1);
      }
    }
  }

  lemma ListedAt(nodes: map<nat, PageHead>, head: nat, rs: seq<Run>, k: nat)
    requires Listed(nodes, head, rs) && k < |rs|
    ensures Holds(nodes, rs, k)
  {}

  lemma ReplacedListed(nodes: map<nat, PageHead>, head: nat, rs: seq<Run>, k: nat, m: seq<Run>, j: nat,
                       prev: nat, n: nat, entry: Option<PageHead>, nodes': map<nat, PageHead>, head': nat)
    requires Canonical(rs, 1) && Listed(nodes, head, rs) && k <= j <= |rs| && Canonical(Spliced(rs, k, m, j), 1)
    requires prev == (if k == 0 then 0 else rs[k - 1].start) && n == (if m == [] then HeadOf(rs, j) else m[0].start)
    requires (entry.None? && m == []) || (entry.Some? && |m| == 1 && entry.value == PageHead(HeadOf(rs, j), m[0].count))
    requires var nodes1 := if entry.Some? then nodes[n := entry.value] else nodes;
      if prev == 0 then head' == n && nodes' == nodes1
      else prev in nodes1 && head' == head && nodes' == nodes1[prev := PageHead(n, nodes1[prev].page)]
    ensures Listed(nodes', head', Spliced(rs, k, m, j))
  {
    hide Canonical, Spliced, Pages, Listed;
    var rs' := Spliced(rs, k, m, j);
    Positions(rs);
    Positions(rs');
    SplicedAt(rs, k, m, j);
    if k > 0 { ListedAt(nodes, head, rs, k - 1); }
    forall i: nat | i < |rs| && (i + 1 < k || j <= i) ensures Untouched(nodes, nodes', rs[i].start) {
      if k > 0 && i >= j { assert rs[k - 1].start < rs[i].start; }
      if m != [] { assert rs'[k] == m[0]; if i >= j { assert rs'[i - j + k + |m|] == rs[i]; } }
    }
    Relinked(nodes, head, nodes', head', rs, k, m, j);
  }

  lemma AllocShape(rs: seq<Run>, n: nat, k: nat)
    requires n > 0 && k == FirstFit(rs, n, 0) < |rs|
    ensures var m := if rs[k].count > n then [Run(rs[k].start + n, rs[k].count - n)] else [];
      S.Alloc(rs, n) == (Some(rs[k].start), Spliced(rs, k, m, k + 1))
  {
    if rs[k].count == n { assert rs[..k] + [] + rs[k + 1..] == rs[..k] + rs[k + 1..]; }
  }

  /** What rt_slab_page_free does once its walk stops at entry `k`. */
  lemma FreeShape(rs: seq<Run>, a: nat, n: nat, k: nat)
    requires k <= |rs|
    ensures var tail := S.Free(rs[k..], a, n); var b := if k < |rs| then rs[k] else Run(0, 0);
      && (k < |rs| && b.End() == a ==>
           if k + 1 < |rs| && a + n == rs[k + 1].start
           then rs[..k] + tail == Spliced(rs, k, [Run(b.start, b.count + n + rs[k + 1].count)], k + 2)
           else rs[..k] + tail == Spliced(rs, k, [Run(b.start, b.count + n)], k + 1))
      && (k < |rs| && b.End() != a && b.start == a + n ==> rs[..k] + tail == Spliced(rs, k, [Run(a, n + b.count)], k + 1))
      && (k == |rs| || (b.End() != a && b.start > a + n) ==> rs[..k] + tail == Spliced(rs, k, [Run(a, n)], k))
      && (k < |rs| && b.End() != a && b.start < a + n ==> rs[..k] + tail == rs[..k + 1] + S.Free(rs[k + 1..], a, n))
  {
    if k < |rs| {
      assert rs[k..][0] == rs[k] && rs[k..][1..] == rs[k + 1..];
      if k + 1 < |rs| { assert rs[k..][1] == rs[k + 1] && rs[k..][2..] == rs[k + 2..]; }
    }
  }

  /** Page numbers are addresses divided by RT_MM_PAGE_SIZE; page 0 is the null pointer. */
  class PageList {
    var head: nat
    var nodes: map<nat, PageHead>
    ghost var runs: seq<Run>

    ghost predicate Valid()
      reads this
    {
      Canonical(runs, 1) && Listed(nodes, head, runs)
    }

    /** rt_slab_page_init: one run of `npages` pages. */
    constructor (addr: nat, npages: nat)
      requires addr != 0 && npages != 0
      ensures Valid() && runs == [Run(addr, npages)]
    {
      head := 0;
      nodes := map[];
      runs := [];
      new;
      this.Free(addr, npages);
    }

    /** `*prev = n`, where `prev` is the list head (0) or the link of a listed page. */
    method Store(prev: nat, n: nat)
      requires prev == 0 || prev in nodes
      modifies this`head, this`nodes
      ensures prev == 0 ==> head == n && nodes == old(nodes)
      ensures prev != 0 ==> head == old(head) && nodes == old(nodes)[prev := PageHead(n, old(nodes)[prev].page)]
    {
      if prev == 0 { head := n; } else { nodes := nodes[prev := nodes[prev].(next := n)]; }
    }

    /** rt_slab_page_alloc. */
    method Alloc(npages: nat) returns (r: Option<nat>)
      requires Valid()
      modifies this
      ensures Valid() && (r, runs) == S.Alloc(old(runs), npages)
    {
      hide Canonical, S.Alloc, Spliced;
      AllocDelivers(runs, 1, npages);
      AllocNone(runs, npages);
      if npages == 0 { return None; }
      Positions(runs);
      var prev, b := 0, head;
      ghost var k := 0;
      while b != 0
        invariant k <= |runs| && b == HeadOf(runs, k) && prev == (if k == 0 then 0 else runs[k - 1].start)
        invariant FirstFit(runs, npages, 0) == FirstFit(runs, npages, k)
        modifies {}
        decreases |runs| - k
      {
        assert Holds(nodes, runs, k);
        if nodes[b].page >= npages { break; }
        prev, b := b, nodes[b].next;
        k := k + 1;
      }
      if b == 0 { return None; }
      AllocShape(runs, npages, k);
      assert Holds(nodes, runs, k);
      var next, page := nodes[b].next, nodes[b].page;
      if page > npages {
        var n := b + npages;
        Replace(prev, n, Some(PageHead(next, page - npages)), k, [Run(n, page - npages)], k + 1);
      } else {
        Replace(prev, next, None, k, [], k + 1);
      }
      return Some(b);
    }

    /** The list surgery every branch performs: write the page head of `m`, if any, and store `n`
        through `prev`, so that `m` stands where runs `k` to `j` stood.  (Where the source extends
        a run in place, the link stored is the one already there.) */
    method Replace(prev: nat, n: nat, entry: Option<PageHead>, ghost k: nat, ghost m: seq<Run>, ghost j: nat)
      requires Valid() && k <= j <= |runs| && Canonical(Spliced(runs, k, m, j), 1)
      requires prev == (if k == 0 then 0 else runs[k - 1].start) && n == (if m == [] then HeadOf(runs, j) else m[0].start)
      requires (entry.None? && m == []) || (entry.Some? && |m| == 1 && m[0].start == n)
      requires entry.Some? ==> entry.value == PageHead(HeadOf(runs, j), m[0].count)
      modifies this
      ensures Valid() && runs == Spliced(old(runs), k, m, j)
    {
      hide Canonical, Spliced, Listed;
      ghost var was, top := nodes, head;
      if k > 0 { ListedAt(nodes, head, runs, k - 1); }
      if entry.Some? { nodes := nodes[n := entry.value]; }
      Store(prev, n);
      ReplacedListed(was, top, runs, k, m, j, prev, n, entry, nodes, head);
      runs := Spliced(runs, k, m, j);
    }

    /** rt_slab_page_free. */
    method Free(addr: nat, npages: nat)
      requires Valid() && addr != 0 && npages != 0 && Interval(addr, npages) !! Pages(runs)
      modifies this
      ensures Valid() && runs == S.Free(old(runs), addr, npages)
    {
      hide Canonical, Pages, Interval, S.Free, Spliced;
      FreeDelivers(runs, 1, addr, npages);
      Positions(runs);
      var n := addr;
      var prev, b := 0, head;
      ghost var k := 0;
      TailWhole(runs, addr, npages);
      while b != 0
        invariant k <= |runs| && b == HeadOf(runs, k) && prev == (if k == 0 then 0 else runs[k - 1].start)
        invariant S.Free(runs, addr, npages) == runs[..k] + S.Free(runs[k..], addr, npages)
        modifies {}
        decreases |runs| - k
      {
        assert Holds(nodes, runs, k);
        FreeShape(runs, addr, npages, k);
        if b + nodes[b].page == n || b >= n + npages { break; }
        prev, b := b, nodes[b].next;
        k := k + 1;
      }
      FreeShape(runs, addr, npages, k);
      if b == 0 {
        Replace(prev, n, Some(PageHead(b, npages)), k, [Run(n, npages)], k);
        return;
      }
      assert Holds(nodes, runs, k);
      if b + nodes[b].page == n {
        var next := nodes[b].next;
        var total := nodes[b].page + npages;
        if b + total == next {
          assert Holds(nodes, runs, k + 1);
          Replace(prev, b, Some(PageHead(nodes[next].next, total + nodes[next].page)), k, [Run(b, total + nodes[next].page)], k + 2);
        } else {
          Replace(prev, b, Some(PageHead(next, total)), k, [Run(b, total)], k + 1);
        }
      } else if b == n + npages {
        Replace(prev, n, Some(PageHead(nodes[b].next, nodes[b].page + npages)), k, [Run(n, nodes[b].page + npages)], k + 1);
      } else {
        Replace(prev, n, Some(PageHead(b, npages)), k, [Run(n, npages)], k);
      }
    }

    /** A client stores into a page it was given: the list does not notice. */
    method ClientWrite(p: nat, word: PageHead)
      requires Valid() && p !in Pages(runs)
      modifies this`nodes
      ensures Valid() && nodes == old(nodes)[p := word]
    {
      ghost var after := nodes[p := word];
      forall k: nat | k < |runs| ensures Holds(after, runs, k) {
        assert Holds(nodes, runs, k);
        RunIsFree(runs, k);
        StartIsFree(runs, k, 1);
      }
      nodes := nodes[p := word];
    }
  }

  lemma TailWhole(rs: seq<Run>, a: nat, n: nat)
    ensures S.Free(rs, a, n) == rs[..0] + S.Free(rs[0..], a, n)
  {
    assert rs[0..] == rs;
  }

  lemma AllocNone(rs: seq<Run>, n: nat)
    ensures n == 0 || FirstFit(rs, n, 0) == |rs| ==> S.Alloc(rs, n) == (None, rs)
  {}

  lemma SplicedAt(rs: seq<Run>, k: nat, m: seq<Run>, j: nat)
    requires k <= j <= |rs|
    ensures var r := Spliced(rs, k, m, j);
      && |r| == k + |m| + |rs| - j && (forall i: nat :: i < k ==> r[i] == rs[i])
      && (forall i: nat :: i < |m| ==> r[k + i] == m[i]) && HeadOf(r, k + |m|) == HeadOf(rs, j)
      && (forall i: nat :: j <= i < |rs| ==> r[i - j + k + |m|] == rs[i])
  {
    hide Canonical, Pages, S.Free;
  }

  lemma {:induction false} StartIsFree(rs: seq<Run>, k: nat, lo: nat)
    requires Canonical(rs, lo) && k < |rs|
    ensures rs[k].start in Pages(rs)
  {
    if k > 0 { StartIsFree(rs[1..], k - 1, rs[0].End() + 1); }
    else { assert rs[0].start in Interval(rs[0].start, rs[0].count); }
  }
}
