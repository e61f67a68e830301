/** Event sets (rt-thread/src/ipc.c, lines 1440-1519, 1554-1682 and 1700-1730). */
module EventSpec {
  import opened Lists
  import opened Memory
  import opened WaitList

  const RT_EVENT_FLAG_AND: bv8 := 0x01
  const RT_EVENT_FLAG_OR: bv8 := 0x02
  const RT_EVENT_FLAG_CLEAR: bv8 := 0x04

  /** What a thread asks for: its event_set and event_info. */
  datatype Want = Want(mask: bv32, option: bv8)

  predicate IsAnd(option: bv8) { option & RT_EVENT_FLAG_AND != 0 }

  predicate IsOr(option: bv8) { option & RT_EVENT_FLAG_OR != 0 }

  predicate Clears(option: bv8) { option & RT_EVENT_FLAG_CLEAR != 0 }

  predicate WellFormed(w: Want) {
    w.mask != 0 && (IsAnd(w.option) || IsOr(w.option))
  }

  function Common(flags: bv32, mask: bv32): bv32 { flags & mask }

  function Plus(flags: bv32, mask: bv32): bv32 { flags | mask }

  function Minus(flags: bv32, mask: bv32): bv32 { flags & !mask }

  predicate Covers(flags: bv32, mask: bv32) { Common(flags, mask) == mask }

  predicate Meets(flags: bv32, mask: bv32) { Common(flags, mask) != 0 }

  /** All of the bits wanted are there, or, without the AND flag, one of them. */
  predicate Satisfied(flags: bv32, w: Want) {
    if IsAnd(w.option) then Covers(flags, w.mask) else IsOr(w.option) && Meets(flags, w.mask)
  }

  /** What a receive leaves of the flags: with the CLEAR flag all wanted bits go. */
  function Left(flags: bv32, w: Want): bv32 {
    if Clears(w.option) then Minus(flags, w.mask) else flags
  }

  /** A receive that does not wait: the bits received, and the flags afterwards. */
  function ReceiveNow(flags: bv32, w: Want): (Option<bv32>, bv32) {
    if Satisfied(flags, w) then (Some(Common(flags, w.mask)), Left(flags, w)) else (None, flags)
  }

  /** The event object, what its waiters want, and the bits threads were last handed. */
  datatype State = State(flags: bv32, waiters: seq<Thread>, want: map<Thread, Want>, got: map<Thread, bv32>)

  function WantOf(st: State, t: Thread): Want {
    if t in st.want then st.want[t] else Want(0, 0)
  }

  /** Each thread on `list`, in order, makes a receive that does not wait; who succeeds leaves. */
  function Sweep(st: State, list: seq<Thread>): State
    decreases |list|
  {
    if list == [] then st
    else
      var t := list[0];
      var (bits, flags) := ReceiveNow(st.flags, WantOf(st, t));
      Sweep(if bits.None? then st.(waiters := st.waiters + [t]) else st.(flags := flags, got := st.got[t := bits.value]), list[1..])
  }

  /** rt_event_send: OR the bits in, then let the waiters receive. */
  function Send(st: State, bits: bv32): State {
    if bits == 0 then st else Sweep(st.(flags := Plus(st.flags, bits), waiters := []), st.waiters)
  }

  /** rt_event_recv by `t`. */
  function Recv(st: State, t: Thread, w: Want, block: bool, flag: Flag, prio: map<Thread, nat>): State {
    var (bits, flags) := ReceiveNow(st.flags, w);
    if w.mask == 0 then st
    else if bits.Some? then st.(flags := flags, got := st.got[t := bits.value], want := st.want[t := w])
    else if block then st.(waiters := Suspend(st.waiters, t, flag, prio), want := st.want[t := w])
    else st
  }

  datatype Op =
    | DoSend(bits: bv32) | DoRecv(t: Thread, w: Want, block: bool, flag: Flag, prio: map<Thread, nat>)
    | DoTimeout(t: Thread) | DoReset

  /** The option of a receive is asserted to name AND or OR. */
  predicate Legal(st: State, op: Op) {
    match op
    case DoRecv(t, w, block, flag, prio) => t !in st.waiters && (w.mask != 0 ==> WellFormed(w))
    case DoTimeout(t) => t in st.waiters
    case _ => true
  }

  function Step(st: State, op: Op): State {
    match op
    case DoSend(bits) => Send(st, bits)
    case DoRecv(t, w, block, flag, prio) => Recv(st, t, w, block, flag, prio)
    case DoTimeout(t) => st.(waiters := Without(st.waiters, t))
    case DoReset => st.(flags := 0, waiters := [])
  }

  /** Nobody is suspended whose condition holds. */
  ghost predicate Quiet(st: State, list: seq<Thread>) {
    forall t :: t in list ==> t in st.want && WellFormed(st.want[t]) && !Satisfied(st.flags, st.want[t])
  }

  ghost predicate Inv(st: State) {
    NoDup(st.waiters) && Quiet(st, st.waiters)
  }

  /** Clearing bits never satisfies anybody. */
  lemma ClearingIsSafe(flags: bv32, w: Want, u: Want)
    requires !Satisfied(flags, u)
    ensures !Satisfied(Left(flags, w), u)
  {
    hide IsAnd, IsOr, Clears, Covers, Meets, Minus;
    MinusCovers(flags, w.mask, u.mask);
    MinusMeets(flags, w.mask, u.mask);
  }

  lemma MinusCovers(flags: bv32, m: bv32, want: bv32)
    ensures Covers(Minus(flags, m), want) ==> Covers(flags, want)
  {}

  lemma MinusMeets(flags: bv32, m: bv32, want: bv32)
    ensures Meets(Minus(flags, m), want) ==> Meets(flags, want)
  {}

  /** A receive with CLEAR leaves nobody's condition to it: it can no longer be satisfied itself. */
  lemma {:induction false} SweepQuiets(st: State, list: seq<Thread>)
    requires Quiet(st, st.waiters) && NoDup(st.waiters + list)
    requires forall t :: t in list ==> t in st.want && WellFormed(st.want[t])
    ensures var s := Sweep(st, list);
      Quiet(s, s.waiters) && NoDup(s.waiters) && s.want == st.want && (forall t :: t in s.waiters ==> t in st.waiters || t in list)
    decreases |list|
  {
    hide Satisfied, WellFormed, Left;
    if list != [] {
      var t := list[0];
      var w := WantOf(st, t);
      forall u | u in st.waiters ensures !Satisfied(Left(st.flags, w), st.want[u]) { ClearingIsSafe(st.flags, w, st.want[u]); }
      assert (st.waiters + [t]) + list[1..] == st.waiters + list;
      DropMiddle(st.waiters, list);
      assert forall u :: u in list[1..] ==> u in list;
      var (bits, flags) := ReceiveNow(st.flags, w);
      SweepQuiets(if bits.None? then st.(waiters := st.waiters + [t]) else st.(flags := flags, got := st.got[t := bits.value]), list[1..]);
    } else {
      assert st.waiters + [] == st.waiters;
    }
  }

  lemma DropMiddle(a: seq<Thread>, b: seq<Thread>)
    requires NoDup(a + b) && b != []
    ensures NoDup(a + b[1..])
  {
    var s, r := a + b, a + b[1..];
    assert forall i: nat :: i < |r| ==> r[i] == s[if i < |a| then i else i + 1];
  }

  lemma StepKeepsInv(st: State, op: Op)
    requires Inv(st) && Legal(st, op)
    ensures Inv(Step(st, op))
  {
    match op
    case DoSend(bits) => SendKeeps(st, bits);
    case DoRecv(t, w, block, flag, prio) => RecvKeeps(st, t, w, block, flag, prio);
    case DoTimeout(t) => WithoutFacts(st.waiters, t);
    case DoReset => NoWaiters();
  }

  lemma SendKeeps(st: State, bits: bv32)
    requires Inv(st)
    ensures Inv(Send(st, bits))
  {
    hide Satisfied, WellFormed, NoDup, Sweep;
    assert [] + st.waiters == st.waiters;
    NoWaiters();
    SweepQuiets(st.(flags := Plus(st.flags, bits), waiters := []), st.waiters);
  }

  lemma RecvKeeps(st: State, t: Thread, w: Want, block: bool, flag: Flag, prio: map<Thread, nat>)
    requires Inv(st) && Legal(st, DoRecv(t, w, block, flag, prio))
    ensures Inv(Recv(st, t, w, block, flag, prio))
  {
    hide Satisfied, WellFormed, Left, Suspend, NoDup;
    SuspendAdds(st.waiters, t, flag, prio);
    forall u | u in st.waiters ensures !Satisfied(Left(st.flags, w), st.want[u]) { ClearingIsSafe(st.flags, w, st.want[u]); }
  }

  lemma NoWaiters()
    ensures NoDup([])
  {}

  ghost predicate IsRun(st: State, ops: seq<Op>, end: State)
    decreases |ops|
  {
    if ops == [] then st == end else Legal(st, ops[0]) && IsRun(Step(st, ops[0]), ops[1..], end)
  }

  /** In every reachable state no suspended waiter's condition holds for the current flags. */
  lemma {:induction false} RunKeepsInv(st: State, ops: seq<Op>, end: State)
    requires Inv(st) && IsRun(st, ops, end)
    ensures Inv(end)
    decreases |ops|
  {
    hide Inv, Step;
    if ops != [] {
      StepKeepsInv(st, ops[0]);
      RunKeepsInv(Step(st, ops[0]), ops[1..], end);
    }
  }

  const FRESH := State(0, [], map[], map[])

  lemma InitInv()
    ensures Inv(FRESH)
  {}

  /** Bits only ever go, and those no clearing waiter asks for stay. */
  lemma {:induction false} SweepKeepsUnclaimed(st: State, list: seq<Thread>, b: bv32)
    requires forall t :: t in list && Clears(WantOf(st, t).option) ==> !Meets(WantOf(st, t).mask, b)
    ensures Common(Sweep(st, list).flags, b) == Common(st.flags, b)
    decreases |list|
  {
    hide Satisfied, Clears, Meets, Minus, Common;
    if list != [] {
      var t := list[0];
      UnclaimedStays(st.flags, WantOf(st, t).mask, b);
      SweepNext(st, list);
      var next := AfterFirst(st, t);
      assert forall u :: u in list[1..] ==> u in list && WantOf(next, u) == WantOf(st, u);
      SweepKeepsUnclaimed(next, list[1..], b);
    }
  }

  /** The state once `t`, at the head of the list, has tried to receive. */
  function AfterFirst(st: State, t: Thread): State {
    var (bits, flags) := ReceiveNow(st.flags, WantOf(st, t));
    if bits.None? then st.(waiters := st.waiters + [t]) else st.(flags := flags, got := st.got[t := bits.value])
  }

  lemma SweepNext(st: State, list: seq<Thread>)
    requires list != []
    ensures Sweep(st, list) == Sweep(AfterFirst(st, list[0]), list[1..]) && AfterFirst(st, list[0]).want == st.want
  {}

  lemma UnclaimedStays(flags: bv32, m: bv32, b: bv32)
    ensures !Meets(m, b) ==> Common(Minus(flags, m), b) == Common(flags, b)
  {}

  /** `bits` is a possible outcome of a receive by `w` from a subset of `flags`. */
  predicate Handed(flags: bv32, w: Want, bits: bv32) {
    Covers(flags, bits) && Covers(w.mask, bits) && (if IsAnd(w.option) then bits == w.mask else bits != 0)
  }

  /** Who leaves has received some of what it asked for, all of it under AND, and nothing that was
      not set; who stays has received nothing. */
  lemma {:induction false} SweepHandsOut(st: State, list: seq<Thread>, t: Thread)
    requires NoDup(list) && (forall u :: u in list ==> u !in st.waiters) && t in list
    ensures var s := Sweep(st, list);
      if t in s.waiters then (t in s.got <==> t in st.got) && (t in s.got ==> s.got[t] == st.got[t])
      else t in s.got && Handed(st.flags, WantOf(st, t), s.got[t])
    decreases |list|
  {
    hide Satisfied, Left, Handed, NoDup, Sweep, Common;
    var h := list[0];
    var w := WantOf(st, h);
    TailFacts(list);
    SweepNext(st, list);
    var next := AfterFirst(st, h);
    if t == h {
      HandedNow(st.flags, w);
      SweepLeavesOthers(next, list[1..], t);
    } else {
      SweepHandsOut(next, list[1..], t);
      var s := Sweep(st, list);
      if t in s.got { HandedLess(st.flags, w, WantOf(st, t), s.got[t]); }
    }
  }

  lemma HandedNow(flags: bv32, w: Want)
    ensures Satisfied(flags, w) ==> Handed(flags, w, Common(flags, w.mask))
  {
    hide IsAnd, IsOr, Common;
    CommonIsBoth(flags, w.mask);
  }

  lemma CommonIsBoth(flags: bv32, m: bv32)
    ensures Covers(flags, Common(flags, m)) && Covers(m, Common(flags, m))
  {}

  lemma HandedLess(flags: bv32, w: Want, u: Want, bits: bv32)
    ensures Handed(Left(flags, w), u, bits) ==> Handed(flags, u, bits)
  {
    hide IsAnd, Clears, Covers, Minus;
    MinusCovers(flags, w.mask, bits);
  }

  lemma {:induction false} SweepLeavesOthers(st: State, list: seq<Thread>, t: Thread)
    requires t !in list
    ensures var s := Sweep(st, list);
      (t in s.waiters <==> t in st.waiters) && (t in s.got <==> t in st.got) && (t in s.got ==> s.got[t] == st.got[t])
    decreases |list|
  {
    hide Satisfied, Left, Common;
    if list != [] {
      SweepNext(st, list);
      SweepLeavesOthers(AfterFirst(st, list[0]), list[1..], t);
    }
  }

  /** A bit handed to a clearing waiter is handed to nobody behind it. */
  lemma ClearedBitsGoOnce(st: State, list: seq<Thread>, u: Thread)
    requires NoDup(list) && (forall t :: t in list ==> t !in st.waiters) && list != [] && u in list[1..]
    requires Clears(WantOf(st, list[0]).option) && Satisfied(st.flags, WantOf(st, list[0]))
    ensures var s := Sweep(st, list);
      u !in s.waiters ==> list[0] in s.got && u in s.got && !Meets(s.got[list[0]], s.got[u])
  {
    hide Satisfied, NoDup, Minus, Clears, Sweep, Common, IsAnd, Meets;
    var h := list[0];
    var w := WantOf(st, h);
    TailFacts(list);
    SweepNext(st, list);
    var next := AfterFirst(st, h);
    SweepLeavesOthers(next, list[1..], h);
    SweepHandsOut(next, list[1..], u);
    var s := Sweep(st, list);
    if u !in s.waiters { Disjoint(st.flags, w.mask, s.got[u]); }
  }

  lemma Disjoint(flags: bv32, m: bv32, b: bv32)
    ensures Covers(Minus(flags, m), b) ==> !Meets(Common(flags, m), b)
  {}

  // ---------------------------------------------------------------- what the calls come to

  /** A receive by the bits of its option: 1 asks for all of the mask and 2 for any of it, 4 takes the
      mask off the flags; what is received is what the flags and the mask share. */
  lemma ReceiveByOption(flags: bv32, mask: bv32, option: bv8)
    requires WellFormed(Want(mask, option))
    ensures var (bits, after) := ReceiveNow(flags, Want(mask, option));
      && (bits.Some? <==> (if option & 1 != 0 then flags & mask == mask else flags & mask != 0))
      && (bits.Some? ==> bits.value == flags & mask && after == (if option & 4 != 0 then flags & !mask else flags))
      && (bits.None? ==> after == flags)
  {}

  /** rt_event_recv: it receives exactly when the condition holds, and otherwise waits, if it may. */
  lemma RecvByOption(st: State, t: Thread, mask: bv32, option: bv8, block: bool, flag: Flag, prio: map<Thread, nat>)
    requires Inv(st) && Legal(st, DoRecv(t, Want(mask, option), block, flag, prio)) && mask != 0
    ensures var s := Step(st, DoRecv(t, Want(mask, option), block, flag, prio));
      if (if option & 1 != 0 then st.flags & mask == mask else st.flags & mask != 0) then
        t in s.got && s.got[t] == st.flags & mask && s.waiters == st.waiters && s.flags == (if option & 4 != 0 then st.flags & !mask else st.flags)
      else
        s.flags == st.flags && s.got == st.got && (if block then t in s.waiters && t in s.want && s.want[t] == Want(mask, option) else s == st)
  {
    hide ReceiveNow, Suspend, WellFormed;
    ReceiveByOption(st.flags, mask, option);
    SuspendAdds(st.waiters, t, flag, prio);
  }

  lemma MeetsIs(m: bv32, b: bv32)
    ensures Meets(m, b) <==> m & b != 0
  {}

  lemma ClearsIs(option: bv8)
    ensures Clears(option) <==> option & 4 != 0
  {}

  lemma CommonIs(flags: bv32, m: bv32)
    ensures Common(flags, m) == flags & m
  {}

  lemma PlusIs(flags: bv32, bits: bv32)
    ensures Plus(flags, bits) == flags | bits
  {}

  lemma OrSpreads(x: bv32, y: bv32, b: bv32)
    ensures (x | y) & b == (x & b) | (y & b)
  {}

  lemma OrIsZero(x: bv32, y: bv32)
    ensures x | y == 0 <==> x == 0 && y == 0
  {}

  lemma OrNothing(flags: bv32)
    ensures flags | 0 == flags
  {}

  /** OR-ing adds bits and takes none away. */
  lemma OrAdds(flags: bv32, bits: bv32, b: bv32)
    ensures (flags | bits) & b == 0 <==> flags & b == 0 && bits & b == 0
  {
    OrSpreads(flags, bits, b);
    OrIsZero(flags & b, bits & b);
  }

  /** No clearing waiter asks for a bit of `b`. */
  predicate Unclaimed(st: State, b: bv32) {
    forall t :: t in st.waiters && WantOf(st, t).option & 4 != 0 ==> WantOf(st, t).mask & b == 0
  }

  lemma UnclaimedMeets(st: State, b: bv32, t: Thread)
    requires Unclaimed(st, b) && t in st.waiters
    ensures Clears(WantOf(st, t).option) ==> !Meets(WantOf(st, t).mask, b)
  {}

  lemma SendKeepsUnclaimed(st: State, bits: bv32, b: bv32)
    requires Unclaimed(st, b) && bits != 0
    ensures Common(Send(st, bits).flags, b) == Common(Plus(st.flags, bits), b)
  {
    hide Clears, Meets, Common, Plus, Sweep, Unclaimed;
    var s := st.(flags := Plus(st.flags, bits), waiters := []);
    forall t | t in st.waiters && Clears(WantOf(s, t).option) ensures !Meets(WantOf(s, t).mask, b) {
      UnclaimedMeets(st, b, t);
      assert WantOf(s, t) == WantOf(st, t);
    }
    SweepKeepsUnclaimed(s, st.waiters, b);
  }

  lemma SendOfNothing(st: State)
    ensures Send(st, 0) == st
  {}

  /** Of the bits of `b` exactly those are set after that were set before or are among those sent. */
  predicate Added(before: bv32, sent: bv32, after: bv32, b: bv32) {
    after & b == (before | sent) & b && (after & b == 0 <==> before & b == 0 && sent & b == 0)
  }

  lemma AddedIs(before: bv32, sent: bv32, after: bv32, b: bv32)
    requires after & b == (before | sent) & b
    ensures Added(before, sent, after, b)
  {
    OrAdds(before, sent, b);
  }

  lemma PlusAdds(before: bv32, sent: bv32, after: bv32, b: bv32)
    requires Common(after, b) == Common(Plus(before, sent), b)
    ensures Added(before, sent, after, b)
  {
    hide Added;
    AddedIs(before, sent, after, b);
  }

  lemma NothingAdds(before: bv32, b: bv32)
    ensures Added(before, 0, before, b)
  {
    hide Added;
    OrNothing(before);
    AddedIs(before, 0, before, b);
  }

  /** A send adds its bits to those set before, and takes none away that no clearing waiter asks for. */
  lemma SendAdds(st: State, bits: bv32, b: bv32)
    requires Unclaimed(st, b)
    ensures Added(st.flags, bits, Send(st, bits).flags, b)
  {
    hide *;
    if bits != 0 {
      SendKeepsUnclaimed(st, bits, b);
      PlusAdds(st.flags, bits, Send(st, bits).flags, b);
    } else {
      SendOfNothing(st);
      NothingAdds(st.flags, b);
    }
  }

  /** A waiter's condition by the bits of its option. */
  predicate Met(flags: bv32, mask: bv32, option: bv8) {
    if option & 1 != 0 then flags & mask == mask else flags & mask != 0
  }

  predicate MetAfter(before: bv32, sent: bv32, mask: bv32, option: bv8) {
    Met(before | sent, mask, option)
  }

  /** What a thread is handed that shares `mask` with the flags before and those sent. */
  predicate Shares(bits: bv32, before: bv32, sent: bv32, mask: bv32) {
    bits == (before | sent) & mask
  }

  lemma MetIsSatisfied(flags: bv32, mask: bv32, option: bv8)
    requires WellFormed(Want(mask, option))
    ensures Met(flags, mask, option) <==> Satisfied(flags, Want(mask, option))
  {}

  lemma WantIs(flags: bv32, w: Want)
    requires WellFormed(w)
    ensures Met(flags, w.mask, w.option) <==> Satisfied(flags, w)
  {
    hide *;
    assert w == Want(w.mask, w.option);
    MetIsSatisfied(flags, w.mask, w.option);
  }

  lemma MetAfterIs(before: bv32, sent: bv32, w: Want)
    requires WellFormed(w)
    ensures MetAfter(before, sent, w.mask, w.option) <==> Satisfied(Plus(before, sent), w)
  {
    hide Met, Satisfied, WellFormed;
    WantIs(Plus(before, sent), w);
  }

  lemma SharesIs(before: bv32, sent: bv32, mask: bv32)
    ensures Shares(Common(Plus(before, sent), mask), before, sent, mask)
  {}

  /** Waiter `t` was served by a send if its condition was met, with all the bits it shared with the
      flags, and otherwise still waits. */
  predicate ServedIff(st: State, sent: bv32, s: State, t: Thread) {
    var w := WantOf(st, t);
    && (t in s.waiters <==> !MetAfter(st.flags, sent, w.mask, w.option))
    && (t !in s.waiters ==> t in s.got && Shares(s.got[t], st.flags, sent, w.mask))
  }

  lemma Served(st: State, sent: bv32, s: State, t: Thread)
    requires WellFormed(WantOf(st, t))
    requires t in s.waiters <==> !Satisfied(Plus(st.flags, sent), WantOf(st, t))
    requires t !in s.waiters ==> t in s.got && s.got[t] == Common(Plus(st.flags, sent), WantOf(st, t).mask)
    ensures ServedIff(st, sent, s, t)
  {
    hide MetAfter, Plus, Satisfied, WellFormed, Common, Shares;
    MetAfterIs(st.flags, sent, WantOf(st, t));
    SharesIs(st.flags, sent, WantOf(st, t).mask);
  }

  /** With no clearing waiter a send serves exactly those it satisfies, each with all the bits it
      shares with the flags; the others stay, and so do the flags. */
  lemma SendServes(st: State, bits: bv32, t: Thread)
    requires Inv(st) && bits != 0 && t in st.waiters && forall u :: u in st.waiters ==> WantOf(st, u).option & 4 == 0
    ensures Send(st, bits).flags == st.flags | bits && ServedIff(st, bits, Send(st, bits), t)
  {
    hide Clears, Common, Plus, Sweep, Satisfied, WellFormed, ServedIff, NoDup;
    PlusIs(st.flags, bits);
    var s := st.(flags := Plus(st.flags, bits), waiters := []);
    forall u | u in st.waiters ensures !Clears(WantOf(s, u).option) { ClearsIs(WantOf(st, u).option); }
    assert st.waiters == [] + st.waiters;
    SweepServes(s, st.waiters, t);
    Served(st, bits, Send(st, bits), t);
  }

  lemma {:induction false} SweepServes(st: State, list: seq<Thread>, t: Thread)
    requires NoDup(list) && t in list && t !in st.waiters && forall u :: u in list ==> !Clears(WantOf(st, u).option)
    ensures var s := Sweep(st, list);
      && s.flags == st.flags && (t in s.waiters <==> !Satisfied(st.flags, WantOf(st, t)))
      && (t !in s.waiters ==> t in s.got && s.got[t] == Common(st.flags, WantOf(st, t).mask))
    decreases |list|
  {
    hide Clears, Common, Satisfied, NoDup, Sweep, AfterFirst;
    TailFacts(list);
    SweepNext(st, list);
    var next := AfterFirst(st, list[0]);
    AfterFirstIs(st, list[0], t);
    assert forall u :: u in list[1..] ==> u in list && WantOf(next, u) == WantOf(st, u);
    if t == list[0] {
      SweepLeavesOthers(next, list[1..], t);
      SweepKeepsFlags(next, list[1..]);
    } else {
      SweepServes(next, list[1..], t);
    }
  }

  /** What the first in line leaves of the event, and whether another is still on the list. */
  lemma AfterFirstIs(st: State, t: Thread, u: Thread)
    requires u !in st.waiters
    ensures var s := AfterFirst(st, t);
      && (!Clears(WantOf(st, t).option) ==> s.flags == st.flags) && s.want == st.want
      && (u in s.waiters <==> u == t && !Satisfied(st.flags, WantOf(st, t)))
      && (t !in s.waiters ==> Satisfied(st.flags, WantOf(st, t)) ==> t in s.got && s.got[t] == Common(st.flags, WantOf(st, t).mask))
  {
    hide Common, Satisfied, Clears;
  }

  lemma {:induction false} SweepKeepsFlags(st: State, list: seq<Thread>)
    requires forall u :: u in list ==> !Clears(WantOf(st, u).option)
    ensures Sweep(st, list).flags == st.flags
    decreases |list|
  {
    hide Clears, Common, Satisfied, Sweep;
    if list != [] {
      SweepNext(st, list);
      var next := AfterFirst(st, list[0]);
      assert forall u :: u in list[1..] ==> u in list && WantOf(next, u) == WantOf(st, u);
      SweepKeepsFlags(next, list[1..]);
    } else {
      NothingToSweep(st);
    }
  }

  lemma NothingToSweep(st: State)
    ensures Sweep(st, []) == st
  {}

  /** Whoever came first gets the first pick of the flags, clearing waiters included. */
  lemma FirstPicksFirst(st: State, bits: bv32)
    requires Inv(st) && bits != 0 && st.waiters != []
    ensures ServedIff(st, bits, Send(st, bits), st.waiters[0])
  {
    hide Common, Plus, Sweep, Satisfied, WellFormed, ServedIff, NoDup, AfterFirst;
    var t := st.waiters[0];
    var s := st.(flags := Plus(st.flags, bits), waiters := []);
    TailFacts(st.waiters);
    SweepNext(s, st.waiters);
    AfterFirstIs(s, t, t);
    SweepLeavesOthers(AfterFirst(s, t), st.waiters[1..], t);
    Served(st, bits, Send(st, bits), t);
  }

  /** Those of `list` that are in `keep`, in the order of the list. */
  function Kept(list: seq<Thread>, keep: set<Thread>): seq<Thread> {
    if list == [] then [] else (if list[0] in keep then [list[0]] else []) + Kept(list[1..], keep)
  }

  /** Those a send does not serve keep their order. */
  lemma SendKeepsOrder(st: State, bits: bv32)
    requires Inv(st)
    ensures bits != 0 ==> var s := Send(st, bits); s.waiters == Kept(st.waiters, set t | t in s.waiters)
  {
    hide Plus, Sweep, NoDup, WellFormed, Satisfied;
    if bits != 0 {
      var s := st.(flags := Plus(st.flags, bits), waiters := []);
      assert [] + st.waiters == st.waiters;
      SweepKeepsOrder(s, st.waiters);
    }
  }

  lemma {:induction false} SweepKeepsOrder(st: State, list: seq<Thread>)
    requires NoDup(st.waiters + list)
    ensures var s := Sweep(st, list); s.waiters == st.waiters + Kept(list, set t | t in s.waiters)
    decreases |list|
  {
    hide Sweep, NoDup, Common, Satisfied, Left;
    if list == [] {
      NothingToSweep(st);
    } else {
      var t := list[0];
      SweepNext(st, list);
      var next := AfterFirst(st, t);
      assert (st.waiters + [t]) + list[1..] == st.waiters + list;
      DropMiddle(st.waiters, list);
      SweepKeepsOrder(next, list[1..]);
      NotTwice(st.waiters, list);
      SweepLeavesOthers(next, list[1..], t);
    }
  }

  lemma NotTwice(a: seq<Thread>, b: seq<Thread>)
    requires NoDup(a + b) && b != []
    ensures b[0] !in a && b[0] !in b[1..]
  {
    var s := a + b;
    assert s[|a|] == b[0];
    forall k: nat | k < |a| ensures a[k] != b[0] { assert s[k] == a[k]; }
    forall k: nat | k < |b| - 1 ensures b[1..][k] != b[0] { assert s[|a| + k + 1] == b[k + 1]; }
  }

  /** A timeout takes its thread off the list; a reset clears the flags and leaves nobody waiting. */
  lemma LeavingComesTo(st: State, t: Thread)
    requires Inv(st)
    ensures Legal(st, DoTimeout(t)) ==> var s := Step(st, DoTimeout(t));
      && t !in s.waiters && s == st.(waiters := s.waiters)
      && forall u, v :: Before(st.waiters, u, v) && u != t && v != t ==> Before(s.waiters, u, v)
    ensures var s := Step(st, DoReset); s.waiters == [] && s.flags == 0 && s.got == st.got
  {
    hide NoDup, Without, Before, Satisfied, WellFormed;
    var w := st.waiters;
    WithoutFacts(w, t);
    forall u, v | Before(w, u, v) && u != t && v != t ensures Before(Without(w, t), u, v) { WithoutKeepsBefore(w, t, u, v); }
  }
}

/** The walk of rt_event_send along the wait list, and rt_event_recv. */
module Event {
  import opened Lists
  import opened Memory
  import opened WaitList
  import opened S = EventSpec

  datatype Code = Ok | Error | TimedOut | Suspended

  /** The thread fields of the waiters on `list` hold what they want. */
  ghost predicate Filled(list: seq<Thread>, want: map<Thread, Want>, event_set: map<Thread, bv32>, event_info: map<Thread, bv8>) {
    forall t :: t in list ==> t in want && t in event_set && t in event_info && want[t] == Want(event_set[t], event_info[t])
  }

  /** Those who have left were handed what their event_set says. */
  ghost predicate Told(all: seq<Thread>, list: seq<Thread>, event_set: map<Thread, bv32>, got: map<Thread, bv32>) {
    forall t :: t in all && t !in list ==> t in event_set && t in got && event_set[t] == got[t]
  }

  /** The waiters not yet looked at, and those looked at and left, are waiters in good order. */
  ghost predicate Queued(all: seq<Thread>, list: seq<Thread>, want: map<Thread, Want>) {
    NoDup(list) && forall t :: t in list ==> t in all && t in want && WellFormed(want[t])
  }

  class RtEvent {
    var flags: bv32
    var suspend_thread: seq<Thread>
    var event_set: map<Thread, bv32>
    var event_info: map<Thread, bv8>
    ghost var want: map<Thread, Want>
    ghost var got: map<Thread, bv32>

    ghost function Model(): State
      reads this
    {
      State(flags, suspend_thread, want, got)
    }

    ghost predicate Valid()
      reads this
    {
      Inv(Model()) && Filled(suspend_thread, want, event_set, event_info)
    }

    /** rt_event_init. */
    constructor ()
      ensures Valid() && Model() == FRESH
    {
      flags, suspend_thread, event_set, event_info := 0, [], map[], map[];
      want, got := map[], map[];
      new;
      InitInv();
    }

    /** rt_event_send. */
    method Send(bits: bv32) returns (code: Code)
      requires Valid()
      modifies this
      ensures Valid() && Model() == S.Send(old(Model()), bits)
      ensures code == (if bits == 0 then Error else Ok)
      ensures bits != 0 ==> Told(old(suspend_thread), suspend_thread, event_set, got)
    {
      hide NoDup, Sweep, WellFormed, Plus, AfterFirst, ReceiveNow, Inv, Filled, Told, Queued;
      if bits == 0 { return Error; }
      ghost var st := Model();
      StepKeepsInv(st, DoSend(bits));
      Waiters(st);
      SweepStart(st, bits);
      flags := Plus(flags, bits);
      ghost var done, rest := [], suspend_thread;
      var n := 0;
      TellNobody(suspend_thread, event_set, got);
      while n < |suspend_thread|
        invariant n == |done| && suspend_thread == done + rest && want == st.want
        invariant Queued(st.waiters, suspend_thread, want) && Filled(suspend_thread, want, event_set, event_info)
        invariant Sweep(State(flags, done, want, got), rest) == S.Send(st, bits)
        invariant Told(st.waiters, suspend_thread, event_set, got)
        decreases |rest|
      {
        ghost var now := State(flags, done, want, got);
        var t := suspend_thread[n];
        NextTurn(st.waiters, done, rest, want, event_set, event_info, got, t);
        SweepNext(now, rest);
        ghost var before := event_set;
        var woken := Try(t);
        TurnResult(now, t);
        if woken {
          suspend_thread := suspend_thread[..n] + suspend_thread[n + 1..];
          FilledElsewhere(suspend_thread, want, before, event_info, t, got[t]);
          ToldOne(st.waiters, done, rest, before, now.got, t, got[t]);
        } else {
          n := n + 1;
          done := done + [t];
        }
        rest := rest[1..];
      }
      assert done == suspend_thread;
      SweepDone(State(flags, done, want, got));
      return Ok;
    }

    /** One waiter's turn: whether its condition holds, and what the event and the thread are left with. */
    method Try(t: Thread) returns (woken: bool)
      requires t in want && t in event_set && t in event_info && want[t] == Want(event_set[t], event_info[t]) && WellFormed(want[t])
      modifies this`flags, this`event_set, this`got
      ensures woken == ReceiveNow(old(flags), want[t]).0.Some?
      ensures flags == ReceiveNow(old(flags), want[t]).1
      ensures got == if woken then old(got)[t := ReceiveNow(old(flags), want[t]).0.value] else old(got)
      ensures event_set == if woken then old(event_set)[t := got[t]] else old(event_set)
    {
      hide IsAnd, IsOr, Clears, Common, Minus, WellFormed, ReceiveNow;
      TryCases(flags, want[t]);
      woken := false;
      if IsAnd(event_info[t]) {
        if Common(event_set[t], flags) == event_set[t] { woken := true; }
      } else if IsOr(event_info[t]) {  // the source rejects anything else, which rt_event_recv has ruled out
        if Common(event_set[t], flags) != 0 {
          event_set := event_set[t := Common(event_set[t], flags)];
          woken := true;
        }
      }
      if woken {
        got := got[t := event_set[t]];
        if Clears(event_info[t]) { flags := Minus(flags, event_set[t]); }
        assert event_set == old(event_set)[t := got[t]];
      }
    }

    /** The condition of rt_event_recv on the bits it finds. */
    method Test(mask: bv32, option: bv8) returns (status: bool)
      ensures status == Satisfied(flags, Want(mask, option))
    {
      hide IsAnd, IsOr, Common;
      status := false;
      if IsAnd(option) {
        if Common(flags, mask) == mask { status := true; }
      } else if IsOr(option) {
        if Common(flags, mask) != 0 { status := true; }
      }
    }

    /** rt_event_recv up to the point where a blocked caller is switched away. */
    method Recv(t: Thread, mask: bv32, option: bv8, block: bool, flag: Flag, prio: map<Thread, nat>) returns (code: Code, recved: bv32)
      requires Valid() && Legal(Model(), DoRecv(t, Want(mask, option), block, flag, prio))
      modifies this
      ensures Valid() && Model() == S.Recv(old(Model()), t, Want(mask, option), block, flag, prio)
      ensures code == Ok <==> mask != 0 && Satisfied(old(flags), Want(mask, option))
      ensures code == Ok ==> recved == Common(old(flags), mask) && t in got && got[t] == recved
    {
      hide NoDup, Suspend, IsAnd, IsOr, Clears, Common, Minus, Inv, S.Recv, Legal, Satisfied, Filled, ReceiveNow, Sweep, WellFormed;
      ghost var st := Model();
      ghost var w := Want(mask, option);
      StepKeepsInv(st, DoRecv(t, w, block, flag, prio));
      RecvCases(st, t, w, block, flag, prio);
      Listed(st);
      SuspendAdds(suspend_thread, t, flag, prio);
      FilledMore(suspend_thread, want, event_set, event_info, t, w, mask, Suspend(suspend_thread, t, flag, prio));
      FilledMore(suspend_thread, want, event_set, event_info, t, w, Common(flags, mask), suspend_thread);
      if mask == 0 { return Error, 0; }
      var status := Test(mask, option);
      if status {
        recved := Common(flags, mask);
        got, want := got[t := recved], want[t := w];
        event_set, event_info := event_set[t := recved], event_info[t := option];
        if Clears(option) { flags := Minus(flags, mask); }
        return Ok, recved;
      } else if !block {
        return TimedOut, 0;
      }
      event_set, event_info := event_set[t := mask], event_info[t := option];
      want := want[t := w];
      suspend_thread := SuspendOn(suspend_thread, t, flag, prio);
      return Suspended, 0;
    }

    /** The timer of a waiter fires. */
    method TimeOut(t: Thread)
      requires Valid() && t in suspend_thread
      modifies this`suspend_thread
      ensures Valid() && Model() == Step(old(Model()), DoTimeout(t))
    {
      StepKeepsInv(Model(), DoTimeout(t));
      WithoutFacts(suspend_thread, t);
      suspend_thread := Without(suspend_thread, t);
    }

    /** rt_event_control with RT_IPC_CMD_RESET. */
    method Reset()
      requires Valid()
      modifies this
      ensures Valid() && Model() == Step(old(Model()), DoReset)
    {
      StepKeepsInv(Model(), DoReset);
      while suspend_thread != []
        decreases |suspend_thread|
        modifies this`suspend_thread
      {
        suspend_thread := suspend_thread[1..];
      }
      flags := 0;
    }
  }

  lemma Waiters(st: State)
    requires Inv(st)
    ensures Queued(st.waiters, st.waiters, st.want)
  {}

  lemma Listed(st: State)
    requires Inv(st)
    ensures NoDup(st.waiters)
  {}

  /** A waiter's turn, in terms of its thread's fields. */
  lemma TryCases(flags: bv32, w: Want)
    requires WellFormed(w)
    ensures var (bits, after) := ReceiveNow(flags, w); var common := Common(w.mask, flags);
      && (bits.Some? <==> if IsAnd(w.option) then common == w.mask else common != 0)
      && (bits.None? ==> after == flags)
      && (bits.Some? ==> bits.value == common && after == if Clears(w.option) then Minus(flags, common) else flags)
      && (!IsAnd(w.option) ==> IsOr(w.option))
  {
    hide IsAnd, IsOr, Clears, Common, Minus;
    LeftAfter(flags, w);
  }

  lemma RecvCases(st: State, t: Thread, w: Want, block: bool, flag: Flag, prio: map<Thread, nat>)
    requires Legal(st, DoRecv(t, w, block, flag, prio))
    ensures var ok := Satisfied(st.flags, w);
      && t !in st.waiters
      && S.Recv(st, t, w, block, flag, prio) ==
        (if w.mask == 0 then st
         else if ok then State(if Clears(w.option) then Minus(st.flags, w.mask) else st.flags, st.waiters, st.want[t := w], st.got[t := Common(st.flags, w.mask)])
         else if block then State(st.flags, Suspend(st.waiters, t, flag, prio), st.want[t := w], st.got) else st)
  {
    hide IsAnd, IsOr, Clears, Common, Minus, Suspend;
  }

  /** A thread that joins the list, or does not, brings its own fields and touches no other's. */
  lemma FilledMore(list: seq<Thread>, want: map<Thread, Want>, event_set: map<Thread, bv32>, event_info: map<Thread, bv8>,
                   t: Thread, w: Want, bits: bv32, more: seq<Thread>)
    requires Filled(list, want, event_set, event_info) && (forall u :: u in more ==> u in list || u == t)
    requires t in more ==> bits == w.mask
    ensures Filled(more, want[t := w], event_set[t := bits], event_info[t := w.option])
  {
    forall u | u in more ensures u in want[t := w] && u in event_set[t := bits] && u in event_info[t := w.option]
      && want[t := w][u] == Want(event_set[t := bits][u], event_info[t := w.option][u])
    {
      if u != t { assert u in list; }
    }
  }

  lemma SweepStart(st: State, bits: bv32)
    ensures bits != 0 ==> Sweep(State(Plus(st.flags, bits), st.waiters[..0], st.want, st.got), st.waiters) == S.Send(st, bits)
  {
    assert st.waiters[..0] == [];
  }

  lemma SweepDone(st: State)
    ensures Sweep(st, []) == st
  {}

  lemma TellNobody(all: seq<Thread>, event_set: map<Thread, bv32>, got: map<Thread, bv32>)
    ensures Told(all, all, event_set, got)
  {}

  /** The list around the waiter whose turn it is. */
  lemma NextTurn(all: seq<Thread>, done: seq<Thread>, rest: seq<Thread>, want: map<Thread, Want>,
                 event_set: map<Thread, bv32>, event_info: map<Thread, bv8>, got: map<Thread, bv32>, t: Thread)
    requires rest != [] && t == (done + rest)[|done|]
    requires Queued(all, done + rest, want) && Filled(done + rest, want, event_set, event_info)
    ensures var n := |done|; var list := done + rest;
      && rest[0] == t && t in event_set && t in event_info && t in want && want[t] == Want(event_set[t], event_info[t]) && WellFormed(want[t])
      && list[..n] + list[n + 1..] == done + rest[1..] && list == (done + [t]) + rest[1..]
      && Queued(all, done + rest[1..], want) && Filled(done + rest[1..], want, event_set, event_info) && t !in done + rest[1..]
  {
    hide WellFormed;
    var list := done + rest;
    assert t in list;
    DropMiddle(done, rest);
    assert forall x :: x in done + rest[1..] ==> x in list;
  }

  lemma TurnResult(st: State, t: Thread)
    requires t in st.want
    ensures var (bits, flags) := ReceiveNow(st.flags, st.want[t]);
      AfterFirst(st, t) == if bits.None? then st.(waiters := st.waiters + [t]) else st.(flags := flags, got := st.got[t := bits.value])
    ensures ReceiveNow(st.flags, st.want[t]).0.None? ==> ReceiveNow(st.flags, st.want[t]).1 == st.flags
  {
    hide Satisfied;
  }

  lemma FilledElsewhere(list: seq<Thread>, want: map<Thread, Want>, event_set: map<Thread, bv32>, event_info: map<Thread, bv8>, t: Thread, bits: bv32)
    requires t !in list && Filled(list, want, event_set, event_info)
    ensures Filled(list, want, event_set[t := bits], event_info)
  {}

  lemma ToldOne(all: seq<Thread>, done: seq<Thread>, rest: seq<Thread>, event_set: map<Thread, bv32>, got: map<Thread, bv32>, t: Thread, bits: bv32)
    requires rest != [] && rest[0] == t && Told(all, done + rest, event_set, got)
    ensures Told(all, done + rest[1..], event_set[t := bits], got[t := bits])
  {
    forall u | u in all && u !in done + rest[1..] && u != t ensures u !in done + rest {
      assert rest == [t] + rest[1..];
    }
  }

  /** Clearing the bits received clears the bits wanted, and AND receives all it wants. */
  lemma LeftAfter(flags: bv32, w: Want)
    ensures Common(w.mask, flags) == Common(flags, w.mask) && Minus(flags, Common(flags, w.mask)) == Minus(flags, w.mask)
  {}
}
