/** Fixed-size block pools (rt-thread/src/mempool.c): the free blocks, the blocks handed out, and
    the threads waiting for one. */
module MemPoolSpec {
  import opened Lists
  import opened Memory
  import opened WaitList
  import opened L = Lobby

  /** `free` is the chain of free blocks, `held` the blocks handed out. */
  datatype State = State(free: seq<nat>, held: set<nat>, lobby: Lobby)

  /** rt_mp_alloc, entered fresh or after a wake-up.  A waiter goes to the front of the list. */
  function Alloc(st: State, t: Thread, block: bool): (Option<nat>, State) {
    if st.free != [] then (Some(st.free[0]), State(st.free[1..], st.held + {st.free[0]}, Leave(st.lobby, t)))
    else if block then (None, st.(lobby := Admit(st.lobby, Receiver, t, [t] + st.lobby.receivers)))
    else (None, st.(lobby := Leave(st.lobby, t)))
  }

  /** rt_mp_free. */
  function Free(st: State, b: nat): State {
    State([b] + st.free, st.held - {b}, Wake(st.lobby, Receiver))
  }

  datatype Op = DoAlloc(t: Thread, block: bool) | DoFree(b: nat) | DoTimeout(t: Thread) | DoDetach

  predicate Legal(st: State, op: Op) {
    match op
    case DoAlloc(t, block) => StandingOf(st.lobby, t) == Running || StandingOf(st.lobby, t) == Woken(Receiver)
    case DoFree(b) => b in st.held
    case DoTimeout(t) => StandingOf(st.lobby, t).Waiting?
    case DoDetach => true
  }

  function Step(st: State, op: Op): State {
    match op
    case DoAlloc(t, block) => Alloc(st, t, block).1
    case DoFree(b) => Free(st, b)
    case DoTimeout(t) => st.(lobby := Expire(st.lobby, t))
    case DoDetach => st.(lobby := Dismiss(st.lobby))
  }

  /** Every block is free or handed out, and while a thread is suspended there are no more free
      blocks than woken threads that have yet to run. */
  ghost predicate Inv(total: nat, st: State) {
    && NoDup(st.free) && Ok(st.lobby) && st.lobby.senders == []
    && (forall b: nat :: b in st.free <==> b < total && b !in st.held) && (forall b :: b in st.held ==> b < total)
    && (st.lobby.receivers != [] ==> |st.free| <= Pending(st.lobby, Receiver))
  }

  lemma StepKeepsInv(total: nat, st: State, op: Op)
    requires Inv(total, st) && Legal(st, op)
    ensures Inv(total, Step(st, op))
  {
    hide NoDup, Ok, Pending, Leave, Wake, Expire;
    ReceiverList();
    match op
    case DoAlloc(t, block) =>
      LeaveOk(st.lobby, t);
      FrontOk(st.lobby, t);
      if st.free != [] { TailFacts(st.free); }
    case DoFree(b) =>
      ConsNoDup(b, st.free);
      WakeOk(st.lobby, Receiver);
    case DoTimeout(t) => ExpireOk(st.lobby, t);
    case DoDetach => DismissOk(st.lobby);
  }

  lemma ReceiverList()
    ensures forall k: Lobby :: ListOf(k, Receiver) == k.receivers && ListOf(k, Sender) == k.senders
  {}

  lemma FrontOk(l: Lobby, t: Thread)
    requires Ok(l) && !StandingOf(l, t).Waiting?
    ensures var e := Admit(l, Receiver, t, [t] + l.receivers);
      Ok(e) && e.senders == l.senders && Pending(e, Receiver) == Pending(l, Receiver) - IsWoken(StandingOf(l, t), Receiver)
  {
    hide NoDup, Pending;
    assert NoDup(ListOf(l, Receiver));
    ConsNoDup(t, l.receivers);
    AdmitOk(l, Receiver, t, [t] + l.receivers);
  }

  ghost predicate IsRun(st: State, ops: seq<Op>, end: State)
    decreases |ops|
  {
    if ops == [] then st == end else Legal(st, ops[0]) && IsRun(Step(st, ops[0]), ops[1..], end)
  }

  lemma {:induction false} RunKeepsInv(total: nat, st: State, ops: seq<Op>, end: State)
    requires Inv(total, st) && IsRun(st, ops, end)
    ensures Inv(total, end)
    decreases |ops|
  {
    hide Inv, Step;
    if ops != [] {
      StepKeepsInv(total, st, ops[0]);
      RunKeepsInv(total, Step(st, ops[0]), ops[1..], end);
    }
  }

  /** No block is lost: the free ones and the ones handed out add up, so once all are back the
      whole pool is free. */
  lemma BlocksConserved(total: nat, st: State)
    requires Inv(total, st)
    ensures |st.free| + |st.held| == total
    ensures st.held == {} ==> forall b: nat :: b < total ==> b in st.free
  {
    ElementCount(st.free);
    RangeCount(total);
    assert Elements(st.free) !! st.held;
    assert Elements(st.free) + st.held == Range(total);
  }

  lemma NoLostWakeup(total: nat, st: State)
    requires Inv(total, st)
    ensures st.lobby.receivers != [] && Pending(st.lobby, Receiver) == 0 ==> st.free == []
  {}

  // ---------------------------------------------------------------- order of service

  /** The state after a run. */
  function After(st: State, ops: seq<Op>): State
    decreases |ops|
  {
    if ops == [] then st else After(Step(st, ops[0]), ops[1..])
  }

  /** The threads that the blocks given back along a run resume, in order. */
  function Served(st: State, ops: seq<Op>): seq<Thread>
    decreases |ops|
  {
    if ops == [] then []
    else (if ops[0].DoFree? && st.lobby.receivers != [] then [st.lobby.receivers[0]] else []) + Served(Step(st, ops[0]), ops[1..])
  }

  /** The threads of `ts` ask for a block, one after the other. */
  function BlockAll(ts: seq<Thread>): seq<Op> {
    if ts == [] then [] else [DoAlloc(ts[0], true)] + BlockAll(ts[1..])
  }

  /** The blocks of `bs` are given back, one after the other. */
  function FreeAll(bs: seq<nat>): seq<Op> {
    if bs == [] then [] else [DoFree(bs[0])] + FreeAll(bs[1..])
  }

  function Reverse(s: seq<nat>): (r: seq<nat>)
    ensures |r| == |s|
  {
    if s == [] then [] else Reverse(s[1..]) + [s[0]]
  }

  /** `t` may call rt_mp_alloc. */
  predicate MayAsk(st: State, t: Thread) {
    StandingOf(st.lobby, t) == Running || StandingOf(st.lobby, t) == Woken(Receiver)
  }

  lemma BlockedOne(st: State, t: Thread)
    requires st.free == [] && MayAsk(st, t)
    ensures var s := Step(st, DoAlloc(t, true));
      && Legal(st, DoAlloc(t, true)) && s.free == [] && s.held == st.held && s.lobby.receivers == [t] + st.lobby.receivers
      && forall u: Thread :: u != t ==> MayAsk(s, u) == MayAsk(st, u)
  {}

  /** On an empty pool every one of them is suspended in front of those before it. */
  lemma {:induction false} BlockedAll(st: State, ts: seq<Thread>)
    requires st.free == [] && NoDup(ts) && forall t :: t in ts ==> MayAsk(st, t)
    ensures var s := After(st, BlockAll(ts));
      s.lobby.receivers == Reverse(ts) + st.lobby.receivers && s.held == st.held && IsRun(st, BlockAll(ts), s)
    decreases |ts|
  {
    hide NoDup, Step, MayAsk, Legal, After, IsRun, Reverse;
    FirstStep(st, BlockAll(ts), After(st, BlockAll(ts)));
    ReverseFirst(ts, st.lobby.receivers);
    if ts != [] {
      TailFacts(ts);
      var s := Step(st, DoAlloc(ts[0], true));
      assert BlockAll(ts)[0] == DoAlloc(ts[0], true) && BlockAll(ts)[1..] == BlockAll(ts[1..]);
      BlockedOne(st, ts[0]);
      BlockedAll(s, ts[1..]);
    }
  }

  lemma FirstStep(st: State, ops: seq<Op>, end: State)
    ensures ops != [] ==> After(st, ops) == After(Step(st, ops[0]), ops[1..])
    ensures ops != [] ==> (IsRun(st, ops, end) <==> Legal(st, ops[0]) && IsRun(Step(st, ops[0]), ops[1..], end))
    ensures ops == [] ==> After(st, ops) == st && (IsRun(st, ops, end) <==> st == end)
  {
    hide Step, Legal;
  }

  lemma ReverseFirst(ts: seq<Thread>, w: seq<Thread>)
    ensures Reverse(ts) + w == if ts == [] then w else Reverse(ts[1..]) + ([ts[0]] + w)
  {}

  /** Blocks given back resume the waiters from the front. */
  lemma {:induction false} FreedAll(st: State, bs: seq<nat>)
    requires NoDup(bs) && forall b :: b in bs ==> b in st.held
    ensures var w := st.lobby.receivers;
      Served(st, FreeAll(bs)) == w[..if |bs| < |w| then |bs| else |w|] && IsRun(st, FreeAll(bs), After(st, FreeAll(bs)))
    decreases |bs|
  {
    hide NoDup;
    if bs != [] {
      TailFacts(bs);
      var s := Step(st, DoFree(bs[0]));
      assert FreeAll(bs)[1..] == FreeAll(bs[1..]);
      FreedAll(s, bs[1..]);
      var w := st.lobby.receivers;
      if w != [] { assert s.lobby.receivers == w[1..]; FirstThenRest(w, if |bs| < |w| then |bs| else |w|); }
    }
  }

  lemma FirstThenRest(w: seq<nat>, n: nat)
    requires 0 < n <= |w|
    ensures [w[0]] + w[1..][..n - 1] == w[..n]
  {}

  /** Threads that found the pool empty are served last come, first served. */
  lemma LastComeFirstServed(st: State, ts: seq<Thread>, bs: seq<nat>)
    requires st.free == [] && st.lobby.receivers == [] && NoDup(ts) && forall t :: t in ts ==> MayAsk(st, t)
    requires NoDup(bs) && |bs| <= |ts| && forall b :: b in bs ==> b in st.held
    ensures var s := After(st, BlockAll(ts));
      && IsRun(st, BlockAll(ts), s) && IsRun(s, FreeAll(bs), After(s, FreeAll(bs)))
      && Served(s, FreeAll(bs)) == Reverse(ts)[..|bs|]
  {
    hide NoDup, After, Served, IsRun;
    BlockedAll(st, ts);
    var s := After(st, BlockAll(ts));
    assert Reverse(ts) + [] == Reverse(ts);
    FreedAll(s, bs);
  }

  /** Once all have been served, the order of service is the order of arrival if and only if at most
      one thread was suspended. */
  lemma ArrivalOrderIffAlone(st: State, ts: seq<Thread>, bs: seq<nat>)
    requires st.free == [] && st.lobby.receivers == [] && NoDup(ts) && forall t :: t in ts ==> MayAsk(st, t)
    requires NoDup(bs) && |bs| == |ts| && forall b :: b in bs ==> b in st.held
    ensures Served(After(st, BlockAll(ts)), FreeAll(bs)) == ts <==> |ts| <= 1
  {
    LastComeFirstServed(st, ts, bs);
    assert Reverse(ts)[..|bs|] == Reverse(ts);
    hide After, Served, IsRun, BlockAll, FreeAll, MayAsk;
    if |ts| > 1 {
      LastFirst(ts);
    } else if |ts| == 1 {
      assert Reverse(ts) == Reverse(ts[1..]) + [ts[0]] == ts;
    }
  }

  lemma {:induction false} LastFirst(s: seq<nat>)
    requires s != []
    ensures Reverse(s)[0] == s[|s| - 1]
  {
    if |s| > 1 { LastFirst(s[1..]); }
  }

  /** Threads 1 and 2 wait, in that order, for the two blocks of a pool: 2 is served first. */
  lemma SecondServedFirst()
    ensures var st := State([], {0, 1}, L.EMPTY);
      Inv(2, st) && Served(After(st, BlockAll([1, 2])), FreeAll([0, 1])) == [2, 1]
  {
    hide Ok, After, Served, IsRun, BlockAll, FreeAll, Step, Pending;
    var st := State([], {0, 1}, L.EMPTY);
    EmptyOk();
    LastComeFirstServed(st, [1, 2], [0, 1]);
    assert Reverse([1, 2]) == Reverse([2]) + [1] by { assert [1, 2][1..] == [2]; }
    assert Reverse([2]) == [2] by { assert [2][1..] == []; }
    assert Reverse([1, 2])[..2] == [2, 1];
  }

  /** When `t` was last suspended; `since` numbers the steps of a run. */
  function SinceOf(since: map<Thread, nat>, t: Thread): nat {
    if t in since then since[t] else 0
  }

  function Arrive(st: State, op: Op, since: map<Thread, nat>, now: nat): map<Thread, nat> {
    if op.DoAlloc? && st.free == [] && op.block then since[op.t := now] else since
  }

  /** Whoever was suspended later stands further in front. */
  ghost predicate NewestFirst(list: seq<Thread>, since: map<Thread, nat>, now: nat) {
    && (forall t :: t in list ==> SinceOf(since, t) < now)
    && (forall i, j :: 0 <= i < j < |list| ==> SinceOf(since, list[i]) > SinceOf(since, list[j]))
  }

  /** Every step keeps the waiters in that order. */
  lemma StepKeepsNewestFirst(total: nat, st: State, op: Op, since: map<Thread, nat>, now: nat)
    requires Inv(total, st) && Legal(st, op) && NewestFirst(st.lobby.receivers, since, now)
    ensures NewestFirst(Step(st, op).lobby.receivers, Arrive(st, op, since, now), now + 1)
  {
    hide NoDup, Without, Ok, NewestFirst, Pending;
    var w := st.lobby.receivers;
    ReceiversListed(total, st);
    LaterStill(w, since, now);
    match op
    case DoAlloc(t, block) => if st.free == [] && block { FrontNewest(w, since, now, t); }
    case DoFree(b) => TailNewest(w, since, now);
    case DoTimeout(t) => LeaveNewest(w, since, now, t);
    case DoDetach => NobodyNewest(since, now);
  }

  lemma ReceiversListed(total: nat, st: State)
    requires Inv(total, st)
    ensures forall t: Thread :: t in st.lobby.receivers ==> StandingOf(st.lobby, t) == Waiting(Receiver)
  {
    assert Agrees(st.lobby, Receiver);
  }

  lemma LaterStill(w: seq<Thread>, since: map<Thread, nat>, now: nat)
    requires NewestFirst(w, since, now)
    ensures NewestFirst(w, since, now + 1)
  {}

  lemma TailNewest(w: seq<Thread>, since: map<Thread, nat>, now: nat)
    requires NewestFirst(w, since, now)
    ensures w != [] ==> NewestFirst(w[1..], since, now + 1)
  {
    if w != [] { assert forall t :: t in w[1..] ==> t in w; }
  }

  lemma LeaveNewest(w: seq<Thread>, since: map<Thread, nat>, now: nat, t: Thread)
    requires NewestFirst(w, since, now)
    ensures NewestFirst(Without(w, t), since, now + 1)
  {
    hide Without;
    var k := WithoutShape(w, t);
    var r := Without(w, t);
    assert forall i :: 0 <= i < |r| ==> r[i] == w[if i < k then i else i + 1] && r[i] in w;
  }

  lemma NobodyNewest(since: map<Thread, nat>, now: nat)
    ensures NewestFirst([], since, now + 1)
  {}

  lemma FrontNewest(w: seq<Thread>, since: map<Thread, nat>, now: nat, t: Thread)
    requires NewestFirst(w, since, now) && t !in w
    ensures NewestFirst([t] + w, since[t := now], now + 1)
  {
    var r := [t] + w;
    assert forall i :: 0 < i < |r| ==> r[i] == w[i - 1] && r[i] in w && r[i] != t;
  }

  /** The first waiter on the list, if any, was suspended first. */
  ghost predicate FirstCome(list: seq<Thread>, since: map<Thread, nat>) {
    list != [] ==> forall t :: t in list ==> SinceOf(since, list[0]) <= SinceOf(since, t)
  }

  /** Along a run every block given back resumes the thread suspended first. */
  ghost predicate InOrder(st: State, ops: seq<Op>, since: map<Thread, nat>, now: nat)
    decreases |ops|
  {
    ops != [] ==>
      && (ops[0].DoFree? ==> FirstCome(st.lobby.receivers, since))
      && InOrder(Step(st, ops[0]), ops[1..], Arrive(st, ops[0], since, now), now + 1)
  }

  /** Along a run at most one thread is suspended whenever a block is given back. */
  ghost predicate Alone(st: State, ops: seq<Op>)
    decreases |ops|
  {
    ops != [] ==> (ops[0].DoFree? ==> |st.lobby.receivers| <= 1) && Alone(Step(st, ops[0]), ops[1..])
  }

  /** Any run serves in the order of arrival if and only if nobody ever shares the list when a block
      is given back. */
  lemma {:induction false} InOrderIffAlone(total: nat, st: State, ops: seq<Op>, end: State, since: map<Thread, nat>, now: nat)
    requires Inv(total, st) && IsRun(st, ops, end) && NewestFirst(st.lobby.receivers, since, now)
    ensures InOrder(st, ops, since, now) <==> Alone(st, ops)
    decreases |ops|
  {
    hide Inv, Step, NewestFirst, Legal;
    if ops != [] {
      StepKeepsInv(total, st, ops[0]);
      StepKeepsNewestFirst(total, st, ops[0], since, now);
      InOrderIffAlone(total, Step(st, ops[0]), ops[1..], end, Arrive(st, ops[0], since, now), now + 1);
      FrontIsNewest(st.lobby.receivers, since, now);
    }
  }

  lemma FrontIsNewest(w: seq<Thread>, since: map<Thread, nat>, now: nat)
    requires NewestFirst(w, since, now)
    ensures FirstCome(w, since) <==> |w| <= 1
  {
    if |w| > 1 { assert SinceOf(since, w[0]) > SinceOf(since, w[1]) && w[1] in w; }
  }

  // ---------------------------------------------------------------- what the calls come to

  /** A block is handed out exactly when one is free: it was free, nobody held it, and it is exactly
      what is held in addition.  Otherwise the caller waits in front of all others, if it may. */
  lemma AllocHandsOut(total: nat, st: State, t: Thread, block: bool)
    requires Inv(total, st) && Legal(st, DoAlloc(t, block))
    ensures var (b, s) := Alloc(st, t, block);
      && (b.Some? <==> st.free != [])
      && (b.Some? ==>
            && b.value in st.free && b.value !in st.held && b.value < total
            && s.held == st.held + {b.value} && s.lobby.receivers == st.lobby.receivers
            && forall x: nat :: x in s.free <==> x in st.free && x != b.value)
      && (b.None? ==>
            && s.held == st.held && s.free == []
            && s.lobby.receivers == (if block then [t] + st.lobby.receivers else st.lobby.receivers)
            && StandingOf(s.lobby, t) == (if block then Waiting(Receiver) else Running))
  {
    hide NoDup, Ok, Pending;
    if st.free != [] { TailFacts(st.free); }
  }

  /** A block given back is no longer held, is the next to be handed out, and resumes the first waiter. */
  lemma FreeTakesBack(total: nat, st: State, b: nat, t: Thread, block: bool)
    requires Inv(total, st) && Legal(st, DoFree(b))
    ensures var s := Step(st, DoFree(b));
      && b !in s.held && st.held == s.held + {b} && (forall x: nat :: x in s.free <==> x in st.free || x == b)
      && (st.lobby.receivers != [] ==>
            s.lobby.receivers == st.lobby.receivers[1..] && StandingOf(s.lobby, st.lobby.receivers[0]) == Woken(Receiver))
      && (Legal(s, DoAlloc(t, block)) ==> Alloc(s, t, block).0 == Some(b) && Alloc(s, t, block).1.free == st.free)
  {
    hide NoDup, Ok, Pending, Leave;
  }

  /** A detach leaves nobody suspended and the blocks where they are. */
  lemma DetachDismisses(total: nat, st: State)
    requires Inv(total, st)
    ensures var s := Step(st, DoDetach);
      && s.free == st.free && s.held == st.held && s.lobby.receivers == []
      && forall u: Thread :: StandingOf(s.lobby, u) == if StandingOf(st.lobby, u).Waiting? then Running else StandingOf(st.lobby, u)
  {
    hide NoDup;
    DismissFrees(st.lobby);
  }

  // ---------------------------------------------------------------- initial state

  function Ascending(from: nat, n: nat): seq<nat>
    decreases n
  {
    if n == 0 then [] else [from] + Ascending(from + 1, n - 1)
  }

  lemma {:induction false} AscendingFacts(from: nat, n: nat)
    ensures |Ascending(from, n)| == n && (forall k: nat :: k < n ==> Ascending(from, n)[k] == from + k)
    ensures NoDup(Ascending(from, n)) && forall x: nat :: x in Ascending(from, n) <==> from <= x < from + n
    decreases n
  {
    if n > 0 {
      AscendingFacts(from + 1, n - 1);
      ConsNoDup(from, Ascending(from + 1, n - 1));
    }
  }

  function Init(total: nat): State {
    State(Ascending(0, total), {}, EMPTY)
  }

  lemma InitInv(total: nat)
    ensures Inv(total, Init(total))
  {
    hide Ok, NoDup;
    AscendingFacts(0, total);
    EmptyOk();
  }
}

/** The chain through the block headers. */
module MemPool {
  import opened Lists
  import opened Memory
  import opened WaitList
  import opened L = Lobby
  import opened S = MemPoolSpec

  /** The word in front of a block: the next free block, or the pool it was handed out from. */
  datatype Header = Next(next: Option<nat>) | OfPool

  function At(list: seq<nat>, k: nat): Option<nat> {
    if k < |list| then Some(list[k]) else None
  }

  ghost predicate LinkAt(headers: map<nat, Header>, list: seq<nat>, k: nat)
    requires k < |list|
  {
    list[k] in headers && headers[list[k]] == Next(At(list, k + 1))
  }

  ghost predicate Chain(headers: map<nat, Header>, head: Option<nat>, list: seq<nat>) {
    head == At(list, 0) && forall k: nat :: k < |list| ==> LinkAt(headers, list, k)
  }

  /** Blocks handed out name their pool. */
  ghost predicate Named(headers: map<nat, Header>, held: set<nat>) {
    forall b :: b in held ==> b in headers && headers[b] == OfPool
  }

  class RtMemPool {
    const total: nat
    var headers: map<nat, Header>
    var block_list: Option<nat>
    var block_free_count: nat
    var suspend_thread: seq<Thread>
    ghost var free: seq<nat>
    ghost var held: set<nat>
    ghost var standing: map<Thread, Standing>

    ghost function Model(): State
      reads this
    {
      State(free, held, Lobby(standing, [], suspend_thread))
    }

    ghost predicate Valid()
      reads this
    {
      Inv(total, Model()) && Chain(headers, block_list, free) && Named(headers, held) && block_free_count == |free|
    }

    ghost method Adopt(st: State)
      modifies this`free, this`held, this`standing
      ensures free == st.free && held == st.held && standing == st.lobby.standing
    {
      free, held, standing := st.free, st.held, st.lobby.standing;
    }

    /** rt_mp_init, once the block count is worked out: at least one block. */
    constructor (total: nat)
      requires total > 0
      ensures Valid() && this.total == total && Model() == Init(total)
    {
      this.total := total;
      headers, block_list, block_free_count, suspend_thread := map[], None, total, [];
      free, held, standing := Ascending(0, total), {}, map[];
      new;
      var offset := 0;
      while offset < total
        invariant offset <= total
        invariant forall k: nat :: k < offset ==> k in headers && headers[k] == Next(Some(k + 1))
        modifies this`headers
      {
        headers := headers[offset := Next(Some(offset + 1))];
        offset := offset + 1;
      }
      headers := headers[offset - 1 := Next(None)];
      block_list := Some(0);
      InitInv(total);
      AscendingFacts(0, total);
    }

    /** rt_mp_alloc, entered fresh or after a wake-up, up to the point where it returns or suspends. */
    method Alloc(t: Thread, block: bool) returns (r: Option<nat>)
      requires Valid() && Legal(Model(), DoAlloc(t, block))
      modifies this
      ensures Valid() && (r, Model()) == S.Alloc(old(Model()), t, block)
    {
      hide Inv, Chain, L.Leave;
      ghost var st := Model();
      ghost var s := S.Alloc(st, t, block).1;
      StepKeepsInv(total, st, DoAlloc(t, block));
      LeaveLists(st.lobby, t);
      if block_free_count == 0 {
        if block { suspend_thread := [t] + suspend_thread; }
        Adopt(s);
        return None;
      }
      FreeApart(total, st);
      ChainPop(headers, block_list, free);
      block_free_count := block_free_count - 1;
      var b := block_list.value;
      block_list := headers[b].next;
      ChainElsewhere(headers, block_list, free[1..], b, OfPool);
      headers := headers[b := OfPool];
      Adopt(s);
      return Some(b);
    }

    /** rt_mp_free of a block handed out: its header leads to this pool. */
    method Free(b: nat)
      requires Valid() && b in held
      modifies this
      ensures old(headers)[b] == OfPool
      ensures Valid() && Model() == S.Free(old(Model()), b)
    {
      hide Inv, Chain, L.Wake;
      ghost var st := Model();
      StepKeepsInv(total, st, DoFree(b));
      FreeApart(total, st);
      WakeLists(st.lobby);
      ChainPush(headers, block_list, free, b);
      block_free_count := block_free_count + 1;
      headers := headers[b := Next(block_list)];
      block_list := Some(b);
      if suspend_thread != [] { suspend_thread := suspend_thread[1..]; }
      Adopt(S.Free(st, b));
    }

    /** The timer of a suspended thread fires. */
    method TimeOut(t: Thread)
      requires Valid() && Legal(Model(), DoTimeout(t))
      modifies this
      ensures Valid() && Model() == Step(old(Model()), DoTimeout(t))
    {
      hide Chain;
      ghost var s := Step(Model(), DoTimeout(t));
      StepKeepsInv(total, Model(), DoTimeout(t));
      suspend_thread := Without(suspend_thread, t);
      Adopt(s);
    }

    /** The loop of rt_mp_detach. */
    method Detach()
      requires Valid()
      modifies this
      ensures Valid() && Model() == Step(old(Model()), DoDetach)
    {
      hide Chain;
      ghost var s := Step(Model(), DoDetach);
      StepKeepsInv(total, Model(), DoDetach);
      while suspend_thread != []
        decreases |suspend_thread|
        modifies this`suspend_thread
      {
        suspend_thread := suspend_thread[1..];
      }
      Adopt(s);
    }
  }

  lemma LeaveLists(l: Lobby, t: Thread)
    ensures Leave(l, t).senders == l.senders && Leave(l, t).receivers == l.receivers
  {}

  lemma WakeLists(l: Lobby)
    ensures var e := Wake(l, Receiver); e.senders == l.senders && e.receivers == if l.receivers == [] then [] else l.receivers[1..]
  {}

  lemma FreeApart(total: nat, st: State)
    requires Inv(total, st)
    ensures NoDup(st.free) && forall b :: b in st.held ==> b !in st.free
  {}

  lemma ChainPop(headers: map<nat, Header>, head: Option<nat>, list: seq<nat>)
    requires Chain(headers, head, list) && list != [] && NoDup(list)
    ensures head == Some(list[0]) && list[0] in headers && headers[list[0]].Next? && Chain(headers, headers[list[0]].next, list[1..])
    ensures list[0] !in list[1..]
  {
    assert LinkAt(headers, list, 0);
    forall k: nat | k < |list[1..]| ensures LinkAt(headers, list[1..], k) { assert LinkAt(headers, list, k + 1); }
  }

  lemma ChainElsewhere(headers: map<nat, Header>, head: Option<nat>, list: seq<nat>, b: nat, h: Header)
    requires Chain(headers, head, list) && b !in list
    ensures Chain(headers[b := h], head, list)
  {
    var headers' := headers[b := h];
    forall k: nat | k < |list| ensures LinkAt(headers', list, k) { assert LinkAt(headers, list, k); assert list[k] in list; }
  }

  lemma ChainPush(headers: map<nat, Header>, head: Option<nat>, list: seq<nat>, b: nat)
    requires Chain(headers, head, list) && b !in list
    ensures Chain(headers[b := Next(head)], Some(b), [b] + list)
  {
    var l := [b] + list;
    var headers' := headers[b := Next(head)];
    forall k: nat | k < |l| ensures LinkAt(headers', l, k) {
      if k > 0 { assert LinkAt(headers, list, k - 1); assert list[k - 1] in list; }
    }
  }
}
