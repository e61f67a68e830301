/** The message queue as a step system (rt-thread/src/ipc.c, lines 2770-3260).  Every region run
    with interrupts disabled is one step, and so is every unlocked copy, so that the steps of any
    number of threads interleave freely. */
module MsgQueueSpec {
  import opened Lists
  import opened Memory
  import opened WaitList

  const RT_MQ_ENTRY_MAX := 0xFFFF

  type Message = seq<Byte>

  /** `max` nodes of `msgSize` bytes, and how the wait lists are ordered. */
  datatype Config = Config(max: nat, msgSize: nat, flag: Flag, prio: map<Thread, nat>)

  /** Where a thread stands inside rt_mq_send_wait, rt_mq_urgent or rt_mq_recv.  `Filling` and
      `Filled` hold a node between the two locked regions of a send, before and after the copy;
      `Emptying` and `Emptied` do so for a receive, and record the message that was taken. */
  datatype Phase =
    | Idle
    | WaitSend(data: Message) | WokenSend(data: Message) | WaitRecv | WokenRecv
    | Filling(node: nat, data: Message, urgent: bool) | Filled(node: nat, data: Message, urgent: bool)
    | Emptying(node: nat, data: Message) | Emptied(node: nat, data: Message, got: Message)

  datatype Place = InFree | InQueue | InHand(t: Thread)

  /** `free` and `queue` list nodes; `msgs` says which messages the queued nodes carry, `store` what
      the buffer behind each node holds; `place` records who has a node. */
  datatype State = State(free: seq<nat>, queue: seq<nat>, msgs: seq<Message>, entry: nat, store: map<nat, Message>,
                         phase: map<Thread, Phase>, sendWait: seq<Thread>, recvWait: seq<Thread>, place: map<nat, Place>)

  function PhaseOf(st: State, t: Thread): Phase {
    if t in st.phase then st.phase[t] else Idle
  }

  function NodeOf(p: Phase): Option<nat> {
    if p.Filling? || p.Filled? || p.Emptying? || p.Emptied? then Some(p.node) else None
  }

  function Enter(st: State, t: Thread, p: Phase): State {
    st.(phase := st.phase[t := p])
  }

  /** What is left of a buffer of the old contents once `data` has been copied to its front. */
  function Overlay(data: Message, was: Message): Message {
    if |data| <= |was| then data + was[|data|..] else data
  }

  function BufferOf(st: State, n: nat): Message {
    if n in st.store then st.store[n] else []
  }

  /** _ipc_list_resume of the first suspended receiver, if there is one. */
  function WakeReceiver(st: State): State {
    if st.recvWait == [] then st else Enter(st.(recvWait := st.recvWait[1..]), st.recvWait[0], WokenRecv)
  }

  function WakeSender(st: State): State {
    if st.sendWait == [] then st
    else
      var t := st.sendWait[0];
      Enter(st.(sendWait := st.sendWait[1..]), t, WokenSend(if PhaseOf(st, t).WaitSend? then PhaseOf(st, t).data else []))
  }

  /** The first locked region of a send, entered fresh or after a wake-up: take a node off the free
      list, or wait for one, or give up. */
  function TrySend(cfg: Config, st: State, t: Thread, data: Message, urgent: bool, block: bool): State {
    if |data| > cfg.msgSize then Enter(st, t, Idle)
    else if st.free != [] then
      Enter(st.(free := st.free[1..], place := st.place[st.free[0] := InHand(t)]), t, Filling(st.free[0], data, urgent))
    else if block then Enter(st.(sendWait := Suspend(st.sendWait, t, cfg.flag, cfg.prio)), t, WaitSend(data))
    else Enter(st, t, Idle)
  }

  function CopyIn(st: State, t: Thread, p: Phase): State
    requires p.Filling?
  {
    Enter(st.(store := st.store[p.node := Overlay(p.data, BufferOf(st, p.node))]), t, Filled(p.node, p.data, p.urgent))
  }

  /** The second locked region of a send. */
  function Link(st: State, t: Thread, p: Phase): State
    requires p.Filled?
  {
    var s := Enter(st.(queue := if p.urgent then [p.node] + st.queue else st.queue + [p.node],
                       msgs := if p.urgent then [p.data] + st.msgs else st.msgs + [p.data],
                       place := st.place[p.node := InQueue]), t, Idle);
    if st.entry < RT_MQ_ENTRY_MAX then WakeReceiver(s.(entry := st.entry + 1)) else s
  }

  /** The first locked region of a receive. */
  function TryRecv(cfg: Config, st: State, t: Thread, block: bool): State {
    if st.entry > 0 && st.queue != [] && st.msgs != [] then
      Enter(st.(queue := st.queue[1..], msgs := st.msgs[1..], entry := st.entry - 1, place := st.place[st.queue[0] := InHand(t)]), t,
            Emptying(st.queue[0], st.msgs[0]))
    else if block then Enter(st.(recvWait := Suspend(st.recvWait, t, cfg.flag, cfg.prio)), t, WaitRecv)
    else Enter(st, t, Idle)
  }

  function CopyOut(cfg: Config, st: State, t: Thread, p: Phase, size: nat): State
    requires p.Emptying?
  {
    var b := BufferOf(st, p.node);
    var n := if size > cfg.msgSize then cfg.msgSize else size;
    Enter(st, t, Emptied(p.node, p.data, if n <= |b| then b[..n] else b))
  }

  /** The second locked region of a receive. */
  function GiveBack(st: State, t: Thread, p: Phase): State
    requires p.Emptied?
  {
    WakeSender(Enter(st.(free := [p.node] + st.free, place := st.place[p.node := InFree]), t, Idle))
  }

  /** A timeout unlinks a suspended thread, which then returns with an error. */
  function Timeout(st: State, t: Thread): State {
    Enter(st.(sendWait := Without(st.sendWait, t), recvWait := Without(st.recvWait, t)), t, Idle)
  }

  /** `queue` pushed on `free` one node after the other. */
  function Drain(queue: seq<nat>, free: seq<nat>): seq<nat> {
    if queue == [] then free else Drain(queue[1..], [queue[0]] + free)
  }

  /** RT_IPC_CMD_RESET: every waiter returns with an error, every queued node becomes free. */
  function Reset(st: State): State {
    st.(free := Drain(st.queue, st.free), queue := [], msgs := [], entry := 0, sendWait := [], recvWait := [],
        phase := map t | t in st.phase :: if t in st.sendWait || t in st.recvWait then Idle else st.phase[t],
        place := map n | n in st.place :: if st.place[n] == InQueue then InFree else st.place[n])
  }

  datatype Op =
    | DoTrySend(t: Thread, data: Message, urgent: bool, block: bool) | DoCopyIn(t: Thread) | DoLink(t: Thread)
    | DoTryRecv(t: Thread, block: bool) | DoCopyOut(t: Thread, size: nat) | DoGiveBack(t: Thread)
    | DoTimeout(t: Thread) | DoReset

  /** A thread only takes the step its program counter is at; urgent sends never block. */
  predicate Legal(st: State, op: Op) {
    match op
    case DoTrySend(t, data, urgent, block) =>
      (PhaseOf(st, t) == Idle && (urgent ==> !block)) || (PhaseOf(st, t) == WokenSend(data) && !urgent)
    case DoCopyIn(t) => PhaseOf(st, t).Filling?
    case DoLink(t) => PhaseOf(st, t).Filled?
    case DoTryRecv(t, block) => PhaseOf(st, t) == Idle || PhaseOf(st, t) == WokenRecv
    case DoCopyOut(t, size) => PhaseOf(st, t).Emptying?
    case DoGiveBack(t) => PhaseOf(st, t).Emptied?
    case DoTimeout(t) => PhaseOf(st, t).WaitSend? || PhaseOf(st, t).WaitRecv?
    case DoReset => true
  }

  function Step(cfg: Config, st: State, op: Op): State
    requires Legal(st, op)
  {
    match op
    case DoTrySend(t, data, urgent, block) => TrySend(cfg, st, t, data, urgent, block)
    case DoCopyIn(t) => CopyIn(st, t, PhaseOf(st, t))
    case DoLink(t) => Link(st, t, PhaseOf(st, t))
    case DoTryRecv(t, block) => TryRecv(cfg, st, t, block)
    case DoCopyOut(t, size) => CopyOut(cfg, st, t, PhaseOf(st, t), size)
    case DoGiveBack(t) => GiveBack(st, t, PhaseOf(st, t))
    case DoTimeout(t) => Timeout(st, t)
    case DoReset => Reset(st)
  }

  // ---------------------------------------------------------------- invariant

  /** Every node is on the free list, in the queue, or in the hands of one thread. */
  ghost predicate NodesOk(cfg: Config, st: State) {
    && NoDup(st.free) && NoDup(st.queue)
    && (forall n: nat :: n in st.place <==> n < cfg.max)
    && (forall n :: n in st.free <==> n in st.place && st.place[n] == InFree)
    && (forall n :: n in st.queue <==> n in st.place && st.place[n] == InQueue)
    && (forall n, t :: n in st.place && st.place[n] == InHand(t) ==> NodeOf(PhaseOf(st, t)) == Some(n))
    && (forall t :: NodeOf(PhaseOf(st, t)).Some? ==> HasInHand(st, NodeOf(PhaseOf(st, t)).value, t))
  }

  ghost predicate HasInHand(st: State, n: nat, t: Thread) {
    n in st.place && st.place[n] == InHand(t)
  }

  /** The buffer behind `n` starts with the message `m`. */
  ghost predicate Carries(cfg: Config, st: State, n: nat, m: Message) {
    n in st.store && |m| <= cfg.msgSize == |st.store[n]| && st.store[n][..|m|] == m
  }

  /** What a thread in phase `p` may rely on. */
  ghost predicate PhaseSound(cfg: Config, st: State, p: Phase) {
    match p
    case Filled(n, data, _) => Carries(cfg, st, n, data)
    case Emptying(n, data) => Carries(cfg, st, n, data)
    case Filling(_, data, _) => |data| <= cfg.msgSize
    case WaitSend(data) => |data| <= cfg.msgSize
    case WokenSend(data) => |data| <= cfg.msgSize
    case _ => true
  }

  /** The queue length is counted, and the queued buffers carry the messages as sent. */
  ghost predicate QueueOk(cfg: Config, st: State) {
    && st.entry == |st.queue| == |st.msgs|
    && (forall n: nat :: n < cfg.max ==> n in st.store && |st.store[n]| == cfg.msgSize)
    && (forall i: nat :: i < |st.queue| ==> Carries(cfg, st, st.queue[i], st.msgs[i]))
    && (forall t :: PhaseSound(cfg, st, PhaseOf(st, t)))
  }

  ghost predicate WaitsOk(st: State) {
    && NoDup(st.sendWait) && NoDup(st.recvWait)
    && (forall t :: t in st.sendWait <==> PhaseOf(st, t).WaitSend?)
    && (forall t :: t in st.recvWait <==> PhaseOf(st, t).WaitRecv?)
  }

  /** Threads resumed in order to send, or to receive, that have not run since. */
  function WokenSenders(st: State): set<Thread> {
    set t | t in st.phase && st.phase[t].WokenSend?
  }

  function WokenReceivers(st: State): set<Thread> {
    set t | t in st.phase && st.phase[t].WokenRecv?
  }

  /** No wake-up is lost. */
  ghost predicate WakeOk(st: State) {
    && (st.sendWait != [] ==> |st.free| <= |WokenSenders(st)|)
    && (st.recvWait != [] ==> st.entry <= |WokenReceivers(st)|)
  }

  ghost predicate Inv(cfg: Config, st: State) {
    cfg.max <= RT_MQ_ENTRY_MAX && NodesOk(cfg, st) && QueueOk(cfg, st) && WaitsOk(st) && WakeOk(st)
  }

  // ---------------------------------------------------------------- nodes

  lemma NodesSame(cfg: Config, st: State, s: State)
    requires NodesOk(cfg, st) && s.free == st.free && s.queue == st.queue && s.place == st.place
    requires forall t :: NodeOf(PhaseOf(s, t)) == NodeOf(PhaseOf(st, t))
    ensures NodesOk(cfg, s)
  {}

  /** Lists and places agree. */
  ghost predicate ListsOk(st: State) {
    && NoDup(st.free) && NoDup(st.queue)
    && (forall n :: n in st.free <==> n in st.place && st.place[n] == InFree)
    && (forall n :: n in st.queue <==> n in st.place && st.place[n] == InQueue)
  }

  lemma FreeTaken(st: State, s: State, t: Thread)
    requires ListsOk(st) && st.free != [] && s.place == st.place[st.free[0] := InHand(t)]
    requires s.free == st.free[1..] && s.queue == st.queue
    ensures ListsOk(s) && st.free[0] in st.place && st.place[st.free[0]] == InFree
  {
    hide NoDup;
    TailFacts(st.free);
  }

  lemma QueueTaken(st: State, s: State, t: Thread)
    requires ListsOk(st) && st.queue != [] && s.place == st.place[st.queue[0] := InHand(t)]
    requires s.queue == st.queue[1..] && s.free == st.free
    ensures ListsOk(s) && st.queue[0] in st.place && st.place[st.queue[0]] == InQueue
  {
    hide NoDup;
    TailFacts(st.queue);
  }

  lemma FreeGiven(st: State, s: State, n: nat)
    requires ListsOk(st) && n in st.place && st.place[n].InHand? && s.place == st.place[n := InFree]
    requires s.free == [n] + st.free && s.queue == st.queue
    ensures ListsOk(s)
  {
    hide NoDup;
    ConsNoDup(n, st.free);
  }

  lemma QueueGiven(st: State, s: State, n: nat)
    requires ListsOk(st) && n in st.place && st.place[n].InHand? && s.place == st.place[n := InQueue]
    requires s.free == st.free && (s.queue == [n] + st.queue || s.queue == st.queue + [n])
    ensures ListsOk(s)
  {
    hide NoDup;
    ConsNoDup(n, st.queue);
    SnocNoDup(st.queue, n);
  }

  /** Thread `t`, empty-handed, is handed node `n` off the front of the free list or the queue. */
  lemma NodeTaken(cfg: Config, st: State, s: State, t: Thread, n: nat, p: Phase)
    requires NodesOk(cfg, st) && NodeOf(PhaseOf(st, t)) == None && NodeOf(p) == Some(n)
    requires s.place == st.place[n := InHand(t)] && s.phase == st.phase[t := p]
    requires (st.free != [] && n == st.free[0] && s.free == st.free[1..] && s.queue == st.queue)
          || (st.queue != [] && n == st.queue[0] && s.queue == st.queue[1..] && s.free == st.free)
    ensures NodesOk(cfg, s)
  {
    hide NoDup;
    assert ListsOk(st);
    if st.free != [] && n == st.free[0] && s.free == st.free[1..] && s.queue == st.queue { FreeTaken(st, s, t); } else { QueueTaken(st, s, t); }
    hide ListsOk;
    HandsFollow(st, s, t, p, n);
    Handed(cfg, st, s, t, p, n);
  }

  lemma Handed(cfg: Config, st: State, s: State, t: Thread, p: Phase, n: nat)
    requires NodesOk(cfg, st) && NodeOf(PhaseOf(st, t)) == None && NodeOf(p) == Some(n) && n in st.place
    requires s.place == st.place[n := InHand(t)] && s.phase == st.phase[t := p] && ListsOk(s)
    requires forall u :: NodeOf(PhaseOf(s, u)).Some? ==> HasInHand(s, NodeOf(PhaseOf(s, u)).value, u)
    ensures NodesOk(cfg, s)
  {
    hide NoDup;
    forall m, u | m in s.place && s.place[m] == InHand(u) ensures NodeOf(PhaseOf(s, u)) == Some(m) {
      if m != n { assert st.place[m] == InHand(u); }
    }
  }

  /** Thread `t` gives its node to the free list or to either end of the queue. */
  lemma NodeGiven(cfg: Config, st: State, s: State, t: Thread, n: nat, p: Phase)
    requires NodesOk(cfg, st) && NodeOf(PhaseOf(st, t)) == Some(n) && NodeOf(p) == None && s.phase == st.phase[t := p]
    requires (s.place == st.place[n := InFree] && s.free == [n] + st.free && s.queue == st.queue)
          || (s.place == st.place[n := InQueue] && s.free == st.free && (s.queue == [n] + st.queue || s.queue == st.queue + [n]))
    ensures NodesOk(cfg, s)
  {
    hide NoDup;
    assert HasInHand(st, n, t);
    assert ListsOk(st);
    if s.place[n] == InFree { FreeGiven(st, s, n); } else { QueueGiven(st, s, n); }
    HandsFollow(st, s, t, p, n) by {
      forall u | u != t ensures NodeOf(PhaseOf(st, u)) != Some(n) {
        assert NodeOf(PhaseOf(st, u)).Some? ==> HasInHand(st, NodeOf(PhaseOf(st, u)).value, u);
      }
    }
    Parted(cfg, st, s, t, p, n);
  }

  lemma Parted(cfg: Config, st: State, s: State, t: Thread, p: Phase, n: nat)
    requires NodesOk(cfg, st) && NodeOf(PhaseOf(st, t)) == Some(n) && NodeOf(p) == None && n in st.place && ListsOk(s)
    requires s.phase == st.phase[t := p] && (s.place == st.place[n := InFree] || s.place == st.place[n := InQueue])
    requires forall u :: NodeOf(PhaseOf(s, u)).Some? ==> HasInHand(s, NodeOf(PhaseOf(s, u)).value, u)
    ensures NodesOk(cfg, s)
  {
    hide NoDup;
    forall m, u | m in s.place && s.place[m] == InHand(u) ensures NodeOf(PhaseOf(s, u)) == Some(m) {
      assert st.place[m] == InHand(u);
      assert u != t;
    }
  }

  /** Other threads keep what they hold when the phase of `t` and the place of one node change. */
  lemma HandsFollow(st: State, s: State, t: Thread, p: Phase, n: nat)
    requires forall u :: NodeOf(PhaseOf(st, u)).Some? ==> HasInHand(st, NodeOf(PhaseOf(st, u)).value, u)
    requires s.phase == st.phase[t := p] && s.place.Keys >= st.place.Keys && (forall m :: m in st.place && m != n ==> s.place[m] == st.place[m])
    requires forall u :: u != t ==> NodeOf(PhaseOf(st, u)) != Some(n)
    requires NodeOf(p) == None || (NodeOf(p) == Some(n) && HasInHand(s, n, t))
    ensures forall u :: NodeOf(PhaseOf(s, u)).Some? ==> HasInHand(s, NodeOf(PhaseOf(s, u)).value, u)
  {
    forall u | NodeOf(PhaseOf(s, u)).Some? ensures HasInHand(s, NodeOf(PhaseOf(s, u)).value, u) {
      if u != t { assert PhaseOf(s, u) == PhaseOf(st, u); assert HasInHand(st, NodeOf(PhaseOf(st, u)).value, u); }
    }
  }

  lemma WakeKeepsNodes(cfg: Config, st: State)
    requires NodesOk(cfg, st) && WaitsOk(st)
    ensures NodesOk(cfg, WakeReceiver(st)) && NodesOk(cfg, WakeSender(st))
  {
    hide NoDup;
    if st.recvWait != [] { assert st.recvWait[0] in st.recvWait; NodesSame(cfg, st, WakeReceiver(st)); }
    if st.sendWait != [] { assert st.sendWait[0] in st.sendWait; NodesSame(cfg, st, WakeSender(st)); }
  }

  lemma {:induction false} DrainFacts(queue: seq<nat>, free: seq<nat>)
    requires NoDup(queue) && NoDup(free) && forall n :: n in queue ==> n !in free
    ensures NoDup(Drain(queue, free)) && forall n :: n in Drain(queue, free) <==> n in queue || n in free
    decreases |queue|
  {
    if queue != [] {
      TailFacts(queue);
      ConsNoDup(queue[0], free);
      DrainFacts(queue[1..], [queue[0]] + free);
    }
  }

  lemma ResetKeepsNodes(cfg: Config, st: State)
    requires NodesOk(cfg, st) && WaitsOk(st)
    ensures NodesOk(cfg, Reset(st))
  {
    hide NoDup;
    var s := Reset(st);
    DrainFacts(st.queue, st.free);
    EmptyNoDup();
    assert s.free == Drain(st.queue, st.free) && s.queue == [];
    assert forall n :: n in s.free <==> n in s.place && s.place[n] == InFree;
    assert forall n, t :: n in s.place && s.place[n] == InHand(t) ==> st.place[n] == InHand(t);
    forall t ensures NodeOf(PhaseOf(s, t)) == NodeOf(PhaseOf(st, t)) {
      if t in st.sendWait || t in st.recvWait { assert NodeOf(PhaseOf(st, t)) == None; }
    }
    forall t | NodeOf(PhaseOf(s, t)).Some? ensures HasInHand(s, NodeOf(PhaseOf(s, t)).value, t) {
      assert HasInHand(st, NodeOf(PhaseOf(st, t)).value, t);
    }
  }

  lemma EmptyNoDup()
    ensures NoDup([])
  {}

  // ---------------------------------------------------------------- waiting

  /** What a step must do to the wait lists and the phases for them to keep agreeing. */
  lemma WaitsSame(st: State, s: State)
    requires WaitsOk(st) && s.sendWait == st.sendWait && s.recvWait == st.recvWait
    requires forall t :: PhaseOf(s, t).WaitSend? == PhaseOf(st, t).WaitSend? && PhaseOf(s, t).WaitRecv? == PhaseOf(st, t).WaitRecv?
    ensures WaitsOk(s)
  {}

  lemma SuspendKeepsWaits(cfg: Config, st: State, t: Thread, p: Phase)
    requires WaitsOk(st) && !PhaseOf(st, t).WaitSend? && !PhaseOf(st, t).WaitRecv?
    ensures p.WaitSend? ==> WaitsOk(Enter(st.(sendWait := Suspend(st.sendWait, t, cfg.flag, cfg.prio)), t, p))
    ensures p.WaitRecv? ==> WaitsOk(Enter(st.(recvWait := Suspend(st.recvWait, t, cfg.flag, cfg.prio)), t, p))
  {
    hide Suspend, NoDup;
    SuspendAdds(st.sendWait, t, cfg.flag, cfg.prio);
    SuspendAdds(st.recvWait, t, cfg.flag, cfg.prio);
  }

  lemma WakeKeepsWaits(st: State)
    requires WaitsOk(st)
    ensures WaitsOk(WakeReceiver(st)) && WaitsOk(WakeSender(st))
  {
    hide NoDup;
    if st.recvWait != [] { TailFacts(st.recvWait); }
    if st.sendWait != [] { TailFacts(st.sendWait); }
  }

  lemma TimeoutKeepsWaits(st: State, t: Thread)
    requires WaitsOk(st)
    ensures WaitsOk(Timeout(st, t))
  {
    hide NoDup, Without;
    WithoutFacts(st.sendWait, t);
    WithoutFacts(st.recvWait, t);
  }

  lemma ResetKeepsWaits(st: State)
    requires WaitsOk(st)
    ensures WaitsOk(Reset(st))
  {
    assert forall t :: PhaseOf(Reset(st), t) == if t in st.sendWait || t in st.recvWait then Idle else PhaseOf(st, t);
  }

  // ---------------------------------------------------------------- wake-ups

  lemma WokenEnter(st: State, t: Thread, p: Phase)
    ensures WokenSenders(Enter(st, t, p)) == if p.WokenSend? then WokenSenders(st) + {t} else WokenSenders(st) - {t}
    ensures WokenReceivers(Enter(st, t, p)) == if p.WokenRecv? then WokenReceivers(st) + {t} else WokenReceivers(st) - {t}
  {}

  /** A thread that runs is no longer among the woken. */
  lemma WokenCounts(st: State, s: State, t: Thread)
    requires s.phase.Keys == st.phase.Keys + {t} && (forall u :: u in st.phase && u != t ==> s.phase[u] == st.phase[u])
    requires !PhaseOf(s, t).WokenSend? && !PhaseOf(s, t).WokenRecv?
    ensures |WokenSenders(s)| == |WokenSenders(st)| - (if PhaseOf(st, t).WokenSend? then 1 else 0)
    ensures |WokenReceivers(s)| == |WokenReceivers(st)| - (if PhaseOf(st, t).WokenRecv? then 1 else 0)
  {
    WokenMembers(st, s, t);
    hide WokenSenders, WokenReceivers;
    Removed(WokenSenders(st), WokenSenders(s), t);
    Removed(WokenReceivers(st), WokenReceivers(s), t);
  }

  lemma WokenMembers(st: State, s: State, t: Thread)
    requires s.phase.Keys == st.phase.Keys + {t} && (forall u :: u in st.phase && u != t ==> s.phase[u] == st.phase[u])
    requires !PhaseOf(s, t).WokenSend? && !PhaseOf(s, t).WokenRecv?
    ensures forall u :: u in WokenSenders(s) <==> u in WokenSenders(st) && u != t
    ensures forall u :: u in WokenReceivers(s) <==> u in WokenReceivers(st) && u != t
    ensures t in WokenSenders(st) <==> PhaseOf(st, t).WokenSend?
    ensures t in WokenReceivers(st) <==> PhaseOf(st, t).WokenRecv?
  {
    forall u | u != t ensures (u in WokenSenders(s) <==> u in WokenSenders(st)) && (u in WokenReceivers(s) <==> u in WokenReceivers(st)) {
      assert PhaseOf(s, u) == PhaseOf(st, u);
    }
  }

  lemma Removed(a: set<Thread>, b: set<Thread>, t: Thread)
    requires forall u :: u in b <==> u in a && u != t
    ensures |b| == |a| - (if t in a then 1 else 0)
  {
    assert b == a - {t};
  }

  /** Waking a receiver counts for one more entry. */
  lemma WakeCounts(st: State)
    requires WaitsOk(st)
    ensures var r := WakeReceiver(st);
      && WokenSenders(r) == WokenSenders(st)
      && (st.recvWait != [] ==> |WokenReceivers(r)| == |WokenReceivers(st)| + 1)
    ensures var r := WakeSender(st);
      && WokenReceivers(r) == WokenReceivers(st)
      && (st.sendWait != [] ==> |WokenSenders(r)| == |WokenSenders(st)| + 1)
  {
    hide NoDup, WokenSenders, WokenReceivers;
    if st.recvWait != [] {
      var t := st.recvWait[0];
      assert t in st.recvWait;
      WokenEnter(st.(recvWait := st.recvWait[1..]), t, WokenRecv);
      WokenPhases(st, st.(recvWait := st.recvWait[1..]), t);
    }
    if st.sendWait != [] {
      var t := st.sendWait[0];
      assert t in st.sendWait;
      WokenEnter(st.(sendWait := st.sendWait[1..]), t, WokenSend(PhaseOf(st, t).data));
      WokenPhases(st, st.(sendWait := st.sendWait[1..]), t);
    }
  }

  lemma WokenPhases(st: State, s: State, t: Thread)
    requires s.phase == st.phase
    ensures WokenSenders(s) == WokenSenders(st) && WokenReceivers(s) == WokenReceivers(st)
    ensures !PhaseOf(st, t).WokenSend? ==> t !in WokenSenders(st)
    ensures !PhaseOf(st, t).WokenRecv? ==> t !in WokenReceivers(st)
    ensures PhaseOf(st, t).WokenSend? ==> t in WokenSenders(st)
    ensures PhaseOf(st, t).WokenRecv? ==> t in WokenReceivers(st)
  {}

  // ---------------------------------------------------------------- steps

  lemma QueueSame(cfg: Config, st: State, s: State)
    requires QueueOk(cfg, st) && s.queue == st.queue && s.msgs == st.msgs && s.entry == st.entry && s.store == st.store
    requires forall t :: PhaseOf(s, t) == PhaseOf(st, t) || PhaseSound(cfg, s, PhaseOf(s, t))
    ensures QueueOk(cfg, s)
  {
    forall t ensures PhaseSound(cfg, s, PhaseOf(s, t)) { assert PhaseSound(cfg, st, PhaseOf(st, t)); }
  }

  lemma SoundAt(cfg: Config, st: State, t: Thread)
    requires QueueOk(cfg, st)
    ensures PhaseSound(cfg, st, PhaseOf(st, t))
  {}

  /** rt_mq_send_wait or rt_mq_urgent up to the copy. */
  lemma TrySendKeeps(cfg: Config, st: State, t: Thread, data: Message, urgent: bool, block: bool)
    requires Inv(cfg, st) && Legal(st, DoTrySend(t, data, urgent, block))
    ensures Inv(cfg, TrySend(cfg, st, t, data, urgent, block))
  {
    SoundAt(cfg, st, t);
    if |data| <= cfg.msgSize && st.free != [] { SendTakesNode(cfg, st, t, data, urgent, block); }
    else if |data| <= cfg.msgSize && block { SendWaits(cfg, st, t, data, urgent); }
    else { SendFails(cfg, st, t, data, urgent, block); }
  }

  lemma SendTakesNode(cfg: Config, st: State, t: Thread, data: Message, urgent: bool, block: bool)
    requires Inv(cfg, st) && Legal(st, DoTrySend(t, data, urgent, block)) && |data| <= cfg.msgSize && st.free != []
    ensures Inv(cfg, TrySend(cfg, st, t, data, urgent, block))
  {
    hide NodesOk, WaitsOk, QueueOk, WokenSenders, WokenReceivers, Carries;
    var p := Filling(st.free[0], data, urgent);
    var s := Enter(st.(free := st.free[1..], place := st.place[st.free[0] := InHand(t)]), t, p);
    NodeTaken(cfg, st, s, t, st.free[0], p);
    QueueSame(cfg, st, s);
    WaitsSame(st, s);
    WokenCounts(st, s, t);
  }

  lemma SendWaits(cfg: Config, st: State, t: Thread, data: Message, urgent: bool)
    requires Inv(cfg, st) && Legal(st, DoTrySend(t, data, urgent, true)) && |data| <= cfg.msgSize && st.free == []
    ensures Inv(cfg, TrySend(cfg, st, t, data, urgent, true))
  {
    hide NodesOk, WaitsOk, QueueOk, WokenSenders, WokenReceivers, Suspend, Carries;
    var s := Enter(st.(sendWait := Suspend(st.sendWait, t, cfg.flag, cfg.prio)), t, WaitSend(data));
    NodesSame(cfg, st, s);
    QueueSame(cfg, st, s);
    SuspendKeepsWaits(cfg, st, t, WaitSend(data));
    WokenCounts(st, s, t);
  }

  lemma SendFails(cfg: Config, st: State, t: Thread, data: Message, urgent: bool, block: bool)
    requires Inv(cfg, st) && Legal(st, DoTrySend(t, data, urgent, block)) && PhaseSound(cfg, st, PhaseOf(st, t))
    requires |data| > cfg.msgSize || st.free == []
    ensures Inv(cfg, Enter(st, t, Idle))
  {
    hide NodesOk, WaitsOk, QueueOk, WokenSenders, WokenReceivers, Carries;
    var s := Enter(st, t, Idle);
    NodesSame(cfg, st, s);
    QueueSame(cfg, st, s);
    WaitsSame(st, s);
    WokenCounts(st, s, t);
  }

  lemma CopyInKeeps(cfg: Config, st: State, t: Thread)
    requires Inv(cfg, st) && PhaseOf(st, t).Filling?
    ensures Inv(cfg, CopyIn(st, t, PhaseOf(st, t)))
  {
    hide WokenSenders, WokenReceivers;
    var p := PhaseOf(st, t);
    var s := CopyIn(st, t, p);
    NodesSame(cfg, st, s);
    WaitsSame(st, s);
    WokenCounts(st, s, t);
    CopyInQueue(cfg, st, t);
  }

  /** The copy goes to a node in the thread's own hands: no queued message, and no message
      another thread is copying, changes. */
  lemma CopyInQueue(cfg: Config, st: State, t: Thread)
    requires NodesOk(cfg, st) && QueueOk(cfg, st) && PhaseOf(st, t).Filling?
    ensures QueueOk(cfg, CopyIn(st, t, PhaseOf(st, t)))
  {
    hide NoDup;
    var p := PhaseOf(st, t);
    var s := CopyIn(st, t, p);
    assert HasInHand(st, p.node, t) && PhaseSound(cfg, st, p);
    forall i: nat | i < |s.queue| ensures Carries(cfg, s, s.queue[i], s.msgs[i]) {
      assert st.queue[i] in st.queue;
      assert Carries(cfg, st, st.queue[i], st.msgs[i]);
    }
    forall u ensures PhaseSound(cfg, s, PhaseOf(s, u)) {
      if u == t {
        assert Carries(cfg, s, p.node, p.data) by { assert Overlay(p.data, st.store[p.node])[..|p.data|] == p.data; }
      } else {
        assert PhaseSound(cfg, st, PhaseOf(st, u));
        if NodeOf(PhaseOf(st, u)).Some? { assert HasInHand(st, NodeOf(PhaseOf(st, u)).value, u); }
      }
    }
  }

  /** When a sender links its node there are fewer entries than nodes, so the entry count cannot
      overflow: the two overflow returns are dead. */
  lemma NoOverflow(cfg: Config, st: State, t: Thread)
    requires Inv(cfg, st) && PhaseOf(st, t).Filled?
    ensures st.entry < cfg.max <= RT_MQ_ENTRY_MAX
  {
    var n := PhaseOf(st, t).node;
    assert HasInHand(st, n, t);
    Shorter(st.queue, cfg.max, n);
  }

  lemma LinkKeeps(cfg: Config, st: State, t: Thread)
    requires Inv(cfg, st) && PhaseOf(st, t).Filled?
    ensures Inv(cfg, Link(st, t, PhaseOf(st, t)))
  {
    hide NodesOk, WaitsOk, QueueOk, WokenSenders, WokenReceivers, WakeReceiver;
    NoOverflow(cfg, st, t);
    var p := PhaseOf(st, t);
    var s := Enter(st.(queue := if p.urgent then [p.node] + st.queue else st.queue + [p.node],
                       msgs := if p.urgent then [p.data] + st.msgs else st.msgs + [p.data],
                       place := st.place[p.node := InQueue], entry := st.entry + 1), t, Idle);
    NodeGiven(cfg, st, s, t, p.node, Idle);
    WaitsSame(st, s);
    LinkQueue(cfg, st, s, t);
    WakeKeepsNodes(cfg, s);
    WakeKeepsWaits(s);
    WokenCounts(st, s, t);
    WakeCounts(s);
    WakeKeepsQueue(cfg, s);
    WakeShape(s);
  }

  lemma LinkQueue(cfg: Config, st: State, s: State, t: Thread)
    requires QueueOk(cfg, st) && PhaseOf(st, t).Filled? && s.phase == st.phase[t := Idle] && s.store == st.store && s.entry == st.entry + 1
    requires var p := PhaseOf(st, t);
      && s.queue == (if p.urgent then [p.node] + st.queue else st.queue + [p.node])
      && s.msgs == (if p.urgent then [p.data] + st.msgs else st.msgs + [p.data])
    ensures QueueOk(cfg, s)
  {
    var p := PhaseOf(st, t);
    assert PhaseSound(cfg, st, p);
    forall i: nat | i < |s.queue| ensures Carries(cfg, s, s.queue[i], s.msgs[i]) {
      var k := if p.urgent then i - 1 else i;
      if 0 <= k < |st.queue| { assert Carries(cfg, st, st.queue[k], st.msgs[k]); }
    }
    forall u ensures PhaseSound(cfg, s, PhaseOf(s, u)) { assert PhaseSound(cfg, st, PhaseOf(st, u)); }
  }

  lemma WakeKeepsQueue(cfg: Config, st: State)
    requires QueueOk(cfg, st) && WaitsOk(st)
    ensures QueueOk(cfg, WakeReceiver(st)) && QueueOk(cfg, WakeSender(st))
  {
    if st.sendWait != [] {
      assert st.sendWait[0] in st.sendWait;
      assert PhaseSound(cfg, st, PhaseOf(st, st.sendWait[0]));
    }
    QueueSame(cfg, st, WakeReceiver(st));
    QueueSame(cfg, st, WakeSender(st));
  }

  /** What waking leaves alone. */
  lemma WakeShape(st: State)
    ensures var r := WakeReceiver(st);
      && r.free == st.free && r.queue == st.queue && r.msgs == st.msgs && r.entry == st.entry && r.sendWait == st.sendWait && r.store == st.store
      && (st.recvWait == [] ==> r == st)
    ensures var r := WakeSender(st);
      && r.free == st.free && r.queue == st.queue && r.msgs == st.msgs && r.entry == st.entry && r.recvWait == st.recvWait && r.store == st.store
      && (st.sendWait == [] ==> r == st)
  {}

  lemma TryRecvKeeps(cfg: Config, st: State, t: Thread, block: bool)
    requires Inv(cfg, st) && Legal(st, DoTryRecv(t, block))
    ensures Inv(cfg, TryRecv(cfg, st, t, block))
  {
    hide NodesOk, WaitsOk, QueueOk, WokenSenders, WokenReceivers, Suspend, Carries;
    QueueCounts(cfg, st);
    var s := TryRecv(cfg, st, t, block);
    WokenCounts(st, s, t);
    if st.entry > 0 {
      NodeTaken(cfg, st, s, t, st.queue[0], PhaseOf(s, t));
      WaitsSame(st, s);
      TakeQueue(cfg, st, s, t);
    } else if block {
      RecvWaits(cfg, st, s, t);
    } else {
      NodesSame(cfg, st, s);
      QueueSame(cfg, st, s);
      WaitsSame(st, s);
    }
  }

  lemma RecvWaits(cfg: Config, st: State, s: State, t: Thread)
    requires NodesOk(cfg, st) && QueueOk(cfg, st) && WaitsOk(st) && (PhaseOf(st, t) == Idle || PhaseOf(st, t) == WokenRecv)
    requires s == Enter(st.(recvWait := Suspend(st.recvWait, t, cfg.flag, cfg.prio)), t, WaitRecv)
    ensures NodesOk(cfg, s) && QueueOk(cfg, s) && WaitsOk(s)
  {
    hide NodesOk, WaitsOk, QueueOk, Suspend, Carries;
    NodesSame(cfg, st, s);
    QueueSame(cfg, st, s);
    SuspendKeepsWaits(cfg, st, t, WaitRecv);
  }

  lemma QueueCounts(cfg: Config, st: State)
    requires QueueOk(cfg, st)
    ensures st.entry == |st.queue| == |st.msgs|
  {}

  lemma TakeQueue(cfg: Config, st: State, s: State, t: Thread)
    requires QueueOk(cfg, st) && st.entry > 0 && s.store == st.store && s.entry == st.entry - 1
    requires s.queue == st.queue[1..] && s.msgs == st.msgs[1..] && s.phase == st.phase[t := Emptying(st.queue[0], st.msgs[0])]
    ensures QueueOk(cfg, s)
  {
    assert Carries(cfg, st, st.queue[0], st.msgs[0]);
    forall i: nat | i < |s.queue| ensures Carries(cfg, s, s.queue[i], s.msgs[i]) { assert Carries(cfg, st, st.queue[i + 1], st.msgs[i + 1]); }
    forall u ensures PhaseSound(cfg, s, PhaseOf(s, u)) { assert PhaseSound(cfg, st, PhaseOf(st, u)); }
  }

  lemma CopyOutKeeps(cfg: Config, st: State, t: Thread, size: nat)
    requires Inv(cfg, st) && PhaseOf(st, t).Emptying?
    ensures Inv(cfg, CopyOut(cfg, st, t, PhaseOf(st, t), size))
  {
    hide NodesOk, WaitsOk, WokenSenders, WokenReceivers;
    var s := CopyOut(cfg, st, t, PhaseOf(st, t), size);
    NodesSame(cfg, st, s);
    WaitsSame(st, s);
    QueueSame(cfg, st, s);
    WokenCounts(st, s, t);
  }

  lemma GiveBackKeeps(cfg: Config, st: State, t: Thread)
    requires Inv(cfg, st) && PhaseOf(st, t).Emptied?
    ensures Inv(cfg, GiveBack(st, t, PhaseOf(st, t)))
  {
    hide NodesOk, WaitsOk, QueueOk, WokenSenders, WokenReceivers, WakeSender;
    var p := PhaseOf(st, t);
    var s := Enter(st.(free := [p.node] + st.free, place := st.place[p.node := InFree]), t, Idle);
    NodeGiven(cfg, st, s, t, p.node, Idle);
    WaitsSame(st, s);
    QueueSame(cfg, st, s) by { assert forall u :: PhaseOf(s, u) == PhaseOf(st, u) || PhaseOf(s, u) == Idle; }
    WakeKeepsNodes(cfg, s);
    WakeKeepsWaits(s);
    WokenCounts(st, s, t);
    WakeCounts(s);
    WakeKeepsQueue(cfg, s);
    WakeShape(s);
  }

  lemma TimeoutKeeps(cfg: Config, st: State, t: Thread)
    requires Inv(cfg, st) && Legal(st, DoTimeout(t))
    ensures Inv(cfg, Timeout(st, t))
  {
    hide NodesOk, WaitsOk, WokenSenders, WokenReceivers, Without;
    var s := Timeout(st, t);
    NodesSame(cfg, st, s);
    QueueSame(cfg, st, s);
    TimeoutKeepsWaits(st, t);
    WokenCounts(st, s, t);
    assert Without([], t) == [] by { NothingToUnlink(t); }
  }

  lemma NothingToUnlink(t: Thread)
    ensures Without([], t) == []
  {}

  lemma ResetKeeps(cfg: Config, st: State)
    requires Inv(cfg, st)
    ensures Inv(cfg, Reset(st))
  {
    hide NodesOk, WaitsOk, WokenSenders, WokenReceivers;
    var s := Reset(st);
    ResetKeepsNodes(cfg, st);
    ResetKeepsWaits(st);
    forall u ensures PhaseSound(cfg, s, PhaseOf(s, u)) { assert PhaseSound(cfg, st, PhaseOf(st, u)); }
  }

  /** Every step of every thread keeps the invariant, reset in the middle of a send or a receive
      included. */
  lemma StepKeepsInv(cfg: Config, st: State, op: Op)
    requires Inv(cfg, st) && Legal(st, op)
    ensures Inv(cfg, Step(cfg, st, op))
  {
    hide Inv;
    match op
    case DoTrySend(t, data, urgent, block) => TrySendKeeps(cfg, st, t, data, urgent, block);
    case DoCopyIn(t) => CopyInKeeps(cfg, st, t);
    case DoLink(t) => LinkKeeps(cfg, st, t);
    case DoTryRecv(t, block) => TryRecvKeeps(cfg, st, t, block);
    case DoCopyOut(t, size) => CopyOutKeeps(cfg, st, t, size);
    case DoGiveBack(t) => GiveBackKeeps(cfg, st, t);
    case DoTimeout(t) => TimeoutKeeps(cfg, st, t);
    case DoReset => ResetKeeps(cfg, st);
  }

  ghost predicate IsRun(cfg: Config, st: State, ops: seq<Op>, end: State)
    decreases |ops|
  {
    if ops == [] then st == end else Legal(st, ops[0]) && IsRun(cfg, Step(cfg, st, ops[0]), ops[1..], end)
  }

  lemma {:induction false} RunKeepsInv(cfg: Config, st: State, ops: seq<Op>, end: State)
    requires Inv(cfg, st) && IsRun(cfg, st, ops, end)
    ensures Inv(cfg, end)
    decreases |ops|
  {
    hide Inv, Step;
    if ops != [] {
      StepKeepsInv(cfg, st, ops[0]);
      RunKeepsInv(cfg, Step(cfg, st, ops[0]), ops[1..], end);
    }
  }

  /** rt_mq_init: every node is free, the last one of the pool first. */
  function Init(cfg: Config, store: map<nat, Message>): State {
    State(Countdown(cfg.max), [], [], 0, store, map[], [], [], map n | n in Range(cfg.max) :: InFree)
  }

  function Countdown(n: nat): seq<nat> {
    if n == 0 then [] else [n - 1] + Countdown(n - 1)
  }

  lemma {:induction false} CountdownFacts(n: nat)
    ensures NoDup(Countdown(n)) && forall x: nat :: x in Countdown(n) <==> x < n
  {
    if n > 0 {
      CountdownFacts(n - 1);
      ConsNoDup(n - 1, Countdown(n - 1));
    }
  }

  lemma InitInv(cfg: Config, store: map<nat, Message>)
    requires cfg.max <= RT_MQ_ENTRY_MAX && forall n: nat :: n < cfg.max ==> n in store && |store[n]| == cfg.msgSize
    ensures Inv(cfg, Init(cfg, store))
  {
    hide Countdown;
    var s := Init(cfg, store);
    CountdownFacts(cfg.max);
    RangeCount(cfg.max);
    EmptyNoDup();
    assert s.free == Countdown(cfg.max) && s.queue == [];
    assert forall t :: PhaseOf(s, t) == Idle;
    assert forall n :: n in s.free <==> n in s.place && s.place[n] == InFree;
  }

  // ---------------------------------------------------------------- what follows in every state

  /** Nobody else can reach a node a thread is copying to or from without the lock. */
  lemma CopiesAreUndisturbed(cfg: Config, st: State, t: Thread, n: nat)
    requires Inv(cfg, st) && NodeOf(PhaseOf(st, t)) == Some(n)
    ensures n < cfg.max && n !in st.free && n !in st.queue && forall u :: u != t ==> NodeOf(PhaseOf(st, u)) != Some(n)
  {
    assert HasInHand(st, n, t);
    forall u | u != t ensures NodeOf(PhaseOf(st, u)) != Some(n) {
      assert NodeOf(PhaseOf(st, u)).Some? ==> HasInHand(st, NodeOf(PhaseOf(st, u)).value, u);
    }
  }

  /** A receiver is handed the front message: as much of it as its buffer takes. */
  lemma ReceivesWhatWasSent(cfg: Config, st: State, t: Thread, size: nat)
    requires Inv(cfg, st) && PhaseOf(st, t).Emptying?
    ensures var s := CopyOut(cfg, st, t, PhaseOf(st, t), size); var m := PhaseOf(st, t).data; var got := PhaseOf(s, t).got;
      && |got| == (if size > cfg.msgSize then cfg.msgSize else size)
      && forall i :: 0 <= i < |m| && i < |got| ==> got[i] == m[i]
  {
    assert PhaseSound(cfg, st, PhaseOf(st, t));
    assert HasInHand(st, PhaseOf(st, t).node, t);
  }

  /** While somebody is suspended, either there is nothing for it, or a thread already woken for
      what there is has yet to run. */
  lemma NoLostWakeup(cfg: Config, st: State)
    requires Inv(cfg, st)
    ensures st.recvWait != [] && WokenReceivers(st) == {} ==> st.queue == []
    ensures st.sendWait != [] && WokenSenders(st) == {} ==> st.free == []
  {}

  // ---------------------------------------------------------------- what the calls come to

  /** The three steps of a send that finds a node, run by one thread: the message is linked behind
      all others, or, if it is urgent, before them. */
  lemma SendDelivers(cfg: Config, st: State, t: Thread, d: Message, urgent: bool, block: bool)
    requires Inv(cfg, st) && Legal(st, DoTrySend(t, d, urgent, block)) && |d| <= cfg.msgSize && st.free != []
    ensures var s := Step(cfg, st, DoTrySend(t, d, urgent, block));
      && Legal(s, DoCopyIn(t)) && Legal(Step(cfg, s, DoCopyIn(t)), DoLink(t))
      && Step(cfg, Step(cfg, s, DoCopyIn(t)), DoLink(t)).msgs == if urgent then [d] + st.msgs else st.msgs + [d]
  {
    hide Inv, NodesOk, QueueOk, Overlay, BufferOf;
  }

  /** What the three steps of a receive do: the front message leaves the queue and arrives, as far
      as the caller's buffer goes; the node it was in is the next to be used. */
  lemma ReceiveDelivers(cfg: Config, st: State, t: Thread, block: bool, size: nat)
    requires Inv(cfg, st) && Legal(st, DoTryRecv(t, block)) && st.msgs != []
    ensures var s := Step(cfg, st, DoTryRecv(t, block));
      && s.msgs == st.msgs[1..] && Legal(s, DoCopyOut(t, size)) && Legal(Step(cfg, s, DoCopyOut(t, size)), DoGiveBack(t))
      && Received(cfg, Step(cfg, s, DoCopyOut(t, size)), t, st.msgs[0], size)
      && Step(cfg, Step(cfg, s, DoCopyOut(t, size)), DoGiveBack(t)).free == [st.queue[0]] + st.free
  {
    hide NodesOk, WaitsOk, WokenSenders, WokenReceivers;
    var s := Step(cfg, st, DoTryRecv(t, block));
    assert PhaseOf(s, t) == Emptying(st.queue[0], st.msgs[0]);
    StepKeepsInv(cfg, st, DoTryRecv(t, block));
    ReceivesWhatWasSent(cfg, s, t, size);
  }

  /** The thread has copied the message `m` out, as much of it as fits in `size` bytes. */
  ghost predicate Received(cfg: Config, st: State, t: Thread, m: Message, size: nat) {
    && PhaseOf(st, t).Emptied?
    && |PhaseOf(st, t).got| == (if size > cfg.msgSize then cfg.msgSize else size)
    && forall i :: 0 <= i < |m| && i < |PhaseOf(st, t).got| ==> PhaseOf(st, t).got[i] == m[i]
  }

  /** The queue as its clients see it, a double-ended queue that knows no nodes and no buffers:
      what each thread last offered to send, and what it last took. */
  datatype Deque = Deque(msgs: seq<Message>, offered: map<Thread, (Message, bool)>, taken: map<Thread, Message>)

  /** A send takes effect when it links, a receive when it unlinks. */
  function DequeStep(d: Deque, op: Op): Deque {
    match op
    case DoTrySend(t, data, urgent, block) => d.(offered := d.offered[t := (data, urgent)])
    case DoLink(t) =>
      if t !in d.offered then d
      else if d.offered[t].1 then d.(msgs := [d.offered[t].0] + d.msgs)
      else d.(msgs := d.msgs + [d.offered[t].0])
    case DoTryRecv(t, block) =>
      if d.msgs == [] then d else d.(msgs := d.msgs[1..], taken := d.taken[t := d.msgs[0]])
    case DoReset => d.(msgs := [])
    case _ => d
  }

  function DequeRun(d: Deque, ops: seq<Op>): Deque
    decreases |ops|
  {
    if ops == [] then d else DequeRun(DequeStep(d, ops[0]), ops[1..])
  }

  /** The messages queued are those of the deque, and every thread between its two locked regions
      carries what it offered, or what it took. */
  ghost predicate Simulates(st: State, d: Deque) {
    && st.msgs == d.msgs
    && forall t :: Carried(d, t, PhaseOf(st, t))
  }

  ghost predicate Carried(d: Deque, t: Thread, p: Phase) {
    && (p.Filling? || p.Filled? ==> t in d.offered && d.offered[t] == (p.data, p.urgent))
    && (p.Emptying? || p.Emptied? ==> t in d.taken && d.taken[t] == p.data)
  }

  /** A step that only resumes or suspends threads moves nobody's message. */
  lemma PhasesMove(st: State, s: State, d: Deque, e: Deque, t: Thread)
    requires Simulates(st, d) && s.msgs == e.msgs && Carried(e, t, PhaseOf(s, t))
    requires forall u :: u != t && u in d.offered ==> u in e.offered && e.offered[u] == d.offered[u]
    requires forall u :: u != t && u in d.taken ==> u in e.taken && e.taken[u] == d.taken[u]
    requires forall u :: u != t ==> PhaseOf(s, u) == PhaseOf(st, u) || NodeOf(PhaseOf(s, u)) == None
    ensures Simulates(s, e)
  {
    forall u ensures Carried(e, u, PhaseOf(s, u)) { assert Carried(d, u, PhaseOf(st, u)); }
  }

  lemma SimulatesAt(st: State, d: Deque, t: Thread)
    requires Simulates(st, d)
    ensures Carried(d, t, PhaseOf(st, t)) && st.msgs == d.msgs
  {}

  lemma SendSimulates(cfg: Config, st: State, d: Deque, op: Op)
    requires Simulates(st, d) && Inv(cfg, st) && Legal(st, op) && (op.DoTrySend? || op.DoCopyIn? || op.DoLink?)
    ensures Simulates(Step(cfg, st, op), DequeStep(d, op))
  {
    hide Simulates, NodesOk, QueueOk, WaitsOk, WakeOk, Overlay, BufferOf, Suspend;
    SimulatesAt(st, d, op.t);
    if op.DoLink? { NoOverflow(cfg, st, op.t); }
    PhasesMove(st, Step(cfg, st, op), d, DequeStep(d, op), op.t);
  }

  lemma ReceiveSimulates(cfg: Config, st: State, d: Deque, op: Op)
    requires Simulates(st, d) && Inv(cfg, st) && Legal(st, op) && (op.DoTryRecv? || op.DoCopyOut? || op.DoGiveBack? || op.DoTimeout?)
    ensures Simulates(Step(cfg, st, op), DequeStep(d, op))
  {
    hide Simulates, NodesOk, QueueOk, WaitsOk, WakeOk, BufferOf, Suspend, Without;
    SimulatesAt(st, d, op.t);
    QueueCounts(cfg, st) by { assert QueueOk(cfg, st); }
    PhasesMove(st, Step(cfg, st, op), d, DequeStep(d, op), op.t);
  }

  lemma ResetSimulates(st: State, d: Deque)
    requires Simulates(st, d)
    ensures Simulates(Reset(st), DequeStep(d, DoReset))
  {
    var s := Reset(st);
    forall t ensures Carried(d, t, PhaseOf(s, t)) { assert Carried(d, t, PhaseOf(st, t)); }
  }

  lemma StepSimulates(cfg: Config, st: State, d: Deque, op: Op)
    requires Simulates(st, d) && Inv(cfg, st) && Legal(st, op)
    ensures Simulates(Step(cfg, st, op), DequeStep(d, op))
  {
    hide Simulates, Inv;
    if op.DoTrySend? || op.DoCopyIn? || op.DoLink? { SendSimulates(cfg, st, d, op); }
    else if op.DoReset? { ResetSimulates(st, d); }
    else { ReceiveSimulates(cfg, st, d, op); }
  }

  lemma {:induction false} RunSimulates(cfg: Config, st: State, d: Deque, ops: seq<Op>, end: State)
    requires Simulates(st, d) && Inv(cfg, st) && IsRun(cfg, st, ops, end)
    ensures Simulates(end, DequeRun(d, ops))
    decreases |ops|
  {
    hide Simulates, Inv, Step, DequeStep;
    if ops != [] {
      StepKeepsInv(cfg, st, ops[0]);
      StepSimulates(cfg, st, d, ops[0]);
      RunSimulates(cfg, Step(cfg, st, ops[0]), DequeStep(d, ops[0]), ops[1..], end);
    }
  }

  /** However the steps of the threads interleave, the queue is the double-ended queue its clients
      think it is: it holds the messages linked and not yet taken, in order, and whoever copies out
      finds what it took from the front. */
  lemma RunIsDeque(cfg: Config, store: map<nat, Message>, ops: seq<Op>, end: State)
    requires cfg.max <= RT_MQ_ENTRY_MAX && forall n: nat :: n < cfg.max ==> n in store && |store[n]| == cfg.msgSize
    requires IsRun(cfg, Init(cfg, store), ops, end)
    ensures var d := DequeRun(Deque([], map[], map[]), ops);
      && end.msgs == d.msgs
      && forall t, size :: Legal(end, DoCopyOut(t, size)) ==>
           t in d.taken && Received(cfg, Step(cfg, end, DoCopyOut(t, size)), t, d.taken[t], size)
  {
    hide IsRun, DequeRun, Inv, Received;
    InitInv(cfg, store);
    var d := DequeRun(Deque([], map[], map[]), ops);
    RunSimulates(cfg, Init(cfg, store), Deque([], map[], map[]), ops, end);
    RunKeepsInv(cfg, Init(cfg, store), ops, end);
    forall t, size | Legal(end, DoCopyOut(t, size))
      ensures t in d.taken && Received(cfg, Step(cfg, end, DoCopyOut(t, size)), t, d.taken[t], size)
    {
      CopiesOut(cfg, end, d, t, size);
    }
  }

  lemma CopiesOut(cfg: Config, st: State, d: Deque, t: Thread, size: nat)
    requires Inv(cfg, st) && Simulates(st, d) && Legal(st, DoCopyOut(t, size))
    ensures t in d.taken && Received(cfg, Step(cfg, st, DoCopyOut(t, size)), t, d.taken[t], size)
  {
    hide Inv;
    SimulatesAt(st, d, t);
    ReceivesWhatWasSent(cfg, st, t, size);
  }

  /** Who is resumed: the first suspended receiver by a message linked, the first suspended sender
      by a node given back, and nobody else is. */
  lemma FirstIsWoken(cfg: Config, st: State, t: Thread)
    requires Inv(cfg, st)
    ensures PhaseOf(st, t).Filled? ==> var s := Step(cfg, st, DoLink(t));
      && (st.recvWait != [] ==> s.recvWait == st.recvWait[1..] && PhaseOf(s, st.recvWait[0]) == WokenRecv)
      && s.sendWait == st.sendWait && forall u :: u != t && (st.recvWait == [] || u != st.recvWait[0]) ==> PhaseOf(s, u) == PhaseOf(st, u)
    ensures PhaseOf(st, t).Emptied? ==> var s := Step(cfg, st, DoGiveBack(t));
      && (st.sendWait != [] ==> s.sendWait == st.sendWait[1..] && PhaseOf(s, st.sendWait[0]).WokenSend?
                                && PhaseOf(st, st.sendWait[0]) == WaitSend(PhaseOf(s, st.sendWait[0]).data))
      && s.recvWait == st.recvWait && forall u :: u != t && (st.sendWait == [] || u != st.sendWait[0]) ==> PhaseOf(s, u) == PhaseOf(st, u)
  {
    hide NodesOk, QueueOk, WakeOk;
    if PhaseOf(st, t).Filled? { NoOverflow(cfg, st, t) by { hide WaitsOk; } }
    if st.sendWait != [] { assert st.sendWait[0] in st.sendWait; }
    if st.recvWait != [] { assert st.recvWait[0] in st.recvWait; }
  }

  /** A full or an empty queue: without blocking nothing changes but that the call returns. */
  lemma NoRoomNoChange(cfg: Config, st: State, t: Thread, d: Message)
    requires Inv(cfg, st) && PhaseOf(st, t) == Idle
    ensures st.free == [] || |d| > cfg.msgSize ==>
      forall urgent :: Step(cfg, st, DoTrySend(t, d, urgent, false)) == st.(phase := st.phase[t := Idle])
    ensures st.msgs == [] ==> Step(cfg, st, DoTryRecv(t, false)) == st.(phase := st.phase[t := Idle])
  {
    hide NodesOk, WaitsOk, WakeOk;
  }

  /** A reset leaves no message and nobody suspended, every node it found queued is free, and
      threads on their way in or out keep their nodes. */
  lemma ResetEmpties(cfg: Config, st: State)
    requires Inv(cfg, st)
    ensures var s := Step(cfg, st, DoReset);
      && s.msgs == [] && s.entry == 0 && s.sendWait == [] && s.recvWait == []
      && (forall n :: n in s.free <==> n in st.free || n in st.queue)
      && forall t :: PhaseOf(s, t) == if PhaseOf(st, t).WaitSend? || PhaseOf(st, t).WaitRecv? then Idle else PhaseOf(st, t)
  {
    hide QueueOk, WakeOk, Drain;
    ResetKeepsNodes(cfg, st);
    var s := Reset(st);
    forall n ensures n in s.free <==> n in st.free || n in st.queue {}
  }

  /** A timeout takes one suspended thread off its list and makes it return; nothing else changes. */
  lemma TimeoutLeaves(cfg: Config, st: State, t: Thread)
    requires Inv(cfg, st) && Legal(st, DoTimeout(t))
    ensures var s := Step(cfg, st, DoTimeout(t));
      && PhaseOf(s, t) == Idle && t !in s.sendWait && t !in s.recvWait
      && s == st.(phase := st.phase[t := Idle], sendWait := s.sendWait, recvWait := s.recvWait)
      && forall u, v :: u != t && v != t ==>
           && (Before(st.sendWait, u, v) ==> Before(s.sendWait, u, v))
           && (Before(st.recvWait, u, v) ==> Before(s.recvWait, u, v))
  {
    hide NodesOk, QueueOk, WakeOk, NoDup, Without, Before;
    WithoutFacts(st.sendWait, t);
    WithoutFacts(st.recvWait, t);
    forall u, v | u != t && v != t
      ensures Before(st.sendWait, u, v) ==> Before(Without(st.sendWait, t), u, v)
      ensures Before(st.recvWait, u, v) ==> Before(Without(st.recvWait, t), u, v)
    {
      if Before(st.sendWait, u, v) { WithoutKeepsBefore(st.sendWait, t, u, v); }
      if Before(st.recvWait, u, v) { WithoutKeepsBefore(st.recvWait, t, u, v); }
    }
  }
}
