/** rt_mq_send_wait, rt_mq_urgent, rt_mq_recv and the reset, one method for each locked region and
    each unlocked copy (rt-thread/src/ipc.c, lines 2476-2520 and 2770-3260), over nodes linked by
    `next`, and tied to the step system of MsgQueueSpec. */
module MsgQueue {
  import opened Lists
  import opened Memory
  import opened WaitList
  import opened S = MsgQueueSpec

  /** Pointers to struct rt_mq_message: None is RT_NULL. */
  type Pointer = Option<nat>

  function At(list: seq<nat>, k: nat): Pointer {
    if k < |list| then Some(list[k]) else None
  }

  ghost predicate LinkAt(next: map<nat, Pointer>, list: seq<nat>, k: nat)
    requires k < |list|
  {
    list[k] in next && next[list[k]] == At(list, k + 1)
  }

  /** The `next` links from `head` run through `list`. */
  ghost predicate Chain(next: map<nat, Pointer>, head: Pointer, list: seq<nat>) {
    head == At(list, 0) && forall k: nat :: k < |list| ==> LinkAt(next, list, k)
  }

  ghost predicate TailOf(tail: Pointer, list: seq<nat>) {
    tail == if list == [] then None else Some(list[|list| - 1])
  }

  /** A sender about to link behind the tail has ended its node's chain. */
  ghost predicate Ended(st: State, next: map<nat, Pointer>) {
    forall t :: PhaseOf(st, t).Filled? && !PhaseOf(st, t).urgent ==> PhaseOf(st, t).node in next && next[PhaseOf(st, t).node] == None
  }

  ghost predicate Tied(st: State, next: map<nat, Pointer>, head: Pointer, tail: Pointer, free: Pointer) {
    Chain(next, free, st.free) && Chain(next, head, st.queue) && TailOf(tail, st.queue) && Ended(st, next)
  }

  datatype SendOutcome = Took(node: nat) | Waiting | Full | TooLong

  class MessageQueue {
    const cfg: Config
    var next: map<nat, Pointer>
    var msg_queue_head: Pointer
    var msg_queue_tail: Pointer
    var msg_queue_free: Pointer
    var entry: nat
    var store: map<nat, Message>
    var suspend_thread: seq<Thread>
    var suspend_sender_thread: seq<Thread>
    ghost var free: seq<nat>
    ghost var queue: seq<nat>
    ghost var msgs: seq<Message>
    ghost var phase: map<Thread, Phase>
    ghost var place: map<nat, Place>

    ghost function Model(): State
      reads this
    {
      State(free, queue, msgs, entry, store, phase, suspend_sender_thread, suspend_thread, place)
    }

    ghost predicate Valid()
      reads this
    {
      Inv(cfg, Model()) && Tied(Model(), next, msg_queue_head, msg_queue_tail, msg_queue_free)
    }

    /** The parts of the model that are not fields of the object follow `st`. */
    ghost method Adopt(st: State)
      modifies this`free, this`queue, this`msgs, this`phase, this`place
      ensures free == st.free && queue == st.queue && msgs == st.msgs && phase == st.phase && place == st.place
    {
      free, queue, msgs, phase, place := st.free, st.queue, st.msgs, st.phase, st.place;
    }

    /** rt_mq_init. */
    constructor (cfg: Config, store: map<nat, Message>)
      requires cfg.max <= RT_MQ_ENTRY_MAX && forall n: nat :: n < cfg.max ==> n in store && |store[n]| == cfg.msgSize
      ensures Valid() && this.cfg == cfg && Model() == Init(cfg, store)
    {
      this.cfg, this.store := cfg, store;
      next := map[];
      msg_queue_head, msg_queue_tail, msg_queue_free := None, None, None;
      entry, suspend_thread, suspend_sender_thread := 0, [], [];
      free, queue, msgs, phase, place := [], [], [], map[], map n | n in Range(cfg.max) :: InFree;
      new;
      hide NoDup;
      var temp := 0;
      while temp < cfg.max
        invariant temp <= cfg.max && Chain(next, msg_queue_free, Countdown(temp))
        modifies this`next, this`msg_queue_free
      {
        CountdownFacts(temp);
        ChainPush(next, msg_queue_free, Countdown(temp), temp);
        next := next[temp := msg_queue_free];
        msg_queue_free := Some(temp);
        temp := temp + 1;
      }
      InitInv(cfg, store);
      Adopt(Init(cfg, store));
    }

    /** _ipc_list_resume of the first receiver, at the end of a send. */
    method ResumeReceiver()
      requires Inv(cfg, WakeReceiver(Model())) && Tied(Model(), next, msg_queue_head, msg_queue_tail, msg_queue_free) && WaitsOk(Model())
      modifies this`suspend_thread, this`phase
      ensures Valid() && Model() == WakeReceiver(old(Model()))
    {
      ghost var st := Model();
      if suspend_thread != [] {
        EndedWakes(st, next);
        phase := phase[suspend_thread[0] := WokenRecv];
        suspend_thread := suspend_thread[1..];
      }
    }

    method ResumeSender()
      requires Inv(cfg, WakeSender(Model())) && Tied(Model(), next, msg_queue_head, msg_queue_tail, msg_queue_free) && WaitsOk(Model())
      modifies this`suspend_sender_thread, this`phase
      ensures Valid() && Model() == WakeSender(old(Model()))
    {
      ghost var st := Model();
      if suspend_sender_thread != [] {
        EndedWakes(st, next);
        phase := phase[suspend_sender_thread[0] := PhaseOf(WakeSender(st), suspend_sender_thread[0])];
        suspend_sender_thread := suspend_sender_thread[1..];
      }
    }

    /** First locked region of rt_mq_send_wait and rt_mq_urgent, entered fresh or after a wake-up. */
    method TrySend(t: Thread, data: Message, urgent: bool, block: bool) returns (r: SendOutcome)
      requires Valid() && Legal(Model(), DoTrySend(t, data, urgent, block))
      modifies this
      ensures Valid() && Model() == S.TrySend(cfg, old(Model()), t, data, urgent, block)
      ensures r == (if |data| > cfg.msgSize then TooLong else if old(free) != [] then Took(old(free)[0]) else if block then Waiting else Full)
    {
      hide Inv, NoDup, Chain, WaitsOk, Ended, Without, S.TrySend;
      ghost var st := Model();
      ghost var s := S.TrySend(cfg, st, t, data, urgent, block);
      TrySendFields(cfg, st, t, data, urgent, block);
      StepKeepsInv(cfg, st, DoTrySend(t, data, urgent, block));
      TakeTied(st, s, t, next, msg_queue_head, msg_queue_tail, msg_queue_free);
      if |data| > cfg.msgSize {
        Adopt(s);
        return TooLong;
      }
      if msg_queue_free == None {
        if !block {
          Adopt(s);
          return Full;
        }
        suspend_sender_thread := SuspendOn(suspend_sender_thread, t, cfg.flag, cfg.prio);
        Adopt(s);
        return Waiting;
      }
      var msg := msg_queue_free.value;
      msg_queue_free := next[msg];
      Adopt(s);
      return Took(msg);
    }

    /** The unlocked part of a send: end the chain (an ordinary send only) and copy the message. */
    method CopyIn(t: Thread, msg: nat, data: Message, urgent: bool)
      requires Valid() && PhaseOf(Model(), t) == Filling(msg, data, urgent)
      modifies this`next, this`store, this`phase
      ensures Valid() && Model() == S.CopyIn(old(Model()), t, Filling(msg, data, urgent))
    {
      hide Inv, NoDup, Chain;
      ghost var st := Model();
      CopiesAreUndisturbed(cfg, st, t, msg);
      StepKeepsInv(cfg, st, DoCopyIn(t));
      EndTied(cfg, st, t, next, msg_queue_head, msg_queue_tail, msg_queue_free);
      FullBuffer(cfg, st, msg);
      if !urgent { next := next[msg := None]; }
      store := store[msg := data + store[msg][|data|..]];
      phase := phase[t := Filled(msg, data, urgent)];
    }

    /** Second locked region of a send; `overflow` is its error return. */
    method Link(t: Thread, msg: nat, ghost data: Message, urgent: bool) returns (overflow: bool)
      requires Valid() && PhaseOf(Model(), t) == Filled(msg, data, urgent)
      modifies this
      ensures Valid() && Model() == S.Link(old(Model()), t, Filled(msg, data, urgent)) && !overflow
    {
      hide Inv, NoDup, Chain, Tied, WakeReceiver, WakeSender, WaitsOk, S.Link, Linked;
      ghost var st := Model();
      CopiesAreUndisturbed(cfg, st, t, msg);
      StepKeepsInv(cfg, st, DoLink(t));
      NoOverflow(cfg, st, t);
      LinkTied(cfg, st, t, msg, data, urgent, next, msg_queue_head, msg_queue_tail, msg_queue_free);
      LinkedFields(st, t, Filled(msg, data, urgent));
      if urgent {
        next := next[msg := msg_queue_head];
        msg_queue_head := Some(msg);
        if msg_queue_tail == None { msg_queue_tail := Some(msg); }
      } else {
        if msg_queue_tail != None { next := next[msg_queue_tail.value := Some(msg)]; }
        msg_queue_tail := Some(msg);
        if msg_queue_head == None { msg_queue_head := Some(msg); }
      }
      overflow := !(entry < RT_MQ_ENTRY_MAX);
      if !overflow {
        entry := entry + 1;
        Adopt(Linked(st, t, Filled(msg, data, urgent)));
        ResumeReceiver();
      }
    }

    /** First locked region of rt_mq_recv, entered fresh or after a wake-up. */
    method TryRecv(t: Thread, block: bool) returns (msg: Pointer)
      requires Valid() && Legal(Model(), DoTryRecv(t, block))
      modifies this
      ensures Valid() && Model() == S.TryRecv(cfg, old(Model()), t, block)
      ensures msg == At(old(queue), 0)
    {
      hide Inv, NoDup, Chain, WaitsOk, Ended, Legal, Without, S.TryRecv;
      ghost var st := Model();
      ghost var s := S.TryRecv(cfg, st, t, block);
      TryRecvFields(cfg, st, t, block);
      EntryCounts(cfg, st);
      StepKeepsInv(cfg, st, DoTryRecv(t, block));
      RecvTied(cfg, st, s, t, next, msg_queue_head, msg_queue_tail, msg_queue_free);
      if entry == 0 {
        if block { suspend_thread := SuspendOn(suspend_thread, t, cfg.flag, cfg.prio); }
        Adopt(s);
        return None;
      }
      msg := msg_queue_head;
      msg_queue_head := next[msg.value];
      if msg_queue_tail == msg { msg_queue_tail := None; }
      if entry > 0 { entry := entry - 1; }
      Adopt(s);
    }

    /** The unlocked part of a receive. */
    method CopyOut(t: Thread, msg: nat, size: nat, ghost data: Message) returns (buffer: Message)
      requires Valid() && PhaseOf(Model(), t) == Emptying(msg, data)
      modifies this`phase
      ensures Valid() && Model() == S.CopyOut(cfg, old(Model()), t, Emptying(msg, data), size)
      ensures |buffer| == (if size > cfg.msgSize then cfg.msgSize else size)
      ensures forall i :: 0 <= i < |data| && i < |buffer| ==> buffer[i] == data[i]
    {
      hide Inv, NoDup, Chain;
      ghost var st := Model();
      StepKeepsInv(cfg, st, DoCopyOut(t, size));
      ReceivesWhatWasSent(cfg, st, t, size);
      CopiesAreUndisturbed(cfg, st, t, msg);
      FullBuffer(cfg, st, msg);
      EndedStays(st, S.CopyOut(cfg, st, t, Emptying(msg, data), size), t, next);
      buffer := store[msg][..if size > cfg.msgSize then cfg.msgSize else size];
      phase := phase[t := Emptied(msg, data, buffer)];
    }

    /** Second locked region of rt_mq_recv. */
    method GiveBack(t: Thread, msg: nat, ghost data: Message, ghost got: Message)
      requires Valid() && PhaseOf(Model(), t) == Emptied(msg, data, got)
      modifies this
      ensures Valid() && Model() == S.GiveBack(old(Model()), t, Emptied(msg, data, got))
    {
      hide Inv, NoDup, Chain, WakeSender;
      ghost var st := Model();
      CopiesAreUndisturbed(cfg, st, t, msg);
      StepKeepsInv(cfg, st, DoGiveBack(t));
      GiveTied(cfg, st, t, msg, next, msg_queue_head, msg_queue_tail, msg_queue_free);
      next := next[msg := msg_queue_free];
      msg_queue_free := Some(msg);
      Adopt(Given(st, t, msg));
      ResumeSender();
    }

    /** The timer of a suspended thread fires. */
    method TimeOut(t: Thread)
      requires Valid() && Legal(Model(), DoTimeout(t))
      modifies this`suspend_thread, this`suspend_sender_thread, this`phase
      ensures Valid() && Model() == Timeout(old(Model()), t)
    {
      hide Inv, NoDup, Chain, Without;
      ghost var st := Model();
      StepKeepsInv(cfg, st, DoTimeout(t));
      EndedStays(st, Timeout(st, t), t, next);
      suspend_thread := Without(suspend_thread, t);
      suspend_sender_thread := Without(suspend_sender_thread, t);
      phase := phase[t := Idle];
    }

    /** rt_mq_control with RT_IPC_CMD_RESET. */
    method Reset()
      requires Valid()
      modifies this
      ensures Valid() && Model() == S.Reset(old(Model()))
    {
      hide Inv, NoDup, Chain, S.Reset;
      ghost var st := Model();
      ghost var s := S.Reset(st);
      StepKeepsInv(cfg, st, DoReset);
      ResetFacts(cfg, st, next);
      ResumeAll();
      ghost var rest, moved := queue, free;
      while msg_queue_head != None
        invariant Chain(next, msg_queue_head, rest) && Chain(next, msg_queue_free, moved) && TailOf(msg_queue_tail, rest)
        invariant Apart(rest, moved) && Drain(st.queue, st.free) == Drain(rest, moved)
        invariant store == st.store && suspend_thread == [] && suspend_sender_thread == []
        invariant forall n :: n in st.store && n !in st.queue && n in old(next) ==> n in next && next[n] == old(next)[n]
        invariant forall n :: n in rest ==> n in st.queue
        modifies this`next, this`msg_queue_head, this`msg_queue_tail, this`msg_queue_free
        decreases |rest|
      {
        DrainStep(next, msg_queue_head, rest, msg_queue_free, moved);
        var msg := msg_queue_head.value;
        msg_queue_head := next[msg];
        if msg_queue_tail == Some(msg) { msg_queue_tail := None; }
        next := next[msg := msg_queue_free];
        msg_queue_free := Some(msg);
        rest, moved := rest[1..], [rest[0]] + moved;
      }
      entry := 0;
      DrainEnd(next, msg_queue_head, rest, moved);
      Adopt(s);
      EndedAfter(cfg, st, s, old(next), next);
    }

    /** _ipc_list_resume_all of both wait lists. */
    method ResumeAll()
      modifies this`suspend_thread, this`suspend_sender_thread
      ensures suspend_thread == [] && suspend_sender_thread == []
    {
      while suspend_thread != []
        decreases |suspend_thread|
      {
        suspend_thread := suspend_thread[1..];
      }
      while suspend_sender_thread != []
        invariant suspend_thread == []
        decreases |suspend_sender_thread|
      {
        suspend_sender_thread := suspend_sender_thread[1..];
      }
    }
  }

  /** The state once the message is linked, before a receiver is resumed. */
  function Linked(st: State, t: Thread, p: Phase): State
    requires p.Filled?
  {
    Enter(st.(queue := if p.urgent then [p.node] + st.queue else st.queue + [p.node],
              msgs := if p.urgent then [p.data] + st.msgs else st.msgs + [p.data],
              place := st.place[p.node := InQueue], entry := st.entry + 1), t, Idle)
  }

  function Given(st: State, t: Thread, n: nat): State {
    Enter(st.(free := [n] + st.free, place := st.place[n := InFree]), t, Idle)
  }

  ghost predicate Apart(a: seq<nat>, b: seq<nat>) {
    NoDup(a) && NoDup(b) && forall n :: n in a ==> n !in b
  }

  lemma ChainPush(next: map<nat, Pointer>, head: Pointer, list: seq<nat>, n: nat)
    requires Chain(next, head, list) && n !in list
    ensures Chain(next[n := head], Some(n), [n] + list)
  {
    var l := [n] + list;
    var next' := next[n := head];
    forall k: nat | k < |l| ensures LinkAt(next', l, k) {
      if k > 0 { assert LinkAt(next, list, k - 1); assert list[k - 1] in list; }
    }
  }

  lemma ChainPop(next: map<nat, Pointer>, head: Pointer, list: seq<nat>)
    requires Chain(next, head, list) && list != []
    ensures head == Some(list[0]) && list[0] in next && Chain(next, next[list[0]], list[1..])
  {
    assert LinkAt(next, list, 0);
    forall k: nat | k < |list[1..]| ensures LinkAt(next, list[1..], k) { assert LinkAt(next, list, k + 1); }
  }

  lemma EndedWakes(st: State, next: map<nat, Pointer>)
    requires Ended(st, next) && WaitsOk(st)
    ensures Ended(WakeReceiver(st), next) && Ended(WakeSender(st), next)
  {
    forall s | s == WakeReceiver(st) || s == WakeSender(st) ensures Ended(s, next) {
      forall t | PhaseOf(s, t).Filled? && !PhaseOf(s, t).urgent ensures PhaseOf(s, t).node in next && next[PhaseOf(s, t).node] == None {
        assert PhaseOf(s, t) == PhaseOf(st, t);
      }
    }
  }

  /** What the first region of a send does to the fields of the queue. */
  lemma TrySendFields(cfg: Config, st: State, t: Thread, data: Message, urgent: bool, block: bool)
    ensures var s := S.TrySend(cfg, st, t, data, urgent, block);
      && s.queue == st.queue && s.entry == st.entry && s.store == st.store && s.recvWait == st.recvWait && !PhaseOf(s, t).Filled?
      && (forall u :: u != t ==> PhaseOf(s, u) == PhaseOf(st, u))
      && s.free == (if |data| <= cfg.msgSize && st.free != [] then st.free[1..] else st.free)
      && s.sendWait == (if |data| <= cfg.msgSize && st.free == [] && block then Suspend(st.sendWait, t, cfg.flag, cfg.prio) else st.sendWait)
  {
    hide Suspend;
  }

  lemma TryRecvFields(cfg: Config, st: State, t: Thread, block: bool)
    ensures var s := S.TryRecv(cfg, st, t, block); var some := st.entry > 0 && st.queue != [] && st.msgs != [];
      && s.free == st.free && s.store == st.store && s.sendWait == st.sendWait && !PhaseOf(s, t).Filled?
      && (forall u :: u != t ==> PhaseOf(s, u) == PhaseOf(st, u))
      && s.queue == (if some then st.queue[1..] else st.queue)
      && s.entry == (if some then st.entry - 1 else st.entry)
      && s.recvWait == (if !some && block then Suspend(st.recvWait, t, cfg.flag, cfg.prio) else st.recvWait)
  {
    hide Suspend;
  }

  /** The links around a step that at most takes a node off the free list. */
  lemma TakeTied(st: State, s: State, t: Thread, next: map<nat, Pointer>, head: Pointer, tail: Pointer, free: Pointer)
    requires Tied(st, next, head, tail, free) && s.queue == st.queue && !PhaseOf(s, t).Filled?
    requires forall u :: u != t ==> PhaseOf(s, u) == PhaseOf(st, u)
    requires s.free == st.free || (st.free != [] && s.free == st.free[1..])
    ensures s.free == st.free ==> Tied(s, next, head, tail, free)
    ensures free == None <==> st.free == []
    ensures st.free != [] ==> free == Some(st.free[0]) && st.free[0] in next
    ensures st.free != [] && s.free == st.free[1..] ==> Tied(s, next, head, tail, next[st.free[0]])
  {
    if st.free != [] { ChainPop(next, free, st.free); }
    assert forall u :: PhaseOf(s, u).Filled? ==> PhaseOf(s, u) == PhaseOf(st, u);
  }

  /** A link outside a list may be stored to freely. */
  lemma ChainElsewhere(next: map<nat, Pointer>, head: Pointer, list: seq<nat>, n: nat, v: Pointer)
    requires Chain(next, head, list) && n !in list
    ensures Chain(next[n := v], head, list)
  {
    var next' := next[n := v];
    forall k: nat | k < |list| ensures LinkAt(next', list, k) { assert LinkAt(next, list, k); assert list[k] in list; }
  }

  lemma ChainAppend(next: map<nat, Pointer>, head: Pointer, list: seq<nat>, n: nat)
    requires Chain(next, head, list) && NoDup(list) && n !in list && n in next && next[n] == None
    ensures list == [] ==> head == None && Chain(next, Some(n), list + [n])
    ensures list != [] ==> head != None && Chain(next[list[|list| - 1] := Some(n)], head, list + [n])
  {
    var l := list + [n];
    var next' := if list == [] then next else next[list[|list| - 1] := Some(n)];
    forall k: nat | k < |l| ensures LinkAt(next', l, k) {
      if k < |list| { assert LinkAt(next, list, k); assert list[k] in list; }
    }
  }

  lemma FullBuffer(cfg: Config, st: State, n: nat)
    requires Inv(cfg, st) && n < cfg.max
    ensures n in st.store && |st.store[n]| == cfg.msgSize
    ensures forall t :: PhaseOf(st, t).Filling? ==> |PhaseOf(st, t).data| <= cfg.msgSize
  {
    forall t | PhaseOf(st, t).Filling? ensures |PhaseOf(st, t).data| <= cfg.msgSize { SoundAt(cfg, st, t); }
  }

  lemma EntryCounts(cfg: Config, st: State)
    requires Inv(cfg, st)
    ensures st.entry == |st.queue| == |st.msgs|
  {}

  lemma EndedStays(st: State, s: State, t: Thread, next: map<nat, Pointer>)
    requires Ended(st, next) && !PhaseOf(s, t).Filled? && forall u :: u != t ==> PhaseOf(s, u) == PhaseOf(st, u)
    ensures Ended(s, next)
  {
    forall u | PhaseOf(s, u).Filled? && !PhaseOf(s, u).urgent ensures PhaseOf(s, u).node in next && next[PhaseOf(s, u).node] == None {
      assert PhaseOf(s, u) == PhaseOf(st, u);
    }
  }

  /** Ending the chain of a node in the thread's own hands. */
  lemma EndTied(cfg: Config, st: State, t: Thread, next: map<nat, Pointer>, head: Pointer, tail: Pointer, free: Pointer)
    requires Inv(cfg, st) && Tied(st, next, head, tail, free) && PhaseOf(st, t).Filling?
    ensures var p := PhaseOf(st, t);
      Tied(S.CopyIn(st, t, p), if p.urgent then next else next[p.node := None], head, tail, free)
  {
    hide Inv, NoDup, Chain;
    var p := PhaseOf(st, t);
    var s := S.CopyIn(st, t, p);
    var next' := if p.urgent then next else next[p.node := None];
    CopiesAreUndisturbed(cfg, st, t, p.node);
    ChainElsewhere(next, free, st.free, p.node, None);
    ChainElsewhere(next, head, st.queue, p.node, None);
    forall u | PhaseOf(s, u).Filled? && !PhaseOf(s, u).urgent ensures PhaseOf(s, u).node in next' && next'[PhaseOf(s, u).node] == None {
      if u != t { assert PhaseOf(s, u) == PhaseOf(st, u); }
    }
  }

  lemma LinkedFields(st: State, t: Thread, p: Phase)
    requires p.Filled?
    ensures var s := Linked(st, t, p);
      && s.entry == st.entry + 1 && s.free == st.free && s.store == st.store
      && s.sendWait == st.sendWait && s.recvWait == st.recvWait
  {}

  lemma LinkTied(cfg: Config, st: State, t: Thread, n: nat, data: Message, urgent: bool,
                 next: map<nat, Pointer>, head: Pointer, tail: Pointer, free: Pointer)
    requires Inv(cfg, st) && Tied(st, next, head, tail, free) && PhaseOf(st, t) == Filled(n, data, urgent)
    ensures tail != None ==> st.queue != []
    ensures var s := Linked(st, t, Filled(n, data, urgent));
      && WaitsOk(s) && (st.entry < RT_MQ_ENTRY_MAX ==> S.Link(st, t, Filled(n, data, urgent)) == WakeReceiver(s))
      && (urgent ==> Tied(s, next[n := head], Some(n), if tail == None then Some(n) else tail, free))
      && (!urgent ==> Tied(s, if tail == None then next else next[tail.value := Some(n)], if head == None then Some(n) else head, Some(n), free))
  {
    hide NodesOk, QueueOk, NoDup, Chain;
    var s := Linked(st, t, Filled(n, data, urgent));
    WaitsSame(st, s);
    ListsApart(cfg, st);
    CopiesAreUndisturbed(cfg, st, t, n);
    if urgent {
      ChainPush(next, head, st.queue, n);
      ChainElsewhere(next, free, st.free, n, head);
      EndedOthers(cfg, st, s, t, n, next, n, head);
    } else {
      assert n in next && next[n] == None;
      ChainAppend(next, head, st.queue, n);
      if st.queue != [] {
        var last := st.queue[|st.queue| - 1];
        assert last in st.queue;
        ChainElsewhere(next, free, st.free, last, Some(n));
        EndedOthers(cfg, st, s, t, n, next, last, Some(n));
      } else {
        EmptyHead(next, head, st.queue);
        EndedStays(st, s, t, next);
      }
    }
  }

  lemma EmptyHead(next: map<nat, Pointer>, head: Pointer, list: seq<nat>)
    requires Chain(next, head, list)
    ensures head == None <==> list == []
  {}

  lemma ListsApart(cfg: Config, st: State)
    requires Inv(cfg, st)
    ensures Apart(st.queue, st.free)
  {}

  /** Storing to a queued node, or to the node `t` held, leaves the other senders' nodes alone. */
  lemma EndedOthers(cfg: Config, st: State, s: State, t: Thread, n: nat, next: map<nat, Pointer>, m: nat, v: Pointer)
    requires Inv(cfg, st) && Ended(st, next) && NodeOf(PhaseOf(st, t)) == Some(n) && s.phase == st.phase[t := Idle]
    requires m == n || m in st.queue
    ensures Ended(s, next[m := v])
  {
    hide Inv;
    forall u | PhaseOf(s, u).Filled? && !PhaseOf(s, u).urgent ensures PhaseOf(s, u).node in next[m := v] && next[m := v][PhaseOf(s, u).node] == None {
      assert PhaseOf(s, u) == PhaseOf(st, u);
      CopiesAreUndisturbed(cfg, st, u, PhaseOf(st, u).node);
    }
  }

  lemma RecvTied(cfg: Config, st: State, s: State, t: Thread, next: map<nat, Pointer>, head: Pointer, tail: Pointer, free: Pointer)
    requires Inv(cfg, st) && Tied(st, next, head, tail, free) && s.free == st.free && !PhaseOf(s, t).Filled?
    requires forall u :: u != t ==> PhaseOf(s, u) == PhaseOf(st, u)
    requires s.queue == (if st.queue != [] then st.queue[1..] else st.queue)
    ensures head == At(st.queue, 0)
    ensures st.queue == [] ==> Tied(s, next, head, tail, free)
    ensures st.queue != [] ==> st.queue[0] in next && Tied(s, next, next[st.queue[0]], if tail == head then None else tail, free)
  {
    ListsApart(cfg, st);
    if st.queue != [] { ChainPop(next, head, st.queue); }
    EndedStays(st, s, t, next);
  }

  lemma GiveTied(cfg: Config, st: State, t: Thread, n: nat, next: map<nat, Pointer>, head: Pointer, tail: Pointer, free: Pointer)
    requires Inv(cfg, st) && Tied(st, next, head, tail, free) && PhaseOf(st, t).Emptied? && PhaseOf(st, t).node == n
    ensures WaitsOk(Given(st, t, n)) && S.GiveBack(st, t, PhaseOf(st, t)) == WakeSender(Given(st, t, n))
    ensures Tied(Given(st, t, n), next[n := free], head, tail, Some(n))
  {
    hide NodesOk, QueueOk, NoDup, Chain;
    var s := Given(st, t, n);
    CopiesAreUndisturbed(cfg, st, t, n);
    WaitsSame(st, s);
    ChainPush(next, free, st.free, n);
    ChainElsewhere(next, head, st.queue, n, free);
    EndedOthers(cfg, st, s, t, n, next, n, free);
  }

  lemma ResetFacts(cfg: Config, st: State, next: map<nat, Pointer>)
    requires Inv(cfg, st)
    ensures Apart(st.queue, st.free)
    ensures var s := S.Reset(st);
      s.free == Drain(st.queue, st.free) && s.queue == [] && s.entry == 0 && s.store == st.store && s.sendWait == [] && s.recvWait == []
  {}

  lemma DrainStep(next: map<nat, Pointer>, head: Pointer, rest: seq<nat>, free: Pointer, moved: seq<nat>)
    requires Chain(next, head, rest) && Chain(next, free, moved) && Apart(rest, moved) && head != None
    ensures rest != [] && head == Some(rest[0]) && rest[0] in next && Apart(rest[1..], [rest[0]] + moved)
    ensures var n := rest[0]; Chain(next[n := free], next[n], rest[1..]) && Chain(next[n := free], Some(n), [n] + moved)
    ensures Drain(rest, moved) == Drain(rest[1..], [rest[0]] + moved)
    ensures forall tail :: TailOf(tail, rest) ==> TailOf(if tail == Some(rest[0]) then None else tail, rest[1..])
  {
    hide NoDup, Chain;
    EmptyHead(next, head, rest);
    ChainPop(next, head, rest);
    TailFacts(rest);
    ConsNoDup(rest[0], moved);
    ChainElsewhere(next, next[rest[0]], rest[1..], rest[0], free);
    ChainPush(next, free, moved, rest[0]);
    forall tail | TailOf(tail, rest) ensures TailOf(if tail == Some(rest[0]) then None else tail, rest[1..]) {
      if |rest| > 1 { assert rest[1..][|rest| - 2] == rest[|rest| - 1]; assert rest[|rest| - 1] in rest[1..]; }
    }
  }

  lemma DrainEnd(next: map<nat, Pointer>, head: Pointer, rest: seq<nat>, moved: seq<nat>)
    requires Chain(next, head, rest) && head == None
    ensures rest == [] && Drain(rest, moved) == moved
  {}

  /** The reset touches no link of a node in somebody's hands. */
  lemma EndedAfter(cfg: Config, st: State, s: State, next: map<nat, Pointer>, next': map<nat, Pointer>)
    requires Inv(cfg, st) && Ended(st, next) && s == S.Reset(st)
    requires forall n :: n in st.store && n !in st.queue && n in next ==> n in next' && next'[n] == next[n]
    ensures Ended(s, next')
  {
    hide Inv;
    forall u | PhaseOf(s, u).Filled? && !PhaseOf(s, u).urgent ensures PhaseOf(s, u).node in next' && next'[PhaseOf(s, u).node] == None {
      assert PhaseOf(s, u) == PhaseOf(st, u);
      CopiesAreUndisturbed(cfg, st, u, PhaseOf(st, u).node);
      FullBuffer(cfg, st, PhaseOf(st, u).node);
    }
  }
}
