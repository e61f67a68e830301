/** Mailboxes (rt-thread/src/ipc.c, lines 1990-2411): the specification is a deque of at most
    `size` mails with the threads waiting at its two ends. */
module MailboxSpec {
  import opened WaitList
  import opened L = Lobby

  const RT_MB_ENTRY_MAX := 0xFFFF

  /** The size, a 16-bit field, and how the wait lists are ordered. */
  datatype Config = Config(size: nat, flag: Flag, prio: map<Thread, nat>)

  datatype State = State(box: seq<nat>, lobby: Lobby)

  /** rt_mb_send_wait, entered fresh or after a wake-up, up to the point where it succeeds,
      suspends the caller, or gives up. */
  function TrySend(cfg: Config, st: State, t: Thread, v: nat, block: bool): State {
    if |st.box| != cfg.size then State(st.box + [v], Wake(Leave(st.lobby, t), Receiver))
    else if block then State(st.box, Enter(st.lobby, Sender, t, cfg.flag, cfg.prio))
    else State(st.box, Leave(st.lobby, t))
  }

  /** rt_mb_urgent. */
  function Urgent(cfg: Config, st: State, v: nat): State {
    if |st.box| != cfg.size then State([v] + st.box, Wake(st.lobby, Receiver)) else st
  }

  /** rt_mb_recv, likewise. */
  function TryRecv(cfg: Config, st: State, t: Thread, block: bool): State {
    if st.box != [] then State(st.box[1..], Wake(Leave(st.lobby, t), Sender))
    else if block then State(st.box, Enter(st.lobby, Receiver, t, cfg.flag, cfg.prio))
    else State(st.box, Leave(st.lobby, t))
  }

  datatype Op =
    | DoSend(t: Thread, v: nat, block: bool) | DoUrgent(v: nat) | DoRecv(t: Thread, block: bool) | DoTimeout(t: Thread) | DoReset

  /** Only a thread that is not suspended takes a step; one woken as a sender retries as a sender. */
  predicate Legal(st: State, op: Op) {
    match op
    case DoSend(t, v, block) => StandingOf(st.lobby, t) == Running || StandingOf(st.lobby, t) == Woken(Sender)
    case DoRecv(t, block) => StandingOf(st.lobby, t) == Running || StandingOf(st.lobby, t) == Woken(Receiver)
    case DoTimeout(t) => StandingOf(st.lobby, t).Waiting?
    case _ => true
  }

  function Step(cfg: Config, st: State, op: Op): State {
    match op
    case DoSend(t, v, block) => TrySend(cfg, st, t, v, block)
    case DoUrgent(v) => Urgent(cfg, st, v)
    case DoRecv(t, block) => TryRecv(cfg, st, t, block)
    case DoTimeout(t) => State(st.box, Expire(st.lobby, t))
    case DoReset => State([], Dismiss(st.lobby))
  }

  /** No wake-up is lost: while a receiver is suspended there are no more mails than receivers
      woken for them, and while a sender is suspended no more room than senders woken for it. */
  ghost predicate Inv(cfg: Config, st: State) {
    && cfg.size <= RT_MB_ENTRY_MAX && |st.box| <= cfg.size && Ok(st.lobby)
    && (st.lobby.receivers != [] ==> |st.box| <= Pending(st.lobby, Receiver))
    && (st.lobby.senders != [] ==> cfg.size - |st.box| <= Pending(st.lobby, Sender))
  }

  lemma StepKeepsInv(cfg: Config, st: State, op: Op)
    requires Inv(cfg, st) && Legal(st, op)
    ensures Inv(cfg, Step(cfg, st, op))
  {
    hide Ok, Pending, Enter, Leave, Wake, Expire;
    match op
    case DoSend(t, v, block) =>
      EnterOk(st.lobby, Sender, t, cfg.flag, cfg.prio);
      LeaveOk(st.lobby, t);
      WakeOk(Leave(st.lobby, t), Receiver);
      Sides(st.lobby);
    case DoUrgent(v) => WakeOk(st.lobby, Receiver); Sides(st.lobby);
    case DoRecv(t, block) =>
      EnterOk(st.lobby, Receiver, t, cfg.flag, cfg.prio);
      LeaveOk(st.lobby, t);
      WakeOk(Leave(st.lobby, t), Sender);
      Sides(st.lobby);
    case DoTimeout(t) => ExpireOk(st.lobby, t); Sides(st.lobby);
    case DoReset => DismissOk(st.lobby);
  }

  lemma Sides(l: Lobby)
    ensures forall k: Lobby :: ListOf(k, Sender) == k.senders && ListOf(k, Receiver) == k.receivers
  {}

  ghost predicate IsRun(cfg: Config, st: State, ops: seq<Op>, end: State)
    decreases |ops|
  {
    if ops == [] then st == end else Legal(st, ops[0]) && IsRun(cfg, Step(cfg, st, ops[0]), ops[1..], end)
  }

  lemma {:induction false} RunKeepsInv(cfg: Config, st: State, ops: seq<Op>, end: State)
    requires Inv(cfg, st) && IsRun(cfg, st, ops, end)
    ensures Inv(cfg, end)
    decreases |ops|
  {
    hide Inv, Step;
    if ops != [] {
      StepKeepsInv(cfg, st, ops[0]);
      RunKeepsInv(cfg, Step(cfg, st, ops[0]), ops[1..], end);
    }
  }

  const FRESH := State([], EMPTY)

  lemma InitInv(cfg: Config)
    requires cfg.size <= RT_MB_ENTRY_MAX
    ensures Inv(cfg, FRESH)
  {
    EmptyOk();
  }

  /** Once every woken thread has run, nobody is left suspended before something it could have. */
  lemma NoLostWakeup(cfg: Config, st: State)
    requires Inv(cfg, st)
    ensures st.lobby.receivers != [] && Pending(st.lobby, Receiver) == 0 ==> st.box == []
    ensures st.lobby.senders != [] && Pending(st.lobby, Sender) == 0 ==> |st.box| == cfg.size
    ensures 0 < cfg.size && st.lobby.senders != [] && st.lobby.receivers != [] ==> Pending(st.lobby, Sender) + Pending(st.lobby, Receiver) > 0
  {}

  // ---------------------------------------------------------------- what the calls come to

  /** The mail a step puts in, urgent or not, and the mail it takes out. */
  function Put(cfg: Config, st: State, op: Op): seq<nat> {
    if (op.DoSend? || op.DoUrgent?) && |st.box| < cfg.size then [op.v] else []
  }

  function Took(st: State, op: Op): seq<nat> {
    if op.DoRecv? && st.box != [] then [st.box[0]] else []
  }

  /** The mails put in along a run, and those taken out, in order. */
  function PutIn(cfg: Config, st: State, ops: seq<Op>): seq<nat>
    decreases |ops|
  {
    if ops == [] then [] else Put(cfg, st, ops[0]) + PutIn(cfg, Step(cfg, st, ops[0]), ops[1..])
  }

  function TakenOut(cfg: Config, st: State, ops: seq<Op>): seq<nat>
    decreases |ops|
  {
    if ops == [] then [] else Took(st, ops[0]) + TakenOut(cfg, Step(cfg, st, ops[0]), ops[1..])
  }

  /** What one step does to the mails. */
  lemma StepMoves(cfg: Config, st: State, op: Op)
    requires Inv(cfg, st) && Legal(st, op)
    ensures var b := Step(cfg, st, op).box;
      && (op.DoSend? ==> b == if |st.box| < cfg.size then st.box + [op.v] else st.box)
      && (op.DoUrgent? ==> b == if |st.box| < cfg.size then [op.v] + st.box else st.box)
      && (op.DoRecv? ==> b == if st.box != [] then st.box[1..] else [])
      && (op.DoTimeout? ==> b == st.box) && (op.DoReset? ==> b == [])
  {
    hide Ok, Pending, Enter, Leave, Wake, Expire, Dismiss;
  }

  lemma StepIsFifo(cfg: Config, st: State, op: Op)
    requires Inv(cfg, st) && Legal(st, op) && !op.DoReset?
    ensures var b := Step(cfg, st, op).box;
      && (!op.DoUrgent? ==> st.box + Put(cfg, st, op) == Took(st, op) + b)
      && multiset(st.box) + multiset(Put(cfg, st, op)) == multiset(Took(st, op)) + multiset(b)
  {
    hide Inv, Step, Legal;
    StepMoves(cfg, st, op);
    if op.DoRecv? && st.box != [] { assert st.box == [st.box[0]] + st.box[1..]; }
  }

  lemma Chained(box: seq<nat>, put: seq<nat>, took: seq<nat>, b: seq<nat>, i: seq<nat>, o: seq<nat>, end: seq<nat>)
    requires box + put == took + b && b + i == o + end
    ensures box + (put + i) == (took + o) + end
  {
    assert box + (put + i) == (box + put) + i == took + (b + i) == took + (o + end);
  }

  lemma Regrouped(a: multiset<nat>, b: multiset<nat>, c: multiset<nat>)
    ensures (a + b) + c == a + (b + c)
  {}

  lemma Counted(box: seq<nat>, put: seq<nat>, took: seq<nat>, b: seq<nat>, i: seq<nat>, o: seq<nat>, end: seq<nat>)
    requires multiset(box) + multiset(put) == multiset(took) + multiset(b) && multiset(b) + multiset(i) == multiset(o) + multiset(end)
    ensures multiset(box) + multiset(put + i) == multiset(took + o) + multiset(end)
  {
    assert multiset(put + i) == multiset(put) + multiset(i) && multiset(took + o) == multiset(took) + multiset(o);
    Regrouped(multiset(box), multiset(put), multiset(i));
    Regrouped(multiset(took), multiset(b), multiset(i));
    Regrouped(multiset(took), multiset(o), multiset(end));
  }

  /** First in, first out: along any run without an urgent mail or a reset, whoever sends, receives,
      waits or times out meanwhile, the mails taken out and then those left are the mails there and
      then those put in. */
  lemma {:induction false} FirstInFirstOut(cfg: Config, st: State, ops: seq<Op>, end: State)
    requires Inv(cfg, st) && IsRun(cfg, st, ops, end) && forall op :: op in ops ==> !op.DoUrgent? && !op.DoReset?
    ensures st.box + PutIn(cfg, st, ops) == TakenOut(cfg, st, ops) + end.box
    decreases |ops|
  {
    hide Inv, Step, Legal, Put, Took;
    if ops != [] {
      var s := Step(cfg, st, ops[0]);
      assert ops[0] in ops && forall op :: op in ops[1..] ==> op in ops;
      StepKeepsInv(cfg, st, ops[0]);
      StepIsFifo(cfg, st, ops[0]);
      FirstInFirstOut(cfg, s, ops[1..], end);
      Chained(st.box, Put(cfg, st, ops[0]), Took(st, ops[0]), s.box, PutIn(cfg, s, ops[1..]), TakenOut(cfg, s, ops[1..]), end.box);
    } else {
      assert st.box + [] == [] + st.box;
    }
  }

  /** With urgent mails among them no mail is lost or doubled either. */
  lemma {:induction false} MailsConserved(cfg: Config, st: State, ops: seq<Op>, end: State)
    requires Inv(cfg, st) && IsRun(cfg, st, ops, end) && forall op :: op in ops ==> !op.DoReset?
    ensures multiset(st.box) + multiset(PutIn(cfg, st, ops)) == multiset(TakenOut(cfg, st, ops)) + multiset(end.box)
    decreases |ops|
  {
    hide Inv, Step, Legal, Put, Took;
    if ops != [] {
      assert ops[0] in ops && forall op :: op in ops[1..] ==> op in ops;
      StepKeepsInv(cfg, st, ops[0]);
      StepIsFifo(cfg, st, ops[0]);
      var s := Step(cfg, st, ops[0]);
      MailsConserved(cfg, s, ops[1..], end);
      Counted(st.box, Put(cfg, st, ops[0]), Took(st, ops[0]), s.box, PutIn(cfg, s, ops[1..]), TakenOut(cfg, s, ops[1..]), end.box);
    }
  }

  /** The mails that `ops` would send. */
  function Values(ops: seq<Op>): seq<nat> {
    if ops == [] then [] else (if ops[0].DoSend? then [ops[0].v] else []) + Values(ops[1..])
  }

  /** Sends that find room, by whichever threads, append their mails in order. */
  lemma {:induction false} SendsAppend(cfg: Config, st: State, ops: seq<Op>, end: State)
    requires Inv(cfg, st) && IsRun(cfg, st, ops, end) && (forall op :: op in ops ==> op.DoSend?) && |st.box| + |ops| <= cfg.size
    ensures end.box == st.box + Values(ops)
    decreases |ops|
  {
    hide Inv, Step, Legal;
    if ops != [] {
      var s := Step(cfg, st, ops[0]);
      assert ops[0] in ops && forall op :: op in ops[1..] ==> op in ops;
      StepKeepsInv(cfg, st, ops[0]);
      StepMoves(cfg, st, ops[0]);
      SendsAppend(cfg, s, ops[1..], end);
      assert Values(ops) == [ops[0].v] + Values(ops[1..]);
      assert s.box + Values(ops[1..]) == st.box + ([ops[0].v] + Values(ops[1..]));
    } else {
      assert st.box + [] == st.box;
    }
  }

  /** As many receives return the first mails, in order, and leave the rest. */
  lemma {:induction false} ReceivesDrain(cfg: Config, st: State, ops: seq<Op>, end: State)
    requires Inv(cfg, st) && IsRun(cfg, st, ops, end) && (forall op :: op in ops ==> op.DoRecv?) && |ops| <= |st.box|
    ensures TakenOut(cfg, st, ops) == st.box[..|ops|] && end.box == st.box[|ops|..]
    decreases |ops|
  {
    hide Inv, Step, Legal;
    if ops != [] {
      StepKeepsInv(cfg, st, ops[0]);
      StepMoves(cfg, st, ops[0]);
      assert ops[0] in ops && forall op :: op in ops[1..] ==> op in ops;
      ReceivesDrain(cfg, Step(cfg, st, ops[0]), ops[1..], end);
      assert st.box[..|ops|] == [st.box[0]] + st.box[1..][..|ops| - 1];
    } else {
      assert st.box[..0] == [];
    }
  }

  /** An urgent mail that finds room is the next one received, and a send that does not find room
      leaves the mails alone and its caller suspended, if it may wait, or going on. */
  lemma UrgentFirst(cfg: Config, st: State, v: nat, t: Thread, block: bool)
    requires Inv(cfg, st)
    ensures |st.box| < cfg.size && Legal(Step(cfg, st, DoUrgent(v)), DoRecv(t, block)) ==>
      var s := Step(cfg, Step(cfg, st, DoUrgent(v)), DoRecv(t, block));
      TakenOut(cfg, st, [DoUrgent(v), DoRecv(t, block)]) == [v] && s.box == st.box
    ensures |st.box| == cfg.size ==> Step(cfg, st, DoUrgent(v)) == st
    ensures |st.box| == cfg.size && Legal(st, DoSend(t, v, block)) ==>
      var s := Step(cfg, st, DoSend(t, v, block));
      s.box == st.box && StandingOf(s.lobby, t) == (if block then Waiting(Sender) else Running)
    ensures st.box == [] && Legal(st, DoRecv(t, block)) ==>
      var s := Step(cfg, st, DoRecv(t, block));
      s.box == [] && StandingOf(s.lobby, t) == (if block then Waiting(Receiver) else Running)
  {
    hide Inv, Ok, Pending, Wake;
    var ops := [DoUrgent(v), DoRecv(t, block)];
    var u := Step(cfg, st, ops[0]);
    assert ops[1..] == [DoRecv(t, block)];
    assert TakenOut(cfg, Step(cfg, u, ops[1]), ops[1..][1..]) == [];
    assert ops[1..][0] == ops[1];
    SizeBounds(cfg, st);
  }

  lemma SizeBounds(cfg: Config, st: State)
    requires Inv(cfg, st)
    ensures |st.box| <= cfg.size
  {}

  /** A mail resumes the receiver that stands first, and room the sender that does. */
  lemma MailWakesFirst(cfg: Config, st: State, op: Op)
    requires Inv(cfg, st) && Legal(st, op)
    ensures var s := Step(cfg, st, op);
      && ((op.DoSend? || op.DoUrgent?) && |st.box| < cfg.size && st.lobby.receivers != [] ==>
            s.lobby.receivers == st.lobby.receivers[1..] && StandingOf(s.lobby, st.lobby.receivers[0]) == Woken(Receiver))
      && (op.DoRecv? && st.box != [] && st.lobby.senders != [] ==>
            s.lobby.senders == st.lobby.senders[1..] && StandingOf(s.lobby, st.lobby.senders[0]) == Woken(Sender))
  {
    hide Ok, Pending;
  }

  /** A reset leaves no mail and nobody suspended; a thread woken before still is. */
  lemma ResetEmpties(cfg: Config, st: State)
    requires Inv(cfg, st)
    ensures var s := Step(cfg, st, DoReset);
      && s.box == [] && s.lobby.senders == [] && s.lobby.receivers == []
      && forall u: WaitList.Thread :: StandingOf(s.lobby, u) == if StandingOf(st.lobby, u).Waiting? then Running else StandingOf(st.lobby, u)
  {
    DismissFrees(st.lobby);
  }
}

/** The ring behind a mailbox. */
module Mailbox {
  import opened Alignment
  import opened Lists
  import opened WaitList
  import opened L = Lobby
  import opened S = MailboxSpec

  /** Slot `i` of a ring of `size` read from slot `from` on. */
  function Slot(from: nat, i: nat, size: nat): nat {
    if from + i >= size && size <= from + i then from + i - size else from + i
  }

  lemma SlotIsMod(from: nat, i: nat, size: nat)
    requires from < size && i <= size
    ensures Slot(from, i, size) == (from + i) % size
  {
    DivModUnique(from + i, size, if from + i >= size then 1 else 0, Slot(from, i, size));
  }

  /** The ring holds `box` from `start` on, and `end` is where it ends. */
  ghost predicate Ring(pool: seq<nat>, end: nat, start: nat, n: nat, box: seq<nat>) {
    && n == |box| <= |pool|
    && (|pool| > 0 ==> start < |pool| && end == Slot(start, n, |pool|) < |pool|)
    && forall i: nat :: i < n ==> Slot(start, i, |pool|) < |pool| && pool[Slot(start, i, |pool|)] == box[i]
  }

  class RtMailbox {
    const cfg: Config
    const msg_pool: array<nat>
    var entry: nat
    var in_offset: nat
    var out_offset: nat
    var suspend_thread: seq<Thread>
    var suspend_sender_thread: seq<Thread>
    ghost var box: seq<nat>
    ghost var standing: map<Thread, Standing>

    ghost function Model(): State
      reads this
    {
      State(box, Lobby(standing, suspend_sender_thread, suspend_thread))
    }

    ghost predicate Valid()
      reads this, msg_pool
    {
      msg_pool.Length == cfg.size && Ring(msg_pool[..], in_offset, out_offset, entry, box) && Inv(cfg, Model())
    }

    ghost method Adopt(st: State)
      modifies this`box, this`standing
      ensures box == st.box && standing == st.lobby.standing
    {
      box, standing := st.box, st.lobby.standing;
    }

    /** rt_mb_init. */
    constructor (cfg: Config)
      requires cfg.size <= RT_MB_ENTRY_MAX
      ensures Valid() && this.cfg == cfg && Model() == FRESH && fresh(msg_pool)
    {
      this.cfg := cfg;
      msg_pool := new nat[cfg.size];
      entry, in_offset, out_offset, suspend_thread, suspend_sender_thread := 0, 0, 0, [], [];
      box, standing := [], map[];
      new;
      InitInv(cfg);
    }

    /** rt_mb_send_wait; a blocked caller is suspended when the method returns `Suspended`. */
    method Send(t: Thread, value: nat, block: bool) returns (r: Outcome)
      requires Valid() && Legal(Model(), DoSend(t, value, block))
      modifies this, msg_pool
      ensures Valid() && Model() == TrySend(cfg, old(Model()), t, value, block)
      ensures r == (if old(|box|) != cfg.size then Done else if block then Suspended else Refused)
    {
      hide Inv, L.Wake, L.Leave, L.Enter, Ring, Slot;
      RingCounts(msg_pool[..], in_offset, out_offset, entry, box);
      ghost var st := Model();
      ghost var s := TrySend(cfg, st, t, value, block);
      StepKeepsInv(cfg, st, DoSend(t, value, block));
      EnterLists(st.lobby, Sender, t, cfg);
      WakeLists(st.lobby, Receiver, t);
      if entry == cfg.size {
        if !block {
          Adopt(s);
          return Refused;
        }
        suspend_sender_thread := SuspendOn(suspend_sender_thread, t, cfg.flag, cfg.prio);
        Adopt(s);
        return Suspended;
      }
      SizeFits(cfg, st);
      RingPush(msg_pool[..], in_offset, out_offset, entry, box, value);
      msg_pool[in_offset] := value;
      assert msg_pool[..] == old(msg_pool[..])[in_offset := value];
      in_offset := in_offset + 1;
      if in_offset >= cfg.size { in_offset := 0; }
      if entry < RT_MB_ENTRY_MAX { entry := entry + 1; } else { return Refused; }
      if suspend_thread != [] { suspend_thread := suspend_thread[1..]; }
      Adopt(s);
      return Done;
    }

    /** rt_mb_urgent. */
    method Urgent(value: nat) returns (r: Outcome)
      requires Valid()
      modifies this, msg_pool
      ensures Valid() && Model() == S.Urgent(cfg, old(Model()), value)
      ensures r == (if old(|box|) != cfg.size then Done else Refused)
    {
      hide Inv, L.Wake, Ring, Slot;
      RingCounts(msg_pool[..], in_offset, out_offset, entry, box);
      ghost var st := Model();
      ghost var s := S.Urgent(cfg, st, value);
      StepKeepsInv(cfg, st, DoUrgent(value));
      WakeOnly(st.lobby);
      if entry == cfg.size { return Refused; }
      RingUnshift(msg_pool[..], in_offset, out_offset, entry, box, value);
      if out_offset > 0 { out_offset := out_offset - 1; } else { out_offset := cfg.size - 1; }
      msg_pool[out_offset] := value;
      assert msg_pool[..] == old(msg_pool[..])[out_offset := value];
      entry := entry + 1;
      if suspend_thread != [] { suspend_thread := suspend_thread[1..]; }
      Adopt(s);
      return Done;
    }

    /** rt_mb_recv. */
    method Recv(t: Thread, block: bool) returns (r: Outcome, value: nat)
      requires Valid() && Legal(Model(), DoRecv(t, block))
      modifies this
      ensures Valid() && Model() == TryRecv(cfg, old(Model()), t, block)
      ensures r == (if old(box) != [] then Done else if block then Suspended else Refused)
      ensures old(box) != [] ==> value == old(box)[0]
    {
      hide Inv, L.Wake, L.Leave, L.Enter, Ring, Slot;
      RingCounts(msg_pool[..], in_offset, out_offset, entry, box);
      ghost var st := Model();
      ghost var s := TryRecv(cfg, st, t, block);
      StepKeepsInv(cfg, st, DoRecv(t, block));
      EnterLists(st.lobby, Receiver, t, cfg);
      WakeLists(st.lobby, Sender, t);
      if entry == 0 {
        if block { suspend_thread := SuspendOn(suspend_thread, t, cfg.flag, cfg.prio); }
        Adopt(s);
        return if block then Suspended else Refused, 0;
      }
      RingPop(msg_pool[..], in_offset, out_offset, entry, box);
      value := msg_pool[out_offset];
      out_offset := out_offset + 1;
      if out_offset >= cfg.size { out_offset := 0; }
      if entry > 0 { entry := entry - 1; }
      if suspend_sender_thread != [] { suspend_sender_thread := suspend_sender_thread[1..]; }
      Adopt(s);
      r := Done;
    }

    /** The timer of a suspended thread fires. */
    method TimeOut(t: Thread)
      requires Valid() && Legal(Model(), DoTimeout(t))
      modifies this
      ensures Valid() && Model() == Step(cfg, old(Model()), DoTimeout(t))
    {
      ghost var s := Step(cfg, Model(), DoTimeout(t));
      StepKeepsInv(cfg, Model(), DoTimeout(t));
      suspend_thread, suspend_sender_thread := Without(suspend_thread, t), Without(suspend_sender_thread, t);
      Adopt(s);
    }

    /** rt_mb_control with RT_IPC_CMD_RESET. */
    method Reset()
      requires Valid()
      modifies this
      ensures Valid() && Model() == Step(cfg, old(Model()), DoReset)
    {
      ghost var s := Step(cfg, Model(), DoReset);
      StepKeepsInv(cfg, Model(), DoReset);
      while suspend_thread != []
        decreases |suspend_thread|
        modifies this`suspend_thread
      {
        suspend_thread := suspend_thread[1..];
      }
      while suspend_sender_thread != []
        decreases |suspend_sender_thread|
        modifies this`suspend_sender_thread
      {
        suspend_sender_thread := suspend_sender_thread[1..];
      }
      entry, in_offset, out_offset := 0, 0, 0;
      Adopt(s);
    }
  }

  datatype Outcome = Done | Suspended | Refused

  lemma SizeFits(cfg: Config, st: State)
    requires Inv(cfg, st)
    ensures cfg.size <= RT_MB_ENTRY_MAX
  {}

  lemma EnterLists(l: Lobby, side: Side, t: Thread, cfg: Config)
    ensures var e := Enter(l, side, t, cfg.flag, cfg.prio); var q := Suspend(ListOf(l, side), t, cfg.flag, cfg.prio);
      e.senders == (if side == Sender then q else l.senders) && e.receivers == (if side == Receiver then q else l.receivers)
    ensures Leave(l, t).senders == l.senders && Leave(l, t).receivers == l.receivers
  {}

  lemma WakeLists(l: Lobby, side: Side, t: Thread)
    ensures var e := Wake(Leave(l, t), side); var q := if ListOf(l, side) == [] then [] else ListOf(l, side)[1..];
      e.senders == (if side == Sender then q else l.senders) && e.receivers == (if side == Receiver then q else l.receivers)
  {}

  lemma WakeOnly(l: Lobby)
    ensures var e := Wake(l, Receiver); e.senders == l.senders && e.receivers == if l.receivers == [] then [] else l.receivers[1..]
  {}

  lemma RingCounts(pool: seq<nat>, end: nat, start: nat, n: nat, box: seq<nat>)
    requires Ring(pool, end, start, n, box)
    ensures n == |box| <= |pool| && (|pool| > 0 ==> end < |pool| && start < |pool|)
  {}

  /** Storing at the end of the ring and advancing it appends. */
  lemma RingPush(pool: seq<nat>, end: nat, start: nat, n: nat, box: seq<nat>, v: nat)
    requires Ring(pool, end, start, n, box) && n < |pool|
    ensures end < |pool| && Ring(pool[end := v], if end + 1 >= |pool| then 0 else end + 1, start, n + 1, box + [v])
  {
    forall i: nat | i < n ensures Slot(start, i, |pool|) != end {}
  }

  /** Advancing the start of the ring drops the first. */
  lemma RingPop(pool: seq<nat>, end: nat, start: nat, n: nat, box: seq<nat>)
    requires Ring(pool, end, start, n, box) && n > 0
    ensures start < |pool| && pool[start] == box[0] && Ring(pool, end, if start + 1 >= |pool| then 0 else start + 1, n - 1, box[1..])
  {
    var next := if start + 1 >= |pool| then 0 else start + 1;
    assert Slot(start, 0, |pool|) == start;
    forall i: nat | i < n - 1 ensures Slot(next, i, |pool|) < |pool| && pool[Slot(next, i, |pool|)] == box[1..][i] {
      assert Slot(next, i, |pool|) == Slot(start, i + 1, |pool|);
    }
  }

  /** Rewinding the start of the ring and storing there prepends. */
  lemma RingUnshift(pool: seq<nat>, end: nat, start: nat, n: nat, box: seq<nat>, v: nat)
    requires Ring(pool, end, start, n, box) && n < |pool|
    ensures var prev := if start > 0 then start - 1 else |pool| - 1;
      prev < |pool| && Ring(pool[prev := v], end, prev, n + 1, [v] + box)
  {
    var prev := if start > 0 then start - 1 else |pool| - 1;
    forall i: nat | i < n + 1 ensures Slot(prev, i, |pool|) < |pool| && pool[prev := v][Slot(prev, i, |pool|)] == ([v] + box)[i] {
      if i > 0 { assert Slot(prev, i, |pool|) == Slot(start, i - 1, |pool|); }
    }
  }
}
