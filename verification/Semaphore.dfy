/** Semaphores with direct hand-off (rt-thread/src/ipc.c, lines 479-563, 597-645 and 663-700). */
module SemaphoreSpec {
  import opened Lists
  import opened Memory
  import opened WaitList

  const RT_SEM_VALUE_MAX := 0xFFFF

  /** struct rt_semaphore: a 16-bit value and the suspend_thread list. */
  datatype Semaphore = Semaphore(value: nat, waiters: seq<Thread>, flag: Flag)

  datatype Code = Ok | Overflow | TimedOut | Blocked

  function Take(x: Semaphore, t: Thread, block: bool, prio: map<Thread, nat>): (Code, Semaphore) {
    if x.value > 0 then (Ok, x.(value := x.value - 1))
    else if !block then (TimedOut, x)
    else (Blocked, x.(waiters := Suspend(x.waiters, t, x.flag, prio)))
  }

  /** A release goes to the first waiter, who is granted the take it is suspended in. */
  function Release(x: Semaphore): (Code, Semaphore) {
    if x.waiters != [] then (Ok, x.(waiters := x.waiters[1..]))
    else if x.value < RT_SEM_VALUE_MAX then (Ok, x.(value := x.value + 1))
    else (Overflow, x)
  }

  function Expire(x: Semaphore, t: Thread): Semaphore {
    x.(waiters := Without(x.waiters, t))
  }

  /** RT_IPC_CMD_RESET: the new value is cut to 16 bits. */
  function Reset(x: Semaphore, value: nat): Semaphore {
    x.(value := value % 0x1_0000, waiters := [])
  }

  /** The semaphore, and since its last reset: the value it started from, the releases that
      succeeded, and the takes that were granted. */
  datatype State = State(sem: Semaphore, start: nat, releases: nat, grants: seq<Thread>)

  datatype Op = DoTake(t: Thread, block: bool, prio: map<Thread, nat>) | DoRelease | DoTimeout(t: Thread) | DoReset(value: nat)

  predicate Legal(st: State, op: Op) {
    match op
    case DoTake(t, block, prio) => t !in st.sem.waiters
    case DoTimeout(t) => t in st.sem.waiters
    case _ => true
  }

  function Step(st: State, op: Op): State {
    match op
    case DoTake(t, block, prio) =>
      var (code, x) := Take(st.sem, t, block, prio);
      st.(sem := x, grants := if code == Ok then st.grants + [t] else st.grants)
    case DoRelease =>
      var (code, x) := Release(st.sem);
      st.(sem := x, releases := if code == Ok then st.releases + 1 else st.releases,
          grants := if st.sem.waiters != [] then st.grants + [st.sem.waiters[0]] else st.grants)
    case DoTimeout(t) => st.(sem := Expire(st.sem, t))
    case DoReset(value) => State(Reset(st.sem, value), value % 0x1_0000, 0, [])
  }

  /** Nobody waits while there is something to take, and every unit is accounted for. */
  ghost predicate Inv(st: State) {
    && st.sem.value <= RT_SEM_VALUE_MAX && NoDup(st.sem.waiters)
    && (st.sem.waiters != [] ==> st.sem.value == 0)
    && st.start + st.releases - |st.grants| == st.sem.value
  }

  lemma StepKeepsInv(st: State, op: Op)
    requires Inv(st) && Legal(st, op)
    ensures Inv(Step(st, op))
  {
    hide NoDup, Suspend, Without;
    match op
    case DoTake(t, block, prio) => SuspendAdds(st.sem.waiters, t, st.sem.flag, prio);
    case DoRelease => if st.sem.waiters != [] { TailFacts(st.sem.waiters); }
    case DoTimeout(t) => WithoutFacts(st.sem.waiters, t); NoneLeft(t);
    case DoReset(value) => NoWaiters();
  }

  lemma NoWaiters()
    ensures NoDup([])
  {}

  lemma NoneLeft(t: Thread)
    ensures Without([], t) == []
  {}

  ghost predicate IsRun(st: State, ops: seq<Op>, end: State)
    decreases |ops|
  {
    if ops == [] then st == end else Legal(st, ops[0]) && IsRun(Step(st, ops[0]), ops[1..], end)
  }

  lemma {:induction false} RunKeepsInv(st: State, ops: seq<Op>, end: State)
    requires Inv(st) && IsRun(st, ops, end)
    ensures Inv(end)
    decreases |ops|
  {
    hide Inv, Step;
    if ops != [] {
      StepKeepsInv(st, ops[0]);
      RunKeepsInv(Step(st, ops[0]), ops[1..], end);
    }
  }

  /** In every state: no more is granted than was put in, and while a thread waits everything put
      in has been granted. */
  lemma NothingGrantedTwice(st: State)
    requires Inv(st)
    ensures |st.grants| <= st.start + st.releases
    ensures st.sem.waiters != [] ==> |st.grants| == st.start + st.releases
  {}

  /** Waiters of a FIFO semaphore are granted in the order they came: `n` releases grant the first
      `n` waiters, and nobody overtakes them. */
  lemma {:induction false} ReleasesServeInOrder(st: State, n: nat, end: State)
    requires n <= |st.sem.waiters| && IsRun(st, seq(n, _ => DoRelease), end)
    ensures end.grants == st.grants + st.sem.waiters[..n] && end.sem.waiters == st.sem.waiters[n..] && end.sem.value == st.sem.value
    decreases n
  {
    hide Take, Suspend, Expire;
    var ops := seq(n, _ => DoRelease);
    var w := st.sem.waiters;
    if n > 0 {
      assert ops[0] == DoRelease && ops[1..] == seq(n - 1, _ => DoRelease);
      ReleasesServeInOrder(Step(st, DoRelease), n - 1, end);
      FirstThenRest(st.grants, w, n);
    } else {
      assert ops == [] && w[..0] == [] && w[0..] == w;
    }
  }

  lemma FirstThenRest(grants: seq<Thread>, w: seq<Thread>, n: nat)
    requires 0 < n <= |w|
    ensures grants + [w[0]] + w[1..][..n - 1] == grants + w[..n] && w[1..][n - 1..] == w[n..]
  {
    assert w[..n] == [w[0]] + w[1..][..n - 1];
  }

  /** A run in all of whose states `u` and `v` wait. */
  ghost predicate BothWait(st: State, ops: seq<Op>, end: State, u: Thread, v: Thread)
    decreases |ops|
  {
    && u in st.sem.waiters && v in st.sem.waiters
    && (if ops == [] then st == end else Legal(st, ops[0]) && BothWait(Step(st, ops[0]), ops[1..], end, u, v))
  }

  lemma StepKeepsBefore(st: State, op: Op, u: Thread, v: Thread)
    requires Inv(st) && Legal(st, op) && Before(st.sem.waiters, u, v)
    requires u in Step(st, op).sem.waiters && v in Step(st, op).sem.waiters
    ensures Before(Step(st, op).sem.waiters, u, v)
  {
    hide NoDup, Suspend, Without, Before;
    match op
    case DoTake(t, block, prio) => SuspendKeepsBefore(st.sem.waiters, t, st.sem.flag, prio, u, v);
    case DoRelease => if st.sem.waiters != [] { TailKeepsBefore(st.sem.waiters, u, v); }
    case DoTimeout(t) =>
      WithoutFacts(st.sem.waiters, t);
      WithoutKeepsBefore(st.sem.waiters, t, u, v);
    case DoReset(value) =>
  }

  lemma {:induction false} RunKeepsBefore(st: State, ops: seq<Op>, end: State, u: Thread, v: Thread)
    requires Inv(st) && BothWait(st, ops, end, u, v) && Before(st.sem.waiters, u, v)
    ensures Inv(end) && Before(end.sem.waiters, u, v)
    decreases |ops|
  {
    hide Inv, Step, Before;
    if ops != [] {
      StepKeepsInv(st, ops[0]);
      StepKeepsBefore(st, ops[0], u, v);
      RunKeepsBefore(Step(st, ops[0]), ops[1..], end, u, v);
    }
  }

  /** Nobody overtakes: if `v` comes while `u` waits, on a FIFO semaphore or being no more urgent than
      `u`, then whatever takes, releases and timeouts follow, as long as both wait it is not `v` that
      a release is granted to. */
  lemma NoOvertaking(st: State, u: Thread, v: Thread, prio: map<Thread, nat>, ops: seq<Op>, end: State)
    requires Inv(st) && u in st.sem.waiters && v !in st.sem.waiters
    requires st.sem.flag == Fifo || (Sorted(st.sem.waiters, prio) && PriorityOf(prio, u) <= PriorityOf(prio, v))
    requires BothWait(Step(st, DoTake(v, true, prio)), ops, end, u, v)
    ensures Before(end.sem.waiters, u, v) && v in Step(end, DoRelease).sem.waiters
    ensures exists t :: t != v && Step(end, DoRelease).grants == end.grants + [t]
  {
    hide Suspend, Before, BothWait;
    var s := Step(st, DoTake(v, true, prio));
    JoinsBehind(st.sem.waiters, v, st.sem.flag, prio, u);
    StepKeepsInv(st, DoTake(v, true, prio));
    RunKeepsBefore(s, ops, end, u, v);
    NotFirst(end.sem.waiters, u, v);
  }

  lemma NotFirst(w: seq<Thread>, u: Thread, v: Thread)
    requires NoDup(w) && Before(w, u, v)
    ensures w != [] && w[0] != v && v in w[1..]
  {
    var i, j :| 0 <= i < j < |w| && w[i] == u && w[j] == v;
    assert w[1..][j - 1] == v;
  }

  function Init(value: nat, flag: Flag): State {
    State(Semaphore(value, [], flag), value, 0, [])
  }

  /** rt_sem_init asserts that the value fits. */
  lemma InitInv(value: nat, flag: Flag)
    requires value < 0x1_0000
    ensures Inv(Init(value, flag))
  {}

  /** What a take comes to: a unit is taken if there is one; otherwise the caller joins the waiters,
      who keep their order, if it may block, and nothing changes if it may not. */
  lemma TakeComesTo(st: State, t: Thread, block: bool, prio: map<Thread, nat>)
    requires Inv(st) && Legal(st, DoTake(t, block, prio))
    ensures var code := Take(st.sem, t, block, prio).0; var s := Step(st, DoTake(t, block, prio));
      && (st.sem.value > 0 ==> code == Ok && s.sem == st.sem.(value := st.sem.value - 1) && s.grants == st.grants + [t])
      && (st.sem.value == 0 && !block ==> code == TimedOut && s == st)
      && (st.sem.value == 0 && block ==>
            && code == Blocked && s.sem.value == 0 && s.grants == st.grants
            && t in s.sem.waiters && Without(s.sem.waiters, t) == st.sem.waiters)
  {
    hide NoDup, Suspend, Without;
    SuspendAdds(st.sem.waiters, t, st.sem.flag, prio);
  }

  /** What a release comes to: it is granted to the first waiter; without one the value grows, up to
      its limit, where nothing changes. */
  lemma ReleaseComesTo(st: State)
    requires Inv(st)
    ensures var code := Release(st.sem).0; var s := Step(st, DoRelease); var w := st.sem.waiters;
      && (code == Overflow <==> w == [] && st.sem.value == RT_SEM_VALUE_MAX)
      && (code == Overflow ==> s == st)
      && (w != [] ==> code == Ok && s.grants == st.grants + [w[0]] && s.sem.waiters == w[1..] && s.sem.value == 0)
      && (w == [] && code != Overflow ==> code == Ok && s.sem == st.sem.(value := st.sem.value + 1) && s.grants == st.grants)
  {}

  /** A timeout takes its thread off the list and grants nothing; a reset leaves nobody waiting and
      starts from the new value, of which 16 bits count. */
  lemma LeavingComesTo(st: State, t: Thread, value: nat)
    requires Inv(st)
    ensures Legal(st, DoTimeout(t)) ==> var s := Step(st, DoTimeout(t));
      && t !in s.sem.waiters && s == st.(sem := st.sem.(waiters := s.sem.waiters))
      && forall u, v :: Before(st.sem.waiters, u, v) && u != t && v != t ==> Before(s.sem.waiters, u, v)
    ensures var s := Step(st, DoReset(value)); s.sem.waiters == [] && (value <= RT_SEM_VALUE_MAX ==> s.sem.value == value)
  {
    hide NoDup, Without, Before;
    var w := st.sem.waiters;
    WithoutFacts(w, t);
    forall u, v | Before(w, u, v) && u != t && v != t ensures Before(Without(w, t), u, v) { WithoutKeepsBefore(w, t, u, v); }
  }
}

module Semaphore {
  import opened Lists
  import opened Memory
  import opened WaitList
  import S = SemaphoreSpec

  class RtSemaphore {
    const flag: Flag
    var value: nat
    var suspend_thread: seq<Thread>
    ghost var start: nat
    ghost var releases: nat
    ghost var grants: seq<Thread>

    ghost function Model(): S.State
      reads this
    {
      S.State(S.Semaphore(value, suspend_thread, flag), start, releases, grants)
    }

    /** rt_sem_init. */
    constructor (value: nat, flag: Flag)
      requires value < 0x1_0000
      ensures S.Inv(Model()) && Model() == S.Init(value, flag)
    {
      this.flag, this.value, suspend_thread := flag, value, [];
      start, releases, grants := value, 0, [];
    }

    /** rt_sem_take up to the point where a blocked caller is switched away. */
    method Take(t: Thread, time: int, prio: map<Thread, nat>) returns (code: S.Code)
      requires S.Inv(Model()) && t !in suspend_thread
      modifies this
      ensures S.Inv(Model()) && Model() == S.Step(old(Model()), S.DoTake(t, time != 0, prio))
      ensures code == S.Take(old(Model()).sem, t, time != 0, prio).0
    {
      hide NoDup, Suspend;
      S.StepKeepsInv(Model(), S.DoTake(t, time != 0, prio));
      if value > 0 {
        value := value - 1;
        grants := grants + [t];
      } else {
        if time == 0 { return S.TimedOut; }
        suspend_thread := SuspendOn(suspend_thread, t, flag, prio);
        return S.Blocked;
      }
      return S.Ok;
    }

    /** rt_sem_release. */
    method Release() returns (code: S.Code)
      requires S.Inv(Model())
      modifies this
      ensures S.Inv(Model()) && Model() == S.Step(old(Model()), S.DoRelease)
      ensures code == S.Overflow <==> old(suspend_thread) == [] && old(value) == S.RT_SEM_VALUE_MAX
    {
      hide NoDup;
      S.StepKeepsInv(Model(), S.DoRelease);
      if suspend_thread != [] {
        grants := grants + [suspend_thread[0]];
        suspend_thread := suspend_thread[1..];
      } else {
        if value < S.RT_SEM_VALUE_MAX { value := value + 1; } else { return S.Overflow; }
      }
      releases := releases + 1;
      return S.Ok;
    }

    /** The timer of a waiter fires. */
    method TimeOut(t: Thread)
      requires S.Inv(Model()) && t in suspend_thread
      modifies this
      ensures S.Inv(Model()) && Model() == S.Step(old(Model()), S.DoTimeout(t))
    {
      S.StepKeepsInv(Model(), S.DoTimeout(t));
      suspend_thread := Without(suspend_thread, t);
    }

    /** rt_sem_control with RT_IPC_CMD_RESET. */
    method Reset(v: nat)
      requires S.Inv(Model())
      modifies this
      ensures S.Inv(Model()) && Model() == S.Step(old(Model()), S.DoReset(v))
    {
      S.StepKeepsInv(Model(), S.DoReset(v));
      while suspend_thread != []
        decreases |suspend_thread|
        modifies this`suspend_thread
      {
        suspend_thread := suspend_thread[1..];
      }
      value := v % 0x1_0000;
      start, releases, grants := value, 0, [];
    }
  }
}
