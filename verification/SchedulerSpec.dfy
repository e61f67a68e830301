/** The scheduler of the build without SMP (rt-thread/src/scheduler.c, lines 425-538, 718-752,
    815-845 and 910-985), with the yield and the tick that drive it (rt-thread/src/thread.c, lines
    541-553, rt-thread/src/clock.c, lines 94-129). */
module SchedulerSpec {
  import opened Lists

  type Thread = nat

  /** RT_THREAD_PRIORITY_MAX for which the two-level index is built: 32 groups of 8. */
  const PRIORITIES := 256

  datatype Phase = Ready | Running | Suspended

  /** The scheduling fields of struct rt_thread; `yielding` is RT_THREAD_STAT_YIELD. */
  datatype Info = Info(prio: nat, phase: Phase, yielding: bool, init: nat, remaining: nat)

  /** `ready` is rt_thread_priority_table, `lock` rt_scheduler_lock_nest. */
  datatype State = State(ready: seq<seq<Thread>>, current: Thread, threads: map<Thread, Info>, lock: nat)

  /** The most urgent nonempty priority, or PRIORITIES. */
  function Highest(ready: seq<seq<Thread>>, from: nat): (h: nat)
    requires from <= |ready|
    ensures from <= h <= |ready|
    ensures h < |ready| ==> ready[h] != []
    ensures forall p :: from <= p < h ==> ready[p] == []
    decreases |ready| - from
  {
    if from == |ready| || ready[from] != [] then from else Highest(ready, from + 1)
  }

  function InfoOf(st: State, t: Thread): Info {
    if t in st.threads then st.threads[t] else Info(0, Suspended, false, 1, 1)
  }

  function SetInfo(st: State, t: Thread, i: Info): State {
    st.(threads := st.threads[t := i])
  }

  /** rt_schedule_insert_thread. */
  function Insert(st: State, t: Thread): State {
    var i := InfoOf(st, t);
    if t == st.current then SetInfo(st, t, i.(phase := Running))
    else if i.prio >= |st.ready| then st
    else SetInfo(st, t, i.(phase := Ready)).(ready := st.ready[i.prio := st.ready[i.prio] + [t]])
  }

  /** rt_schedule_remove_thread: the thread may be in no list at all. */
  function Remove(st: State, t: Thread): State {
    var p := InfoOf(st, t).prio;
    if p >= |st.ready| then st else st.(ready := st.ready[p := Without(st.ready[p], t)])
  }

  function Run(st: State, t: Thread): State {
    SetInfo(Remove(st, t), t, InfoOf(st, t).(phase := Running))
  }

  /** Whether the running thread keeps the processor from the ready threads of priority `h`. */
  predicate Keeps(i: Info, h: nat) {
    i.phase == Running && (i.prio < h || (i.prio == h && !i.yielding))
  }

  /** rt_schedule. */
  function Schedule(st: State): State {
    var h := Highest(st.ready, 0);
    if st.lock != 0 || h == |st.ready| then st
    else
      var i := InfoOf(st, st.current);
      var to := if Keeps(i, h) then st.current else st.ready[h][0];
      var s := if i.phase == Running then SetInfo(st, st.current, i.(yielding := false)) else st;
      if to == st.current then Run(s, to)
      else Run(if i.phase == Running then Insert(s.(current := to), st.current) else s.(current := to), to)
  }

  /** rt_thread_yield. */
  function Yield(st: State): State {
    var i := InfoOf(st, st.current);
    Schedule(SetInfo(st, st.current, i.(yielding := true, remaining := i.init)))
  }

  /** The scheduling part of rt_tick_increase. */
  function Tick(st: State): State {
    var i := InfoOf(st, st.current);
    if i.remaining == 1 then Schedule(SetInfo(st, st.current, i.(remaining := i.init, yielding := true)))
    else SetInfo(st, st.current, i.(remaining := if i.remaining > 0 then i.remaining - 1 else 0xFFFF_FFFF))
  }

  /** rt_thread_suspend of the running thread; rt_schedule follows in its callers. */
  function Suspend(st: State): State {
    SetInfo(Remove(st, st.current), st.current, InfoOf(st, st.current).(phase := Suspended))
  }

  /** rt_thread_resume. */
  function Resume(st: State, t: Thread): State {
    if InfoOf(st, t).phase != Suspended then st else Insert(st, t)
  }

  /** RT_THREAD_CTRL_CHANGE_PRIORITY. */
  function ChangePriority(st: State, t: Thread, p: nat): State {
    if InfoOf(st, t).phase == Ready then Insert(SetInfo(Remove(st, t), t, InfoOf(st, t).(prio := p)), t)
    else SetInfo(st, t, InfoOf(st, t).(prio := p))
  }

  function EnterCritical(st: State): State {
    st.(lock := st.lock + 1)
  }

  /** rt_exit_critical. */
  function ExitCritical(st: State): State {
    if st.lock <= 1 then Schedule(st.(lock := 0)) else st.(lock := st.lock - 1)
  }

  datatype Op = DoSchedule | DoYield | DoTick | DoSuspend | DoResume(t: Thread) | DoPriority(t: Thread, p: nat) | DoEnter | DoExit

  predicate Legal(st: State, op: Op) {
    match op
    case DoSuspend => InfoOf(st, st.current).phase == Running
    case DoResume(t) => t in st.threads
    case DoPriority(t, p) => t in st.threads && p < PRIORITIES
    case _ => true
  }

  function Step(st: State, op: Op): State {
    match op
    case DoSchedule => Schedule(st)
    case DoYield => Yield(st)
    case DoTick => Tick(st)
    case DoSuspend => Suspend(st)
    case DoResume(t) => Resume(st, t)
    case DoPriority(t, p) => ChangePriority(st, t, p)
    case DoEnter => EnterCritical(st)
    case DoExit => ExitCritical(st)
  }

  /** `t` is in its list exactly when it is ready. */
  predicate Queued(st: State, p: nat, t: Thread) {
    t in st.threads && st.threads[t].phase == Ready && st.threads[t].prio == p
  }

  /** A ready thread is in the list of its priority, once, and in no other; the current thread is in
      none; nobody else runs. */
  ghost predicate Inv(st: State) {
    && |st.ready| == PRIORITIES && st.current in st.threads
    && (forall p: nat :: p < PRIORITIES ==> NoDup(st.ready[p]))
    && (forall p: nat, t :: p < PRIORITIES ==> (t in st.ready[p] <==> Queued(st, p, t)))
    && (forall t :: t in st.threads ==> st.threads[t].prio < PRIORITIES)
    && (forall t :: t in st.threads && st.threads[t].phase == Running ==> t == st.current)
    && st.threads[st.current].phase != Ready
  }

  predicate Runnable(st: State, t: Thread) {
    t in st.threads && st.threads[t].phase != Suspended
  }

  // ---------------------------------------------------------------- steps

  /** Everything of the invariant but that only the current thread runs and is in no list. */
  ghost predicate Listed(st: State) {
    && |st.ready| == PRIORITIES && (forall t :: t in st.threads ==> st.threads[t].prio < PRIORITIES)
    && (forall p: nat :: p < PRIORITIES ==> NoDup(st.ready[p]))
    && (forall p: nat, t :: p < PRIORITIES ==> (t in st.ready[p] <==> Queued(st, p, t)))
  }

  /** Changing a thread that is not ready, and stays so, leaves the lists right. */
  lemma SetKeepsLists(st: State, t: Thread, i: Info)
    requires Listed(st) && InfoOf(st, t).phase != Ready && i.phase != Ready && i.prio < PRIORITIES
    ensures Listed(SetInfo(st, t, i))
  {
    var s := SetInfo(st, t, i);
    forall p: nat, u | p < PRIORITIES ensures u in s.ready[p] <==> Queued(s, p, u) {
      assert u in st.ready[p] <==> Queued(st, p, u);
    }
  }

  lemma InsertKeepsLists(st: State, t: Thread)
    requires Listed(st) && t in st.threads && InfoOf(st, t).phase != Ready && t != st.current
    ensures var s := Insert(st, t); Listed(s) && s.current == st.current && s.threads == st.threads[t := st.threads[t].(phase := Ready)]
  {
    hide NoDup;
    var s := Insert(st, t);
    var q := st.threads[t].prio;
    assert t in st.ready[q] <==> Queued(st, q, t);
    SnocNoDup(st.ready[q], t) by { assert NoDup(st.ready[q]); }
    forall p: nat | p < PRIORITIES ensures NoDup(s.ready[p]) { assert NoDup(st.ready[p]); }
    forall p: nat, u | p < PRIORITIES ensures u in s.ready[p] <==> Queued(s, p, u) {
      assert u in st.ready[p] <==> Queued(st, p, u);
    }
  }

  /** Removing a thread and changing its phase: whether it was in a list or in none. */
  lemma RemoveKeepsLists(st: State, t: Thread, i: Info)
    requires Listed(st) && t in st.threads && i.phase != Ready && i.prio < PRIORITIES
    ensures Listed(SetInfo(Remove(st, t), t, i))
  {
    hide NoDup, Without;
    var s := SetInfo(Remove(st, t), t, i);
    var q := st.threads[t].prio;
    WithoutFacts(st.ready[q], t) by { assert NoDup(st.ready[q]); }
    forall p: nat | p < PRIORITIES ensures NoDup(s.ready[p]) { assert NoDup(st.ready[p]); }
    forall p: nat, u | p < PRIORITIES ensures u in s.ready[p] <==> Queued(s, p, u) {
      assert u in st.ready[p] <==> Queued(st, p, u);
    }
  }

  lemma InvIsLists(st: State)
    ensures Inv(st) <==> Listed(st) && OnlyCurrent(st)
  {}

  ghost predicate OnlyCurrent(st: State) {
    && st.current in st.threads && st.threads[st.current].phase != Ready
    && forall t :: t in st.threads && st.threads[t].phase == Running ==> t == st.current
  }

  /** What rt_schedule leaves behind, unlocked and with somebody ready: the current thread is
      running, in no list, and at least as urgent as every ready thread; the runnable threads are
      the same as before; and the displaced thread is queued exactly when it was still running. */
  lemma ScheduleDelivers(st: State)
    requires Inv(st) && st.lock == 0 && exists p: nat :: p < PRIORITIES && st.ready[p] != []
    ensures var s := Schedule(st);
      && Inv(s) && s.threads[s.current].phase == Running
      && (forall t :: Runnable(s, t) && t != s.current ==> s.threads[t].phase == Ready && s.threads[s.current].prio <= s.threads[t].prio)
      && (forall t :: Runnable(s, t) <==> Runnable(st, t))
      && (s.current != st.current ==> (Queued(s, s.threads[st.current].prio, st.current) <==> st.threads[st.current].phase == Running))
  {
    hide NoDup, Insert, Remove, Schedule;
    SomeReady(st);
    ScheduleShape(st);
    var s := Schedule(st);
    forall t | Runnable(s, t) && t != s.current ensures s.threads[s.current].prio <= s.threads[t].prio { NoneBelow(st, t); }
  }

  lemma SomeReady(st: State)
    requires |st.ready| == PRIORITIES
    ensures Highest(st.ready, 0) < PRIORITIES <==> exists p: nat :: p < PRIORITIES && st.ready[p] != []
  {
    var h := Highest(st.ready, 0);
    if h == PRIORITIES { forall p: nat | p < PRIORITIES ensures st.ready[p] == [] {} } else { assert st.ready[h] != []; }
  }

  /** No ready thread is more urgent than the highest nonempty priority. */
  lemma NoneBelow(st: State, t: Thread)
    requires Inv(st)
    ensures t in st.threads && st.threads[t].phase == Ready ==> Highest(st.ready, 0) <= st.threads[t].prio
  {
    if t in st.threads && st.threads[t].phase == Ready {
      var p := st.threads[t].prio;
      assert Queued(st, p, t);
      assert t in st.ready[p];
    }
  }

  /** rt_schedule in full: who runs, what becomes of the threads, and that the lists stay right. */
  lemma ScheduleShape(st: State)
    requires Inv(st) && st.lock == 0 && Highest(st.ready, 0) < PRIORITIES
    ensures var h := Highest(st.ready, 0); var c := st.current; var i := st.threads[c]; var s := Schedule(st);
      && Inv(s) && s.lock == 0
      && (if Keeps(i, h) then s.current == c && s.ready == st.ready && s.threads == st.threads[c := i.(yielding := false)]
          else
            var to := st.ready[h][0];
            && s.current == to != c && to in st.threads && st.threads[to].phase == Ready && st.threads[to].prio == h
            && s.threads == (if i.phase == Running then st.threads[c := i.(yielding := false, phase := Ready)] else st.threads)[to := st.threads[to].(phase := Running)]
            && s.ready == (if i.phase == Running then st.ready[i.prio := st.ready[i.prio] + [c]] else st.ready)[h :=
                 Without((if i.phase == Running then st.ready[i.prio := st.ready[i.prio] + [c]] else st.ready)[h], to)])
  {
    var h := Highest(st.ready, 0);
    if Keeps(st.threads[st.current], h) { KeepShape(st, h); } else { SwitchShape(st, h); }
  }

  lemma KeepShape(st: State, h: nat)
    requires Inv(st) && st.lock == 0 && h == Highest(st.ready, 0) < PRIORITIES && Keeps(st.threads[st.current], h)
    ensures var c := st.current; var s := Schedule(st);
      Inv(s) && s.lock == 0 && s.current == c && s.ready == st.ready && s.threads == st.threads[c := st.threads[c].(yielding := false)]
  {
    hide NoDup, Without;
    var c, i := st.current, st.threads[st.current];
    InvIsLists(st);
    assert c !in st.ready[i.prio] by { assert c in st.ready[i.prio] <==> Queued(st, i.prio, c); }
    NotThere(st.ready[i.prio], c);
    SetKeepsLists(st, c, i.(yielding := false));
    InvIsLists(Schedule(st));
  }

  lemma {:induction false} NotThere(s: seq<nat>, x: nat)
    requires x !in s
    ensures Without(s, x) == s
  {
    var k := WithoutShape(s, x);
  }

  lemma SwitchShape(st: State, h: nat)
    requires Inv(st) && st.lock == 0 && h == Highest(st.ready, 0) < PRIORITIES && !Keeps(st.threads[st.current], h)
    ensures var c := st.current; var i := st.threads[c]; var s := Schedule(st); var to := st.ready[h][0];
      var ready := if i.phase == Running then st.ready[i.prio := st.ready[i.prio] + [c]] else st.ready;
      && Inv(s) && s.lock == 0 && s.current == to != c && to in st.threads && st.threads[to].phase == Ready && st.threads[to].prio == h
      && s.threads == (if i.phase == Running then st.threads[c := i.(yielding := false, phase := Ready)] else st.threads)[to := st.threads[to].(phase := Running)]
      && s.ready == ready[h := Without(ready[h], to)]
  {
    hide NoDup, Without;
    var c, i, to := st.current, st.threads[st.current], st.ready[h][0];
    InvIsLists(st);
    assert to in st.ready[h] && Queued(st, h, to);
    var s1 := (if i.phase == Running then SetInfo(st, c, i.(yielding := false)) else st).(current := to);
    if i.phase == Running {
      SetKeepsLists(st, c, i.(yielding := false));
      InsertKeepsLists(s1, c);
    }
    var s2 := if i.phase == Running then Insert(s1, c) else s1;
    RemoveKeepsLists(s2, to, InfoOf(s2, to).(phase := Running));
    InvIsLists(Schedule(st));
  }

  /** Every step of the scheduler and of the threads keeps the lists exact. */
  lemma StepKeepsInv(st: State, op: Op)
    requires Inv(st) && Legal(st, op)
    ensures Inv(Step(st, op))
  {
    hide NoDup, Without, Schedule, Insert, Remove;
    match op
    case DoSchedule => ScheduleKeeps(st);
    case DoYield =>
      ChangeKeeps(st, InfoOf(st, st.current).(yielding := true, remaining := InfoOf(st, st.current).init));
      ScheduleKeeps(SetInfo(st, st.current, InfoOf(st, st.current).(yielding := true, remaining := InfoOf(st, st.current).init)));
    case DoTick => TickKeeps(st);
    case DoSuspend =>
      InvIsLists(st);
      RemoveKeepsLists(st, st.current, InfoOf(st, st.current).(phase := Suspended));
      InvIsLists(Suspend(st));
      RemoveShape(st, st.current);
    case DoResume(t) => ResumeKeeps(st, t);
    case DoPriority(t, p) => PriorityKeeps(st, t, p);
    case DoEnter => InvIsLists(st); InvIsLists(EnterCritical(st)); LockOnly(st, st.lock + 1);
    case DoExit =>
      LockOnly(st, if st.lock <= 1 then 0 else st.lock - 1);
      if st.lock <= 1 { ScheduleKeeps(st.(lock := 0)); }
  }

  lemma LockOnly(st: State, n: nat)
    requires Inv(st)
    ensures Inv(st.(lock := n))
  {
    forall p: nat, t | p < PRIORITIES ensures t in st.ready[p] <==> Queued(st.(lock := n), p, t) {
      assert t in st.ready[p] <==> Queued(st, p, t);
    }
  }

  lemma RemoveShape(st: State, t: Thread)
    ensures Remove(st, t).threads == st.threads && Remove(st, t).current == st.current && Remove(st, t).lock == st.lock
  {}

  lemma ScheduleKeeps(st: State)
    requires Inv(st)
    ensures Inv(Schedule(st))
  {
    hide NoDup, Without, Insert, Remove;
    if st.lock == 0 && Highest(st.ready, 0) < |st.ready| { ScheduleShape(st); }
  }

  /** Changing fields of the current thread other than its phase. */
  lemma ChangeKeeps(st: State, i: Info)
    requires Inv(st) && i.phase == InfoOf(st, st.current).phase && i.prio < PRIORITIES
    ensures Inv(SetInfo(st, st.current, i))
  {
    hide NoDup;
    InvIsLists(st);
    SetKeepsLists(st, st.current, i);
    InvIsLists(SetInfo(st, st.current, i));
  }

  lemma TickKeeps(st: State)
    requires Inv(st)
    ensures Inv(Tick(st))
  {
    hide NoDup, Schedule;
    var i := InfoOf(st, st.current);
    if i.remaining == 1 {
      ChangeKeeps(st, i.(remaining := i.init, yielding := true));
      ScheduleKeeps(SetInfo(st, st.current, i.(remaining := i.init, yielding := true)));
    } else {
      ChangeKeeps(st, i.(remaining := if i.remaining > 0 then i.remaining - 1 else 0xFFFF_FFFF));
    }
  }

  lemma ResumeKeeps(st: State, t: Thread)
    requires Inv(st) && t in st.threads
    ensures Inv(Resume(st, t))
  {
    hide NoDup;
    InvIsLists(st);
    if st.threads[t].phase == Suspended {
      if t == st.current { SetKeepsLists(st, t, st.threads[t].(phase := Running)); } else { InsertKeepsLists(st, t); }
    }
    InvIsLists(Resume(st, t));
  }

  lemma PriorityKeeps(st: State, t: Thread, p: nat)
    requires Inv(st) && t in st.threads && p < PRIORITIES
    ensures Inv(ChangePriority(st, t, p))
  {
    hide NoDup, Without;
    InvIsLists(st);
    var i := st.threads[t];
    if i.phase == Ready {
      RemoveKeepsLists(st, t, i.(prio := p, phase := Suspended));
      RemoveShape(st, t);
      InsertKeepsLists(SetInfo(Remove(st, t), t, i.(prio := p, phase := Suspended)), t);
      InsertIgnoresPhase(SetInfo(Remove(st, t), t, i.(prio := p)), SetInfo(Remove(st, t), t, i.(prio := p, phase := Suspended)), t);
    } else {
      SetKeepsLists(st, t, i.(prio := p));
    }
    InvIsLists(ChangePriority(st, t, p));
  }

  /** Insertion overwrites the phase, so it does not matter what it was. */
  lemma InsertIgnoresPhase(a: State, b: State, t: Thread)
    requires t in a.threads && t != a.current && a.threads[t].prio < |a.ready|
    requires b == SetInfo(a, t, a.threads[t].(phase := Suspended))
    ensures Insert(a, t) == Insert(b, t)
  {}

  ghost predicate IsRun(st: State, ops: seq<Op>, end: State)
    decreases |ops|
  {
    if ops == [] then st == end else Legal(st, ops[0]) && IsRun(Step(st, ops[0]), ops[1..], end)
  }

  lemma {:induction false} RunKeepsInv(st: State, ops: seq<Op>, end: State)
    requires Inv(st) && IsRun(st, ops, end)
    ensures Inv(end)
    decreases |ops|
  {
    hide Inv, Step;
    if ops != [] {
      StepKeepsInv(st, ops[0]);
      RunKeepsInv(Step(st, ops[0]), ops[1..], end);
    }
  }

  // ---------------------------------------------------------------- round robin

  /** The current thread runs, unlocked, and nobody ready is more urgent. */
  ghost predicate Peers(st: State) {
    && Inv(st) && st.lock == 0 && st.threads[st.current].phase == Running
    && forall p: nat :: p < st.threads[st.current].prio ==> st.ready[p] == []
  }

  /** The current thread and, behind it, those equally urgent, in the order of their turns. */
  ghost function Turns(st: State): seq<Thread>
    requires Inv(st)
  {
    [st.current] + st.ready[st.threads[st.current].prio]
  }

  function Rotate(s: seq<Thread>, k: nat): seq<Thread>
    requires k <= |s|
  {
    s[k..] + s[..k]
  }

  /** A yield sends the current thread to the end of the line. */
  lemma YieldRotates(st: State)
    requires Peers(st)
    ensures var s := Yield(st); Peers(s) && Turns(s) == Rotate(Turns(st), 1) && s.threads[s.current].prio == st.threads[st.current].prio
  {
    hide NoDup, Without, Schedule;
    var c := st.current;
    var i := st.threads[c].(yielding := true, remaining := st.threads[c].init);
    var p := i.prio;
    ChangeKeeps(st, i);
    var y := SetInfo(st, c, i);
    var h := Highest(st.ready, 0);
    TurnsRotate(c, st.ready[p]);
    if h < PRIORITIES {
      ScheduleShape(y);
      if st.ready[p] != [] {
        assert h == p;
        WithoutFirst(st.ready[p], c);
      }
    } else {
      Unscheduled(y);
    }
  }

  lemma Unscheduled(st: State)
    requires Highest(st.ready, 0) == |st.ready|
    ensures Schedule(st) == st
  {}

  lemma TurnsRotate(c: Thread, q: seq<Thread>)
    ensures Rotate([c] + q, 1) == q + [c]
    ensures q != [] ==> q + [c] == [q[0]] + (q[1..] + [c])
  {}

  lemma WithoutFirst(q: seq<Thread>, c: Thread)
    requires q != []
    ensures Without(q + [c], q[0]) == q[1..] + [c]
  {
    assert (q + [c])[1..] == q[1..] + [c];
  }

  function Yields(st: State, k: nat): State {
    if k == 0 then st else Yield(Yields(st, k - 1))
  }

  lemma {:induction false} YieldsRotate(st: State, k: nat)
    requires Peers(st) && k <= |Turns(st)|
    ensures var s := Yields(st, k); Peers(s) && Turns(s) == Rotate(Turns(st), k)
  {
    hide Yield, Peers;
    PeersInv(st);
    if k == 0 {
      assert Rotate(Turns(st), 0) == Turns(st);
    } else {
      YieldsRotate(st, k - 1);
      YieldRotates(Yields(st, k - 1));
      RotateStep(Turns(st), k);
    }
  }

  lemma PeersInv(st: State)
    requires Peers(st)
    ensures Inv(st)
  {}

  lemma RotateStep(s: seq<Thread>, k: nat)
    requires 0 < k <= |s|
    ensures Rotate(Rotate(s, k - 1), 1) == Rotate(s, k)
  {}

  /** If only yields happen, the `n` threads that share the top priority run in turn, each exactly
      once, and then the line is as it was. */
  lemma RoundRobin(st: State, k: nat)
    requires Peers(st) && k < |Turns(st)|
    ensures NoDup(Turns(st)) && Yields(st, k).current == Turns(st)[k]
    ensures var s := Yields(st, |Turns(st)|); Peers(s) && Turns(s) == Turns(st)
  {
    hide Yield;
    var n := |Turns(st)|;
    YieldsRotate(st, k);
    YieldsRotate(st, n);
    assert Turns(Yields(st, k))[0] == Rotate(Turns(st), k)[0];
    assert Rotate(Turns(st), n) == Turns(st);
    var q := st.ready[st.threads[st.current].prio];
    assert st.current !in q by { assert st.current in q <==> Queued(st, st.threads[st.current].prio, st.current); }
    ConsNoDup(st.current, q);
  }

  // ---------------------------------------------------------------- time slices

  /** No thread has used up its slice, or has more left than a slice. */
  ghost predicate Slices(st: State) {
    forall t :: t in st.threads ==> 1 <= st.threads[t].remaining <= st.threads[t].init
  }

  /** Slices stay in bounds, whatever happens. */
  lemma StepKeepsSlices(st: State, op: Op)
    requires Inv(st) && Legal(st, op) && Slices(st)
    ensures Slices(Step(st, op))
  {
    hide NoDup, Without, Schedule, Inv;
    match op
    case DoSchedule => ScheduleKeepsSlices(st);
    case DoYield => ScheduleKeepsSlices(SetInfo(st, st.current, InfoOf(st, st.current).(yielding := true, remaining := InfoOf(st, st.current).init)));
    case DoTick =>
      var i := InfoOf(st, st.current);
      ScheduleKeepsSlices(SetInfo(st, st.current, i.(remaining := i.init, yielding := true)));
    case DoExit => ScheduleKeepsSlices(st.(lock := 0));
    case _ =>
  }

  lemma ScheduleKeepsSlices(st: State)
    requires Slices(st)
    ensures Slices(Schedule(st))
  {}

  function Ticks(st: State, k: nat): State {
    if k == 0 then st else Tick(Ticks(st, k - 1))
  }

  /** While its slice lasts the current thread runs on and nothing else changes. */
  lemma {:induction false} TicksCount(st: State, k: nat)
    requires Peers(st) && k < st.threads[st.current].remaining
    ensures var s := Ticks(st, k);
      Peers(s) && s == SetInfo(st, st.current, st.threads[st.current].(remaining := st.threads[st.current].remaining - k))
  {
    hide NoDup, Schedule;
    if k == 0 {
      assert st.threads == st.threads[st.current := st.threads[st.current]];
    } else {
      TicksCount(st, k - 1);
      var s := Ticks(st, k - 1);
      ChangeKeeps(s, s.threads[s.current].(remaining := s.threads[s.current].remaining - 1));
    }
  }

  /** A thread with an equally urgent one ready, unlocked, keeps the processor for the ticks left of
      its slice, at most its init_tick, and not a tick longer. */
  lemma SliceEnds(st: State)
    requires Peers(st) && Slices(st) && st.ready[st.threads[st.current].prio] != []
    ensures var r := st.threads[st.current].remaining;
      && 1 <= r <= st.threads[st.current].init
      && (forall k: nat :: k < r ==> Ticks(st, k).current == st.current)
      && Ticks(st, r).current == st.ready[st.threads[st.current].prio][0] != st.current
  {
    hide NoDup, Schedule, Ticks;
    var c := st.current;
    var r := st.threads[c].remaining;
    forall k: nat | k < r ensures Ticks(st, k).current == c { TicksCount(st, k); }
    TicksCount(st, r - 1);
    var s := Ticks(st, r - 1);
    var y := SetInfo(s, c, s.threads[c].(remaining := s.threads[c].init, yielding := true));
    ChangeKeeps(s, y.threads[c]);
    assert Highest(y.ready, 0) == st.threads[c].prio;
    ScheduleShape(y);
    LastTick(st, r);
  }

  lemma LastTick(st: State, r: nat)
    requires r > 0
    ensures Ticks(st, r) == Tick(Ticks(st, r - 1))
  {}

  /** `t` runs, unlocked, with an equally urgent thread ready. */
  predicate Contended(st: State, t: Thread) {
    && st.current == t && t in st.threads && st.threads[t].phase == Running && st.lock == 0
    && st.threads[t].prio < |st.ready| && st.ready[st.threads[t].prio] != []
  }

  /** A run of any steps in all of whose states `t` is so placed. */
  ghost predicate Contending(st: State, ops: seq<Op>, t: Thread)
    decreases |ops|
  {
    Contended(st, t) && (ops != [] ==> Legal(st, ops[0]) && Contending(Step(st, ops[0]), ops[1..], t))
  }

  function TicksIn(ops: seq<Op>): nat {
    if ops == [] then 0 else TicksIn(ops[1..]) + if ops[0].DoTick? then 1 else 0
  }

  /** rt_schedule does not let a thread that yields to an equal go on. */
  lemma YieldingLeaves(st: State, t: Thread)
    requires Inv(st) && Contended(st, t) && st.threads[t].yielding
    ensures Schedule(st).current != t
  {
    hide NoDup, Without, Schedule;
    ScheduleShape(st);
  }

  lemma StaysWithSlice(st: State, t: Thread)
    requires Inv(st) && st.current == t && st.lock == 0
    ensures Schedule(st).current == t ==> t in Schedule(st).threads && Schedule(st).threads[t].remaining == st.threads[t].remaining
  {
    hide NoDup, Without, Schedule;
    if Highest(st.ready, 0) < PRIORITIES { ScheduleShape(st); } else { Unscheduled(st); }
  }

  /** While it stays so placed a step costs the thread one tick of its slice if it is a tick, and
      nothing otherwise. */
  lemma StepSpends(st: State, op: Op, t: Thread)
    requires Inv(st) && Legal(st, op) && Contended(st, t) && Contended(Step(st, op), t) && st.threads[t].remaining >= 1
    ensures var r := Step(st, op).threads[t].remaining;
      r >= 1 && r == st.threads[t].remaining - (if op.DoTick? then 1 else 0)
  {
    hide NoDup, Without, Schedule, Inv;
    match op
    case DoSchedule => StaysWithSlice(st, t);
    case DoYield => Renewed(st, t);
    case DoTick => Renewed(st, t);
    case DoExit =>
      assert st.(lock := 0) == st;
      StaysWithSlice(st, t);
    case _ =>
  }

  /** A slice that is renewed ends the thread's turn. */
  lemma Renewed(st: State, t: Thread)
    requires Inv(st) && Contended(st, t)
    ensures Schedule(SetInfo(st, t, st.threads[t].(yielding := true, remaining := st.threads[t].init))).current != t
  {
    hide NoDup, Schedule;
    var y := SetInfo(st, t, st.threads[t].(yielding := true, remaining := st.threads[t].init));
    ChangeKeeps(st, y.threads[t]);
    YieldingLeaves(y, t);
  }

  /** Whatever else happens between the ticks, a thread that is never alone at its priority keeps the
      processor for fewer ticks than its slice has left. */
  lemma {:induction false} SliceBounds(st: State, ops: seq<Op>, t: Thread)
    requires Inv(st) && Contending(st, ops, t) && st.threads[t].remaining >= 1
    ensures TicksIn(ops) < st.threads[t].remaining
    decreases |ops|
  {
    hide Inv, Step;
    if ops != [] {
      StepSpends(st, ops[0], t);
      StepKeepsInv(st, ops[0]);
      SliceBounds(Step(st, ops[0]), ops[1..], t);
    }
  }

  // ---------------------------------------------------------------- what the calls come to

  /** Who runs after an unlocked rt_schedule: the running thread stays exactly when nobody ready is
      more urgent, or as urgent while it yields; otherwise the first in line of the most urgent
      priority takes over, and the displaced thread, if it was running, goes to the end of its line. */
  lemma ScheduleChooses(st: State, p: nat)
    requires Inv(st) && st.lock == 0 && p < PRIORITIES && st.ready[p] != [] && forall q: nat :: q < p ==> st.ready[q] == []
    ensures var c := st.current; var i := st.threads[c]; var s := Schedule(st);
      && (i.phase == Running && (i.prio < p || (i.prio == p && !i.yielding)) ==> s.current == c && s.ready == st.ready)
      && (!(i.phase == Running && (i.prio < p || (i.prio == p && !i.yielding))) ==> s.current == st.ready[p][0])
      && (s.current != c && i.phase == Running && i.prio != p ==>
            s.ready == st.ready[p := st.ready[p][1..]][i.prio := st.ready[i.prio] + [c]])
      && (s.current != c && i.phase == Running && i.prio == p ==> s.ready == st.ready[p := st.ready[p][1..] + [c]])
      && (s.current != c && i.phase != Running ==> s.ready == st.ready[p := st.ready[p][1..]])
  {
    hide NoDup, Without, Schedule;
    assert forall q: nat :: q < Highest(st.ready, 0) ==> st.ready[q] == [];
    ScheduleShape(st);
    WithoutFirst(st.ready[p], st.current);
    FirstLeaves(st.ready[p]);
    var i := st.threads[st.current];
    if i.prio != p {
      assert st.ready[i.prio := st.ready[i.prio] + [st.current]][p := st.ready[p][1..]]
          == st.ready[p := st.ready[p][1..]][i.prio := st.ready[i.prio] + [st.current]];
    }
  }

  lemma FirstLeaves(q: seq<Thread>)
    requires q != []
    ensures Without(q, q[0]) == q[1..]
  {}

  /** rt_exit_critical of the outermost section delivers what rt_schedule does: afterwards nothing is
      locked, and the current thread is running and at least as urgent as every runnable one.  An
      inner exit switches nobody. */
  lemma ExitDelivers(st: State)
    requires Inv(st)
    ensures st.lock <= 1 && (exists p: nat :: p < PRIORITIES && st.ready[p] != []) ==>
      var s := Step(st, DoExit);
      && s.lock == 0 && s.current in s.threads && s.threads[s.current].phase == Running
      && forall t :: Runnable(st, t) ==> t in s.threads && s.threads[s.current].prio <= s.threads[t].prio
    ensures st.lock > 1 ==> Step(st, DoExit) == st.(lock := st.lock - 1)
  {
    hide NoDup, Without, Schedule;
    if st.lock <= 1 && exists p: nat :: p < PRIORITIES && st.ready[p] != [] {
      LockOnly(st, 0);
      ScheduleDelivers(st.(lock := 0));
      SomeReady(st);
      ScheduleShape(st.(lock := 0));
      CurrentThere(Schedule(st.(lock := 0)));
      assert forall t :: Runnable(st, t) ==> Runnable(Schedule(st.(lock := 0)), t) by {
        forall t | Runnable(st, t) ensures Runnable(Schedule(st.(lock := 0)), t) { assert Runnable(st.(lock := 0), t); }
      }
    }
  }

  lemma CurrentThere(st: State)
    requires Inv(st)
    ensures st.current in st.threads
  {}

  /** The steps `ops`, taken at nesting depth `n`, never reach depth 0. */
  predicate Within(ops: seq<Op>, n: nat) {
    n > 0 && (ops == [] || Within(ops[1..], if ops[0].DoEnter? then n + 1 else if ops[0].DoExit? then n - 1 else n))
  }

  function DepthAfter(ops: seq<Op>, n: int): int {
    if ops == [] then n else DepthAfter(ops[1..], if ops[0].DoEnter? then n + 1 else if ops[0].DoExit? then n - 1 else n)
  }

  /** Inside a critical section, up to the exit that matches the first enter, whatever is called
      leaves the processor to the same thread. */
  lemma {:induction false} CriticalSection(st: State, ops: seq<Op>, end: State)
    requires IsRun(st, ops, end) && Within(ops, st.lock)
    ensures end.current == st.current && end.lock == DepthAfter(ops, st.lock)
    decreases |ops|
  {
    hide Step;
    if ops != [] {
      StaysInside(st, ops[0]);
      CriticalSection(Step(st, ops[0]), ops[1..], end);
    }
  }

  lemma StaysInside(st: State, op: Op)
    requires st.lock > 0 && (op.DoExit? ==> st.lock > 1)
    ensures var s := Step(st, op);
      s.current == st.current && s.lock == (if op.DoEnter? then st.lock + 1 else if op.DoExit? then st.lock - 1 else st.lock)
  {
    hide Without, Highest;
  }

  /** A thread that a yield or the last tick of its slice takes the processor from has a full slice
      for its next turn, and, if it was running, waits at the end of its line. */
  lemma DisplacedIsRenewed(st: State, op: Op)
    requires Inv(st) && (op == DoYield || op == DoTick) && Step(st, op).current != st.current
    ensures var c := st.current; var s := Step(st, op);
      && c in s.threads && s.threads[c].remaining == s.threads[c].init == st.threads[c].init
      && (st.threads[c].phase == Running ==> s.ready[st.threads[c].prio] != [] && s.ready[st.threads[c].prio][|s.ready[st.threads[c].prio]| - 1] == c)
  {
    hide NoDup, Without, Schedule;
    var c := st.current;
    var y := SetInfo(st, c, st.threads[c].(yielding := true, remaining := st.threads[c].init));
    ChangeKeeps(st, y.threads[c]);
    Moved(y);
    var h := Highest(y.ready, 0);
    ScheduleShape(y);
    WithoutFirst(y.ready[h], c);
  }

  /** rt_schedule that switches was unlocked, with somebody ready. */
  lemma Moved(st: State)
    requires Schedule(st).current != st.current
    ensures st.lock == 0 && Highest(st.ready, 0) < |st.ready|
  {}

  /** What a tick does to the slice: one tick less, a new slice for one used up, and for a slice of
      0 ticks the wrap-around of the unsigned counter. */
  lemma TickCounts(st: State)
    requires Inv(st)
    ensures var r := st.threads[st.current].remaining; var s := Step(st, DoTick);
      && st.current in s.threads
      && s.threads[st.current].remaining == (if r == 0 then 0xFFFF_FFFF else if r == 1 then st.threads[st.current].init else r - 1)
      && (r != 1 ==> s.current == st.current && s.ready == st.ready)
      && forall t :: t in st.threads && t != st.current ==> t in s.threads && s.threads[t].remaining == st.threads[t].remaining
  {
    hide NoDup, Without, Schedule;
    var c := st.current;
    if st.threads[c].remaining == 1 {
      var y := SetInfo(st, c, st.threads[c].(yielding := true, remaining := st.threads[c].init));
      ChangeKeeps(st, y.threads[c]);
      SlicesAlone(y);
    }
  }

  /** rt_schedule counts no ticks. */
  lemma SlicesAlone(st: State)
    requires Inv(st)
    ensures forall t :: t in st.threads ==> t in Schedule(st).threads && Schedule(st).threads[t].remaining == st.threads[t].remaining
  {
    hide NoDup, Without, Schedule;
    if st.lock == 0 && Highest(st.ready, 0) < |st.ready| { ScheduleShape(st); } else { Untouched(st); }
  }

  lemma Untouched(st: State)
    requires st.lock != 0 || Highest(st.ready, 0) == |st.ready|
    ensures Schedule(st) == st
  {}

  /** The running thread suspends: it is in no list, and no list changes. */
  lemma SuspendLeaves(st: State)
    requires Inv(st) && Legal(st, DoSuspend)
    ensures Step(st, DoSuspend) == st.(threads := st.threads[st.current := st.threads[st.current].(phase := Suspended)])
  {
    hide NoDup, Without;
    var c, p := st.current, st.threads[st.current].prio;
    assert c in st.ready[p] <==> Queued(st, p, c);
    NotThere(st.ready[p], c);
    assert st.ready[p := st.ready[p]] == st.ready;
  }

  /** A suspended thread resumed goes to the end of its line, and no other thread is touched; one
      that is not suspended is left alone. */
  lemma ResumeQueues(st: State, t: Thread)
    requires Inv(st) && Legal(st, DoResume(t))
    ensures var i := st.threads[t]; var s := Step(st, DoResume(t));
      && (i.phase == Suspended && t != st.current ==>
            s == st.(threads := st.threads[t := i.(phase := Ready)], ready := st.ready[i.prio := st.ready[i.prio] + [t]]))
      && (i.phase == Suspended && t == st.current ==> s == st.(threads := st.threads[t := i.(phase := Running)]))
      && (i.phase != Suspended ==> s == st)
  {
    hide NoDup;
  }

  /** A ready thread whose priority changes goes to the end of its new line, whatever else it stands
      at; a thread in no line just changes. */
  lemma PriorityQueues(st: State, t: Thread, p: nat)
    requires Inv(st) && Legal(st, DoPriority(t, p))
    ensures var i := st.threads[t]; var s := Step(st, DoPriority(t, p));
      && s.threads == st.threads[t := i.(prio := p)] && s.current == st.current && s.lock == st.lock
      && (i.phase != Ready ==> s.ready == st.ready)
      && (i.phase == Ready ==>
            && |s.ready| == |st.ready| && s.ready[p] != [] && s.ready[p][|s.ready[p]| - 1] == t
            && (p != i.prio ==> s.ready[p] == st.ready[p] + [t])
            && forall q: nat :: q < |st.ready| && q != p && q != i.prio ==> s.ready[q] == st.ready[q])
  {
    hide NoDup, Without;
    if st.threads[t].phase == Ready {
      var s := SetInfo(Remove(st, t), t, st.threads[t].(prio := p));
      assert Step(st, DoPriority(t, p)) == Insert(s, t);
      assert t != st.current;
    }
  }
}
