/** rt_mutex_release and the scheduler together (rt-thread/src/ipc.c, lines 1123-1190): it calls
    rt_schedule only after waking a waiter. */
module MutexScheduling {
  import opened Lists
  import opened Memory
  import opened WaitList
  import C = SchedulerSpec
  import X = MutexSpec

  /** The last release of `x` by the running thread: its priority is restored, and if somebody waits
      the first waiter is resumed and rt_schedule called. */
  function Released(sc: C.State, x: X.Mutex): C.State {
    var t := sc.current;
    var restored := if x.original != C.InfoOf(sc, t).prio then C.ChangePriority(sc, t, x.original) else sc;
    if x.waiters != [] then C.Schedule(C.Resume(restored, x.waiters[0])) else restored
  }

  /** The running thread holds `x` once, unlocked, and the first waiter is suspended. */
  ghost predicate Releasing(sc: C.State, x: X.Mutex) {
    && C.Inv(sc) && sc.lock == 0 && sc.threads[sc.current].phase == C.Running
    && X.Sound(x) && x.owner == Some(sc.current) && x.hold == 1 && x.original < C.PRIORITIES
    && (x.waiters != [] ==> x.waiters[0] in sc.threads && sc.threads[x.waiters[0]].phase == C.Suspended)
  }

  /** No ready thread is more urgent than the running one. */
  ghost predicate MostUrgentRuns(sc: C.State) {
    sc.current in sc.threads &&
    forall u :: u in sc.threads && sc.threads[u].phase == C.Ready ==> sc.threads[sc.current].prio <= sc.threads[u].prio
  }

  ghost predicate SamePriorities(sc: C.State, prio: X.Priorities) {
    forall u :: u in sc.threads ==> sc.threads[u].prio == PriorityOf(prio, u)
  }

  function Restored(sc: C.State, p: nat): C.State {
    C.SetInfo(sc, sc.current, C.InfoOf(sc, sc.current).(prio := p))
  }

  lemma RestoredIs(sc: C.State, x: X.Mutex)
    requires Releasing(sc, x)
    ensures C.Inv(Restored(sc, x.original)) && sc.current in sc.threads
    ensures Released(sc, x) ==
      if x.waiters != [] then C.Schedule(C.Resume(Restored(sc, x.original), x.waiters[0])) else Restored(sc, x.original)
  {
    hide C.Inv, C.Schedule, C.Resume, NoDup;
    Known(sc);
    C.ChangeKeeps(sc, C.InfoOf(sc, sc.current).(prio := x.original));
    assert x.original == sc.threads[sc.current].prio ==> sc.threads[sc.current := sc.threads[sc.current]] == sc.threads;
  }

  lemma Known(sc: C.State)
    requires C.Inv(sc)
    ensures sc.current in sc.threads
  {}

  /** After a last release the running thread is at least as urgent as every ready one if and only if
      somebody was waiting, or nobody ready is more urgent than the priority restored. */
  lemma ReleaseLeavesMostUrgentIff(sc: C.State, x: X.Mutex)
    requires Releasing(sc, x)
    ensures MostUrgentRuns(Released(sc, x)) <==>
      x.waiters != [] || forall u :: u in sc.threads && sc.threads[u].phase == C.Ready ==> x.original <= sc.threads[u].prio
  {
    hide C.Inv, C.Schedule, C.Resume, NoDup, Released;
    RestoredIs(sc, x);
    if x.waiters != [] {
      WakesReady(sc, x);
      var r := C.Resume(Restored(sc, x.original), x.waiters[0]);
      C.ScheduleDelivers(r);
      Known(C.Schedule(r));
      Delivered(C.Schedule(r));
    } else {
      RestoredUrgency(sc, x.original);
    }
  }

  lemma RestoredUrgency(sc: C.State, p: nat)
    requires sc.current in sc.threads && sc.threads[sc.current].phase == C.Running
    ensures MostUrgentRuns(Restored(sc, p)) <==> forall u :: u in sc.threads && sc.threads[u].phase == C.Ready ==> p <= sc.threads[u].prio
  {
    var s := Restored(sc, p);
    assert forall u :: u in sc.threads && u != sc.current ==> u in s.threads && s.threads[u] == sc.threads[u];
    if MostUrgentRuns(s) {
      forall u | u in sc.threads && sc.threads[u].phase == C.Ready ensures p <= sc.threads[u].prio { assert s.threads[u] == sc.threads[u]; }
    }
  }

  lemma Delivered(s: C.State)
    requires C.Inv(s) && s.current in s.threads
    requires forall t :: C.Runnable(s, t) && t != s.current ==> s.threads[t].phase == C.Ready && s.threads[s.current].prio <= s.threads[t].prio
    ensures MostUrgentRuns(s)
  {}

  /** The waiter resumed is ready. */
  lemma WakesReady(sc: C.State, x: X.Mutex)
    requires Releasing(sc, x) && x.waiters != []
    ensures var r := C.Resume(Restored(sc, x.original), x.waiters[0]);
      && C.Inv(r) && r.lock == 0 && r.current == sc.current && exists p: nat :: p < C.PRIORITIES && r.ready[p] != []
  {
    hide NoDup, Released;
    RestoredIs(sc, x);
    var s := Restored(sc, x.original);
    var w := x.waiters[0];
    C.ResumeKeeps(s, w);
    var r := C.Resume(s, w);
    assert r.ready[s.threads[w].prio] == s.ready[s.threads[w].prio] + [w];
  }

  /** The two specifications agree on everybody's priority after the release. */
  lemma PrioritiesAgree(sc: C.State, x: X.Mutex, prio: X.Priorities)
    requires Releasing(sc, x) && SamePriorities(sc, prio)
    ensures SamePriorities(Released(sc, x), X.Release(x, prio, sc.current).2)
  {
    hide C.Inv, C.Schedule, C.Resume, NoDup, Released;
    RestoredIs(sc, x);
    var s := Restored(sc, x.original);
    var prio' := X.Release(x, prio, sc.current).2;
    assert SamePriorities(s, prio');
    if x.waiters != [] {
      WakesReady(sc, x);
      var r := C.Resume(s, x.waiters[0]);
      ResumeKeepsPriorities(s, x.waiters[0], prio');
      ScheduleKeepsPriorities(r, prio');
    }
  }

  lemma ResumeKeepsPriorities(sc: C.State, w: Thread, prio: X.Priorities)
    requires SamePriorities(sc, prio) && w in sc.threads
    ensures SamePriorities(C.Resume(sc, w), prio)
  {}

  lemma ScheduleKeepsPriorities(sc: C.State, prio: X.Priorities)
    requires SamePriorities(sc, prio) && C.Inv(sc) && sc.lock == 0 && exists p: nat :: p < C.PRIORITIES && sc.ready[p] != []
    ensures SamePriorities(C.Schedule(sc), prio)
  {
    hide C.Schedule, NoDup, Without;
    C.SomeReady(sc);
    C.ScheduleShape(sc);
  }

  /** How such a mutex comes about: thread 2, at priority 5, waits for thread 1, at 20, and times out. */
  lemma TimedOutWaiterLeavesLoan()
    ensures var (c, x, p) := X.Take(X.FRESH, map[1 := 20, 2 := 5], 1, true);
      var (d, y, q) := X.Take(x, p, 2, true);
      X.Expire(y, 2) == LENT && PriorityOf(q, 1) == 5 && PriorityOf(q, 2) == 5
  {
    assert InsertAt([], 2, 0) == [2];
    assert Without([2], 2) == [];
  }

  const LENT := X.Mutex(0, Some(1), 20, 1, [])

  /** Thread 1 runs at the priority lent, and thread 2, back from its timeout, is ready. */
  function AfterTimeout(): C.State {
    C.State(seq(C.PRIORITIES, p => if p == 5 then [2] else []), 1,
            map[1 := C.Info(5, C.Running, false, 10, 10), 2 := C.Info(5, C.Ready, false, 10, 10)], 0)
  }

  /** Then releasing drops thread 1 to 20, and it runs on although thread 2 is ready at 5. */
  lemma ReleaseKeepsRunningBelowReady()
    ensures Releasing(AfterTimeout(), LENT) && MostUrgentRuns(AfterTimeout()) && !MostUrgentRuns(Released(AfterTimeout(), LENT))
  {
    var sc := AfterTimeout();
    assert forall p: nat, t :: p < C.PRIORITIES ==> (t in sc.ready[p] <==> p == 5 && t == 2);
    ReleaseLeavesMostUrgentIff(sc, LENT);
    assert sc.threads[2].phase == C.Ready && sc.threads[2].prio == 5;
  }
}
