/** Mutexes with priority inheritance and direct hand-off (rt-thread/src/ipc.c, lines 121-168,
    918-1045 and 1084-1190), any number of them, as a step system. */
module MutexSpec {
  import opened Lists
  import opened Memory
  import opened WaitList

  const RT_MUTEX_HOLD_MAX := 0xFF
  const RT_MUTEX_VALUE_MAX := 0xFFFF

  /** struct rt_mutex; `waiters` is its suspend_thread list. */
  datatype Mutex = Mutex(value: nat, owner: Option<Thread>, original: nat, hold: nat, waiters: seq<Thread>)

  /** RT_EOK, -RT_EFULL, -RT_ETIMEOUT, -RT_ERROR; `Blocked` means the caller was suspended. */
  datatype Code = Ok | Overflow | TimedOut | NotOwner | Blocked

  /** The current priority of every thread. */
  type Priorities = map<Thread, nat>

  /** What rt_mutex_take does to the owner before `t` waits: RT_THREAD_CTRL_CHANGE_PRIORITY. */
  function Boost(owner: Option<Thread>, t: Thread, prio: Priorities): Priorities {
    if owner.Some? && PriorityOf(prio, t) < PriorityOf(prio, owner.value) then prio[owner.value := PriorityOf(prio, t)] else prio
  }

  /** rt_mutex_take by `t`. */
  function Take(x: Mutex, prio: Priorities, t: Thread, block: bool): (Code, Mutex, Priorities) {
    if x.owner == Some(t) then
      if x.hold < RT_MUTEX_HOLD_MAX then (Ok, x.(hold := x.hold + 1), prio) else (Overflow, x, prio)
    else if x.value > 0 then
      var y := x.(value := x.value - 1, owner := Some(t), original := PriorityOf(prio, t));
      if x.hold < RT_MUTEX_HOLD_MAX then (Ok, y.(hold := x.hold + 1), prio) else (Overflow, y, prio)
    else if !block then (TimedOut, x, prio)
    else
      var prio' := Boost(x.owner, t, prio);
      (Blocked, x.(waiters := Suspend(x.waiters, t, Prio, prio')), prio')
  }

  /** The owner's priority once it has let go. */
  function Restore(x: Mutex, prio: Priorities, t: Thread): Priorities {
    if x.original != PriorityOf(prio, t) then prio[t := x.original] else prio
  }

  /** rt_mutex_release by `t`. */
  function Release(x: Mutex, prio: Priorities, t: Thread): (Code, Mutex, Priorities) {
    if x.owner != Some(t) || x.hold == 0 then (NotOwner, x, prio)
    else if x.hold > 1 then (Ok, x.(hold := x.hold - 1), prio)
    else
      var prio' := Restore(x, prio, t);
      if x.waiters != [] then
        var next := x.waiters[0];
        (Ok, Mutex(x.value, Some(next), PriorityOf(prio', next), 1, x.waiters[1..]), prio')
      else if x.value < RT_MUTEX_VALUE_MAX then (Ok, Mutex(x.value + 1, None, 0xff, 0, []), prio')
      else (Overflow, x.(hold := 0), prio')
  }

  /** A timeout unlinks a waiter; the owner keeps the priority it was lent. */
  function Expire(x: Mutex, t: Thread): Mutex {
    x.(waiters := Without(x.waiters, t))
  }

  type Id = nat

  /** `base` is the priority a thread has when no mutex is involved; `takes` counts, for every
      thread and mutex, the takes granted to it less its releases. */
  datatype State = State(mutexes: map<Id, Mutex>, prio: Priorities, base: Priorities, takes: map<(Thread, Id), int>)

  function TakesOf(st: State, t: Thread, m: Id): int {
    if (t, m) in st.takes then st.takes[(t, m)] else 0
  }

  function Count(st: State, t: Thread, m: Id, n: int): map<(Thread, Id), int> {
    st.takes[(t, m) := TakesOf(st, t, m) + n]
  }

  datatype Op = DoTake(t: Thread, m: Id, block: bool) | DoRelease(t: Thread, m: Id) | DoTimeout(t: Thread, m: Id)

  function Step(st: State, op: Op): State
    requires op.m in st.mutexes
  {
    var x := st.mutexes[op.m];
    match op
    case DoTake(t, m, block) =>
      var (code, y, prio) := Take(x, st.prio, t, block);
      State(st.mutexes[m := y], prio, st.base, if code == Ok then Count(st, t, m, 1) else st.takes)
    case DoRelease(t, m) =>
      var (code, y, prio) := Release(x, st.prio, t);
      var s := State(st.mutexes[m := y], prio, st.base, if code == Ok then Count(st, t, m, -1) else st.takes);
      if code == Ok && x.hold == 1 && x.waiters != [] then s.(takes := Count(s, x.waiters[0], m, 1)) else s
    case DoTimeout(t, m) => st.(mutexes := st.mutexes[m := Expire(x, t)])
  }

  /** `t` owns `m` or waits for it. */
  predicate Involved(st: State, t: Thread, m: Id) {
    m in st.mutexes && (st.mutexes[m].owner == Some(t) || t in st.mutexes[m].waiters)
  }

  /** Only running threads call, so no waiter does; a timeout hits a waiter. */
  ghost predicate Legal(st: State, op: Op) {
    && op.m in st.mutexes
    && (op.DoTimeout? ==> op.t in st.mutexes[op.m].waiters)
    && (!op.DoTimeout? ==> forall m :: m in st.mutexes ==> op.t !in st.mutexes[m].waiters)
  }

  /** The caller has no business with any other mutex. */
  ghost predicate OneAtATime(st: State, op: Op) {
    op.DoTake? ==> forall m :: m != op.m ==> !Involved(st, op.t, m)
  }

  // ---------------------------------------------------------------- hand-off safety

  /** The mutex is free exactly when it has value 1, no owner and no holds; whoever waits, waits
      for an owner. */
  ghost predicate Sound(x: Mutex) {
    && (x.value == 1 <==> x.owner.None?) && (x.value == 0 <==> x.owner.Some?) && (x.hold == 0 <==> x.owner.None?)
    && x.hold <= RT_MUTEX_HOLD_MAX && NoDup(x.waiters)
    && (x.waiters != [] ==> x.owner.Some?) && (x.owner.Some? ==> x.owner.value !in x.waiters)
  }

  /** Every thread's takes of a mutex less its releases are its holds. */
  ghost predicate Counted(st: State, m: Id)
    requires m in st.mutexes
  {
    forall t: Thread :: TakesOf(st, t, m) == if st.mutexes[m].owner == Some(t) then st.mutexes[m].hold else 0
  }

  ghost predicate SafeAt(st: State, m: Id)
    requires m in st.mutexes
  {
    Sound(st.mutexes[m]) && Counted(st, m)
  }

  ghost predicate Safe(st: State) {
    forall m :: m in st.mutexes ==> SafeAt(st, m)
  }

  lemma TakeSound(x: Mutex, prio: Priorities, t: Thread, block: bool)
    requires Sound(x) && t !in x.waiters
    ensures var (code, y, prio') := Take(x, prio, t, block); Sound(y) && (code == Overflow ==> x.owner == Some(t))
  {
    hide NoDup, Suspend;
    if x.owner.Some? && x.owner.value != t && block { SuspendAdds(x.waiters, t, Prio, Boost(x.owner, t, prio)); }
  }

  lemma ReleaseSound(x: Mutex, prio: Priorities, t: Thread)
    requires Sound(x)
    ensures var (code, y, prio') := Release(x, prio, t); Sound(y) && code != Overflow
  {
    hide NoDup;
    if x.waiters != [] { TailFacts(x.waiters); }
  }

  lemma ExpireSound(x: Mutex, t: Thread)
    requires Sound(x)
    ensures Sound(Expire(x, t)) && |Expire(x, t).waiters| <= |x.waiters|
  {
    hide NoDup, Without;
    WithoutFacts(x.waiters, t);
    var k := WithoutShape(x.waiters, t);
  }

  /** Every step of every thread on every mutex is safe, nested use included. */
  lemma StepSafe(st: State, op: Op)
    requires Safe(st) && Legal(st, op)
    ensures Safe(Step(st, op))
  {
    var s := Step(st, op);
    forall m | m in s.mutexes ensures SafeAt(s, m) {
      assert SafeAt(st, m);
      if m == op.m { StepSafeHere(st, op); } else { assert Counted(st, m); assert forall t :: TakesOf(s, t, m) == TakesOf(st, t, m); }
    }
  }

  lemma StepSafeHere(st: State, op: Op)
    requires Legal(st, op) && SafeAt(st, op.m)
    ensures SafeAt(Step(st, op), op.m)
  {
    hide NoDup, Suspend, Without, Boost, Restore;
    var x := st.mutexes[op.m];
    var s := Step(st, op);
    match op
    case DoTake(t, m, block) => TakeSound(x, st.prio, t, block);
    case DoRelease(t, m) =>
      ReleaseSound(x, st.prio, t);
      if x.waiters != [] { assert x.waiters[0] in x.waiters; }
    case DoTimeout(t, m) => ExpireSound(x, t);
  }

  /** What rt_mutex_take comes to.  A free mutex is taken; its owner takes it again, up to the hold
      limit; anybody else waits, if it may, lending the owner its priority if that is more urgent,
      and if it may not wait nothing changes. */
  lemma TakeComesTo(x: Mutex, prio: Priorities, t: Thread, block: bool)
    requires Sound(x) && t !in x.waiters
    ensures var (code, y, prio') := Take(x, prio, t, block);
      && (x.owner.None? ==> code == Ok && y.owner == Some(t) && y.hold == 1 && y.waiters == [] && prio' == prio)
      && (x.owner == Some(t) ==> code == (if x.hold < RT_MUTEX_HOLD_MAX then Ok else Overflow) && prio' == prio)
      && (x.owner == Some(t) ==> y == if x.hold < RT_MUTEX_HOLD_MAX then x.(hold := x.hold + 1) else x)
      && (x.owner.Some? && x.owner.value != t && !block ==> code == TimedOut && y == x && prio' == prio)
      && (x.owner.Some? && x.owner.value != t && block ==>
            var o := x.owner.value;
            && code == Blocked && t in y.waiters && Without(y.waiters, t) == x.waiters && y.owner == x.owner && y.hold == x.hold
            && PriorityOf(prio', o) == (if PriorityOf(prio, t) < PriorityOf(prio, o) then PriorityOf(prio, t) else PriorityOf(prio, o))
            && forall u: Thread :: u != o ==> PriorityOf(prio', u) == PriorityOf(prio, u))
  {
    hide NoDup, Suspend, Without;
    SuspendAdds(x.waiters, t, Prio, Boost(x.owner, t, prio));
  }

  /** What rt_mutex_release comes to.  Only the owner may call; one of several holds just goes; the
      last hands the mutex to the first waiter, or frees it, and gives the caller the priority saved. */
  lemma ReleaseComesTo(x: Mutex, prio: Priorities, t: Thread)
    requires Sound(x)
    ensures var (code, y, prio') := Release(x, prio, t);
      && (x.owner != Some(t) ==> code == NotOwner && y == x && prio' == prio)
      && (x.owner == Some(t) && x.hold > 1 ==> code == Ok && y == x.(hold := x.hold - 1) && prio' == prio)
      && (x.owner == Some(t) && x.hold == 1 ==>
            && code == Ok && PriorityOf(prio', t) == x.original && (forall u: Thread :: u != t ==> PriorityOf(prio', u) == PriorityOf(prio, u))
            && (x.waiters == [] ==> y.owner == None && y.value == 1 && y.hold == 0 && y.waiters == [])
            && (x.waiters != [] ==> y.owner == Some(x.waiters[0]) && y.value == 0 && y.hold == 1 && y.waiters == x.waiters[1..]
                                    && y.original == PriorityOf(prio', x.waiters[0])))
  {
    hide NoDup;
  }

  /** A timeout takes the waiter off the list and changes nothing else, the priority it lent included. */
  lemma TimeoutComesTo(st: State, t: Thread, m: Id)
    requires Safe(st) && Legal(st, DoTimeout(t, m))
    ensures var s := Step(st, DoTimeout(t, m)); var x := st.mutexes[m];
      && s.prio == st.prio && s.takes == st.takes && m in s.mutexes && t !in s.mutexes[m].waiters
      && s.mutexes == st.mutexes[m := x.(waiters := s.mutexes[m].waiters)]
      && forall u, v :: Before(x.waiters, u, v) && u != t && v != t ==> Before(s.mutexes[m].waiters, u, v)
  {
    hide NoDup, Without, Before;
    assert SafeAt(st, m);
    var w := st.mutexes[m].waiters;
    WithoutFacts(w, t);
    forall u, v | Before(w, u, v) && u != t && v != t ensures Before(Without(w, t), u, v) { WithoutKeepsBefore(w, t, u, v); }
  }

  // ---------------------------------------------------------------- priority inheritance

  /** The wait list is sorted, and the owner runs at least as urgently as every waiter. */
  ghost predicate Inherits(x: Mutex, prio: Priorities) {
    && Sorted(x.waiters, prio)
    && (x.owner.Some? ==> forall w :: w in x.waiters ==> PriorityOf(prio, x.owner.value) <= PriorityOf(prio, w))
  }

  /** The owner will get back the priority it has of its own. */
  ghost predicate Restorable(x: Mutex, prio: Priorities, base: Priorities) {
    x.owner.Some? ==> x.original == PriorityOf(base, x.owner.value) && PriorityOf(prio, x.owner.value) <= x.original
  }

  predicate OwnsAny(st: State, t: Thread) {
    exists m :: m in st.mutexes && st.mutexes[m].owner == Some(t)
  }

  /** Inheritance at every mutex, for threads that deal with one mutex at a time. */
  ghost predicate Lent(st: State) {
    && (forall m :: m in st.mutexes ==> Inherits(st.mutexes[m], st.prio) && Restorable(st.mutexes[m], st.prio, st.base))
    && (forall t, m, m' :: Involved(st, t, m) && Involved(st, t, m') ==> m == m')
    && (forall t: Thread :: !OwnsAny(st, t) ==> PriorityOf(st.prio, t) == PriorityOf(st.base, t))
  }

  ghost predicate Inv(st: State) {
    Safe(st) && Lent(st)
  }

  /** Changing the priority of threads a mutex does not involve leaves its inheritance alone. */
  lemma InheritsElsewhere(x: Mutex, prio: Priorities, prio': Priorities, base: Priorities)
    requires Inherits(x, prio) && Restorable(x, prio, base)
    requires forall t: Thread :: x.owner == Some(t) || t in x.waiters ==> PriorityOf(prio', t) == PriorityOf(prio, t)
    ensures Inherits(x, prio') && Restorable(x, prio', base)
  {
    forall i, j | 0 <= i < j < |x.waiters| ensures PriorityOf(prio', x.waiters[i]) <= PriorityOf(prio', x.waiters[j]) {
      assert x.waiters[i] in x.waiters && x.waiters[j] in x.waiters;
    }
  }

  /** A thread that waits lends its priority to the owner and keeps the list sorted. */
  lemma BlockInherits(x: Mutex, prio: Priorities, t: Thread, base: Priorities)
    requires Sound(x) && Inherits(x, prio) && Restorable(x, prio, base) && x.owner.Some? && x.owner.value != t && t !in x.waiters
    ensures var (code, y, prio') := Take(x, prio, t, true);
      && code == Blocked && Inherits(y, prio') && Restorable(y, prio', base) && y.owner == x.owner
      && (forall u: Thread :: u in y.waiters <==> u in x.waiters || u == t)
      && (forall u: Thread :: u != x.owner.value ==> PriorityOf(prio', u) == PriorityOf(prio, u))
  {
    hide NoDup, Suspend;
    var prio' := Boost(x.owner, t, prio);
    SuspendAdds(x.waiters, t, Prio, prio');
    assert Sorted(x.waiters, prio') by {
      forall i, j | 0 <= i < j < |x.waiters| ensures PriorityOf(prio', x.waiters[i]) <= PriorityOf(prio', x.waiters[j]) {
        assert x.waiters[i] in x.waiters && x.waiters[j] in x.waiters;
      }
    }
    SuspendSorted(x.waiters, t, prio');
  }

  /** The last release hands the mutex to the first, most urgent waiter, and gives the old owner
      its own priority back. */
  lemma HandOffInherits(x: Mutex, prio: Priorities, t: Thread, base: Priorities)
    requires Sound(x) && Inherits(x, prio) && Restorable(x, prio, base) && x.owner == Some(t) && x.hold == 1
    requires forall w :: w in x.waiters ==> PriorityOf(prio, w) == PriorityOf(base, w)
    ensures var (code, y, prio') := Release(x, prio, t);
      && code == Ok && Inherits(y, prio') && Restorable(y, prio', base) && PriorityOf(prio', t) == PriorityOf(base, t)
      && y.owner == (if x.waiters == [] then None else Some(x.waiters[0]))
      && (forall u: Thread :: u in y.waiters ==> u in x.waiters)
      && (forall u: Thread :: u != t ==> PriorityOf(prio', u) == PriorityOf(prio, u))
  {
    hide NoDup;
    var (code, y, prio') := Release(x, prio, t);
    if x.waiters != [] {
      TailFacts(x.waiters);
      forall i, j | 0 <= i < j < |y.waiters| ensures PriorityOf(prio', y.waiters[i]) <= PriorityOf(prio', y.waiters[j]) {
        assert x.waiters[i + 1] in x.waiters && x.waiters[j + 1] in x.waiters;
      }
      forall w | w in y.waiters ensures PriorityOf(prio', x.waiters[0]) <= PriorityOf(prio', w) {
        var k :| 0 <= k < |y.waiters| && y.waiters[k] == w;
        assert x.waiters[k + 1] == w && w in x.waiters && x.waiters[0] in x.waiters;
      }
    }
  }

  /** A step at `m` that involves at most `t` anew and changes at most the priority of `u`. */
  lemma Frame(st: State, s: State, m: Id, u: Thread, t: Thread)
    requires Lent(st) && m in st.mutexes && m in s.mutexes && s.mutexes == st.mutexes[m := s.mutexes[m]] && s.base == st.base
    requires forall v: Thread :: v != u ==> PriorityOf(s.prio, v) == PriorityOf(st.prio, v)
    requires forall m' :: m' != m ==> !Involved(st, u, m') && !Involved(st, t, m')
    requires forall v: Thread :: Involved(s, v, m) ==> Involved(st, v, m) || v == t
    requires Inherits(s.mutexes[m], s.prio) && Restorable(s.mutexes[m], s.prio, s.base)
    requires forall v: Thread :: !OwnsAny(s, v) ==> PriorityOf(s.prio, v) == PriorityOf(s.base, v)
    ensures Lent(s)
  {
    hide Inherits, Restorable, OwnsAny;
    forall n | n in s.mutexes && n != m ensures Inherits(s.mutexes[n], s.prio) && Restorable(s.mutexes[n], s.prio, s.base) {
      assert !Involved(st, u, n);
      InheritsElsewhere(s.mutexes[n], st.prio, s.prio, s.base);
    }
    forall v, n, n' | Involved(s, v, n) && Involved(s, v, n') ensures n == n' {
      assert n != m ==> Involved(st, v, n);
      assert n' != m ==> Involved(st, v, n');
    }
  }

  lemma OwnerOf(st: State, t: Thread, m: Id)
    requires m in st.mutexes && st.mutexes[m].owner == Some(t)
    ensures OwnsAny(st, t) && Involved(st, t, m)
  {}

  lemma WaiterOwnsNothing(st: State, t: Thread, m: Id)
    requires Lent(st) && Safe(st) && m in st.mutexes && t in st.mutexes[m].waiters
    ensures !OwnsAny(st, t) && PriorityOf(st.prio, t) == PriorityOf(st.base, t)
  {
    assert SafeAt(st, m);
    if OwnsAny(st, t) {
      var n :| n in st.mutexes && st.mutexes[n].owner == Some(t);
      assert Involved(st, t, m) && Involved(st, t, n);
    }
  }

  /** If only `m` changes, a thread that owns nothing afterwards and did not own `m` owned nothing before. */
  lemma OwnersElsewhere(st: State, s: State, m: Id, v: Thread)
    requires m in st.mutexes && m in s.mutexes && s.mutexes == st.mutexes[m := s.mutexes[m]] && !OwnsAny(s, v) && st.mutexes[m].owner != Some(v)
    ensures !OwnsAny(st, v)
  {
    forall n | n in st.mutexes ensures st.mutexes[n].owner != Some(v) {
      assert n in s.mutexes && (n != m ==> s.mutexes[n] == st.mutexes[n]);
    }
  }

  lemma TakeKeeps(st: State, t: Thread, m: Id, block: bool)
    requires Safe(st) && Lent(st) && Legal(st, DoTake(t, m, block)) && OneAtATime(st, DoTake(t, m, block))
    ensures Lent(Step(st, DoTake(t, m, block)))
  {
    hide NoDup, Suspend, Inherits, Restorable, OwnsAny;
    var s := Step(st, DoTake(t, m, block));
    var x := st.mutexes[m];
    assert SafeAt(st, m);
    if x.owner.None? {
      GrantKeeps(st, s, t, m);
    } else if x.owner != Some(t) && block {
      BlockInherits(x, st.prio, t, st.base);
      OwnerOf(st, x.owner.value, m);
      forall v: Thread | !OwnsAny(s, v) ensures PriorityOf(s.prio, v) == PriorityOf(s.base, v) {
        if v == x.owner.value { OwnerOf(s, v, m); } else { OwnersElsewhere(st, s, m, v); }
      }
      Frame(st, s, m, x.owner.value, t);
    } else {
      SameOwners(st, s, m);
      Recursive(x, s.mutexes[m], st.prio, st.base);
      assert Involved(st, t, m) || x.owner != Some(t);
      Frame(st, s, m, x.owner.value, x.owner.value) by { OwnerOf(st, x.owner.value, m); }
    }
  }

  lemma Recursive(x: Mutex, y: Mutex, prio: Priorities, base: Priorities)
    requires Inherits(x, prio) && Restorable(x, prio, base) && y.owner == x.owner && y.waiters == x.waiters && y.original == x.original
    ensures Inherits(y, prio) && Restorable(y, prio, base)
  {}

  lemma SameOwners(st: State, s: State, m: Id)
    requires m in st.mutexes && m in s.mutexes && s.mutexes == st.mutexes[m := s.mutexes[m]] && s.mutexes[m].owner == st.mutexes[m].owner
    ensures forall v: Thread :: OwnsAny(s, v) <==> OwnsAny(st, v)
  {
    forall v: Thread ensures OwnsAny(s, v) <==> OwnsAny(st, v) {
      if OwnsAny(st, v) {
        var n :| n in st.mutexes && st.mutexes[n].owner == Some(v);
        assert s.mutexes[n].owner == Some(v);
      }
      if OwnsAny(s, v) {
        var n :| n in s.mutexes && s.mutexes[n].owner == Some(v);
        assert st.mutexes[n].owner == Some(v);
      }
    }
  }

  lemma GrantKeeps(st: State, s: State, t: Thread, m: Id)
    requires Safe(st) && Lent(st) && m in st.mutexes && st.mutexes[m].owner.None? && m in s.mutexes
    requires forall n :: n != m ==> !Involved(st, t, n)
    requires s.mutexes == st.mutexes[m := Mutex(0, Some(t), PriorityOf(st.prio, t), 1, st.mutexes[m].waiters)] && s.prio == st.prio && s.base == st.base
    ensures Lent(s)
  {
    hide NoDup;
    assert SafeAt(st, m);
    forall n | n in st.mutexes ensures st.mutexes[n].owner != Some(t) {
      assert n != m ==> !Involved(st, t, n);
    }
    forall v: Thread | !OwnsAny(s, v) ensures PriorityOf(s.prio, v) == PriorityOf(s.base, v) {
      OwnersElsewhere(st, s, m, v);
    }
    Frame(st, s, m, t, t);
  }

  lemma ReleaseKeeps(st: State, t: Thread, m: Id)
    requires Safe(st) && Lent(st) && Legal(st, DoRelease(t, m))
    ensures Lent(Step(st, DoRelease(t, m)))
  {
    hide NoDup, Inherits, Restorable, OwnsAny;
    var s := Step(st, DoRelease(t, m));
    var x := st.mutexes[m];
    assert SafeAt(st, m);
    if x.owner == Some(t) {
      OwnerOf(st, t, m);
      if x.hold == 1 {
        forall w | w in x.waiters ensures PriorityOf(st.prio, w) == PriorityOf(st.base, w) { WaiterOwnsNothing(st, w, m); }
        HandOffInherits(x, st.prio, t, st.base);
        forall v: Thread | !OwnsAny(s, v) ensures PriorityOf(s.prio, v) == PriorityOf(s.base, v) {
          if v != t { OwnersElsewhere(st, s, m, v); }
        }
        assert x.waiters != [] ==> x.waiters[0] in x.waiters;
        Frame(st, s, m, t, t);
      } else {
        SameOwners(st, s, m);
        Recursive(x, s.mutexes[m], st.prio, st.base);
        Frame(st, s, m, t, t);
      }
    } else {
      assert s.mutexes == st.mutexes;
      SameOwners(st, s, m);
    }
  }

  lemma TimeoutKeeps(st: State, t: Thread, m: Id)
    requires Safe(st) && Lent(st) && Legal(st, DoTimeout(t, m))
    ensures Lent(Step(st, DoTimeout(t, m)))
  {
    hide NoDup, OwnsAny, Without, Sorted;
    var s := Step(st, DoTimeout(t, m));
    var x := st.mutexes[m];
    assert SafeAt(st, m);
    WithoutFacts(x.waiters, t);
    WithoutSorted(x.waiters, t, st.prio);
    SameOwners(st, s, m);
    assert Involved(st, t, m);
    Frame(st, s, m, t, t);
  }

  /** With one mutex at a time per thread, every step keeps inheritance. */
  lemma StepKeepsInv(st: State, op: Op)
    requires Inv(st) && Legal(st, op) && OneAtATime(st, op)
    ensures Inv(Step(st, op))
  {
    hide Safe, Lent, Step;
    StepSafe(st, op);
    match op
    case DoTake(t, m, block) => TakeKeeps(st, t, m, block);
    case DoRelease(t, m) => ReleaseKeeps(st, t, m);
    case DoTimeout(t, m) => TimeoutKeeps(st, t, m);
  }

  ghost predicate IsRun(st: State, ops: seq<Op>, end: State)
    decreases |ops|
  {
    if ops == [] then st == end else Legal(st, ops[0]) && OneAtATime(st, ops[0]) && IsRun(Step(st, ops[0]), ops[1..], end)
  }

  /** In every reachable state the wait lists are sorted, no owner runs less urgently than a thread
      waiting for it, and every mutex is handed over safely. */
  lemma {:induction false} RunKeepsInv(st: State, ops: seq<Op>, end: State)
    requires Inv(st) && IsRun(st, ops, end)
    ensures Inv(end)
    decreases |ops|
  {
    hide Inv, OneAtATime, Step;
    if ops != [] {
      StepKeepsInv(st, ops[0]);
      RunKeepsInv(Step(st, ops[0]), ops[1..], end);
    }
  }

  ghost predicate IsFreeRun(st: State, ops: seq<Op>, end: State)
    decreases |ops|
  {
    if ops == [] then st == end else Legal(st, ops[0]) && IsFreeRun(Step(st, ops[0]), ops[1..], end)
  }

  /** Hand-off safety does not need the restriction. */
  lemma {:induction false} RunSafe(st: State, ops: seq<Op>, end: State)
    requires Safe(st) && IsFreeRun(st, ops, end)
    ensures Safe(end)
    decreases |ops|
  {
    hide Safe, Step;
    if ops != [] {
      StepSafe(st, ops[0]);
      RunSafe(Step(st, ops[0]), ops[1..], end);
    }
  }

  /** rt_mutex_init: value 1, no owner, original_priority 0xFF. */
  const FRESH := Mutex(1, None, 0xff, 0, [])

  function Init(ids: set<Id>, base: Priorities): State {
    State(map m | m in ids :: FRESH, base, base, map[])
  }

  lemma InitInv(ids: set<Id>, base: Priorities)
    ensures Inv(Init(ids, base))
  {}

  /** After its last release a thread is back at its own priority. */
  lemma LastReleaseRestores(st: State, t: Thread, m: Id)
    requires Inv(st) && Legal(st, DoRelease(t, m)) && st.mutexes[m].owner == Some(t) && st.mutexes[m].hold == 1
    ensures var s := Step(st, DoRelease(t, m));
      PriorityOf(s.prio, t) == PriorityOf(st.base, t) && s.mutexes[m].owner != Some(t) && TakesOf(s, t, m) == 0
  {
    hide NoDup;
    assert SafeAt(st, m);
    StepSafe(st, DoRelease(t, m));
    assert SafeAt(Step(st, DoRelease(t, m)), m);
    if st.mutexes[m].waiters != [] { assert st.mutexes[m].waiters[0] in st.mutexes[m].waiters; }
  }

  /** Of the three overflow returns only the one of a recursive take can be reached. */
  lemma OnlyRecursionOverflows(st: State, op: Op)
    requires Safe(st) && Legal(st, op) && !op.DoTimeout?
    ensures var x := st.mutexes[op.m];
      var code := if op.DoTake? then Take(x, st.prio, op.t, op.block).0 else Release(x, st.prio, op.t).0;
      code == Overflow <==> op.DoTake? && x.owner == Some(op.t) && x.hold == RT_MUTEX_HOLD_MAX
  {
    assert SafeAt(st, op.m);
  }

  function TakeTimes(x: Mutex, prio: Priorities, t: Thread, n: nat): Mutex {
    if n == 0 then x else Take(TakeTimes(x, prio, t, n - 1), prio, t, true).1
  }

  /** It is reached by the 256th take. */
  lemma {:induction false} RecursionDoesOverflow(t: Thread, prio: Priorities, n: nat)
    requires 0 < n <= RT_MUTEX_HOLD_MAX
    ensures TakeTimes(FRESH, prio, t, n) == Mutex(0, Some(t), PriorityOf(prio, t), n, [])
    ensures n == RT_MUTEX_HOLD_MAX ==> Take(TakeTimes(FRESH, prio, t, n), prio, t, true).0 == Overflow
  {
    if n > 1 { RecursionDoesOverflow(t, prio, n - 1); } else { assert TakeTimes(FRESH, prio, t, 0) == FRESH; }
  }

  // ---------------------------------------------------------------- nested mutexes

  /** A last release of `m` leaves every other mutex its caller owns with an owner as urgent as its
      waiters exactly when the priority saved for `m` is that urgent. */
  lemma NestedRelease(st: State, t: Thread, m: Id, n: Id)
    requires Safe(st) && m in st.mutexes && n in st.mutexes && m != n && st.mutexes[m].owner == Some(t) == st.mutexes[n].owner
    requires st.mutexes[m].hold == 1 && Sorted(st.mutexes[n].waiters, st.prio)
    requires t !in st.mutexes[n].waiters
    ensures var s := Step(st, DoRelease(t, m));
      Inherits(s.mutexes[n], s.prio) <==> forall w :: w in st.mutexes[n].waiters ==> st.mutexes[m].original <= PriorityOf(st.prio, w)
  {
    var s := Step(st, DoRelease(t, m));
    var x := st.mutexes[n];
    assert SafeAt(st, m);
    assert forall u: Thread :: u != t ==> PriorityOf(s.prio, u) == PriorityOf(st.prio, u);
    assert PriorityOf(s.prio, t) == st.mutexes[m].original;
    assert Sorted(x.waiters, s.prio) by {
      forall i, j | 0 <= i < j < |x.waiters| ensures PriorityOf(s.prio, x.waiters[i]) <= PriorityOf(s.prio, x.waiters[j]) {
        assert x.waiters[i] in x.waiters && x.waiters[j] in x.waiters;
      }
    }
  }

  /** Whoever becomes the owner, by a take or by being handed the mutex, has its priority of that
      moment saved. */
  lemma SavedOnAcquiring(st: State, op: Op, t: Thread, m: Id)
    requires Safe(st) && Legal(st, op) && m in st.mutexes && st.mutexes[m].owner != Some(t)
    ensures var x := Step(st, op).mutexes[m]; x.owner == Some(t) ==> x.original == PriorityOf(st.prio, t)
  {
    hide Suspend, Without, NoDup;
    assert SafeAt(st, op.m);
    var y := st.mutexes[op.m];
    if y.waiters != [] { assert y.waiters[0] in y.waiters; }
  }

  lemma SavedWhileOwning(st: State, op: Op, t: Thread, m: Id)
    requires Safe(st) && Legal(st, op) && m in st.mutexes && st.mutexes[m].owner == Some(t) == Step(st, op).mutexes[m].owner
    ensures Step(st, op).mutexes[m].original == st.mutexes[m].original
  {
    hide Suspend, Without, NoDup;
    assert SafeAt(st, op.m);
    var y := st.mutexes[op.m];
    if y.waiters != [] { assert y.waiters[0] in y.waiters; }
  }

  /** A run of any threads on any mutexes, nested use included, in all of whose states `t` owns `m`. */
  ghost predicate Owning(st: State, ops: seq<Op>, end: State, t: Thread, m: Id)
    decreases |ops|
  {
    && m in st.mutexes && st.mutexes[m].owner == Some(t)
    && (if ops == [] then st == end else Legal(st, ops[0]) && Owning(Step(st, ops[0]), ops[1..], end, t, m))
  }

  lemma {:induction false} SavedThroughout(st: State, ops: seq<Op>, end: State, t: Thread, m: Id)
    requires Safe(st) && Owning(st, ops, end, t, m)
    ensures Safe(end) && m in end.mutexes && end.mutexes[m].owner == Some(t) && end.mutexes[m].original == st.mutexes[m].original
    ensures end.base == st.base
    decreases |ops|
  {
    hide Safe, Step;
    if ops != [] {
      var s := Step(st, ops[0]);
      StepSafe(st, ops[0]);
      SavedWhileOwning(st, ops[0], t, m);
      BaseStays(st, ops[0]);
      SavedThroughout(s, ops[1..], end, t, m);
    }
  }

  lemma BaseStays(st: State, op: Op)
    requires op.m in st.mutexes
    ensures Step(st, op).base == st.base
  {
    hide Take, Release, Expire;
  }

  /** A last release puts its caller back at the priority it had when it acquired the mutex, so at its
      own priority if and only if it was running at its own priority then. */
  lemma ReleaseRestoresIff(st: State, op: Op, ops: seq<Op>, end: State, t: Thread, m: Id)
    requires Safe(st) && Legal(st, op) && m in st.mutexes && st.mutexes[m].owner != Some(t)
    requires Owning(Step(st, op), ops, end, t, m) && Legal(end, DoRelease(t, m)) && end.mutexes[m].hold == 1
    ensures var s := Step(end, DoRelease(t, m));
      && PriorityOf(s.prio, t) == PriorityOf(st.prio, t) && s.base == st.base
      && (PriorityOf(s.prio, t) == PriorityOf(s.base, t) <==> PriorityOf(st.prio, t) == PriorityOf(st.base, t))
  {
    hide Step, Owning, SafeAt;
    StepSafe(st, op);
    SavedOnAcquiring(st, op, t, m);
    BaseStays(st, op);
    OwnsFirst(Step(st, op), ops, end, t, m);
    SavedThroughout(Step(st, op), ops, end, t, m);
    BaseStays(end, DoRelease(t, m));
    RestoresSaved(end, t, m);
  }

  lemma RestoresSaved(st: State, t: Thread, m: Id)
    requires m in st.mutexes && st.mutexes[m].owner == Some(t) && st.mutexes[m].hold == 1
    ensures PriorityOf(Step(st, DoRelease(t, m)).prio, t) == st.mutexes[m].original
  {}

  lemma OwnsFirst(st: State, ops: seq<Op>, end: State, t: Thread, m: Id)
    requires Owning(st, ops, end, t, m)
    ensures m in st.mutexes && st.mutexes[m].owner == Some(t)
  {}

  lemma AfterTake(st: State, t: Thread, m: Id)
    requires m in st.mutexes && st.mutexes[m] == FRESH
    ensures var s := Step(st, DoTake(t, m, true));
      s.mutexes == st.mutexes[m := Mutex(0, Some(t), PriorityOf(st.prio, t), 1, [])] && s.prio == st.prio
  {}

  lemma AfterWait(st: State, t: Thread, m: Id, o: Thread)
    requires m in st.mutexes && st.mutexes[m].owner == Some(o) && o != t && st.mutexes[m].value == 0 && st.mutexes[m].waiters == []
    requires PriorityOf(st.prio, t) < PriorityOf(st.prio, o)
    ensures var s := Step(st, DoTake(t, m, true));
      s.mutexes == st.mutexes[m := st.mutexes[m].(waiters := [t])] && s.prio == st.prio[o := PriorityOf(st.prio, t)]
  {
    assert InsertAt([], t, 0) == [t];
  }

  lemma AfterRelease(st: State, t: Thread, m: Id, p: nat)
    requires m in st.mutexes && st.mutexes[m] == Mutex(0, Some(t), p, 1, []) && PriorityOf(st.prio, t) != p
    ensures var s := Step(st, DoRelease(t, m));
      s.mutexes == st.mutexes[m := FRESH] && s.prio == st.prio[t := p]
  {}

  /** The restriction is needed: thread 1, at priority 20, takes mutexes 7 and 8, is lent priority
      5 by thread 2 waiting for 7, and loses it again by releasing 8. */
  lemma NestedUseBreaksInheritance()
    ensures var st := Init({7, 8}, map[1 := 20, 2 := 5]);
      exists s :: IsFreeRun(st, NESTED, s) && 7 in s.mutexes && s.mutexes[7].owner == Some(1) && 2 in s.mutexes[7].waiters
        && PriorityOf(s.prio, 1) == 20 && PriorityOf(s.prio, 2) == 5
  {
    hide Step, Inv;
    var st := Init({7, 8}, map[1 := 20, 2 := 5]);
    var s1 := Step(st, NESTED[0]);
    AfterTake(st, 1, 7);
    var s2 := Step(s1, NESTED[1]);
    AfterTake(s1, 1, 8);
    var s3 := Step(s2, NESTED[2]);
    AfterWait(s2, 2, 7, 1);
    var s4 := Step(s3, NESTED[3]);
    AfterRelease(s3, 1, 8, 20);
    assert IsFreeRun(s3, NESTED[3..], s4) by { assert NESTED[3..][1..] == []; }
    assert IsFreeRun(s2, NESTED[2..], s4) by { assert NESTED[2..][1..] == NESTED[3..]; }
    assert IsFreeRun(s1, NESTED[1..], s4) by { assert NESTED[1..][1..] == NESTED[2..]; }
  }

  lemma AfterHandOff(st: State, t: Thread, m: Id, p: nat, w: Thread)
    requires m in st.mutexes && st.mutexes[m] == Mutex(0, Some(t), p, 1, [w]) && PriorityOf(st.prio, t) != p && w != t
    ensures var s := Step(st, DoRelease(t, m));
      s.mutexes == st.mutexes[m := Mutex(0, Some(w), PriorityOf(st.prio, w), 1, [])] && s.prio == st.prio[t := p]
  {
    assert [w][1..] == [];
  }

  /** Releasing out of order leaves a thread above its own priority: thread 1, at priority 20, takes
      7, is lent priority 5 by thread 2, takes 8 at that priority, releases 7 and then 8, and ends up
      at priority 5 although it owns nothing. */
  lemma OutOfOrderStaysLent()
    ensures var st := Init({7, 8}, map[1 := 20, 2 := 5]);
      exists s :: IsFreeRun(st, OUT_OF_ORDER, s) && !OwnsAny(s, 1) && PriorityOf(s.prio, 1) == 5 && PriorityOf(s.base, 1) == 20
  {
    hide Step, Inv;
    var ops := OUT_OF_ORDER;
    var st := Init({7, 8}, map[1 := 20, 2 := 5]);
    var s1 := Step(st, ops[0]);
    AfterTake(st, 1, 7);
    var s2 := Step(s1, ops[1]);
    AfterWait(s1, 2, 7, 1);
    var s3 := Step(s2, ops[2]);
    AfterTake(s2, 1, 8);
    var s4 := Step(s3, ops[3]);
    AfterHandOff(s3, 1, 7, 20, 2);
    var s5 := Step(s4, ops[4]);
    AfterRelease(s4, 1, 8, 5);
    BaseStays(st, ops[0]);
    BaseStays(s1, ops[1]);
    BaseStays(s2, ops[2]);
    BaseStays(s3, ops[3]);
    BaseStays(s4, ops[4]);
    assert IsFreeRun(s4, ops[4..], s5) by { assert ops[4..][1..] == []; }
    assert IsFreeRun(s3, ops[3..], s5) by { assert ops[3..][1..] == ops[4..]; }
    assert IsFreeRun(s2, ops[2..], s5) by { assert ops[2..][1..] == ops[3..]; }
    assert IsFreeRun(s1, ops[1..], s5) by { assert ops[1..][1..] == ops[2..]; }
    assert !OwnsAny(s5, 1);
  }

  const OUT_OF_ORDER := [DoTake(1, 7, true), DoTake(2, 7, true), DoTake(1, 8, true), DoRelease(1, 7), DoRelease(1, 8)]

  const NESTED := [DoTake(1, 7, true), DoTake(1, 8, true), DoTake(2, 7, true), DoRelease(1, 8)]
}
