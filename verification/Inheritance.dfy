/** Exactly when priority inheritance survives a step of rt_mutex_take, rt_mutex_release or a timeout
    (rt-thread/src/ipc.c, lines 976-1004 and 1123-1183), nested mutexes included.  A boost reaches
    the direct owner only, and a release restores the one priority saved for its mutex. */
module Inheritance {
  import opened Lists
  import opened Memory
  import opened WaitList
  import opened MutexSpec

  /** At every mutex the list is sorted and the owner at least as urgent as its waiters. */
  ghost predicate AllInherit(st: State) {
    forall n :: n in st.mutexes ==> Inherits(st.mutexes[n], st.prio)
  }

  /** Where `o` waits, whoever stands before it, the owner first of all, is at least as urgent as `p`. */
  ghost predicate RoomFor(x: Mutex, prio: Priorities, o: Thread, p: nat) {
    && (x.owner.Some? ==> PriorityOf(prio, x.owner.value) <= p)
    && (forall i, j :: 0 <= i < j < |x.waiters| && x.waiters[j] == o ==> PriorityOf(prio, x.waiters[i]) <= p)
  }

  /** A take that waits and lends the owner its priority. */
  predicate Boosts(st: State, t: Thread, m: Id, block: bool)
    requires m in st.mutexes
  {
    var x := st.mutexes[m];
    block && x.value == 0 && x.owner.Some? && x.owner != Some(t) && PriorityOf(st.prio, t) < PriorityOf(st.prio, x.owner.value)
  }

  /** A release that lets go of `m`. */
  predicate LetsGo(st: State, t: Thread, m: Id)
    requires m in st.mutexes
  {
    st.mutexes[m].owner == Some(t) && st.mutexes[m].hold == 1
  }

  /** The condition on the state before a step. */
  ghost predicate Guard(st: State, op: Op)
    requires op.m in st.mutexes
  {
    match op
    case DoTake(t, m, block) =>
      Boosts(st, t, m, block) ==> forall n :: n in st.mutexes && st.mutexes[m].owner.value in st.mutexes[n].waiters ==>
        RoomFor(st.mutexes[n], st.prio, st.mutexes[m].owner.value, PriorityOf(st.prio, t))
    case DoRelease(t, m) =>
      LetsGo(st, t, m) ==> forall n, w :: n in st.mutexes && n != m && st.mutexes[n].owner == Some(t) && w in st.mutexes[n].waiters ==>
        st.mutexes[m].original <= PriorityOf(st.prio, w)
    case DoTimeout(t, m) => true
  }

  // ---------------------------------------------------------------- one mutex

  /** `prio'` differs from `prio` at most in that `o` has priority `p`. */
  ghost predicate Changed(prio: Priorities, prio': Priorities, o: Thread, p: nat) {
    PriorityOf(prio', o) == p && forall u: Thread :: u != o ==> PriorityOf(prio', u) == PriorityOf(prio, u)
  }

  /** A mutex that does not involve the thread does not notice. */
  lemma NotInvolved(x: Mutex, prio: Priorities, prio': Priorities, o: Thread, p: nat)
    requires Changed(prio, prio', o, p) && x.owner != Some(o) && o !in x.waiters
    ensures Inherits(x, prio') <==> Inherits(x, prio)
  {
    forall i | 0 <= i < |x.waiters| ensures PriorityOf(prio', x.waiters[i]) == PriorityOf(prio, x.waiters[i]) { assert x.waiters[i] in x.waiters; }
  }

  /** The owner of a mutex may become anything at least as urgent as the waiters. */
  lemma OwnerChanges(x: Mutex, prio: Priorities, prio': Priorities, o: Thread, p: nat)
    requires Changed(prio, prio', o, p) && x.owner == Some(o) && o !in x.waiters && Inherits(x, prio)
    ensures Inherits(x, prio') <==> forall w :: w in x.waiters ==> p <= PriorityOf(prio, w)
  {
    forall i | 0 <= i < |x.waiters| ensures PriorityOf(prio', x.waiters[i]) == PriorityOf(prio, x.waiters[i]) { assert x.waiters[i] in x.waiters; }
  }

  /** A waiter may become more urgent as far as there is room in front of it. */
  lemma WaiterRises(x: Mutex, prio: Priorities, prio': Priorities, o: Thread, p: nat)
    requires Changed(prio, prio', o, p) && p <= PriorityOf(prio, o) && NoDup(x.waiters)
    requires x.owner.Some? && x.owner != Some(o) && o in x.waiters && Inherits(x, prio)
    ensures Inherits(x, prio') <==> RoomFor(x, prio, o, p)
  {
    var w := x.waiters;
    if RoomFor(x, prio, o, p) { RisesSorted(w, prio, prio', o, p); }
    if Inherits(x, prio') {
      forall i, j | 0 <= i < j < |w| && w[j] == o ensures PriorityOf(prio, w[i]) <= p {
        assert PriorityOf(prio', w[i]) <= PriorityOf(prio', w[j]);
      }
    }
  }

  lemma RisesSorted(w: seq<Thread>, prio: Priorities, prio': Priorities, o: Thread, p: nat)
    requires Changed(prio, prio', o, p) && p <= PriorityOf(prio, o) && NoDup(w) && Sorted(w, prio)
    requires forall i, j :: 0 <= i < j < |w| && w[j] == o ==> PriorityOf(prio, w[i]) <= p
    ensures Sorted(w, prio')
  {
    forall i, j | 0 <= i < j < |w| ensures PriorityOf(prio', w[i]) <= PriorityOf(prio', w[j]) {
      assert PriorityOf(prio, w[i]) <= PriorityOf(prio, w[j]) && w[i] != w[j];
    }
  }

  /** A thread no more urgent than the owner joins the list. */
  lemma Joins(x: Mutex, prio: Priorities, t: Thread)
    requires Inherits(x, prio) && NoDup(x.waiters) && t !in x.waiters && x.owner.Some?
    requires PriorityOf(prio, x.owner.value) <= PriorityOf(prio, t)
    ensures Inherits(x.(waiters := Suspend(x.waiters, t, Prio, prio)), prio)
  {
    hide Suspend, NoDup;
    SuspendAdds(x.waiters, t, Prio, prio);
    SuspendSorted(x.waiters, t, prio);
  }

  /** A mutex handed over, or let go, or given up by a waiter. */
  lemma HandedOn(x: Mutex, y: Mutex, prio: Priorities)
    requires Sorted(x.waiters, prio)
    requires if x.waiters == [] then y.waiters == [] else y.owner == Some(x.waiters[0]) && y.waiters == x.waiters[1..]
    ensures Inherits(y, prio)
  {
    forall w | w in y.waiters ensures y.owner.Some? ==> PriorityOf(prio, y.owner.value) <= PriorityOf(prio, w) {
      var i :| 0 <= i < |y.waiters| && y.waiters[i] == w;
      assert x.waiters[i + 1] == w;
    }
  }

  lemma GivenUp(x: Mutex, prio: Priorities, t: Thread)
    requires Inherits(x, prio) && NoDup(x.waiters)
    ensures Inherits(Expire(x, t), prio)
  {
    hide Without, NoDup;
    WithoutSorted(x.waiters, t, prio);
    WithoutFacts(x.waiters, t);
  }

  // ---------------------------------------------------------------- one step

  /** All mutexes but `m` are as they were. */
  ghost predicate Others(st: State, prio': Priorities, m: Id) {
    forall n :: n in st.mutexes && n != m ==> Inherits(st.mutexes[n], prio')
  }

  lemma Split(st: State, s: State, m: Id)
    requires m in st.mutexes && m in s.mutexes && s.mutexes == st.mutexes[m := s.mutexes[m]]
    ensures AllInherit(s) <==> Inherits(s.mutexes[m], s.prio) && Others(st, s.prio, m)
  {
    hide Inherits;
    forall n | AllInherit(s) && n in st.mutexes && n != m ensures Inherits(st.mutexes[n], s.prio) { assert n in s.mutexes && s.mutexes[n] == st.mutexes[n]; }
  }

  /** What boosting the owner of `m` does to the other mutexes. */
  lemma OthersBoosted(st: State, prio': Priorities, o: Thread, p: nat, m: Id)
    requires Safe(st) && AllInherit(st) && Changed(st.prio, prio', o, p) && p <= PriorityOf(st.prio, o)
    requires m in st.mutexes && st.mutexes[m].owner == Some(o)
    ensures Others(st, prio', m) <==>
      forall n :: n in st.mutexes && o in st.mutexes[n].waiters ==> RoomFor(st.mutexes[n], st.prio, o, p)
  {
    hide Inherits, RoomFor, Changed, NoDup;
    assert SafeAt(st, m);
    forall n | n in st.mutexes && n != m
      ensures Inherits(st.mutexes[n], prio') <==> (o in st.mutexes[n].waiters ==> RoomFor(st.mutexes[n], st.prio, o, p))
    {
      assert SafeAt(st, n);
      OneBoosted(st.mutexes[n], st.prio, prio', o, p);
    }
  }

  lemma OneBoosted(x: Mutex, prio: Priorities, prio': Priorities, o: Thread, p: nat)
    requires Sound(x) && Inherits(x, prio) && Changed(prio, prio', o, p) && p <= PriorityOf(prio, o)
    ensures Inherits(x, prio') <==> (o in x.waiters ==> RoomFor(x, prio, o, p))
  {
    hide RoomFor, Changed, NoDup;
    if o in x.waiters {
      WaiterRises(x, prio, prio', o, p);
    } else if x.owner == Some(o) {
      OwnerChanges(x, prio, prio', o, p);
    } else {
      NotInvolved(x, prio, prio', o, p);
    }
  }

  lemma TakeIff(st: State, t: Thread, m: Id, block: bool)
    requires Safe(st) && Legal(st, DoTake(t, m, block)) && AllInherit(st)
    ensures AllInherit(Step(st, DoTake(t, m, block))) <==> Guard(st, DoTake(t, m, block))
  {
    hide RoomFor, Others, NoDup, Suspend, Inherits;
    var x := st.mutexes[m];
    var s := Step(st, DoTake(t, m, block));
    assert SafeAt(st, m);
    Split(st, s, m);
    if x.owner.Some? && x.owner.value != t && block {
      var o := x.owner.value;
      var p := if Boosts(st, t, m, block) then PriorityOf(st.prio, t) else PriorityOf(st.prio, o);
      assert Changed(st.prio, s.prio, o, p);
      OneBoosted(x, st.prio, s.prio, o, p);
      Joins(x, s.prio, t);
      if Boosts(st, t, m, block) { OthersBoosted(st, s.prio, o, p, m); } else { Kept(st, m); }
    } else {
      assert s.prio == st.prio && s.mutexes[m].waiters == x.waiters;
      Kept(st, m);
      SameWaiters(x, s.mutexes[m], st.prio);
    }
  }

  lemma Kept(st: State, m: Id)
    requires AllInherit(st)
    ensures Others(st, st.prio, m)
  {}

  /** A mutex nobody waits for, or that keeps its owner, inherits as before. */
  lemma SameWaiters(x: Mutex, y: Mutex, prio: Priorities)
    requires Inherits(x, prio) && y.waiters == x.waiters && (y.owner == x.owner || x.waiters == [])
    ensures Inherits(y, prio)
  {}

  lemma ReleaseIff(st: State, t: Thread, m: Id)
    requires Safe(st) && Legal(st, DoRelease(t, m)) && AllInherit(st)
    ensures AllInherit(Step(st, DoRelease(t, m))) <==> Guard(st, DoRelease(t, m))
  {
    hide Others, NoDup, Inherits;
    var x := st.mutexes[m];
    var s := Step(st, DoRelease(t, m));
    assert SafeAt(st, m);
    Split(st, s, m);
    if LetsGo(st, t, m) {
      assert Changed(st.prio, s.prio, t, x.original);
      StillSorted(x.waiters, st.prio, s.prio, t, x.original) by { assert Sorted(x.waiters, st.prio) by { WasSorted(x, st.prio); } }
      HandedOn(x, s.mutexes[m], s.prio);
      OthersRestored(st, s.prio, t, x.original, m);
    } else {
      Kept(st, m);
      SameWaiters(x, s.mutexes[m], st.prio);
    }
  }

  lemma WasSorted(x: Mutex, prio: Priorities)
    requires Inherits(x, prio)
    ensures Sorted(x.waiters, prio)
  {}

  lemma StillSorted(w: seq<Thread>, prio: Priorities, prio': Priorities, t: Thread, p: nat)
    requires Sorted(w, prio) && Changed(prio, prio', t, p) && t !in w
    ensures Sorted(w, prio')
  {
    forall i, j | 0 <= i < j < |w| ensures PriorityOf(prio', w[i]) <= PriorityOf(prio', w[j]) { assert w[i] in w && w[j] in w; }
  }

  /** What restoring the caller's priority does to the other mutexes. */
  lemma OthersRestored(st: State, prio': Priorities, t: Thread, p: nat, m: Id)
    requires AllInherit(st) && Changed(st.prio, prio', t, p) && forall n :: n in st.mutexes ==> t !in st.mutexes[n].waiters
    ensures Others(st, prio', m) <==>
      forall n, w :: n in st.mutexes && n != m && st.mutexes[n].owner == Some(t) && w in st.mutexes[n].waiters ==> p <= PriorityOf(st.prio, w)
  {
    hide Inherits, Changed;
    forall n | n in st.mutexes && n != m
      ensures Inherits(st.mutexes[n], prio') <==>
        (st.mutexes[n].owner == Some(t) ==> forall w :: w in st.mutexes[n].waiters ==> p <= PriorityOf(st.prio, w))
    {
      if st.mutexes[n].owner == Some(t) {
        OwnerChanges(st.mutexes[n], st.prio, prio', t, p);
      } else {
        NotInvolved(st.mutexes[n], st.prio, prio', t, p);
      }
    }
  }

  lemma TimeoutKeepsAll(st: State, t: Thread, m: Id)
    requires Safe(st) && Legal(st, DoTimeout(t, m)) && AllInherit(st)
    ensures AllInherit(Step(st, DoTimeout(t, m)))
  {
    hide Others, NoDup, Inherits, Without;
    assert SafeAt(st, m);
    Split(st, Step(st, DoTimeout(t, m)), m);
    Kept(st, m);
    GivenUp(st.mutexes[m], st.prio, t);
  }

  /** A step keeps inheritance at every mutex if and only if its guard holds before it. */
  lemma StepInheritsIff(st: State, op: Op)
    requires Safe(st) && Legal(st, op) && AllInherit(st)
    ensures AllInherit(Step(st, op)) <==> Guard(st, op)
  {
    hide AllInherit, Step, Safe;
    match op
    case DoTake(t, m, block) => TakeIff(st, t, m, block);
    case DoRelease(t, m) => ReleaseIff(st, t, m);
    case DoTimeout(t, m) => TimeoutKeepsAll(st, t, m);
  }

  // ---------------------------------------------------------------- runs

  /** Inheritance holds in every state of a run. */
  ghost predicate InheritsThroughout(st: State, ops: seq<Op>)
    requires Safe(st)
    decreases |ops|
  {
    && AllInherit(st)
    && (ops != [] && Legal(st, ops[0]) ==> (StepSafe(st, ops[0]); InheritsThroughout(Step(st, ops[0]), ops[1..])))
  }

  /** Every step of a run meets its guard. */
  ghost predicate GuardedThroughout(st: State, ops: seq<Op>)
    requires Safe(st)
    decreases |ops|
  {
    ops != [] && Legal(st, ops[0]) ==> Guard(st, ops[0]) && (StepSafe(st, ops[0]); GuardedThroughout(Step(st, ops[0]), ops[1..]))
  }

  /** Over any run, nested use included, inheritance holds in every state if and only if every step
      meets its guard. */
  lemma {:induction false} RunInheritsIff(st: State, ops: seq<Op>, end: State)
    requires Safe(st) && AllInherit(st) && IsFreeRun(st, ops, end)
    ensures InheritsThroughout(st, ops) <==> GuardedThroughout(st, ops)
    decreases |ops|
  {
    hide AllInherit, Step, Safe, Guard;
    if ops != [] {
      StepSafe(st, ops[0]);
      StepInheritsIff(st, ops[0]);
      if AllInherit(Step(st, ops[0])) {
        RunInheritsIff(Step(st, ops[0]), ops[1..], end);
      } else {
        FailsAtOnce(Step(st, ops[0]), ops[1..]);
      }
    }
  }

  lemma FailsAtOnce(st: State, ops: seq<Op>)
    requires Safe(st) && !AllInherit(st)
    ensures !InheritsThroughout(st, ops)
  {}

  /** Fresh mutexes inherit. */
  lemma InitInherits(ids: set<Id>, base: Priorities)
    ensures Safe(Init(ids, base)) && AllInherit(Init(ids, base))
  {
    InitInv(ids, base);
  }

  /** No release is needed to break inheritance: thread 1, at 20, owns 7 and waits for 8, which thread
      3 owns and runs at 20 for it; thread 2, at 5, waits for 7 and lends thread 1 its priority, but
      thread 3 stays at 20. */
  lemma ChainBreaksInheritance()
    ensures var st := Init({7, 8}, map[1 := 20, 2 := 5, 3 := 25]);
      exists s :: IsFreeRun(st, CHAIN, s) && 8 in s.mutexes && s.mutexes[8].owner == Some(3) && 1 in s.mutexes[8].waiters
        && PriorityOf(s.prio, 3) == 20 && PriorityOf(s.prio, 1) == 5
  {
    hide Step, Inv;
    var ops := CHAIN;
    var st := Init({7, 8}, map[1 := 20, 2 := 5, 3 := 25]);
    var s1 := Step(st, ops[0]);
    AfterTake(st, 1, 7);
    var s2 := Step(s1, ops[1]);
    AfterTake(s1, 3, 8);
    var s3 := Step(s2, ops[2]);
    AfterWait(s2, 1, 8, 3);
    var s4 := Step(s3, ops[3]);
    AfterWait(s3, 2, 7, 1);
    assert IsFreeRun(s3, ops[3..], s4) by { assert ops[3..][1..] == []; }
    assert IsFreeRun(s2, ops[2..], s4) by { assert ops[2..][1..] == ops[3..]; }
    assert IsFreeRun(s1, ops[1..], s4) by { assert ops[1..][1..] == ops[2..]; }
  }

  const CHAIN := [DoTake(1, 7, true), DoTake(3, 8, true), DoTake(1, 8, true), DoTake(2, 7, true)]
}
