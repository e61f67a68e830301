/** The wait lists of the IPC objects: _ipc_list_suspend and what it promises about the order
    (rt-thread/src/ipc.c, lines 121-168). */
module WaitList {
  import opened Lists

  type Thread = nat

  /** RT_IPC_FLAG_FIFO and RT_IPC_FLAG_PRIO. */
  datatype Flag = Fifo | Prio

  /** current_priority; a smaller number is more urgent. */
  function PriorityOf(prio: map<Thread, nat>, t: Thread): nat {
    if t in prio then prio[t] else 0
  }

  /** The first waiter, from `k` on, that `t` is more urgent than. */
  function Position(list: seq<Thread>, t: Thread, prio: map<Thread, nat>, k: nat): (r: nat)
    requires k <= |list|
    ensures k <= r <= |list|
    ensures r < |list| ==> PriorityOf(prio, t) < PriorityOf(prio, list[r])
    ensures forall j :: k <= j < r ==> PriorityOf(prio, list[j]) <= PriorityOf(prio, t)
    decreases |list| - k
  {
    if k == |list| || PriorityOf(prio, t) < PriorityOf(prio, list[k]) then k else Position(list, t, prio, k + 1)
  }

  function Suspend(list: seq<Thread>, t: Thread, flag: Flag, prio: map<Thread, nat>): seq<Thread> {
    if flag == Fifo then list + [t] else InsertAt(list, t, Position(list, t, prio, 0))
  }

  function InsertAt(list: seq<Thread>, t: Thread, k: nat): seq<Thread>
    requires k <= |list|
  {
    list[..k] + [t] + list[k..]
  }

  /** Most urgent first. */
  ghost predicate Sorted(list: seq<Thread>, prio: map<Thread, nat>) {
    forall i, j :: 0 <= i < j < |list| ==> PriorityOf(prio, list[i]) <= PriorityOf(prio, list[j])
  }

  /** The walk of _ipc_list_suspend along the list. */
  method SuspendOn(list: seq<Thread>, t: Thread, flag: Flag, prio: map<Thread, nat>) returns (r: seq<Thread>)
    ensures r == Suspend(list, t, flag, prio)
  {
    if flag == Fifo { return list + [t]; }
    var n := 0;
    while n < |list|
      invariant n <= |list| && Position(list, t, prio, 0) == Position(list, t, prio, n)
    {
      if PriorityOf(prio, t) < PriorityOf(prio, list[n]) { return InsertAt(list, t, n); }
      n := n + 1;
    }
    return InsertAt(list, t, n);
  }

  lemma InsertShape(list: seq<Thread>, t: Thread, k: nat)
    requires k <= |list|
    ensures var r := InsertAt(list, t, k);
      && |r| == |list| + 1 && r[k] == t
      && (forall i: nat :: i < k ==> r[i] == list[i]) && (forall i: nat :: k < i <= |list| ==> r[i] == list[i - 1])
      && (forall x :: x in r <==> x in list || x == t)
  {
    assert list == list[..k] + list[k..];
  }

  lemma SuspendIsInsert(list: seq<Thread>, t: Thread, flag: Flag, prio: map<Thread, nat>)
    ensures Suspend(list, t, flag, prio) == InsertAt(list, t, if flag == Fifo then |list| else Position(list, t, prio, 0))
  {
    assert list[..|list|] == list && list[|list|..] == [];
  }

  /** The waiters and `t` are on the new list, once each, the old ones in their old order. */
  lemma SuspendAdds(list: seq<Thread>, t: Thread, flag: Flag, prio: map<Thread, nat>)
    requires NoDup(list) && t !in list
    ensures var r := Suspend(list, t, flag, prio);
      && NoDup(r) && |r| == |list| + 1 && (forall x :: x in r <==> x in list || x == t)
      && Without(r, t) == list
  {
    hide Suspend, InsertAt;
    var k := if flag == Fifo then |list| else Position(list, t, prio, 0);
    SuspendIsInsert(list, t, flag, prio);
    InsertShape(list, t, k);
    WithoutInsert(list, t, k);
    InsertNoDup(list, t, k);
  }

  lemma InsertNoDup(list: seq<Thread>, t: Thread, k: nat)
    requires NoDup(list) && t !in list && k <= |list|
    ensures NoDup(InsertAt(list, t, k))
  {
    hide InsertAt;
    var r := InsertAt(list, t, k);
    InsertShape(list, t, k);
    forall i, j | 0 <= i < j < |r| ensures r[i] != r[j] {
      if i == k { assert r[j] == list[j - 1]; } else if j == k { assert r[i] == list[i]; }
    }
  }

  lemma {:induction false} WithoutInsert(list: seq<Thread>, t: Thread, k: nat)
    requires t !in list && k <= |list|
    ensures Without(InsertAt(list, t, k), t) == list
  {
    var r := InsertAt(list, t, k);
    if k == 0 {
      assert r == [t] + list;
    } else {
      assert r[1..] == InsertAt(list[1..], t, k - 1);
      assert r[0] == list[0];
      WithoutInsert(list[1..], t, k - 1);
      assert list == [list[0]] + list[1..];
    }
  }

  /** On a priority list the new waiter goes behind every waiter at least as urgent, so the list
      stays sorted and equals are served first come, first served. */
  lemma SuspendSorted(list: seq<Thread>, t: Thread, prio: map<Thread, nat>)
    requires Sorted(list, prio)
    ensures var r := Suspend(list, t, Prio, prio); var k := Position(list, t, prio, 0);
      && Sorted(r, prio) && k < |r| && r[k] == t
      && (forall i :: 0 <= i < |list| ==> (i < k <==> PriorityOf(prio, list[i]) <= PriorityOf(prio, t)))
  {
    hide Suspend, InsertAt, Position;
    SuspendIsInsert(list, t, Prio, prio);
    var k := Position(list, t, prio, 0);
    InsertShape(list, t, k);
    forall i | 0 <= i < |list| ensures i < k <==> PriorityOf(prio, list[i]) <= PriorityOf(prio, t) {
      if k < i { assert PriorityOf(prio, list[k]) <= PriorityOf(prio, list[i]); }
    }
  }

  lemma WithoutSorted(list: seq<Thread>, t: Thread, prio: map<Thread, nat>)
    requires Sorted(list, prio)
    ensures Sorted(Without(list, t), prio)
  {
    hide Without, PriorityOf;
    var k := WithoutShape(list, t);
    var w := Without(list, t);
    forall i, j | 0 <= i < j < |w| ensures PriorityOf(prio, w[i]) <= PriorityOf(prio, w[j]) {
      assert w[i] == list[if i < k then i else i + 1] && w[j] == list[if j < k then j else j + 1];
    }
  }

  /** `u` stands in front of `v`. */
  ghost predicate Before(list: seq<Thread>, u: Thread, v: Thread) {
    exists i, j :: 0 <= i < j < |list| && list[i] == u && list[j] == v
  }

  /** A newcomer goes behind everybody on a FIFO list, and on a sorted priority list behind everybody
      at least as urgent. */
  lemma JoinsBehind(list: seq<Thread>, t: Thread, flag: Flag, prio: map<Thread, nat>, u: Thread)
    requires u in list && (flag == Fifo || (Sorted(list, prio) && PriorityOf(prio, u) <= PriorityOf(prio, t)))
    ensures Before(Suspend(list, t, flag, prio), u, t)
  {
    hide Position;
    var i :| 0 <= i < |list| && list[i] == u;
    var r := Suspend(list, t, flag, prio);
    if flag == Fifo {
      assert r[i] == u && r[|list|] == t;
    } else {
      hide Suspend;
      SuspendSorted(list, t, prio);
      SuspendIsInsert(list, t, flag, prio);
      var k := Position(list, t, prio, 0);
      InsertShape(list, t, k);
      assert r[i] == u && r[k] == t;
    }
  }

  /** Newcomers do not change who stands in front of whom. */
  lemma SuspendKeepsBefore(list: seq<Thread>, t: Thread, flag: Flag, prio: map<Thread, nat>, u: Thread, v: Thread)
    requires Before(list, u, v)
    ensures Before(Suspend(list, t, flag, prio), u, v)
  {
    hide Position, Suspend, InsertAt;
    var i, j :| 0 <= i < j < |list| && list[i] == u && list[j] == v;
    SuspendIsInsert(list, t, flag, prio);
    var k: nat := if flag == Fifo then |list| else Position(list, t, prio, 0);
    InsertShape(list, t, k);
    var r := Suspend(list, t, flag, prio);
    assert r[if i < k then i else i + 1] == u && r[if j < k then j else j + 1] == v;
  }

  /** Nor do those who leave. */
  lemma WithoutKeepsBefore(list: seq<Thread>, t: Thread, u: Thread, v: Thread)
    requires Before(list, u, v) && t != u && t != v
    ensures Before(Without(list, t), u, v)
  {
    hide Without;
    var i, j :| 0 <= i < j < |list| && list[i] == u && list[j] == v;
    var k := WithoutShape(list, t);
    var r := Without(list, t);
    assert r[if i < k then i else i - 1] == u && r[if j < k then j else j - 1] == v;
  }

  lemma TailKeepsBefore(list: seq<Thread>, u: Thread, v: Thread)
    requires NoDup(list) && Before(list, u, v) && u in list[1..]
    ensures Before(list[1..], u, v)
  {
    var i, j :| 0 <= i < j < |list| && list[i] == u && list[j] == v;
    var l :| 0 <= l < |list[1..]| && list[1..][l] == u;
    assert list[l + 1] == u;
    assert list[1..][i - 1] == u && list[1..][j - 1] == v;
  }
}
