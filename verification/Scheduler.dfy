/** The ready lists with their two-level bitmap index, and the scheduling functions over them
    (rt-thread/src/scheduler.c, lines 174-190, 425-538, 718-752, 815-845, 910-985, built for more
    than 32 priorities). */
module Scheduler {
  import opened Bits
  import opened Lists
  import opened S = SchedulerSpec

  const GROUPS := 32

  /** Group bit k is set exactly when ready_table[k] is not zero, and bit j of ready_table[k] exactly
      when the list of priority 8k + j is not empty. */
  ghost predicate Index(group: nat, table: seq<nat>, lists: seq<seq<Thread>>) {
    && |table| == GROUPS && |lists| == PRIORITIES && group < Mask(GROUPS)
    && (forall k: nat :: k < GROUPS ==> table[k] < Mask(8) && (Has(group, k) <==> table[k] != 0))
    && (forall p: nat :: p < PRIORITIES ==> (Has(table[p / 8], p % 8) <==> lists[p] != []))
  }

  class RtScheduler {
    var group: nat
    var table: seq<nat>
    var priority_table: seq<seq<Thread>>
    var current: Thread
    var threads: map<Thread, Info>
    var lock_nest: int

    ghost function Model(): State
      requires lock_nest >= 0
      reads this
    {
      State(priority_table, current, threads, lock_nest)
    }

    ghost predicate Indexed()
      reads this
    {
      Index(group, table, priority_table) && lock_nest >= 0
    }

    ghost predicate Valid()
      reads this
    {
      Indexed() && Inv(Model())
    }

    /** rt_system_scheduler_init, with one thread running. */
    constructor (t: Thread, i: Info)
      requires i.prio < PRIORITIES && i.phase == Running
      ensures Valid() && Model() == State(seq(PRIORITIES, _ => []), t, map[t := i], 0)
    {
      group := 0;
      table := seq(GROUPS, _ => 0);
      priority_table := seq(PRIORITIES, _ => []);
      current, threads, lock_nest := t, map[t := i], 0;
      new;
      forall p: nat | p < PRIORITIES ensures !Has(table[p / 8], p % 8) { ZeroHasNone(p % 8); }
      forall k: nat | k < GROUPS ensures !Has(group, k) { ZeroHasNone(k); }
      MaskPositive(8);
    }

    /** rt_schedule_insert_thread. */
    method Insert(t: Thread)
      requires Indexed() && t in threads && threads[t].prio < PRIORITIES
      modifies this`group, this`table, this`priority_table, this`threads
      ensures Indexed() && Model() == S.Insert(old(Model()), t)
    {
      hide Index, Has, Mask, Or;
      if t == current {
        threads := threads[t := threads[t].(phase := Running)];
        return;
      }
      threads := threads[t := threads[t].(phase := Ready)];
      var p := threads[t].prio;
      IndexSizes(group, table, priority_table);
      IndexInsert(group, table, priority_table, p, t);
      priority_table := priority_table[p := priority_table[p] + [t]];
      table := table[p / 8 := Or(table[p / 8], Mask(p % 8))];
      group := Or(group, Mask(p / 8));
    }

    /** rt_schedule_remove_thread. */
    method Remove(t: Thread)
      requires Indexed() && t in threads && threads[t].prio < PRIORITIES
      modifies this`group, this`table, this`priority_table
      ensures Indexed() && Model() == S.Remove(old(Model()), t)
    {
      hide Index, Has, Mask, AndNot, Without;
      var p := threads[t].prio;
      IndexSizes(group, table, priority_table);
      EmptyWithout(t);
      IndexRemove(group, table, priority_table, p, Without(priority_table[p], t));
      priority_table := priority_table[p := Without(priority_table[p], t)];
      if priority_table[p] == [] {
        table := table[p / 8 := AndNot(table[p / 8], Mask(p % 8))];
        if table[p / 8] == 0 { group := AndNot(group, Mask(p / 8)); }
      }
    }

    /** _scheduler_get_highest_priority_thread; either __rt_ffs serves. */
    method GetHighest(tiny: bool) returns (t: Thread, h: nat)
      requires Indexed() && group != 0
      ensures h == Highest(priority_table, 0) < PRIORITIES && t == priority_table[h][0]
    {
      hide Index, Has, Mask;
      IndexSizes(group, table, priority_table);
      IndexLookup(group, table, priority_table);
      var number := (if tiny then TinyFfs(group) else TableFfs(group)) - 1;
      h := number * 8 + (if tiny then TinyFfs(table[number]) else TableFfs(table[number])) - 1;
      t := priority_table[h][0];
    }

    /** rt_schedule. */
    method Schedule(tiny: bool)
      requires Valid()
      modifies this
      ensures Valid() && Model() == S.Schedule(old(Model()))
    {
      hide Index, Inv, S.Insert, S.Remove;
      ghost var st := Model();
      ScheduleKeeps(st);
      CurrentKnown(st);
      GroupIffReady(group, table, priority_table);
      if lock_nest == 0 {
        if group != 0 {
          var need_insert_from_thread := false;
          var to_thread, highest := GetHighest(tiny);
          FirstKnown(st, highest);
          if threads[current].phase == Running {
            if threads[current].prio < highest {
              to_thread := current;
            } else if threads[current].prio == highest && !threads[current].yielding {
              to_thread := current;
            } else {
              need_insert_from_thread := true;
            }
            threads := threads[current := threads[current].(yielding := false)];
          }
          if to_thread != current {
            var from_thread := current;
            current := to_thread;
            if need_insert_from_thread {
              InsertKeeps(Model(), from_thread);
              Insert(from_thread);
            }
          }
          RemoveKeeps(Model(), to_thread);
          Remove(to_thread);
          threads := threads[to_thread := threads[to_thread].(phase := Running)];
        }
      }
    }

    /** rt_thread_yield. */
    method Yield(tiny: bool)
      requires Valid()
      modifies this
      ensures Valid() && Model() == S.Yield(old(Model()))
    {
      hide Index, S.Schedule;
      var i := threads[current].(yielding := true, remaining := threads[current].init);
      ChangeKeeps(Model(), i);
      threads := threads[current := i];
      Schedule(tiny);
    }

    /** rt_tick_increase, as far as it concerns the running thread. */
    method TickIncrease(tiny: bool)
      requires Valid()
      modifies this
      ensures Valid() && Model() == S.Tick(old(Model()))
    {
      hide Index, S.Schedule;
      TickKeeps(Model());
      var left := if threads[current].remaining > 0 then threads[current].remaining - 1 else 0xFFFF_FFFF;
      ChangeKeeps(Model(), threads[current].(remaining := left));
      ChangeKeeps(Model(), threads[current].(remaining := threads[current].init, yielding := true));
      if left == 0 {
        threads := threads[current := threads[current].(remaining := threads[current].init, yielding := true)];
        Schedule(tiny);
      } else {
        threads := threads[current := threads[current].(remaining := left)];
      }
    }

    /** rt_thread_suspend of the running thread. */
    method SuspendCurrent()
      requires Valid() && threads[current].phase == Running
      modifies this
      ensures Valid() && Model() == S.Suspend(old(Model()))
    {
      hide Index, S.Remove;
      StepKeepsInv(Model(), DoSuspend);
      RemoveKeeps(Model(), current);
      Remove(current);
      threads := threads[current := threads[current].(phase := Suspended)];
    }

    /** rt_thread_resume. */
    method Resume(t: Thread)
      requires Valid() && t in threads
      modifies this
      ensures Valid() && Model() == S.Resume(old(Model()), t)
    {
      hide Index, S.Insert;
      StepKeepsInv(Model(), DoResume(t));
      if threads[t].phase != Suspended { return; }
      Insert(t);
    }

    /** RT_THREAD_CTRL_CHANGE_PRIORITY. */
    method ChangePriority(t: Thread, p: nat)
      requires Valid() && t in threads && p < PRIORITIES
      modifies this
      ensures Valid() && Model() == S.ChangePriority(old(Model()), t, p)
    {
      hide Index, S.Insert, S.Remove;
      StepKeepsInv(Model(), DoPriority(t, p));
      if threads[t].phase == Ready {
        RemoveKeeps(Model(), t);
        Remove(t);
        threads := threads[t := threads[t].(prio := p)];
        Insert(t);
      } else {
        threads := threads[t := threads[t].(prio := p)];
      }
    }

    method EnterCritical()
      requires Valid()
      modifies this`lock_nest
      ensures Valid() && Model() == S.EnterCritical(old(Model()))
    {
      LockOnly(Model(), lock_nest + 1);
      lock_nest := lock_nest + 1;
    }

    /** rt_exit_critical. */
    method ExitCritical(tiny: bool)
      requires Valid()
      modifies this
      ensures Valid() && Model() == S.ExitCritical(old(Model()))
    {
      hide Index, S.Schedule;
      LockOnly(Model(), 0);
      if lock_nest > 0 { LockOnly(Model(), lock_nest - 1); }
      lock_nest := lock_nest - 1;
      if lock_nest <= 0 {
        lock_nest := 0;
        Schedule(tiny);
      }
    }
  }

  lemma MaskPositive(k: nat)
    ensures Mask(k) > 0
  {}

  lemma IndexSizes(group: nat, table: seq<nat>, lists: seq<seq<Thread>>)
    requires Index(group, table, lists)
    ensures |table| == GROUPS && |lists| == PRIORITIES
  {}

  lemma EmptyWithout(t: Thread)
    ensures Lists.Without([], t) == []
  {}

  lemma {:induction false} OrBelow(a: nat, j: nat, w: nat)
    requires a < Mask(w) && j < w
    ensures Or(a, Mask(j)) < Mask(w)
    decreases w
  {
    if a > 0 && j > 0 {
      OrBelow(a / 2, j - 1, w - 1);
      OrHalves(a, j);
    } else {
      MaskGrows(j, w);
      OrFirst(a, j);
    }
  }

  lemma OrHalves(a: nat, j: nat)
    requires a > 0 && j > 0
    ensures Or(a, Mask(j)) == a % 2 + 2 * Or(a / 2, Mask(j - 1))
  {
    assert Mask(j) == 2 * Mask(j - 1);
  }

  lemma OrFirst(a: nat, j: nat)
    requires a == 0 || j == 0
    ensures Or(a, Mask(j)) == if a == 0 then Mask(j) else a + 1 - a % 2
  {
    if a > 0 { assert Or(a / 2, 0) == a / 2; }
  }

  lemma {:induction false} MaskGrows(j: nat, w: nat)
    requires j < w
    ensures 2 * Mask(j) <= Mask(w)
  {
    if j + 1 < w { MaskGrows(j, w - 1); }
  }

  lemma {:induction false} AndNotBelow(a: nat, b: nat)
    ensures AndNot(a, b) <= a
  {
    if a > 0 && b > 0 { AndNotBelow(a / 2, b / 2); }
  }

  /** A word with a set bit is not zero, and one without is. */
  lemma SomeBit(n: nat, k: nat)
    ensures Has(n, k) ==> n > 0
    ensures n > 0 ==> Has(n, Lowest(n))
  {
    if n == 0 { ZeroHasNone(k); } else { LowestIsLeast(n); }
  }

  lemma IndexInsert(group: nat, table: seq<nat>, lists: seq<seq<Thread>>, p: nat, t: Thread)
    requires Index(group, table, lists) && p < PRIORITIES
    ensures Index(Or(group, Mask(p / 8)), table[p / 8 := Or(table[p / 8], Mask(p % 8))], lists[p := lists[p] + [t]])
  {
    hide Has, Mask, Or;
    var g, w := Or(group, Mask(p / 8)), Or(table[p / 8], Mask(p % 8));
    var table' := table[p / 8 := w];
    var lists' := lists[p := lists[p] + [t]];
    OrBelow(group, p / 8, GROUPS);
    OrBelow(table[p / 8], p % 8, 8);
    HasOr(table[p / 8], Mask(p % 8), p % 8);
    HasMask(p % 8, p % 8);
    SomeBit(w, p % 8);
    forall k: nat | k < GROUPS ensures table'[k] < Mask(8) && (Has(g, k) <==> table'[k] != 0) {
      HasOr(group, Mask(p / 8), k);
      HasMask(p / 8, k);
    }
    forall q: nat | q < PRIORITIES ensures Has(table'[q / 8], q % 8) <==> lists'[q] != [] {
      HasOr(table[p / 8], Mask(p % 8), q % 8);
      HasMask(p % 8, q % 8);
      SamePriority(p, q);
    }
  }

  lemma SamePriority(p: nat, q: nat)
    ensures p / 8 == q / 8 && p % 8 == q % 8 ==> p == q
  {}

  lemma IndexRemove(group: nat, table: seq<nat>, lists: seq<seq<Thread>>, p: nat, list: seq<Thread>)
    requires Index(group, table, lists) && p < PRIORITIES && (lists[p] == [] ==> list == [])
    ensures list != [] ==> Index(group, table, lists[p := list])
    ensures list == [] ==>
      var w := AndNot(table[p / 8], Mask(p % 8));
      Index(if w == 0 then AndNot(group, Mask(p / 8)) else group, table[p / 8 := w], lists[p := list])
  {
    hide Has, Mask, AndNot;
    if list == [] {
      var w := AndNot(table[p / 8], Mask(p % 8));
      var g := if w == 0 then AndNot(group, Mask(p / 8)) else group;
      var table' := table[p / 8 := w];
      var lists' := lists[p := list];
      AndNotBelow(group, Mask(p / 8));
      AndNotBelow(table[p / 8], Mask(p % 8));
      forall k: nat | k < GROUPS ensures table'[k] < Mask(8) && (Has(g, k) <==> table'[k] != 0) {
        HasAndNot(group, Mask(p / 8), k);
        HasMask(p / 8, k);
        if w != 0 && k == p / 8 { assert table[k] != 0 by { AndNotBelow(table[p / 8], Mask(p % 8)); } }
      }
      forall q: nat | q < PRIORITIES ensures Has(table'[q / 8], q % 8) <==> lists'[q] != [] {
        HasAndNot(table[p / 8], Mask(p % 8), q % 8);
        HasMask(p % 8, q % 8);
        SamePriority(p, q);
      }
    }
  }

  /** The two __rt_ffs lookups find the most urgent nonempty list. */
  lemma IndexLookup(group: nat, table: seq<nat>, lists: seq<seq<Thread>>)
    requires Index(group, table, lists) && group != 0
    ensures group < 0x1_0000_0000 && TinyFfs(group) == TableFfs(group) == Lowest(group) + 1 <= GROUPS
    ensures var w := table[Lowest(group)]; 0 < w < 0x1_0000_0000 && TinyFfs(w) == TableFfs(w) == Lowest(w) + 1
    ensures Lowest(group) * 8 + Lowest(table[Lowest(group)]) == Highest(lists, 0) < PRIORITIES
  {
    hide Has, Mask, TinyFfs, TableFfs, Lowest;
    TwoToThe32();
    TwoToThe8();
    var k := Lowest(group);
    LowestBelow(group, GROUPS);
    LowestIsLeast(group);
    TinyFfsCorrect(group);
    TableFfsCorrect(group);
    var w := table[k];
    TinyFfsCorrect(w);
    TableFfsCorrect(w);
    LowestBelow(w, 8);
    LowestIsLeast(w);
    var j := Lowest(w);
    var h := k * 8 + j;
    assert h / 8 == k && h % 8 == j;
    assert lists[h] != [];
    forall p: nat | p < h ensures lists[p] == [] {
      if p / 8 < k {
        assert table[p / 8] == 0;
        ZeroHasNone(p % 8);
      } else {
        assert p / 8 == k && p % 8 < j;
      }
    }
    AtMost(lists, h);
  }

  lemma AtMost(lists: seq<seq<Thread>>, h: nat)
    requires h < |lists| && lists[h] != []
    ensures Highest(lists, 0) <= h
  {}

  lemma GroupIffReady(group: nat, table: seq<nat>, lists: seq<seq<Thread>>)
    requires Index(group, table, lists)
    ensures group != 0 <==> Highest(lists, 0) < PRIORITIES
    ensures |lists| == PRIORITIES
  {
    hide Has, Mask;
    var h := Highest(lists, 0);
    if group != 0 { IndexLookup(group, table, lists); }
    if h < PRIORITIES {
      SomeBit(table[h / 8], h % 8);
      SomeBit(group, h / 8);
    }
  }

  lemma CurrentKnown(st: State)
    requires Inv(st)
    ensures st.current in st.threads && st.threads[st.current].prio < PRIORITIES && |st.ready| == PRIORITIES
    ensures forall t :: t in st.threads ==> st.threads[t].prio < PRIORITIES
  {}

  lemma FirstKnown(st: State, h: nat)
    requires Inv(st) && h < PRIORITIES && st.ready[h] != []
    ensures st.ready[h][0] in st.threads && st.threads[st.ready[h][0]].prio == h
  {
    assert st.ready[h][0] in st.ready[h];
    assert Queued(st, h, st.ready[h][0]);
  }

  lemma InsertKeeps(st: State, t: Thread)
    ensures var s := S.Insert(st, t); s.current == st.current && s.lock == st.lock && (forall u :: u in st.threads ==> u in s.threads && s.threads[u].prio == st.threads[u].prio)
  {}

  lemma RemoveKeeps(st: State, t: Thread)
    ensures var s := S.Remove(st, t); s.current == st.current && s.lock == st.lock && s.threads == st.threads
  {}
}
