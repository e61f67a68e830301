/** struct rt_mutex updated in place by rt_mutex_take, rt_mutex_release and a timeout
    (rt-thread/src/ipc.c, lines 918-1045 and 1084-1190). */
module Mutex {
  import opened Lists
  import opened Memory
  import opened WaitList
  import S = MutexSpec

  /** The thread fields a mutex touches: current_priority and error. */
  class Threads {
    var priority: map<Thread, nat>
    var error: map<Thread, S.Code>

    constructor (priority: map<Thread, nat>)
      ensures this.priority == priority && error == map[]
    {
      this.priority, error := priority, map[];
    }

    /** rt_thread_control with RT_THREAD_CTRL_CHANGE_PRIORITY. */
    method ChangePriority(t: Thread, p: nat)
      modifies this`priority
      ensures priority == old(priority)[t := p]
    {
      priority := priority[t := p];
    }
  }

  class RtMutex {
    const threads: Threads
    var value: nat
    var owner: Option<Thread>
    var original_priority: nat
    var hold: nat
    var suspend_thread: seq<Thread>

    ghost function Model(): S.Mutex
      reads this
    {
      S.Mutex(value, owner, original_priority, hold, suspend_thread)
    }

    /** rt_mutex_init. */
    constructor (threads: Threads)
      ensures this.threads == threads && Model() == S.FRESH && S.Sound(Model())
    {
      this.threads := threads;
      value, owner, original_priority, hold, suspend_thread := 1, None, 0xff, 0, [];
    }

    /** rt_mutex_take up to the point where a blocked caller is switched away. */
    method Take(t: Thread, time: int) returns (code: S.Code)
      requires S.Sound(Model()) && t !in suspend_thread
      modifies this, threads
      ensures S.Sound(Model())
      ensures (code, Model(), threads.priority) == S.Take(old(Model()), old(threads.priority), t, time != 0)
      ensures threads.error == old(threads.error)[t := if code == S.TimedOut then S.TimedOut else S.Ok]
    {
      hide NoDup, Suspend, S.Boost;
      S.TakeSound(Model(), threads.priority, t, time != 0);
      BoostIs(owner, t, threads.priority);
      threads.error := threads.error[t := S.Ok];
      if owner == Some(t) {
        if hold < S.RT_MUTEX_HOLD_MAX { hold := hold + 1; } else { return S.Overflow; }
      } else {
        if value > 0 {
          value := value - 1;
          owner := Some(t);
          original_priority := PriorityOf(threads.priority, t);
          if hold < S.RT_MUTEX_HOLD_MAX { hold := hold + 1; } else { return S.Overflow; }
        } else {
          if time == 0 {
            threads.error := threads.error[t := S.TimedOut];
            return S.TimedOut;
          }
          if PriorityOf(threads.priority, t) < PriorityOf(threads.priority, owner.value) {
            threads.ChangePriority(owner.value, PriorityOf(threads.priority, t));
          }
          suspend_thread := SuspendOn(suspend_thread, t, Prio, threads.priority);
          return S.Blocked;
        }
      }
      return S.Ok;
    }

    /** rt_mutex_release. */
    method Release(t: Thread) returns (code: S.Code)
      requires S.Sound(Model())
      modifies this, threads
      ensures S.Sound(Model())
      ensures (code, Model(), threads.priority) == S.Release(old(Model()), old(threads.priority), t)
      ensures threads.error == if code == S.NotOwner then old(threads.error)[t := S.NotOwner] else old(threads.error)
    {
      hide NoDup;
      S.ReleaseSound(Model(), threads.priority, t);
      if owner != Some(t) {
        threads.error := threads.error[t := S.NotOwner];
        return S.NotOwner;
      }
      hold := hold - 1;
      if hold == 0 {
        if original_priority != PriorityOf(threads.priority, owner.value) {
          threads.ChangePriority(owner.value, original_priority);
        }
        if suspend_thread != [] {
          var next := suspend_thread[0];
          owner := Some(next);
          original_priority := PriorityOf(threads.priority, next);
          if hold < S.RT_MUTEX_HOLD_MAX { hold := hold + 1; } else { return S.Overflow; }
          suspend_thread := suspend_thread[1..];
        } else {
          if value < S.RT_MUTEX_VALUE_MAX { value := value + 1; } else { return S.Overflow; }
          owner := None;
          original_priority := 0xff;
        }
      }
      return S.Ok;
    }

    /** The timer of a waiter fires. */
    method TimeOut(t: Thread)
      requires S.Sound(Model())
      modifies this`suspend_thread, threads`error
      ensures S.Sound(Model()) && Model() == S.Expire(old(Model()), t)
      ensures threads.error == old(threads.error)[t := S.TimedOut]
    {
      S.ExpireSound(Model(), t);
      suspend_thread := Without(suspend_thread, t);
      threads.error := threads.error[t := S.TimedOut];
    }
  }

  lemma BoostIs(owner: Option<Thread>, t: Thread, prio: map<Thread, nat>)
    ensures S.Boost(owner, t, prio) ==
      if owner.Some? && PriorityOf(prio, t) < PriorityOf(prio, owner.value) then prio[owner.value := PriorityOf(prio, t)] else prio
  {}
}
