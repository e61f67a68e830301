/** The threads suspended on an IPC object and those it has woken that have not run since:
    _ipc_list_suspend, _ipc_list_resume and _ipc_list_resume_all (rt-thread/src/ipc.c, lines
    121-250) with what a thread does when it is switched in again. */
module Lobby {
  import opened Lists
  import opened WaitList

  datatype Side = Sender | Receiver

  /** `Woken` threads are ready to retry; `Running` covers everybody with no business here. */
  datatype Standing = Running | Waiting(side: Side) | Woken(side: Side)

  datatype Lobby = Lobby(standing: map<Thread, Standing>, senders: seq<Thread>, receivers: seq<Thread>)

  const EMPTY := Lobby(map[], [], [])

  function StandingOf(l: Lobby, t: Thread): Standing {
    if t in l.standing then l.standing[t] else Running
  }

  function ListOf(l: Lobby, side: Side): seq<Thread> {
    if side == Sender then l.senders else l.receivers
  }

  function WithList(l: Lobby, side: Side, list: seq<Thread>): Lobby {
    if side == Sender then l.(senders := list) else l.(receivers := list)
  }

  function Stand(l: Lobby, t: Thread, s: Standing): Lobby {
    l.(standing := l.standing[t := s])
  }

  /** `t` suspends itself, which makes the list `list`. */
  function Admit(l: Lobby, side: Side, t: Thread, list: seq<Thread>): Lobby {
    Stand(WithList(l, side, list), t, Waiting(side))
  }

  /** _ipc_list_suspend. */
  function Enter(l: Lobby, side: Side, t: Thread, flag: Flag, prio: map<Thread, nat>): Lobby {
    Admit(l, side, t, Suspend(ListOf(l, side), t, flag, prio))
  }

  /** `t` goes on: it has been switched in after a wake-up, or was never suspended. */
  function Leave(l: Lobby, t: Thread): Lobby {
    Stand(l, t, Running)
  }

  /** A timeout unlinks a suspended thread. */
  function Expire(l: Lobby, t: Thread): Lobby {
    Stand(Lobby(l.standing, Without(l.senders, t), Without(l.receivers, t)), t, Running)
  }

  /** _ipc_list_resume, when somebody waits. */
  function Wake(l: Lobby, side: Side): Lobby {
    if ListOf(l, side) == [] then l else Stand(WithList(l, side, ListOf(l, side)[1..]), ListOf(l, side)[0], Woken(side))
  }

  /** _ipc_list_resume_all of both lists: the threads return with an error. */
  function Dismiss(l: Lobby): Lobby {
    Lobby(map t | t in l.standing :: if l.standing[t].Waiting? then Running else l.standing[t], [], [])
  }

  /** A list names exactly the threads that wait on it, once each. */
  ghost predicate Agrees(l: Lobby, side: Side) {
    NoDup(ListOf(l, side)) && forall t: Thread :: t in ListOf(l, side) <==> StandingOf(l, t) == Waiting(side)
  }

  ghost predicate Ok(l: Lobby) {
    Agrees(l, Sender) && Agrees(l, Receiver)
  }

  function WokenOn(l: Lobby, side: Side): set<Thread> {
    set t | t in l.standing && l.standing[t] == Woken(side)
  }

  /** How many woken threads have yet to run. */
  function Pending(l: Lobby, side: Side): nat {
    |WokenOn(l, side)|
  }

  function IsWoken(s: Standing, side: Side): nat {
    if s == Woken(side) then 1 else 0
  }

  /** A thread that leaves one list for good, or for the other, disturbs neither. */
  lemma StillAgrees(l: Lobby, k: Lobby, side: Side, t: Thread)
    requires Agrees(l, side) && (forall u: Thread :: u != t ==> StandingOf(k, u) == StandingOf(l, u)) && NoDup(ListOf(k, side))
    requires forall u: Thread :: u in ListOf(k, side) <==> (u in ListOf(l, side) && u != t) || (u == t && StandingOf(k, t) == Waiting(side))
    ensures Agrees(k, side)
  {
    hide NoDup;
    forall u: Thread ensures u in ListOf(k, side) <==> StandingOf(k, u) == Waiting(side) {
      if u != t { assert u in ListOf(l, side) <==> StandingOf(l, u) == Waiting(side); }
    }
  }

  /** What moving one thread does to the number of the woken. */
  lemma StandCounts(l: Lobby, t: Thread, s: Standing)
    ensures forall side :: Pending(Stand(l, t, s), side) == Pending(l, side) - IsWoken(StandingOf(l, t), side) + IsWoken(s, side)
  {
    forall side ensures Pending(Stand(l, t, s), side) == Pending(l, side) - IsWoken(StandingOf(l, t), side) + IsWoken(s, side) {
      assert WokenOn(Stand(l, t, s), side) == (if s == Woken(side) then WokenOn(l, side) + {t} else WokenOn(l, side) - {t});
    }
  }

  lemma ListsDoNotCount(l: Lobby, k: Lobby)
    requires l.standing == k.standing
    ensures forall side :: Pending(l, side) == Pending(k, side)
  {
    assert forall side :: WokenOn(l, side) == WokenOn(k, side);
  }

  lemma AdmitOk(l: Lobby, side: Side, t: Thread, list: seq<Thread>)
    requires Ok(l) && !StandingOf(l, t).Waiting? && NoDup(list) && forall u: Thread :: u in list <==> u in ListOf(l, side) || u == t
    ensures var e := Admit(l, side, t, list);
      && Ok(e) && ListOf(e, side) != [] && (forall o :: o != side ==> ListOf(e, o) == ListOf(l, o))
      && (forall o :: Pending(e, o) == Pending(l, o) - IsWoken(StandingOf(l, t), o))
  {
    hide NoDup, Pending;
    var k := WithList(l, side, list);
    var e := Admit(l, side, t, list);
    assert t in list;
    StillAgrees(l, e, Sender, t);
    StillAgrees(l, e, Receiver, t);
    StandCounts(k, t, Waiting(side));
    ListsDoNotCount(k, l);
  }

  lemma EnterOk(l: Lobby, side: Side, t: Thread, flag: Flag, prio: map<Thread, nat>)
    requires Ok(l) && !StandingOf(l, t).Waiting?
    ensures var e := Enter(l, side, t, flag, prio);
      && Ok(e) && ListOf(e, side) != [] && (forall o :: o != side ==> ListOf(e, o) == ListOf(l, o))
      && (forall o :: Pending(e, o) == Pending(l, o) - IsWoken(StandingOf(l, t), o))
  {
    hide NoDup, Suspend, Pending;
    SuspendAdds(ListOf(l, side), t, flag, prio);
    AdmitOk(l, side, t, Suspend(ListOf(l, side), t, flag, prio));
  }

  lemma LeaveOk(l: Lobby, t: Thread)
    requires Ok(l) && !StandingOf(l, t).Waiting?
    ensures var e := Leave(l, t);
      && Ok(e) && e.senders == l.senders && e.receivers == l.receivers
      && (forall o :: Pending(e, o) == Pending(l, o) - IsWoken(StandingOf(l, t), o))
  {
    hide NoDup, Pending;
    StillAgrees(l, Leave(l, t), Sender, t);
    StillAgrees(l, Leave(l, t), Receiver, t);
    StandCounts(l, t, Running);
  }

  lemma ExpireOk(l: Lobby, t: Thread)
    requires Ok(l) && StandingOf(l, t).Waiting?
    ensures var e := Expire(l, t);
      && Ok(e) && (forall o :: Pending(e, o) == Pending(l, o)) && (forall o :: ListOf(l, o) == [] ==> ListOf(e, o) == [])
  {
    hide NoDup, Pending, Without;
    WithoutFacts(l.senders, t);
    WithoutFacts(l.receivers, t);
    EmptyWithout(t);
    var k := Lobby(l.standing, Without(l.senders, t), Without(l.receivers, t));
    StillAgrees(l, Expire(l, t), Sender, t);
    StillAgrees(l, Expire(l, t), Receiver, t);
    StandCounts(k, t, Running);
    ListsDoNotCount(k, l);
  }

  lemma EmptyWithout(t: Thread)
    ensures Without([], t) == []
  {}

  lemma WakeOk(l: Lobby, side: Side)
    requires Ok(l)
    ensures var e := Wake(l, side);
      && Ok(e) && (forall o :: o != side ==> ListOf(e, o) == ListOf(l, o))
      && (ListOf(l, side) == [] ==> e == l)
      && (forall o :: Pending(e, o) == Pending(l, o) + (if o == side && ListOf(l, side) != [] then 1 else 0))
  {
    hide NoDup, Pending;
    var list := ListOf(l, side);
    if list != [] {
      TailFacts(list);
      var k := WithList(l, side, list[1..]);
      assert StandingOf(l, list[0]) == Waiting(side);
      StillAgrees(l, Wake(l, side), Sender, list[0]);
      StillAgrees(l, Wake(l, side), Receiver, list[0]);
      StandCounts(k, list[0], Woken(side));
      ListsDoNotCount(k, l);
    }
  }

  lemma DismissOk(l: Lobby)
    requires Ok(l)
    ensures Ok(Dismiss(l)) && forall o :: Pending(Dismiss(l), o) == Pending(l, o)
  {
    assert forall o :: WokenOn(Dismiss(l), o) == WokenOn(l, o);
  }

  lemma EmptyOk()
    ensures Ok(EMPTY)
  {}

  /** Who is resumed, and what resuming leaves alone: the first on the list is taken off it and
      counts as woken; everybody else stands as before. */
  lemma WakeTakesFirst(l: Lobby, side: Side)
    requires Ok(l) && ListOf(l, side) != []
    ensures var e := Wake(l, side); var t := ListOf(l, side)[0];
      && StandingOf(l, t) == Waiting(side) && StandingOf(e, t) == Woken(side)
      && ListOf(e, side) == ListOf(l, side)[1..] && t !in ListOf(e, side)
      && forall u: Thread :: u != t ==> StandingOf(e, u) == StandingOf(l, u)
  {
    hide NoDup;
    TailFacts(ListOf(l, side));
    assert ListOf(l, side)[0] in ListOf(l, side);
  }

  /** What suspending comes to: the thread waits on that side, behind nobody it should precede, and
      the others keep their order. */
  lemma EnterJoins(l: Lobby, side: Side, t: Thread, flag: Flag, prio: map<Thread, nat>)
    requires Ok(l) && !StandingOf(l, t).Waiting?
    ensures var e := Enter(l, side, t, flag, prio);
      && StandingOf(e, t) == Waiting(side) && t in ListOf(e, side) && Without(ListOf(e, side), t) == ListOf(l, side)
      && (flag == Fifo ==> ListOf(e, side) == ListOf(l, side) + [t])
      && forall u: Thread :: u != t ==> StandingOf(e, u) == StandingOf(l, u)
  {
    hide NoDup, Without, InsertAt, Position;
    assert NoDup(ListOf(l, side));
    SuspendAdds(ListOf(l, side), t, flag, prio);
  }

  /** A reset leaves nobody waiting; threads woken before still count as woken. */
  lemma DismissFrees(l: Lobby)
    requires Ok(l)
    ensures var e := Dismiss(l);
      && e.senders == [] && e.receivers == []
      && forall u: Thread :: StandingOf(e, u) == if StandingOf(l, u).Waiting? then Running else StandingOf(l, u)
  {}

  /** A timeout takes one thread off its list; the others keep their order and stand as before. */
  lemma ExpireLeaves(l: Lobby, t: Thread)
    requires Ok(l) && StandingOf(l, t).Waiting?
    ensures var e := Expire(l, t);
      && StandingOf(e, t) == Running && (forall u: Thread :: u != t ==> StandingOf(e, u) == StandingOf(l, u))
      && forall side ::
           t !in ListOf(e, side) && forall u, v :: Before(ListOf(l, side), u, v) && u != t && v != t ==> Before(ListOf(e, side), u, v)
  {
    hide NoDup, Without, Before;
    forall side ensures t !in ListOf(Expire(l, t), side)
      && forall u, v :: Before(ListOf(l, side), u, v) && u != t && v != t ==> Before(ListOf(Expire(l, t), side), u, v)
    {
      assert Agrees(l, side);
      var w := ListOf(l, side);
      WithoutFacts(w, t);
      forall u, v | Before(w, u, v) && u != t && v != t ensures Before(Without(w, t), u, v) { WithoutKeepsBefore(w, t, u, v); }
    }
  }
}
