// What each path through the acceptor and through a client thread leaves behind, from any
// reachable state: a connection served, one refused, one whose thread cannot be created,
// a line handled, and the end of a thread.
module ServerRuns {
  import opened CStrings
  import opened Search
  import opened Sessions
  import opened ServerProtocol
  import opened ServerSafety

  // Step by step: the next step is enabled and leads to `next`.
  lemma Then(s: State, steps: seq<Step>, step: Step, next: State)
    requires IsRun(s, steps) && Enabled(After(s, steps), step) && Apply(After(s, steps), step) == next
    ensures IsRun(s, steps + [step]) && After(s, steps + [step]) == next
  {
    RunExtends(s, steps, step);
  }

  lemma Nothing(s: State)
    ensures IsRun(s, []) && After(s, []) == s
  {
  }

  // A slot that holds no session any more.
  const EMPTIED := Session(-1, NO_ADDRESS, 0, "", Inactivo, 0, false, false)

  /* ----- connecting ----- */

  predicate CanAccept(s: State, fd: int) {
    s.acceptor.Accepting? && fd >= 0 && fd !in s.open
  }

  // The connection has been accepted and its session is in slot i.
  function Inside(s: State, fd: int, addr: Address, now: int, i: nat): State
    requires i < |s.table|
  {
    s.(table := s.table[i := Session(fd, addr, 0, "", Activo, now, false, true)],
       open := s.open[fd := |s.conns|],
       conns := s.conns + [Connection(fd, 0, ByAcceptor)],
       acceptor := Creating(|s.conns|, fd, i))
  }

  // The same before the lookup.
  function Added(s: State, fd: int, addr: Address, now: int, i: nat): State
    requires i < |s.table|
  {
    Inside(s, fd, addr, now, i).(acceptor := Looking(|s.conns|, fd, i))
  }

  lemma GetsAdded(s: State, fd: int, addr: Address, now: int)
    requires CanAccept(s, fd) && FirstIndex(s.table, IsFree()) < |s.table|
    ensures var steps := [Accept(fd, addr, now), AddSession];
            IsRun(s, steps) && After(s, steps) == Added(s, fd, addr, now, FirstIndex(s.table, IsFree()))
  {
    hide IsRun, After;
    var s1 := Apply(s, Accept(fd, addr, now));
    Nothing(s);
    Then(s, [], Accept(fd, addr, now), s1);
    Then(s, [] + [Accept(fd, addr, now)], AddSession, Apply(s1, AddSession));
    assert [Accept(fd, addr, now), AddSession] == [] + [Accept(fd, addr, now)] + [AddSession];
  }

  lemma GetsInside(s: State, fd: int, addr: Address, now: int)
    requires Reachable(s) && CanAccept(s, fd) && FirstIndex(s.table, IsFree()) < |s.table|
    ensures var steps := [Accept(fd, addr, now), AddSession, LookUp];
            var i := FirstIndex(s.table, IsFree());
            IsRun(s, steps) && After(s, steps) == Inside(s, fd, addr, now, i)
  {
    hide IsRun, After;
    var i := FirstIndex(s.table, IsFree());
    var begin := [Accept(fd, addr, now), AddSession];
    GetsAdded(s, fd, addr, now);
    ReachableAfter(s, begin);
    LookUpSucceeds(Added(s, fd, addr, now, i));
    Then(s, begin, LookUp, Inside(s, fd, addr, now, i));
    assert [Accept(fd, addr, now), AddSession, LookUp] == begin + [LookUp];
  }

  /** A connection for which there is a free slot gets a thread of its own, and the first free
      slot holds its descriptor, its address, the time and the thread's id, unregistered. */
  lemma ConnectionServed(s: State, fd: int, addr: Address, now: int, tid: nat)
    requires Reachable(s) && CanAccept(s, fd) && tid != 0 && tid !in s.threads
    requires FirstIndex(s.table, IsFree()) < |s.table|
    ensures var steps := [Accept(fd, addr, now), AddSession, LookUp, CreateThread(tid), AssignThreadId];
            var i := FirstIndex(s.table, IsFree());
            && IsRun(s, steps)
            && After(s, steps) ==
               s.(table := s.table[i := Session(fd, addr, tid, "", Activo, now, false, true)],
                  open := s.open[fd := |s.conns|],
                  conns := s.conns + [Connection(fd, 0, ByThread(tid))],
                  threads := s.threads[tid := Thread(i, -1, Starting, |s.conns|)])
  {
    hide IsRun, After;
    var i := FirstIndex(s.table, IsFree());
    var begin := [Accept(fd, addr, now), AddSession, LookUp];
    GetsInside(s, fd, addr, now);
    var s3 := Inside(s, fd, addr, now, i);
    var s4 := Apply(s3, CreateThread(tid));
    assert s4.conns == s.conns + [Connection(fd, 0, ByThread(tid))];
    Then(s, begin, CreateThread(tid), s4);
    Then(s, begin + [CreateThread(tid)], AssignThreadId, Apply(s4, AssignThreadId));
    assert begin + [CreateThread(tid)] + [AssignThreadId] ==
           [Accept(fd, addr, now), AddSession, LookUp, CreateThread(tid), AssignThreadId];
    assert Apply(s4, AssignThreadId).table == s.table[i := Session(fd, addr, tid, "", Activo, now, false, true)];
  }

  /** A connection that finds no free slot is closed, and nothing else has changed. */
  lemma ConnectionRefused(s: State, fd: int, addr: Address, now: int)
    requires CanAccept(s, fd) && forall i :: 0 <= i < |s.table| ==> s.table[i].active
    ensures var steps := [Accept(fd, addr, now), AddSession, Reject];
            && IsRun(s, steps)
            && After(s, steps) == s.(conns := s.conns + [Connection(fd, 1, Nobody)])
  {
    hide IsRun, After;
    var s1 := Apply(s, Accept(fd, addr, now));
    var s2 := Apply(s1, AddSession);
    var s3 := Apply(s2, Reject);
    Nothing(s);
    Then(s, [], Accept(fd, addr, now), s1);
    Then(s, [] + [Accept(fd, addr, now)], AddSession, s2);
    Then(s, [] + [Accept(fd, addr, now)] + [AddSession], Reject, s3);
    assert [Accept(fd, addr, now), AddSession, Reject] == [] + [Accept(fd, addr, now)] + [AddSession] + [Reject];
    assert s3.open == s.open && s3.conns == s.conns + [Connection(fd, 1, Nobody)];
  }

  lemma Undoes(s: State)
    requires Reachable(s) && s.acceptor.Undoing?
    ensures s.acceptor.slot < |s.table| && s.acceptor.conn < |s.conns|
    ensures var steps := [UndoAdd, CloseUndone];
            var Undoing(c, fd, i, _) := s.acceptor;
            && IsRun(s, steps)
            && After(s, steps) == s.(table := s.table[i := EMPTIED], open := s.open - {fd},
                                     conns := s.conns[c := Connection(fd, 1, Nobody)], acceptor := Accepting)
  {
    hide IsRun, After;
    ReachableInv(s);
    LookupFinds(s, s.acceptor.slot, s.acceptor.fd);
    var s1 := Apply(s, UndoAdd);
    Nothing(s);
    Then(s, [], UndoAdd, s1);
    Then(s, [] + [UndoAdd], CloseUndone, Apply(s1, CloseUndone));
    assert [UndoAdd, CloseUndone] == [] + [UndoAdd] + [CloseUndone];
  }

  /** If no thread can be created the session is taken out again and the connection closed. */
  lemma CreationUndone(s: State, fd: int, addr: Address, now: int)
    requires Reachable(s) && CanAccept(s, fd) && FirstIndex(s.table, IsFree()) < |s.table|
    ensures var steps := [Accept(fd, addr, now), AddSession, LookUp] + [CreateFails] + [UndoAdd, CloseUndone];
            var i := FirstIndex(s.table, IsFree());
            && IsRun(s, steps)
            && After(s, steps) == s.(table := s.table[i := EMPTIED], conns := s.conns + [Connection(fd, 1, Nobody)])
  {
    hide IsRun, After;
    var i := FirstIndex(s.table, IsFree());
    var begin := [Accept(fd, addr, now), AddSession, LookUp];
    GetsInside(s, fd, addr, now);
    var s4 := Inside(s, fd, addr, now, i).(acceptor := Undoing(|s.conns|, fd, i, false));
    Then(s, begin, CreateFails, s4);
    ReachableAfter(s, begin + [CreateFails]);
    Undoes(s4);
    RunsCompose(s, begin + [CreateFails], [UndoAdd, CloseUndone]);
    assert s4.conns[|s.conns| := Connection(fd, 1, Nobody)] == s.conns + [Connection(fd, 1, Nobody)];
    assert s4.open - {fd} == s.open && s4.table[i := EMPTIED] == s.table[i := EMPTIED];
  }

  /* ----- a client thread ----- */

  /** The greeting: the thread reads its descriptor from its slot and goes on to receive. */
  lemma Greeted(s: State, tid: nat)
    requires Reachable(s) && tid in s.threads && s.threads[tid].pc.Starting?
    ensures var steps := [ReadSockfd(tid), Greet(tid, true)];
            var t := s.threads[tid];
            && t.conn < |s.conns|
            && IsRun(s, steps)
            && After(s, steps) == s.(threads := s.threads[tid := Thread(t.slot, s.conns[t.conn].fd, Receiving, t.conn)])
  {
    hide IsRun, After;
    ReachableInv(s);
    assert ThreadOk(s, tid);
    var s1 := Apply(s, ReadSockfd(tid));
    Nothing(s);
    Then(s, [], ReadSockfd(tid), s1);
    Then(s, [] + [ReadSockfd(tid)], Greet(tid, true), Apply(s1, Greet(tid, true)));
    assert [ReadSockfd(tid), Greet(tid, true)] == [] + [ReadSockfd(tid)] + [Greet(tid, true)];
  }

  /** A received line: the thread's own session is active as of `now`, and the thread receives again. */
  lemma LineHandled(s: State, tid: nat, now: int)
    requires Reachable(s) && tid in s.threads && s.threads[tid].pc.Receiving?
    ensures var steps := [Receive(tid)] + [FindOwn(tid)] + [Update(tid, now)] + [Resume(tid)];
            var i := s.threads[tid].slot;
            && i < |s.table|
            && IsRun(s, steps)
            && var own := s.table[i];
               After(s, steps) ==
               s.(table := s.table[i := own.(lastActivity := now, status := if own.status == Inactivo then Activo else own.status)])
  {
    hide IsRun, After, Reachable, Touch, FirstIndex;
    var i := s.threads[tid].slot;
    var s1 := Go(s, tid, Finding);
    Nothing(s);
    Then(s, [], Receive(tid), s1);
    assert [] + [Receive(tid)] == [Receive(tid)];
    ReachableAfter(s, [Receive(tid)]);
    FindOwnFindsOwn(s1, tid);
    var s2 := Go(s1, tid, Updating(i));
    Then(s, [Receive(tid)], FindOwn(tid), s2);
    UpdateIsTouch(s2, tid, now);
    var s3 := Go(s2, tid, Handling).(table := s.table[i := Refreshed(s.table[i], now)]);
    Then(s, [Receive(tid)] + [FindOwn(tid)], Update(tid, now), s3);
    Then(s, [Receive(tid)] + [FindOwn(tid)] + [Update(tid, now)], Resume(tid), Go(s3, tid, Receiving));
    assert Go(s3, tid, Receiving).threads == s.threads;
  }

  /** A handler may give any session another name, registration and status. */
  lemma HandlerMayEdit(s: State, tid: nat, i: nat, name: CString, registered: bool, status: Status)
    requires tid in s.threads && s.threads[tid].pc.Handling? && i < |s.table|
    ensures var edited := s.table[i := s.table[i].(username := name, registered := registered, status := status)];
            Enabled(s, Edit(tid, edited)) && Apply(s, Edit(tid, edited)) == s.(table := edited)
  {
  }

  // The thread is gone, its slot empty and its connection closed.
  function Gone(s: State, tid: nat): State
    requires tid in s.threads && s.threads[tid].slot < |s.table| && s.threads[tid].conn < |s.conns|
  {
    var t := s.threads[tid];
    var c := s.conns[t.conn];
    s.(table := s.table[t.slot := EMPTIED], open := s.open - {c.fd}, threads := s.threads - {tid},
       conns := s.conns[t.conn := Connection(c.fd, 1, Nobody)])
  }

  lemma Removed(s: State, tid: nat)
    requires Reachable(s) && tid in s.threads && s.threads[tid].pc.Removing?
    ensures s.threads[tid].slot < |s.table| && s.threads[tid].conn < |s.conns|
    ensures var steps := [RemoveOwn(tid), CloseOwn(tid)]; IsRun(s, steps) && After(s, steps) == Gone(s, tid)
  {
    hide IsRun, After;
    ReachableInv(s);
    assert ThreadOk(s, tid);
    var t := s.threads[tid];
    LookupFinds(s, t.slot, t.sockfd);
    var s1 := Apply(s, RemoveOwn(tid));
    var s2 := Apply(s1, CloseOwn(tid));
    Nothing(s);
    Then(s, [], RemoveOwn(tid), s1);
    Then(s, [] + [RemoveOwn(tid)], CloseOwn(tid), s2);
    assert [RemoveOwn(tid), CloseOwn(tid)] == [] + [RemoveOwn(tid)] + [CloseOwn(tid)];
    assert s2.threads == s.threads - {tid} && s2.conns == Gone(s, tid).conns;
  }

  /** A thread that stops receiving, or whose handler stops it, empties its own slot and
      closes its own connection, and nothing else changes. */
  lemma ThreadEnds(s: State, tid: nat)
    requires Reachable(s) && tid in s.threads && (s.threads[tid].pc.Receiving? || s.threads[tid].pc.Handling?)
    ensures s.threads[tid].slot < |s.table| && s.threads[tid].conn < |s.conns|
    ensures var steps := [Quit(tid)] + [RemoveOwn(tid), CloseOwn(tid)]; IsRun(s, steps) && After(s, steps) == Gone(s, tid)
  {
    hide IsRun, After;
    ReachableInv(s);
    assert ThreadOk(s, tid);
    var s1 := Apply(s, Quit(tid));
    Nothing(s);
    Then(s, [], Quit(tid), s1);
    assert [] + [Quit(tid)] == [Quit(tid)];
    ReachableAfter(s, [Quit(tid)]);
    Removed(s1, tid);
    RunsCompose(s, [Quit(tid)], [RemoveOwn(tid), CloseOwn(tid)]);
    assert Gone(s1, tid) == Gone(s, tid);
  }

  /** A failed greeting ends the thread in the same way. */
  lemma GreetingFails(s: State, tid: nat)
    requires Reachable(s) && tid in s.threads && s.threads[tid].pc.Greeting?
    ensures s.threads[tid].slot < |s.table| && s.threads[tid].conn < |s.conns|
    ensures var steps := [Greet(tid, false)] + [RemoveOwn(tid), CloseOwn(tid)];
            IsRun(s, steps) && After(s, steps) == Gone(s, tid)
  {
    hide IsRun, After;
    ReachableInv(s);
    assert ThreadOk(s, tid);
    var s1 := Apply(s, Greet(tid, false));
    Nothing(s);
    Then(s, [], Greet(tid, false), s1);
    assert [] + [Greet(tid, false)] == [Greet(tid, false)];
    ReachableAfter(s, [Greet(tid, false)]);
    Removed(s1, tid);
    RunsCompose(s, [Greet(tid, false)], [RemoveOwn(tid), CloseOwn(tid)]);
    assert Gone(s1, tid) == Gone(s, tid);
  }
}
