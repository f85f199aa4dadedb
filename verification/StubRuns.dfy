// Runs of the stub server that reach what StubSafety allows: a check that reads past the
// table, a name in use that passes the check, and slots that leak until every connection
// is refused. The runs are put together from visits and registrations in any state.
module StubRuns {
  import opened CStrings
  import opened Search
  import opened ProtocolLine
  import opened StubTable
  import opened StubServer
  import opened StubSafety

  const MAX_STUB_CLIENTS: nat := 3

  /* ----- connecting ----- */

  function Join(fd: int, ip: CString, tid: nat): seq<Step> {
    [Accept(fd, ip), FindSlot, ReserveSlot, Spawn(tid)]
  }

  predicate CanJoin(s: State, fd: int, tid: nat) {
    && s.acceptor.Accepting? && fd >= 0 && fd !in s.open && tid !in s.threads
    && FirstIndex(s.slots, HasFd(-1)) < |s.slots|
  }

  function Joined(s: State, fd: int, ip: CString, tid: nat): State
    requires CanJoin(s, fd, tid)
  {
    var i := FirstIndex(s.slots, HasFd(-1));
    s.(slots := Reserve(s.slots, i, fd, ip), open := s.open[fd := ByThread(tid)],
       threads := s.threads[tid := Thread(Client(i, fd, "", ip), Serving)])
  }

  lemma Joins(s: State, fd: int, ip: CString, tid: nat)
    requires CanJoin(s, fd, tid)
    ensures IsRun(s, Join(fd, ip, tid)) && After(s, Join(fd, ip, tid)) == Joined(s, fd, ip, tid)
  {
    hide IsRun, After;
    var s1 := Apply(s, Accept(fd, ip));
    var s2 := Apply(s1, FindSlot);
    var s3 := Apply(s2, ReserveSlot);
    assert Apply(s3, Spawn(tid)).open == s.open[fd := ByThread(tid)];
    OneStep(s, Accept(fd, ip));
    OneStep(s1, FindSlot);
    OneStep(s2, ReserveSlot);
    OneStep(s3, Spawn(tid));
    RunsCompose(s, [Accept(fd, ip)], [FindSlot]);
    RunsCompose(s, [Accept(fd, ip)] + [FindSlot], [ReserveSlot]);
    RunsCompose(s, [Accept(fd, ip)] + [FindSlot] + [ReserveSlot], [Spawn(tid)]);
    assert Join(fd, ip, tid) == [Accept(fd, ip)] + [FindSlot] + [ReserveSlot] + [Spawn(tid)];
  }

  /* ----- leaving without a name ----- */

  function Leave(tid: nat): seq<Step> {
    [EndLoop(tid), CleanUp(tid), CloseOwn(tid)]
  }

  function Left(s: State, tid: nat): State
    requires tid in s.threads
  {
    s.(threads := s.threads - {tid}, open := s.open - {s.threads[tid].cli.sockfd})
  }

  lemma LeavesNameless(s: State, tid: nat)
    requires Inv(s) && tid in s.threads && s.threads[tid].pc.Serving? && s.threads[tid].cli.username == ""
    ensures IsRun(s, Leave(tid)) && After(s, Leave(tid)) == Left(s, tid)
  {
    assert ThreadOk(s, tid);
    hide IsRun, After;
    var s1 := Apply(s, EndLoop(tid));
    var s2 := Apply(s1, CleanUp(tid));
    assert Apply(s2, CloseOwn(tid)).threads == s.threads - {tid};
    OneStep(s, EndLoop(tid));
    OneStep(s1, CleanUp(tid));
    OneStep(s2, CloseOwn(tid));
    RunsCompose(s, [EndLoop(tid)], [CleanUp(tid)]);
    RunsCompose(s, [EndLoop(tid)] + [CleanUp(tid)], [CloseOwn(tid)]);
    assert Leave(tid) == [EndLoop(tid)] + [CleanUp(tid)] + [CloseOwn(tid)];
  }

  /* ----- visits that fill the table ----- */

  // A client that connects and goes without registering; the kernel gives it descriptor 5.
  function Visit(): seq<Step> {
    Join(5, "ip", 1) + Leave(1)
  }

  function Visits(n: nat): seq<Step> {
    if n == 0 then [] else Visits(n - 1) + Visit()
  }

  // The stub with nobody connected and its first n slots leaked.
  function Haunted(capacity: nat, n: nat): State {
    Init(capacity).(slots := seq(capacity, i => if i < n then Slot(5, "", "ip") else FREE))
  }

  lemma OneVisit(capacity: nat, n: nat)
    requires n < capacity && Reachable(Haunted(capacity, n))
    ensures IsRun(Haunted(capacity, n), Visit()) && After(Haunted(capacity, n), Visit()) == Haunted(capacity, n + 1)
  {
    hide Apply, Enabled, IsRun, After;
    var s := Haunted(capacity, n);
    assert s.slots[n].sockfd == -1;
    assert FirstIndex(s.slots, HasFd(-1)) == n;
    Joins(s, 5, "ip", 1);
    var s1 := Joined(s, 5, "ip", 1);
    ReachableAfter(s, Join(5, "ip", 1));
    ReachableInv(s1);
    LeavesNameless(s1, 1);
    RunsCompose(s, Join(5, "ip", 1), Leave(1));
    assert Left(s1, 1).threads == map[] && Left(s1, 1).open == map[];
    assert Left(s1, 1).slots == Haunted(capacity, n + 1).slots;
  }

  lemma {:induction false} VisitsRun(capacity: nat, n: nat)
    requires n <= capacity
    ensures IsRun(Init(capacity), Visits(n)) && After(Init(capacity), Visits(n)) == Haunted(capacity, n)
  {
    hide Apply, Enabled, Visit;
    if n == 0 {
      assert Haunted(capacity, 0).slots == Init(capacity).slots;
    } else {
      VisitsRun(capacity, n - 1);
      assert Reachable(Haunted(capacity, n - 1));
      OneVisit(capacity, n - 1);
      RunsCompose(Init(capacity), Visits(n - 1), Visit());
    }
  }

  /** However large the table, after n visits of clients that do not register n slots have leaked. */
  lemma VisitsLeak(capacity: nat, n: nat)
    requires n <= capacity
    ensures IsRun(Init(capacity), Visits(n)) && After(Init(capacity), Visits(n)) == Haunted(capacity, n)
    ensures forall i :: 0 <= i < n ==> Leaked(After(Init(capacity), Visits(n)), i)
  {
    hide Visits, IsRun, After;
    VisitsRun(capacity, n);
  }

  /** As many visits as there are slots, and every later connection is refused, whatever happens in between. */
  lemma VisitsLockOut(capacity: nat, more: seq<Step>)
    requires IsRun(Haunted(capacity, capacity), more) && After(Haunted(capacity, capacity), more).acceptor.Finding?
    ensures IsRun(Init(capacity), Visits(capacity) + more)
    ensures var s := After(Init(capacity), Visits(capacity) + more);
            s.acceptor.Finding? && Apply(s, FindSlot).acceptor == Refusing(s.acceptor.fd)
  {
    hide Apply, Enabled, Visits;
    VisitsLeak(capacity, capacity);
    assert Reachable(Haunted(capacity, capacity));
    RunsCompose(Init(capacity), Visits(capacity), more);
    FullForever(Haunted(capacity, capacity), more);
  }

  /* ----- a check that reads past the table ----- */

  // One client, connected in the first slot, after `count` registrations.
  function Alone(count: nat, name: CString): State {
    State([Slot(5, name, "ip"), FREE, FREE], count, map[5 := ByThread(1)], 0, Accepting,
          map[1 := Thread(Client(0, 5, name, "ip"), Serving)])
  }

  lemma OneJoins()
    ensures IsRun(Init(MAX_STUB_CLIENTS), Join(5, "ip", 1))
    ensures After(Init(MAX_STUB_CLIENTS), Join(5, "ip", 1)) == Alone(0, "")
  {
    var s := Init(MAX_STUB_CLIENTS);
    assert s.slots == [FREE, FREE, FREE];
    Joins(s, 5, "ip", 1);
    assert Joined(s, 5, "ip", 1).slots == Alone(0, "").slots;
  }

  lemma RegistersAgain(count: nat, before: CString, name: CString)
    requires count <= MAX_STUB_CLIENTS && name != before && IsName(name) && Reachable(Alone(count, before))
    ensures IsRun(Alone(count, before), RegisterSteps(1, name))
    ensures After(Alone(count, before), RegisterSteps(1, name)) == Alone(count + 1, name)
    ensures Reachable(Alone(count + 1, name))
  {
    var s := Alone(count, before);
    ReachableInv(s);
    assert NameTaken(s.slots, s.count, name) == Some(false);
    StepsRegister(s, 1, name);
    assert s.slots[0 := Slot(5, name, "ip")] == Alone(count + 1, name).slots;
    ReachableAfter(s, RegisterSteps(1, name));
  }

  const FOUR_NAMES: seq<Step> :=
    Join(5, "ip", 1) + RegisterSteps(1, "a") + RegisterSteps(1, "b") + RegisterSteps(1, "c") + RegisterSteps(1, "d")

  /** A concrete run: one client that registers four times makes the next check read past the three slots. */
  lemma FourNamesReadPast()
    ensures IsRun(Init(MAX_STUB_CLIENTS), FOUR_NAMES)
    ensures var s := After(Init(MAX_STUB_CLIENTS), FOUR_NAMES);
            s.count == 4 && Named(s.slots) == 1 && NameTaken(s.slots, s.count, "e") == None
  {
    var s := Init(MAX_STUB_CLIENTS);
    hide Apply, Enabled;
    OneJoins();
    assert Reachable(Alone(0, ""));
    RegistersAgain(0, "", "a");
    RegistersAgain(1, "a", "b");
    RegistersAgain(2, "b", "c");
    RegistersAgain(3, "c", "d");
    var steps := Join(5, "ip", 1);
    RunsCompose(s, steps, RegisterSteps(1, "a"));
    RunsCompose(s, steps + RegisterSteps(1, "a"), RegisterSteps(1, "b"));
    RunsCompose(s, steps + RegisterSteps(1, "a") + RegisterSteps(1, "b"), RegisterSteps(1, "c"));
    RunsCompose(s, steps + RegisterSteps(1, "a") + RegisterSteps(1, "b") + RegisterSteps(1, "c"), RegisterSteps(1, "d"));
    NamedUpdate([FREE, FREE, FREE], 0, Slot(5, "d", "ip"));
    NamedNone(3);
    assert seq(3, _ => FREE) == [FREE, FREE, FREE];
    assert [FREE, FREE, FREE][0 := Slot(5, "d", "ip")] == Alone(4, "d").slots;
    assert After(s, FOUR_NAMES) == Alone(4, "d");
    assert forall i :: 0 <= i < 3 ==> Alone(4, "d").slots[i].username != "e";
  }

  /* ----- a name in use that passes the check ----- */

  // Two clients in the first two slots, with or without names.
  function Pair(count: nat, first: CString, second: CString): State {
    State([Slot(5, first, "ip"), Slot(6, second, "ip"), FREE], count,
          map[5 := ByThread(1), 6 := ByThread(2)], 0, Accepting,
          map[1 := Thread(Client(0, 5, first, "ip"), Serving), 2 := Thread(Client(1, 6, second, "ip"), Serving)])
  }

  lemma TwoJoin()
    ensures IsRun(Init(MAX_STUB_CLIENTS), Join(5, "ip", 1) + Join(6, "ip", 2))
    ensures After(Init(MAX_STUB_CLIENTS), Join(5, "ip", 1) + Join(6, "ip", 2)) == Pair(0, "", "")
  {
    OneJoins();
    var s := Alone(0, "");
    assert FirstIndex(s.slots, HasFd(-1)) == 1;
    Joins(s, 6, "ip", 2);
    assert Joined(s, 6, "ip", 2).slots == Pair(0, "", "").slots;
    RunsCompose(Init(MAX_STUB_CLIENTS), Join(5, "ip", 1), Join(6, "ip", 2));
  }

  function SecondRegisters(name: CString): seq<Step> {
    Join(5, "ip", 1) + Join(6, "ip", 2) + RegisterSteps(2, name)
  }

  lemma SecondRegistered(name: CString)
    requires IsName(name)
    ensures IsRun(Init(MAX_STUB_CLIENTS), SecondRegisters(name))
    ensures After(Init(MAX_STUB_CLIENTS), SecondRegisters(name)) == Pair(1, "", name)
  {
    TwoJoin();
    var s := Pair(0, "", "");
    assert Reachable(s);
    ReachableInv(s);
    assert NameTaken(s.slots, s.count, name) == Some(false);
    StepsRegister(s, 2, name);
    assert s.slots[1 := Slot(6, name, "ip")] == Pair(1, "", name).slots;
    RunsCompose(Init(MAX_STUB_CLIENTS), Join(5, "ip", 1) + Join(6, "ip", 2), RegisterSteps(2, name));
  }

  /** For any name: the client in the second slot registers it, and it passes the check of the
      client in the first slot, although the counter is right. Both end up with it. */
  lemma NameRegisteredTwice(name: CString)
    requires IsName(name)
    ensures IsRun(Init(MAX_STUB_CLIENTS), SecondRegisters(name))
    ensures var s := After(Init(MAX_STUB_CLIENTS), SecondRegisters(name));
            && s.count == Named(s.slots) && InUse(s, name) && NameTaken(s.slots, s.count, name) == Some(false)
            && IsRun(s, RegisterSteps(1, name))
            && var s' := After(s, RegisterSteps(1, name));
               Mirrors(s', 0, 1) && Mirrors(s', 1, 2)
               && s'.threads[1].cli.username == s'.threads[2].cli.username == name
  {
    SecondRegistered(name);
    var s := Pair(1, "", name);
    assert Reachable(s);
    ReachableInv(s);
    assert s.slots[1].username == name;
    assert NameTaken(s.slots, s.count, name) == Some(false);
    StepsRegister(s, 1, name);
    NamedUpdate([FREE, FREE, FREE], 1, Slot(6, name, "ip"));
    NamedUpdate([FREE, FREE, FREE][1 := Slot(6, name, "ip")], 0, Slot(5, "", "ip"));
    NamedNone(3);
    assert seq(3, _ => FREE) == [FREE, FREE, FREE];
    assert [FREE, FREE, FREE][1 := Slot(6, name, "ip")][0 := Slot(5, "", "ip")] == s.slots;
  }
}
