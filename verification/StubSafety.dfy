// What holds in every reachable state of the stub server, for every table size
// and every interleaving, and how its counter and its slots can go wrong.
module StubSafety {
  import opened CStrings
  import opened Search
  import opened ProtocolLine
  import opened StubTable
  import opened StubServer
  import Replies

  ghost predicate Reachable(s: State) {
    exists capacity: nat, steps :: IsRun(Init(capacity), steps) && After(Init(capacity), steps) == s
  }

  lemma ReachableInv(s: State)
    requires Reachable(s)
    ensures Inv(s)
  {
    var capacity: nat, steps :| IsRun(Init(capacity), steps) && After(Init(capacity), steps) == s;
    InitInv(capacity);
    RunKeepsInv(Init(capacity), steps);
  }

  lemma {:induction false} RunsCompose(s: State, a: seq<Step>, b: seq<Step>)
    requires IsRun(s, a) && IsRun(After(s, a), b)
    ensures IsRun(s, a + b) && After(s, a + b) == After(After(s, a), b)
    decreases |a|
  {
    if a == [] {
      assert a + b == b;
    } else {
      assert (a + b)[1..] == a[1..] + b;
      RunsCompose(Apply(s, a[0]), a[1..], b);
    }
  }

  lemma ReachableAfter(s: State, steps: seq<Step>)
    requires Reachable(s) && IsRun(s, steps)
    ensures Reachable(After(s, steps))
  {
    var capacity: nat, before :| IsRun(Init(capacity), before) && After(Init(capacity), before) == s;
    RunsCompose(Init(capacity), before, steps);
  }

  /* ----- names and threads, one to one ----- */

  // The slot's record is that of the thread that serves it, and the connection is open.
  predicate Mirrors(s: State, i: nat, tid: nat) {
    && i < |s.slots|
    && Serves(s, tid, i)
    && s.slots[i] == Record(s.threads[tid].cli)
    && s.slots[i].sockfd in s.open
  }

  ghost predicate NamesMatch(s: State) {
    && (forall i :: 0 <= i < |s.slots| && s.slots[i].username != "" ==> exists t :: Mirrors(s, i, t))
    && (forall t, i :: Serves(s, t, i) ==> Mirrors(s, i, t))
    && (forall t, u, i :: Serves(s, t, i) && Serves(s, u, i) ==> t == u)
  }

  /** Slots with a name correspond one to one to the registered threads that have not
      cleaned up, with the same name and an open descriptor. */
  lemma ReachableNamesMatch(s: State)
    requires Reachable(s)
    ensures NamesMatch(s)
  {
    ReachableInv(s);
    forall t, i | Serves(s, t, i) ensures Mirrors(s, i, t) {
      assert ThreadOk(s, t);
    }
    forall i | 0 <= i < |s.slots| && s.slots[i].username != "" ensures exists t :: Mirrors(s, i, t) {
      assert SlotOk(s, i);
      assert Mirrors(s, i, s.open[s.slots[i].sockfd].tid);
    }
    forall t, u, i | Serves(s, t, i) && Serves(s, u, i) ensures t == u {
      assert ThreadOk(s, t) && ThreadOk(s, u);
    }
  }

  /** Nothing is closed twice, and an open descriptor is held by the acceptor or by one thread. */
  lemma ReachableFds(s: State)
    requires Reachable(s)
    ensures s.badCloses == 0
    ensures forall fd :: fd in s.open <==>
              (!s.acceptor.Accepting? && s.acceptor.fd == fd) || exists t :: t in s.threads && s.threads[t].cli.sockfd == fd
    ensures forall t, u :: t in s.threads && u in s.threads && t != u ==> s.threads[t].cli.sockfd != s.threads[u].cli.sockfd
  {
    ReachableInv(s);
    forall t | t in s.threads ensures ThreadOk(s, t) {}
  }

  /* ----- the steps of a registration and handle_message ----- */

  function RegisterSteps(tid: nat, name: CString): seq<Step> {
    [ReceiveRegister(tid, name), CheckName(tid, false), Register(tid)]
  }

  // The state after the registration that the outcome describes.
  function Resumed(s: State, tid: nat, outcome: Outcome): State
    requires tid in s.threads && outcome.Outcome?
  {
    s.(slots := outcome.slots, count := outcome.count,
       threads := s.threads[tid := Thread(outcome.cli, if outcome.goesOn then Serving else Leaving)])
  }

  lemma OneStep(s: State, step: Step)
    requires Enabled(s, step)
    ensures IsRun(s, [step]) && After(s, [step]) == Apply(s, step)
  {
    assert [step][1..] == [];
  }

  // The name arrives and is checked.
  lemma StepsCheck(s: State, tid: nat, name: CString)
    requires tid in s.threads && s.threads[tid].pc.Serving? && IsName(name)
    ensures var steps := [ReceiveRegister(tid, name), CheckName(tid, false)];
            && IsRun(s, steps)
            && (NameTaken(s.slots, s.count, name) == Some(true) ==> After(s, steps) == Go(s, tid, Leaving))
            && (NameTaken(s.slots, s.count, name) == Some(false) ==> After(s, steps) == Go(s, tid, Registering(name)))
  {
    hide NameTaken;
    var steps := [ReceiveRegister(tid, name), CheckName(tid, false)];
    var s1 := Apply(s, steps[0]);
    assert steps[1..] == [steps[1]] && [steps[1]][1..] == [];
    assert IsRun(s1, [steps[1]]) && After(s1, [steps[1]]) == Apply(s1, steps[1]);
  }

  lemma StepsRegister(s: State, tid: nat, name: CString)
    requires Inv(s) && tid in s.threads && s.threads[tid].pc.Serving? && IsName(name)
    ensures var cli := s.threads[tid].cli;
            var steps := RegisterSteps(tid, name);
            && cli.slot < |s.slots|
            && IsRun(s, steps[..2])
            && (NameTaken(s.slots, s.count, name) == Some(true) ==> After(s, steps[..2]) == Go(s, tid, Leaving))
            && (NameTaken(s.slots, s.count, name) == Some(false) ==>
                 && IsRun(s, steps)
                 && var named := cli.(username := name);
                    After(s, steps) == s.(slots := s.slots[cli.slot := Record(named)], count := s.count + 1,
                                          threads := s.threads[tid := Thread(named, Serving)]))
  {
    hide NameTaken, IsRun, After;
    assert ThreadOk(s, tid);
    StepsCheck(s, tid, name);
    var steps := RegisterSteps(tid, name);
    assert steps[..2] == [steps[0], steps[1]] && steps == steps[..2] + [steps[2]];
    if NameTaken(s.slots, s.count, name) == Some(false) {
      OneStep(Go(s, tid, Registering(name)), Register(tid));
      RunsCompose(s, steps[..2], [steps[2]]);
    }
  }

  /** If no other thread runs in between, the two critical sections of a registration leave the
      table, the counter and the thread as handle_message does, or end its loop without a change. */
  lemma StepsAreRegistration(s: State, tid: nat, rest: CString)
    requires Reachable(s) && tid in s.threads && s.threads[tid].pc.Serving? && rest != "" && '\n' !in rest
    ensures s.threads[tid].cli.slot < |s.slots|
    ensures var steps := RegisterSteps(tid, Replies.Cut(rest, MAX_USERNAME_LEN - 1));
            var outcome := Registration(s.slots, s.count, s.threads[tid].cli, Some(rest));
            outcome.Outcome? ==>
              var run := if outcome.goesOn then steps else steps[..2];
              IsRun(s, run) && After(s, run) == Resumed(s, tid, outcome)
  {
    hide NameTaken, IsRun, After;
    ReachableInv(s);
    var name := Replies.Cut(rest, MAX_USERNAME_LEN - 1);
    var kept := Prefix(rest, MAX_USERNAME_LEN - 1);
    IndexIs(kept, '\n', |kept|);
    StepsRegister(s, tid, name);
    assert ThreadOk(s, tid);
  }

  /* ----- the gap between finding and reserving a slot ----- */

  lemma {:induction false} OthersLeaveAcceptor(s: State, steps: seq<Step>)
    requires IsRun(s, steps) && forall k :: 0 <= k < |steps| ==> IsThreadStep(steps[k])
    ensures After(s, steps).acceptor == s.acceptor
    decreases |steps|
  {
    if steps == [] {
    } else {
      assert IsThreadStep(steps[0]);
      OthersLeaveAcceptor(Apply(s, steps[0]), steps[1..]);
    }
  }

  /** Whatever the threads do between the two critical sections, the slot found is
      still free when it is reserved: it has no name and no thread serves it. */
  lemma GapIsSafe(s: State, between: seq<Step>)
    requires Reachable(s) && s.acceptor.Finding? && (exists i :: 0 <= i < |s.slots| && s.slots[i].sockfd == -1)
    requires IsRun(Apply(s, FindSlot), between) && forall k :: 0 <= k < |between| ==> IsThreadStep(between[k])
    ensures var i := FirstIndex(s.slots, HasFd(-1));
            var mid := After(Apply(s, FindSlot), between);
            && Enabled(mid, ReserveSlot)
            && mid.acceptor == Reserving(s.acceptor.fd, s.acceptor.ip, i)
            && mid.slots[i].sockfd == -1 && mid.slots[i].username == ""
            && (forall t :: !Serves(mid, t, i))
            && Apply(mid, ReserveSlot).slots == mid.slots[i := Slot(s.acceptor.fd, "", s.acceptor.ip)]
  {
    ReachableInv(s);
    StepKeepsInv(s, FindSlot);
    RunKeepsInv(Apply(s, FindSlot), between);
    OthersLeaveAcceptor(Apply(s, FindSlot), between);
    var i := FirstIndex(s.slots, HasFd(-1));
    var mid := After(Apply(s, FindSlot), between);
    forall t ensures !Serves(mid, t, i) {
      if t in mid.threads { assert ThreadOk(mid, t); }
    }
  }

  /* ----- the counter ----- */

  function Named(slots: seq<Slot>): (n: nat)
    ensures n <= |slots|
  {
    if slots == [] then 0
    else Named(slots[..|slots| - 1]) + if slots[|slots| - 1].username != "" then 1 else 0
  }

  function One(slot: Slot): nat {
    if slot.username != "" then 1 else 0
  }

  lemma {:induction false} NamedUpdate(slots: seq<Slot>, i: nat, slot: Slot)
    requires i < |slots|
    ensures Named(slots[i := slot]) == Named(slots) - One(slots[i]) + One(slot)
  {
    var n := |slots| - 1;
    if i == n {
      assert slots[i := slot][..n] == slots[..n];
    } else {
      assert slots[i := slot][..n] == slots[..n][i := slot];
      NamedUpdate(slots[..n], i, slot);
    }
  }

  lemma {:induction false} NamedNone(capacity: nat)
    ensures Named(seq(capacity, _ => FREE)) == 0
  {
    if capacity == 0 {
    } else {
      assert seq(capacity, _ => FREE)[..capacity - 1] == seq(capacity - 1, _ => FREE);
      NamedNone(capacity - 1);
    }
  }

  // The thread has registered before.
  predicate IsAgain(s: State, step: Step) {
    step.Register? && Enabled(s, step) && s.threads[step.tid].cli.username != ""
  }

  /** How many registrations of a run come from connections that had registered before. */
  function Again(s: State, steps: seq<Step>): nat
    requires IsRun(s, steps)
    decreases |steps|
  {
    if steps == [] then 0 else (if IsAgain(s, steps[0]) then 1 else 0) + Again(Apply(s, steps[0]), steps[1..])
  }

  lemma StepCounts(s: State, step: Step, again: nat)
    requires Inv(s) && Enabled(s, step) && s.count == Named(s.slots) + again
    ensures Apply(s, step).count == Named(Apply(s, step).slots) + again + if IsAgain(s, step) then 1 else 0
  {
    match step
    case Register(tid) =>
      assert ThreadOk(s, tid);
      var cli := s.threads[tid].cli;
      NamedUpdate(s.slots, cli.slot, Record(cli.(username := s.threads[tid].pc.name)));
    case CleanUp(tid) =>
      assert ThreadOk(s, tid);
      var cli := s.threads[tid].cli;
      NamedUpdate(s.slots, cli.slot, s.slots[cli.slot].(username := "", sockfd := -1));
    case ReserveSlot =>
      var Reserving(fd, ip, i) := s.acceptor;
      NamedUpdate(s.slots, i, s.slots[i].(sockfd := fd, ip := ip));
    case _ =>
  }

  lemma {:induction false} RunCounts(s: State, steps: seq<Step>, again: nat)
    requires Inv(s) && IsRun(s, steps) && s.count == Named(s.slots) + again
    ensures After(s, steps).count == Named(After(s, steps).slots) + again + Again(s, steps)
    decreases |steps|
  {
    if steps == [] {
    } else {
      StepCounts(s, steps[0], again);
      StepKeepsInv(s, steps[0]);
      RunCounts(Apply(s, steps[0]), steps[1..], again + if IsAgain(s, steps[0]) then 1 else 0);
    }
  }

  /** g_count exceeds the number of names in the table by exactly the number of repeated
      registrations of the run; so it is right exactly if no connection registered twice. */
  lemma CountIsExact(capacity: nat, steps: seq<Step>)
    requires IsRun(Init(capacity), steps)
    ensures var s := After(Init(capacity), steps);
            && s.count == Named(s.slots) + Again(Init(capacity), steps)
            && (s.count == Named(s.slots) <==> Again(Init(capacity), steps) == 0)
  {
    InitInv(capacity);
    NamedNone(capacity);
    RunCounts(Init(capacity), steps, 0);
  }

  lemma CountCoversNames(s: State)
    requires Reachable(s)
    ensures Named(s.slots) <= s.count
  {
    var capacity: nat, steps :| IsRun(Init(capacity), steps) && After(Init(capacity), steps) == s;
    CountIsExact(capacity, steps);
  }

  /** The counter is never clamped: the last name that goes leaves it at zero at least. */
  lemma ClampNeverFires(s: State, tid: nat)
    requires Reachable(s) && Enabled(s, CleanUp(tid))
    ensures Apply(s, CleanUp(tid)).count == s.count - if s.threads[tid].cli.username != "" then 1 else 0
    ensures Apply(s, CleanUp(tid)).count >= 0
  {
    ReachableInv(s);
    CountCoversNames(s);
    assert ThreadOk(s, tid);
    var i := s.threads[tid].cli.slot;
    NamedUpdate(s.slots, i, FREE);
  }

  /* ----- the duplicate check ----- */

  ghost predicate InUse(s: State, name: CString) {
    exists i :: 0 <= i < |s.slots| && s.slots[i].username == name
  }

  /** The check reads past the table exactly when names and repeated registrations together
      outnumber the slots and the name is new: never, if every connection registers at most once. */
  lemma CheckReadsPast(capacity: nat, steps: seq<Step>, name: CString)
    requires IsRun(Init(capacity), steps)
    ensures var s := After(Init(capacity), steps);
            NameTaken(s.slots, s.count, name) == None <==>
            Named(s.slots) + Again(Init(capacity), steps) > |s.slots| && !InUse(s, name)
  {
    CountIsExact(capacity, steps);
  }

  /** Where the check reads past the table, either outcome is possible. */
  lemma EitherOutcome(s: State, tid: nat)
    requires tid in s.threads && s.threads[tid].pc.Checking?
    requires NameTaken(s.slots, s.count, s.threads[tid].pc.name) == None
    ensures Apply(s, CheckName(tid, true)) == Go(s, tid, Leaving)
    ensures Apply(s, CheckName(tid, false)) == Go(s, tid, Registering(s.threads[tid].pc.name))
  {
  }

  /** A name passes the check exactly when the names and the repeated registrations do not
      outnumber the slots and no slot among the first so many has it. */
  lemma CheckPasses(capacity: nat, steps: seq<Step>, name: CString)
    requires IsRun(Init(capacity), steps)
    ensures var s := After(Init(capacity), steps);
            var n := Named(s.slots) + Again(Init(capacity), steps);
            NameTaken(s.slots, s.count, name) == Some(false) <==>
            n <= |s.slots| && forall i :: 0 <= i < n ==> s.slots[i].username != name
  {
    CountIsExact(capacity, steps);
  }

  /** A name in use passes the check exactly when the names and the repeated registrations do
      not outnumber the slots and every slot that has it lies behind the first so many. */
  lemma CheckMisses(capacity: nat, steps: seq<Step>, name: CString)
    requires IsRun(Init(capacity), steps)
    ensures var s := After(Init(capacity), steps);
            var n := Named(s.slots) + Again(Init(capacity), steps);
            InUse(s, name) && NameTaken(s.slots, s.count, name) == Some(false) <==>
            n < |s.slots| && (exists i :: n <= i < |s.slots| && s.slots[i].username == name)
            && forall i :: 0 <= i < n ==> s.slots[i].username != name
  {
    CheckPasses(capacity, steps, name);
  }

  /** The check is right exactly when a name in use is held by one of the first slots, as many
      as there are names and repeated registrations, or when a new name meets no more than that. */
  lemma CheckIsRight(capacity: nat, steps: seq<Step>, name: CString)
    requires IsRun(Init(capacity), steps)
    ensures var s := After(Init(capacity), steps);
            var n := Named(s.slots) + Again(Init(capacity), steps);
            NameTaken(s.slots, s.count, name) == Some(InUse(s, name)) <==>
            if InUse(s, name) then exists i :: 0 <= i < n && i < |s.slots| && s.slots[i].username == name
            else n <= |s.slots|
  {
    CountIsExact(capacity, steps);
  }

  /* ----- slots that never come back ----- */

  // The slot keeps the descriptor of a connection that no thread serves any more.
  ghost predicate Leaked(s: State, i: nat) {
    && i < |s.slots|
    && s.slots[i].sockfd != -1 && s.slots[i].username == ""
    && (forall t :: !Serves(s, t, i))
    && !((s.acceptor.Reserving? || s.acceptor.Spawning?) && s.acceptor.slot == i)
  }

  /** A thread that cleans up frees its slot if its client registered, and leaks it otherwise. */
  lemma CleanUpLeaks(s: State, tid: nat)
    requires Reachable(s) && Enabled(s, CleanUp(tid))
    ensures var i := s.threads[tid].cli.slot;
            var s' := Apply(s, CleanUp(tid));
            && (Leaked(s', i) <==> s.threads[tid].cli.username == "")
            && (s'.slots[i].sockfd == -1 <==> s.threads[tid].cli.username != "")
  {
    ReachableInv(s);
    ReachableNamesMatch(s);
    assert ThreadOk(s, tid);
    var i := s.threads[tid].cli.slot;
    var s' := Apply(s, CleanUp(tid));
    assert Serves(s, tid, i);
    forall t ensures !Serves(s', t, i) {
      assert Serves(s, t, i) ==> t == tid;
    }
  }

  lemma StaysLeaked(s: State, step: Step, i: nat)
    requires Inv(s) && Enabled(s, step) && Leaked(s, i)
    ensures Leaked(Apply(s, step), i) && Apply(s, step).slots[i] == s.slots[i]
  {
    var s' := Apply(s, step);
    if IsThreadStep(step) {
      assert ThreadOk(s, step.tid);
      assert !Serves(s, step.tid, i);
    }
    forall t ensures !Serves(s', t, i) {
      assert !Serves(s, t, i);
    }
  }

  /** A leaked slot is never used again, in any continuation of the run. */
  lemma {:induction false} LeakedForever(s: State, steps: seq<Step>, i: nat)
    requires Inv(s) && IsRun(s, steps) && Leaked(s, i)
    ensures Leaked(After(s, steps), i) && After(s, steps).slots[i] == s.slots[i]
    decreases |steps|
  {
    if steps == [] {
    } else {
      StaysLeaked(s, steps[0], i);
      StepKeepsInv(s, steps[0]);
      LeakedForever(Apply(s, steps[0]), steps[1..], i);
    }
  }

  /** Once every slot has leaked, every connection is refused. */
  lemma FullForever(s: State, steps: seq<Step>)
    requires Reachable(s) && IsRun(s, steps) && forall i :: 0 <= i < |s.slots| ==> Leaked(s, i)
    requires After(s, steps).acceptor.Finding?
    ensures Apply(After(s, steps), FindSlot).acceptor == Refusing(After(s, steps).acceptor.fd)
  {
    ReachableInv(s);
    TableSize(s, steps);
    var s' := After(s, steps);
    var i := FirstIndex(s'.slots, HasFd(-1));
    if i < |s'.slots| { LeakedForever(s, steps, i); }
  }

  lemma {:induction false} TableSize(s: State, steps: seq<Step>)
    requires IsRun(s, steps)
    ensures |After(s, steps).slots| == |s.slots|
    decreases |steps|
  {
    if steps == [] {
    } else {
      TableSize(Apply(s, steps[0]), steps[1..]);
    }
  }
}
