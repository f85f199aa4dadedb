// tests/stub_server.c as a transition system: the accept loop of main and one
// thread per connection, sharing g_clients and g_count. Every step is one
// critical section, one system call, or one private step of a thread.
module StubServer {
  import opened CStrings
  import opened Search
  import opened ProtocolLine
  import opened StubTable
  import Dispatch

  datatype AcceptorPc =
    | Accepting
    | Finding(fd: int, ip: CString)
    | Refusing(fd: int)
    | Reserving(fd: int, ip: CString, slot: nat)
    | Spawning(fd: int, ip: CString, slot: nat)

  datatype ThreadPc =
    | Serving
    | Checking(name: CString)      // a REGISTER with this name has arrived
    | Registering(name: CString)   // the name was not found in the table
    | Leaving                      // the loop has ended
    | Closing                      // cleaned up, close still to come

  datatype Thread = Thread(cli: Client, pc: ThreadPc)

  // Bookkeeping that no step reads: who will close a descriptor.
  datatype Holder = ByAcceptor | ByThread(tid: nat)

  datatype State = State(
    slots: seq<Slot>,
    count: int,
    open: map<int, Holder>,      // open client descriptors
    badCloses: nat,              // calls of close on a descriptor that is not open
    acceptor: AcceptorPc,
    threads: map<nat, Thread>)

  function Init(capacity: nat): State {
    State(seq(capacity, _ => FREE), 0, map[], 0, Accepting, map[])
  }

  datatype Step =
    | Accept(fd: int, ip: CString)
    | FindSlot
    | Refuse
    | ReserveSlot
    | Spawn(newTid: nat)
    | ReceiveRegister(tid: nat, name: CString)
    | CheckName(tid: nat, stray: bool)   // `stray`: the outcome if the check reads past the table
    | Register(tid: nat)
    | EndLoop(tid: nat)
    | CleanUp(tid: nat)
    | CloseOwn(tid: nat)

  // A name as it comes out of a REGISTER line.
  predicate IsName(name: CString) {
    name != "" && Dispatch.IsText(name, MAX_USERNAME_LEN - 1)
  }

  predicate IsThreadStep(step: Step) {
    step.ReceiveRegister? || step.CheckName? || step.Register? || step.EndLoop? || step.CleanUp? || step.CloseOwn?
  }

  predicate Enabled(s: State, step: Step) {
    if IsThreadStep(step) then
      step.tid in s.threads &&
      var pc := s.threads[step.tid].pc;
      match step
      case ReceiveRegister(_, name) => pc.Serving? && IsName(name)
      case CheckName(_, _) => pc.Checking?
      case Register(_) => pc.Registering? && s.threads[step.tid].cli.slot < |s.slots|
      case EndLoop(_) => pc.Serving?
      case CleanUp(_) => pc.Leaving? && s.threads[step.tid].cli.slot < |s.slots|
      case CloseOwn(_) => pc.Closing?
    else
      match step
      case Accept(fd, _) => s.acceptor.Accepting? && fd >= 0 && fd !in s.open
      case FindSlot => s.acceptor.Finding?
      case Refuse => s.acceptor.Refusing?
      case ReserveSlot => s.acceptor.Reserving? && s.acceptor.slot < |s.slots|
      case Spawn(tid) => s.acceptor.Spawning? && tid !in s.threads
  }

  function Go(s: State, tid: nat, pc: ThreadPc): State
    requires tid in s.threads
  {
    s.(threads := s.threads[tid := s.threads[tid].(pc := pc)])
  }

  function Close(s: State, fd: int): State {
    if fd in s.open then s.(open := s.open - {fd}) else s.(badCloses := s.badCloses + 1)
  }

  function Found(s: State): State
    requires s.acceptor.Finding?
  {
    var Finding(fd, ip) := s.acceptor;
    var i := FirstIndex(s.slots, HasFd(-1));
    s.(acceptor := if i < |s.slots| then Reserving(fd, ip, i) else Refusing(fd))
  }

  function Reserved(s: State): State
    requires s.acceptor.Reserving? && s.acceptor.slot < |s.slots|
  {
    var Reserving(fd, ip, i) := s.acceptor;
    s.(slots := Reserve(s.slots, i, fd, ip), acceptor := Spawning(fd, ip, i))
  }

  function Spawned(s: State, tid: nat): State
    requires s.acceptor.Spawning?
  {
    var Spawning(fd, ip, i) := s.acceptor;
    s.(threads := s.threads[tid := Thread(Client(i, fd, "", ip), Serving)],
       open := s.open[fd := ByThread(tid)], acceptor := Accepting)
  }

  function Checked(s: State, tid: nat, stray: bool): State
    requires tid in s.threads && s.threads[tid].pc.Checking?
  {
    var name := s.threads[tid].pc.name;
    var taken := match NameTaken(s.slots, s.count, name) { case Some(dup) => dup case None => stray };
    Go(s, tid, if taken then Leaving else Registering(name))
  }

  // The thread's own copy gets the name, then the whole copy goes into the table.
  function Registered(s: State, tid: nat): State
    requires tid in s.threads && s.threads[tid].pc.Registering? && s.threads[tid].cli.slot < |s.slots|
  {
    var cli := s.threads[tid].cli.(username := s.threads[tid].pc.name);
    s.(slots := s.slots[cli.slot := Record(cli)], count := s.count + 1,
       threads := s.threads[tid := Thread(cli, Serving)])
  }

  function CleanedUp(s: State, tid: nat): State
    requires tid in s.threads && s.threads[tid].cli.slot < |s.slots|
  {
    var cli := s.threads[tid].cli;
    Go(s, tid, Closing).(slots := Vacate(s.slots, cli), count := Uncount(s.count, cli))
  }

  function Apply(s: State, step: Step): State
    requires Enabled(s, step)
  {
    match step
    case Accept(fd, ip) => s.(open := s.open[fd := ByAcceptor], acceptor := Finding(fd, ip))
    case FindSlot => Found(s)
    case Refuse => Close(s, s.acceptor.fd).(acceptor := Accepting)
    case ReserveSlot => Reserved(s)
    case Spawn(tid) => Spawned(s, tid)
    case ReceiveRegister(tid, name) => Go(s, tid, Checking(name))
    case CheckName(tid, stray) => Checked(s, tid, stray)
    case Register(tid) => Registered(s, tid)
    case EndLoop(tid) => Go(s, tid, Leaving)
    case CleanUp(tid) => CleanedUp(s, tid)
    case CloseOwn(tid) => Close(s, s.threads[tid].cli.sockfd).(threads := s.threads - {tid})
  }

  predicate IsRun(s: State, steps: seq<Step>)
    decreases |steps|
  {
    steps == [] || (Enabled(s, steps[0]) && IsRun(Apply(s, steps[0]), steps[1..]))
  }

  function After(s: State, steps: seq<Step>): State
    requires IsRun(s, steps)
    decreases |steps|
  {
    if steps == [] then s else After(Apply(s, steps[0]), steps[1..])
  }

  /* ----- the invariant ----- */

  // The thread still has its slot.
  predicate Serves(s: State, tid: nat, i: nat) {
    tid in s.threads && !s.threads[tid].pc.Closing? && s.threads[tid].cli.slot == i
  }

  predicate ThreadOk(s: State, tid: nat)
    requires tid in s.threads
  {
    var Thread(cli, pc) := s.threads[tid];
    && cli.slot < |s.slots|
    && cli.sockfd in s.open && s.open[cli.sockfd] == ByThread(tid)
    && (pc.Closing? || s.slots[cli.slot] == Record(cli))
    && Dispatch.IsText(cli.username, MAX_USERNAME_LEN - 1)
    && ((pc.Checking? || pc.Registering?) ==> IsName(pc.name))
  }

  predicate AcceptorOk(s: State) {
    && (s.acceptor.Accepting? || (s.acceptor.fd in s.open && s.open[s.acceptor.fd] == ByAcceptor))
    && (s.acceptor.Reserving? ==> Has(s, s.acceptor.slot, -1))
    && (s.acceptor.Spawning? ==> Has(s, s.acceptor.slot, s.acceptor.fd) && s.slots[s.acceptor.slot].ip == s.acceptor.ip)
  }

  // The slot has the descriptor and no name.
  predicate Has(s: State, i: nat, fd: int) {
    i < |s.slots| && s.slots[i].sockfd == fd && s.slots[i].username == ""
  }

  // A slot with a name is served by the thread behind its descriptor.
  predicate SlotOk(s: State, i: nat)
    requires i < |s.slots|
  {
    s.slots[i].username != "" ==>
      && s.slots[i].sockfd in s.open
      && s.open[s.slots[i].sockfd].ByThread?
      && Serves(s, s.open[s.slots[i].sockfd].tid, i)
  }

  predicate FdsOk(s: State) {
    && s.badCloses == 0
    && forall fd :: fd in s.open ==>
         && fd >= 0
         && (match s.open[fd]
             case ByAcceptor => !s.acceptor.Accepting? && s.acceptor.fd == fd
             case ByThread(t) => t in s.threads && s.threads[t].cli.sockfd == fd)
  }

  predicate Inv(s: State) {
    && FdsOk(s)
    && AcceptorOk(s)
    && (forall t :: t in s.threads ==> ThreadOk(s, t))
    && (forall i :: 0 <= i < |s.slots| ==> SlotOk(s, i))
  }

  lemma InitInv(capacity: nat)
    ensures Inv(Init(capacity))
  {
  }

  lemma GoKeepsInv(s: State, tid: nat, pc: ThreadPc)
    requires Inv(s) && tid in s.threads && !s.threads[tid].pc.Closing? && !pc.Closing?
    requires (pc.Checking? || pc.Registering?) ==> IsName(pc.name)
    ensures Inv(Go(s, tid, pc))
  {
    var s' := Go(s, tid, pc);
    forall t | t in s'.threads ensures ThreadOk(s', t) { assert ThreadOk(s, t); }
    forall i | 0 <= i < |s'.slots| ensures SlotOk(s', i) { assert SlotOk(s, i); }
  }

  lemma AcceptorStepKeepsInv(s: State, step: Step)
    requires Inv(s) && Enabled(s, step) && !IsThreadStep(step)
    ensures Inv(Apply(s, step))
  {
    var s' := Apply(s, step);
    forall t | t in s'.threads ensures ThreadOk(s', t) { if t in s.threads { assert ThreadOk(s, t); } }
    forall i | 0 <= i < |s'.slots| ensures SlotOk(s', i) { assert SlotOk(s, i); }
    if step.FindSlot? {
      var i := FirstIndex(s.slots, HasFd(-1));
      if i < |s.slots| { assert SlotOk(s, i); }
    }
  }

  lemma RegisteredKeepsInv(s: State, tid: nat)
    requires Inv(s) && Enabled(s, Register(tid))
    ensures Inv(Apply(s, Register(tid)))
  {
    var s' := Registered(s, tid);
    assert ThreadOk(s, tid);
    forall t | t in s'.threads ensures ThreadOk(s', t) { assert ThreadOk(s, t); }
    forall i | 0 <= i < |s'.slots| ensures SlotOk(s', i) { assert SlotOk(s, i); }
  }

  lemma CleanedUpKeepsInv(s: State, tid: nat)
    requires Inv(s) && Enabled(s, CleanUp(tid))
    ensures Inv(Apply(s, CleanUp(tid)))
  {
    var s' := CleanedUp(s, tid);
    assert ThreadOk(s, tid);
    forall t | t in s'.threads ensures ThreadOk(s', t) { assert ThreadOk(s, t); }
    forall i | 0 <= i < |s'.slots| ensures SlotOk(s', i) { assert SlotOk(s, i); }
  }

  lemma CloseOwnKeepsInv(s: State, tid: nat)
    requires Inv(s) && Enabled(s, CloseOwn(tid))
    ensures Inv(Apply(s, CloseOwn(tid)))
  {
    var s' := Apply(s, CloseOwn(tid));
    assert ThreadOk(s, tid);
    forall t | t in s'.threads ensures ThreadOk(s', t) { assert ThreadOk(s, t); }
    forall i | 0 <= i < |s'.slots| ensures SlotOk(s', i) { assert SlotOk(s, i); }
  }

  lemma StepKeepsInv(s: State, step: Step)
    requires Inv(s) && Enabled(s, step)
    ensures Inv(Apply(s, step))
  {
    if IsThreadStep(step) { assert ThreadOk(s, step.tid); }
    match step
    case ReceiveRegister(tid, name) => GoKeepsInv(s, tid, Checking(name));
    case CheckName(tid, stray) => GoKeepsInv(s, tid, Checked(s, tid, stray).threads[tid].pc);
    case Register(tid) => RegisteredKeepsInv(s, tid);
    case EndLoop(tid) => GoKeepsInv(s, tid, Leaving);
    case CleanUp(tid) => CleanedUpKeepsInv(s, tid);
    case CloseOwn(tid) => CloseOwnKeepsInv(s, tid);
    case _ => AcceptorStepKeepsInv(s, step);
  }

  lemma {:induction false} RunKeepsInv(s: State, steps: seq<Step>)
    requires Inv(s) && IsRun(s, steps)
    ensures Inv(After(s, steps))
    decreases |steps|
  {
    if steps == [] {
    } else {
      StepKeepsInv(s, steps[0]);
      RunKeepsInv(Apply(s, steps[0]), steps[1..]);
    }
  }
}
