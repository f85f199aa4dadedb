// The server as a transition system. Every step is one critical section, one
// system call, or one read outside the lock, of one of three kinds of thread:
// the acceptor (src/server/accept_loop.c), the client threads
// (src/server/client_thread.c) and the inactivity monitor
// (src/server/inactivity.c). A run interleaves the steps in any order.
module ServerProtocol {
  import opened Search
  import opened Sessions

  /* ----- the kernel's side: descriptors and the connections behind them ----- */

  // Bookkeeping that no step reads: who is responsible for a connection.
  datatype Holder = ByAcceptor | ByThread(tid: nat) | Nobody

  // One accepted connection: its descriptor and how often it has been closed.
  datatype Connection = Connection(fd: int, closes: nat, holder: Holder)

  datatype AcceptorPc =
    | Accepting
    | Adding(conn: nat, record: Session)
    | Rejecting(conn: nat, fd: int)
    | Looking(conn: nat, fd: int, slot: nat)
    | Creating(conn: nat, fd: int, slot: nat)
    | Undoing(conn: nat, fd: int, slot: nat, lookupFailed: bool)
    | Closing(conn: nat, fd: int)
    | Assigning(slot: nat, tid: nat)

  datatype ThreadPc =
    | Starting              // its descriptor not read from the slot yet
    | Greeting
    | Receiving
    | Finding               // first section of update_session_activity
    | Updating(found: nat)  // second section, on the slot found by the first
    | Handling
    | Removing
    | Leaving               // slot vacated, lock released, close still to come

  datatype Thread = Thread(slot: nat, sockfd: int, pc: ThreadPc, conn: nat)

  datatype State = State(
    table: Table,
    open: map<int, nat>,         // open client descriptors and their connections
    conns: seq<Connection>,      // every connection ever accepted
    badCloses: nat,              // calls of close on a descriptor that is not open
    acceptor: AcceptorPc,
    threads: map<nat, Thread>,   // live client threads by thread id
    timeout: int)                // g_inactivity_timeout_seconds, fixed before the threads start

  function Init(capacity: nat, timeout: int): State {
    State(seq(capacity, _ => CLEARED), map[], [], 0, Accepting, map[], timeout)
  }

  /** close(2): the connection behind `fd`, if there is one, is closed once more. */
  function Close(s: State, fd: int): State {
    if fd in s.open && s.open[fd] < |s.conns| then
      var c := s.open[fd];
      s.(open := s.open - {fd}, conns := s.conns[c := s.conns[c].(closes := s.conns[c].closes + 1)])
    else
      s.(badCloses := s.badCloses + 1)
  }

  function Hand(s: State, conn: nat, holder: Holder): State {
    if conn < |s.conns| then s.(conns := s.conns[conn := s.conns[conn].(holder := holder)]) else s
  }

  /* ----- steps ----- */

  datatype Step =
    // acceptor
    | Accept(fd: int, addr: Address, now: int)
    | AddSession
    | Reject
    | LookUp
    | CreateThread(newTid: nat)
    | CreateFails
    | UndoAdd
    | CloseUndone
    | AssignThreadId
    // client threads
    | ReadSockfd(tid: nat)
    | Greet(tid: nat, sent: bool)
    | Receive(tid: nat)
    | FindOwn(tid: nat)
    | Update(tid: nat, now: int)
    | Edit(tid: nat, table: Table)
    | Resume(tid: nat)
    | Quit(tid: nat)
    | RemoveOwn(tid: nat)
    | CloseOwn(tid: nat)
    // inactivity monitor
    | Scan(now: int)

  // A handler may rewrite names, registrations and statuses, nothing else.
  predicate SameButHandled(a: Session, b: Session) {
    b == a.(username := b.username, registered := b.registered, status := b.status)
  }

  predicate HandlersOnly(t: Table, t': Table) {
    |t| == |t'| && forall i :: 0 <= i < |t| ==> SameButHandled(t[i], t'[i])
  }

  predicate IsThreadStep(step: Step) {
    step.ReadSockfd? || step.Greet? || step.Receive? || step.FindOwn? || step.Update? ||
    step.Edit? || step.Resume? || step.Quit? || step.RemoveOwn? || step.CloseOwn?
  }

  predicate Enabled(s: State, step: Step) {
    if IsThreadStep(step) then
      step.tid in s.threads && ThreadEnabled(s, s.threads[step.tid], step)
    else
      match step
      case Accept(fd, _, _) => s.acceptor.Accepting? && fd >= 0 && fd !in s.open
      case AddSession => s.acceptor.Adding?
      case Reject => s.acceptor.Rejecting?
      case LookUp => s.acceptor.Looking?
      case CreateThread(t) => s.acceptor.Creating? && t != 0 && t !in s.threads
      case CreateFails => s.acceptor.Creating?
      case UndoAdd => s.acceptor.Undoing?
      case CloseUndone => s.acceptor.Closing?
      case AssignThreadId => s.acceptor.Assigning? && s.acceptor.slot < |s.table|
      case Scan(_) => true
  }

  predicate ThreadEnabled(s: State, t: Thread, step: Step)
    requires IsThreadStep(step)
  {
    match step
    case ReadSockfd(_) => t.pc.Starting? && t.slot < |s.table|
    case Greet(_, _) => t.pc.Greeting?
    case Receive(_) => t.pc.Receiving?
    case FindOwn(_) => t.pc.Finding?
    case Update(_, _) => t.pc.Updating? && t.pc.found < |s.table|
    case Edit(_, table) => t.pc.Handling? && HandlersOnly(s.table, table)
    case Resume(_) => t.pc.Handling?
    case Quit(_) => t.pc.Receiving? || t.pc.Handling?
    case RemoveOwn(_) => t.pc.Removing?
    case CloseOwn(_) => t.pc.Leaving?
  }

  function Go(s: State, tid: nat, pc: ThreadPc): State
    requires tid in s.threads
  {
    s.(threads := s.threads[tid := s.threads[tid].(pc := pc)])
  }

  function Accepted(s: State, fd: int, addr: Address, now: int): State {
    var c := |s.conns|;
    s.(open := s.open[fd := c],
       conns := s.conns + [Connection(fd, 0, ByAcceptor)],
       acceptor := Adding(c, NewSession(fd, addr, now)))
  }

  function Inserted(s: State): State
    requires s.acceptor.Adding?
  {
    var Adding(c, record) := s.acceptor;
    var i := FirstIndex(s.table, IsFree());
    s.(table := Add(s.table, record),
       acceptor := if i < |s.table| then Looking(c, record.sockfd, i) else Rejecting(c, record.sockfd))
  }

  function LookedUp(s: State): State
    requires s.acceptor.Looking?
  {
    var Looking(c, fd, filled) := s.acceptor;
    var i := FirstIndex(s.table, Holds(fd));
    s.(acceptor := if i < |s.table| then Creating(c, fd, i) else Undoing(c, fd, filled, true))
  }

  function Spawned(s: State, tid: nat): State
    requires s.acceptor.Creating?
  {
    var Creating(c, fd, slot) := s.acceptor;
    Hand(s, c, ByThread(tid))
      .(threads := s.threads[tid := Thread(slot, -1, Starting, c)], acceptor := Assigning(slot, tid))
  }

  function Undone(s: State): State
    requires s.acceptor.Undoing?
  {
    var Undoing(c, fd, _, _) := s.acceptor;
    var i := FirstIndex(s.table, Holds(fd));
    if i < |s.table| then s.(table := Remove(s.table, fd), acceptor := Closing(c, fd))
    else Hand(s, c, Nobody).(acceptor := Accepting)
  }

  function InFlightClosed(s: State): State
    requires s.acceptor.Rejecting? || s.acceptor.Closing?
  {
    Hand(Close(s, s.acceptor.fd), s.acceptor.conn, Nobody).(acceptor := Accepting)
  }

  function Assigned(s: State): State
    requires s.acceptor.Assigning? && s.acceptor.slot < |s.table|
  {
    var Assigning(slot, t) := s.acceptor;
    s.(table := s.table[slot := s.table[slot].(threadId := t)], acceptor := Accepting)
  }

  function Begun(s: State, tid: nat): State
    requires tid in s.threads && s.threads[tid].slot < |s.table|
  {
    var t := s.threads[tid];
    s.(threads := s.threads[tid := t.(pc := Greeting, sockfd := s.table[t.slot].sockfd)])
  }

  function Vacated(s: State, tid: nat): State
    requires tid in s.threads
  {
    var t := s.threads[tid];
    var i := FirstIndex(s.table, Holds(t.sockfd));
    if i < |s.table| then Go(s, tid, Leaving).(table := Remove(s.table, t.sockfd))
    else Hand(s, t.conn, Nobody).(threads := s.threads - {tid})
  }

  function Ended(s: State, tid: nat): State
    requires tid in s.threads
  {
    Hand(Close(s, s.threads[tid].sockfd), s.threads[tid].conn, Nobody).(threads := s.threads - {tid})
  }

  function Apply(s: State, step: Step): State
    requires Enabled(s, step)
  {
    if IsThreadStep(step) then ThreadApply(s, step) else
    match step
    case Accept(fd, addr, now) => Accepted(s, fd, addr, now)
    case AddSession => Inserted(s)
    case Reject => InFlightClosed(s)
    case LookUp => LookedUp(s)
    case CreateThread(t) => Spawned(s, t)
    case CreateFails => s.(acceptor := Undoing(s.acceptor.conn, s.acceptor.fd, s.acceptor.slot, false))
    case UndoAdd => Undone(s)
    case CloseUndone => InFlightClosed(s)
    case AssignThreadId => Assigned(s)
    case Scan(now) => s.(table := MarkAll(s.table, now, s.timeout))
  }

  function ThreadApply(s: State, step: Step): State
    requires IsThreadStep(step) && Enabled(s, step)
  {
    var t := s.threads[step.tid];
    match step
    case ReadSockfd(tid) => Begun(s, tid)
    case Greet(tid, sent) => Go(s, tid, if sent then Receiving else Removing)
    case Receive(tid) => Go(s, tid, Finding)
    case FindOwn(tid) =>
      var i := FirstIndex(s.table, Holds(t.sockfd));
      Go(s, tid, if i < |s.table| then Updating(i) else Handling)
    case Update(tid, now) =>
      Go(s, tid, Handling).(table := s.table[t.pc.found := Refreshed(s.table[t.pc.found], now)])
    case Edit(_, table) => s.(table := table)
    case Resume(tid) => Go(s, tid, Receiving)
    case Quit(tid) => Go(s, tid, Removing)
    case RemoveOwn(tid) => Vacated(s, tid)
    case CloseOwn(tid) => Ended(s, tid)
  }

  /* ----- runs ----- */

  predicate IsRun(s: State, steps: seq<Step>)
    decreases |steps|
  {
    steps == [] || (Enabled(s, steps[0]) && IsRun(Apply(s, steps[0]), steps[1..]))
  }

  function After(s: State, steps: seq<Step>): State
    requires IsRun(s, steps)
    decreases |steps|
  {
    if steps == [] then s else After(Apply(s, steps[0]), steps[1..])
  }

  /* ----- the invariant ----- */

  predicate KernelOk(s: State) {
    && s.badCloses == 0
    && (forall fd :: fd in s.open ==> s.open[fd] < |s.conns| && s.conns[s.open[fd]].fd == fd && s.conns[s.open[fd]].closes == 0)
    && (forall c :: 0 <= c < |s.conns| ==>
         && s.conns[c].closes <= 1
         && (s.conns[c].closes == 0 <==> s.conns[c].fd in s.open && s.open[s.conns[c].fd] == c)
         && (s.conns[c].closes == 1 <==> s.conns[c].holder == Nobody)
         && (s.conns[c].holder.ByThread? ==> s.conns[c].holder.tid in s.threads && s.threads[s.conns[c].holder.tid].conn == c)
         && (s.conns[c].holder.ByAcceptor? ==> Carries(s.acceptor, c)))
  }

  predicate Carries(pc: AcceptorPc, c: nat) {
    !pc.Accepting? && !pc.Assigning? && pc.conn == c
  }

  // The slot belongs to the connection: active, and holding its descriptor.
  predicate Occupies(s: State, slot: nat, fd: int) {
    slot < |s.table| && s.table[slot].active && s.table[slot].sockfd == fd
  }

  predicate ThreadOk(s: State, tid: nat)
    requires tid in s.threads
  {
    var t := s.threads[tid];
    && tid != 0
    && t.conn < |s.conns|
    && s.conns[t.conn].holder == ByThread(tid)
    && (t.pc.Starting? || t.sockfd == s.conns[t.conn].fd)
    && (t.pc.Leaving? || Occupies(s, t.slot, s.conns[t.conn].fd))
    && (t.pc.Updating? ==> t.pc.found == t.slot)
  }

  predicate AcceptorOk(s: State) {
    match s.acceptor
    case Accepting => true
    case Adding(c, r) => Carried(s, c, r.sockfd) && r.threadId == 0 && r.active
    case Rejecting(c, fd) => Carried(s, c, fd)
    case Looking(c, fd, i) => Carried(s, c, fd) && Occupies(s, i, fd)
    case Creating(c, fd, i) => Carried(s, c, fd) && Occupies(s, i, fd)
    case Undoing(c, fd, i, lookupFailed) => Carried(s, c, fd) && !lookupFailed && Occupies(s, i, fd)
    case Closing(c, fd) => Carried(s, c, fd)
    case Assigning(i, t) => i < |s.table| && t != 0 && (s.table[i].active ==> Owns(s, t, i))
  }

  predicate Carried(s: State, c: nat, fd: int) {
    c < |s.conns| && s.conns[c].holder == ByAcceptor && s.conns[c].fd == fd
  }

  // The thread owns the slot: it is the one its main function was given, and
  // the thread has not removed its session yet.
  predicate Owns(s: State, tid: nat, slot: nat) {
    tid in s.threads && s.threads[tid].slot == slot && !s.threads[tid].pc.Leaving?
  }

  // Between the insertion and the start of the thread the acceptor owns the slot.
  predicate AcceptorOwns(s: State, slot: nat) {
    && (s.acceptor.Looking? || s.acceptor.Creating? || s.acceptor.Undoing?)
    && s.acceptor.slot == slot
  }

  predicate SlotOk(s: State, i: nat)
    requires i < |s.table|
  {
    var slot := s.table[i];
    slot.active ==>
      && slot.sockfd in s.open
      && s.open[slot.sockfd] < |s.conns|
      && (match s.conns[s.open[slot.sockfd]].holder
          case ByThread(t) => Owns(s, t, i)
          case ByAcceptor => AcceptorOwns(s, i)
          case Nobody => false)
      && (slot.threadId == 0 || s.conns[s.open[slot.sockfd]].holder == ByThread(slot.threadId))
  }

  predicate Inv(s: State) {
    && KernelOk(s)
    && AcceptorOk(s)
    && (forall t :: t in s.threads ==> ThreadOk(s, t))
    && (forall i :: 0 <= i < |s.table| ==> SlotOk(s, i))
  }

  predicate DistinctDescriptors(s: State) {
    forall i, j :: 0 <= i < j < |s.table| && s.table[i].active && s.table[j].active ==>
      s.table[i].sockfd != s.table[j].sockfd
  }

  lemma InitInv(capacity: nat, timeout: int)
    ensures Inv(Init(capacity, timeout))
  {
  }

  lemma InvDistinct(s: State)
    requires Inv(s)
    ensures DistinctDescriptors(s)
  {
    forall i, j | 0 <= i < j < |s.table| && s.table[i].active && s.table[j].active
      ensures s.table[i].sockfd != s.table[j].sockfd
    {
      assert SlotOk(s, i) && SlotOk(s, j);
    }
  }

  /** A descriptor lookup returns the one slot that the connection occupies. */
  lemma LookupFinds(s: State, slot: nat, fd: int)
    requires Inv(s) && Occupies(s, slot, fd)
    ensures FirstIndex(s.table, Holds(fd)) == slot
  {
    InvDistinct(s);
  }

  /* ----- every step keeps the invariant ----- */

  predicate SameOwnership(t: Table, t': Table) {
    |t| == |t'| && forall i :: 0 <= i < |t| ==>
      t'[i].active == t[i].active && t'[i].sockfd == t[i].sockfd && t'[i].threadId == t[i].threadId
  }

  // Update, Edit and Scan: names, registrations, statuses and times are free.
  lemma RetableKeepsInv(s: State, table: Table)
    requires Inv(s) && SameOwnership(s.table, table)
    ensures Inv(s.(table := table))
  {
    var s' := s.(table := table);
    forall t | t in s'.threads ensures ThreadOk(s', t) { assert ThreadOk(s, t); }
    forall i | 0 <= i < |s'.table| ensures SlotOk(s', i) { assert SlotOk(s, i); }
  }

  // A client thread moves on without giving up its session.
  lemma GoKeepsInv(s: State, tid: nat, pc: ThreadPc)
    requires Inv(s) && tid in s.threads
    requires !s.threads[tid].pc.Starting? && !s.threads[tid].pc.Leaving? && !pc.Starting? && !pc.Leaving?
    requires pc.Updating? ==> pc.found == s.threads[tid].slot
    ensures Inv(Go(s, tid, pc))
  {
    var s' := Go(s, tid, pc);
    assert ThreadOk(s, tid);
    forall t | t in s'.threads ensures ThreadOk(s', t) { assert ThreadOk(s, t); }
    forall i | 0 <= i < |s'.table| ensures SlotOk(s', i) { assert SlotOk(s, i); }
  }

  lemma AcceptedKeepsInv(s: State, fd: int, addr: Address, now: int)
    requires Inv(s) && s.acceptor.Accepting? && fd >= 0 && fd !in s.open
    ensures Inv(Accepted(s, fd, addr, now))
  {
    var s' := Accepted(s, fd, addr, now);
    forall t | t in s'.threads ensures ThreadOk(s', t) { assert ThreadOk(s, t); }
    forall i | 0 <= i < |s'.table| ensures SlotOk(s', i) { assert SlotOk(s, i); }
  }

  lemma InsertedKeepsInv(s: State)
    requires Inv(s) && s.acceptor.Adding?
    ensures Inv(Inserted(s))
  {
    var s' := Inserted(s);
    forall t | t in s'.threads ensures ThreadOk(s', t) { assert ThreadOk(s, t); }
    forall i | 0 <= i < |s'.table| ensures SlotOk(s', i) { assert SlotOk(s, i); }
  }

  lemma LookedUpKeepsInv(s: State)
    requires Inv(s) && s.acceptor.Looking?
    ensures Inv(LookedUp(s))
  {
    var s' := LookedUp(s);
    LookupFinds(s, s.acceptor.slot, s.acceptor.fd);
    forall t | t in s'.threads ensures ThreadOk(s', t) { assert ThreadOk(s, t); }
    forall i | 0 <= i < |s'.table| ensures SlotOk(s', i) { assert SlotOk(s, i); }
  }

  lemma SpawnedKeepsInv(s: State, tid: nat)
    requires Inv(s) && s.acceptor.Creating? && tid != 0 && tid !in s.threads
    ensures Inv(Spawned(s, tid))
  {
    var s' := Spawned(s, tid);
    forall t | t in s'.threads ensures ThreadOk(s', t) { if t in s.threads { assert ThreadOk(s, t); } }
    forall i | 0 <= i < |s'.table| ensures SlotOk(s', i) { assert SlotOk(s, i); }
  }

  lemma CreateFailedKeepsInv(s: State)
    requires Inv(s) && s.acceptor.Creating?
    ensures Inv(s.(acceptor := Undoing(s.acceptor.conn, s.acceptor.fd, s.acceptor.slot, false)))
  {
    var s' := s.(acceptor := Undoing(s.acceptor.conn, s.acceptor.fd, s.acceptor.slot, false));
    forall t | t in s'.threads ensures ThreadOk(s', t) { assert ThreadOk(s, t); }
    forall i | 0 <= i < |s'.table| ensures SlotOk(s', i) { assert SlotOk(s, i); }
  }

  lemma UndoneKeepsInv(s: State)
    requires Inv(s) && s.acceptor.Undoing?
    ensures Inv(Undone(s))
  {
    var s' := Undone(s);
    LookupFinds(s, s.acceptor.slot, s.acceptor.fd);
    forall t | t in s'.threads ensures ThreadOk(s', t) { assert ThreadOk(s, t); }
    forall i | 0 <= i < |s'.table| ensures SlotOk(s', i) { assert SlotOk(s, i); }
  }

  lemma InFlightClosedKeepsInv(s: State)
    requires Inv(s) && (s.acceptor.Rejecting? || s.acceptor.Closing?)
    ensures Inv(InFlightClosed(s))
  {
    var s' := InFlightClosed(s);
    forall t | t in s'.threads ensures ThreadOk(s', t) { assert ThreadOk(s, t); }
    forall i | 0 <= i < |s'.table| ensures SlotOk(s', i) { assert SlotOk(s, i); }
  }

  lemma AssignedKeepsInv(s: State)
    requires Inv(s) && s.acceptor.Assigning?
    ensures Inv(Assigned(s))
  {
    var s' := Assigned(s);
    forall t | t in s'.threads ensures ThreadOk(s', t) { assert ThreadOk(s, t); }
    forall i | 0 <= i < |s'.table| ensures SlotOk(s', i) { assert SlotOk(s, i); }
  }

  lemma BegunKeepsInv(s: State, tid: nat)
    requires Inv(s) && tid in s.threads && s.threads[tid].pc.Starting? && s.threads[tid].slot < |s.table|
    ensures Inv(Begun(s, tid))
  {
    var s' := Begun(s, tid);
    var t := s.threads[tid];
    assert ThreadOk(s, tid);
    forall t | t in s'.threads ensures ThreadOk(s', t) { assert ThreadOk(s, t); }
    forall i | 0 <= i < |s'.table| ensures SlotOk(s', i) { assert SlotOk(s, i); }
  }

  lemma VacatedSlots(s: State, tid: nat)
    requires Inv(s) && tid in s.threads && s.threads[tid].pc.Removing?
    ensures forall i :: 0 <= i < |Vacated(s, tid).table| ==> SlotOk(Vacated(s, tid), i)
    ensures Vacated(s, tid) == Go(s, tid, Leaving).(table := s.table[s.threads[tid].slot := VACATED])
  {
    var s' := Vacated(s, tid);
    var t := s.threads[tid];
    assert ThreadOk(s, tid);
    LookupFinds(s, t.slot, t.sockfd);
    forall i | 0 <= i < |s'.table| ensures SlotOk(s', i) { assert SlotOk(s, i); }
  }

  lemma VacatedKeepsInv(s: State, tid: nat)
    requires Inv(s) && tid in s.threads && s.threads[tid].pc.Removing?
    ensures Inv(Vacated(s, tid))
  {
    hide Vacated;
    VacatedSlots(s, tid);
    var s' := Vacated(s, tid);
    assert ThreadOk(s, tid);
    forall t | t in s'.threads ensures ThreadOk(s', t) { assert ThreadOk(s, t); }
  }

  lemma EndedKeepsInv(s: State, tid: nat)
    requires Inv(s) && tid in s.threads && s.threads[tid].pc.Leaving?
    ensures Inv(Ended(s, tid))
  {
    var s' := Ended(s, tid);
    var t := s.threads[tid];
    assert ThreadOk(s, tid);
    forall t | t in s'.threads ensures ThreadOk(s', t) { assert ThreadOk(s, t); }
    forall i | 0 <= i < |s'.table| ensures SlotOk(s', i) { assert SlotOk(s, i); }
  }

  lemma StepKeepsInv(s: State, step: Step)
    requires Inv(s) && Enabled(s, step)
    ensures Inv(Apply(s, step))
  {
    if IsThreadStep(step) {
      ThreadStepKeepsInv(s, step);
    } else {
      match step
      case Accept(fd, addr, now) => AcceptedKeepsInv(s, fd, addr, now);
      case AddSession => InsertedKeepsInv(s);
      case LookUp => LookedUpKeepsInv(s);
      case CreateThread(tid) => SpawnedKeepsInv(s, tid);
      case CreateFails => CreateFailedKeepsInv(s);
      case UndoAdd => UndoneKeepsInv(s);
      case AssignThreadId => AssignedKeepsInv(s);
      case Scan(now) => RetableKeepsInv(s, MarkAll(s.table, now, s.timeout));
      case _ => InFlightClosedKeepsInv(s);
    }
  }

  lemma ThreadStepKeepsInv(s: State, step: Step)
    requires Inv(s) && Enabled(s, step) && IsThreadStep(step)
    ensures Inv(Apply(s, step))
  {
    var t := s.threads[step.tid];
    assert ThreadOk(s, step.tid);
    match step
    case ReadSockfd(tid) => BegunKeepsInv(s, tid);
    case Greet(tid, sent) => GoKeepsInv(s, tid, if sent then Receiving else Removing);
    case Receive(tid) => GoKeepsInv(s, tid, Finding);
    case FindOwn(tid) =>
      LookupFinds(s, t.slot, t.sockfd);
      GoKeepsInv(s, tid, Updating(t.slot));
    case Update(tid, now) =>
      GoKeepsInv(s, tid, Handling);
      RetableKeepsInv(Go(s, tid, Handling), Apply(s, step).table);
    case Edit(_, table) => RetableKeepsInv(s, table);
    case Resume(tid) => GoKeepsInv(s, tid, Receiving);
    case Quit(tid) => GoKeepsInv(s, tid, Removing);
    case RemoveOwn(tid) => VacatedKeepsInv(s, tid);
    case CloseOwn(tid) => EndedKeepsInv(s, tid);
  }

  /** Every state of every run satisfies the invariant. */
  lemma {:induction false} RunKeepsInv(s: State, steps: seq<Step>)
    requires Inv(s) && IsRun(s, steps)
    ensures Inv(After(s, steps))
    decreases |steps|
  {
    if steps == [] {
    } else {
      StepKeepsInv(s, steps[0]);
      RunKeepsInv(Apply(s, steps[0]), steps[1..]);
    }
  }
}
