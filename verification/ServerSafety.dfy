// What holds in every reachable state of the server, for every table size and
// every interleaving, stated without the bookkeeping of the invariant.
module ServerSafety {
  import opened Search
  import opened Sessions
  import opened ServerProtocol

  ghost predicate Reachable(s: State) {
    exists capacity: nat, timeout: int, steps: seq<Step> :: IsRun(Init(capacity, timeout), steps) && After(Init(capacity, timeout), steps) == s
  }

  lemma ReachableInv(s: State)
    requires Reachable(s)
    ensures Inv(s)
  {
    var capacity: nat, timeout: int, steps :| IsRun(Init(capacity, timeout), steps) && After(Init(capacity, timeout), steps) == s;
    InitInv(capacity, timeout);
    RunKeepsInv(Init(capacity, timeout), steps);
  }

  /* ----- ownership of slots ----- */

  // A client thread that has not removed its session yet.
  ghost predicate Live(s: State, tid: nat) {
    tid in s.threads && !s.threads[tid].pc.Leaving?
  }

  ghost predicate OwnsExactlyOne(s: State, tid: nat)
    requires tid in s.threads
  {
    var t := s.threads[tid];
    && t.conn < |s.conns|
    && Occupies(s, t.slot, s.conns[t.conn].fd)
    && (!t.pc.Starting? ==> t.sockfd == s.conns[t.conn].fd)
    && forall i :: Occupies(s, i, s.conns[t.conn].fd) ==> i == t.slot
  }

  ghost predicate SlotsOwned(s: State) {
    && DistinctDescriptors(s)
    && (forall i :: 0 <= i < |s.table| && s.table[i].active ==> s.table[i].sockfd in s.open)
    && (forall t :: Live(s, t) ==> OwnsExactlyOne(s, t))
    && (forall t, u :: Live(s, t) && Live(s, u) && t != u ==> s.threads[t].slot != s.threads[u].slot)
    && (forall i :: 0 <= i < |s.table| && s.table[i].active ==> HasOwner(s, i))
  }

  // The acceptor or a live thread will vacate the slot.
  ghost predicate HasOwner(s: State, i: nat) {
    AcceptorOwns(s, i) || exists t :: Owns(s, t, i)
  }

  /** Active slots have distinct, open descriptors; each live thread owns one slot, its own; and
      no active slot is without an owner, so none leaks. */
  lemma ReachableSlotsOwned(s: State)
    requires Reachable(s)
    ensures SlotsOwned(s)
  {
    ReachableInv(s);
    InvDistinct(s);
    forall t | Live(s, t) ensures OwnsExactlyOne(s, t) {
      assert ThreadOk(s, t);
    }
    forall t, u | Live(s, t) && Live(s, u) && t != u ensures s.threads[t].slot != s.threads[u].slot {
      assert ThreadOk(s, t) && ThreadOk(s, u);
    }
    forall i | 0 <= i < |s.table| && s.table[i].active ensures s.table[i].sockfd in s.open && HasOwner(s, i) {
      assert SlotOk(s, i);
    }
  }

  /* ----- conservation of descriptors ----- */

  function SlotFds(s: State): set<int> {
    set i | 0 <= i < |s.table| && s.table[i].active :: s.table[i].sockfd
  }

  // Accepted, and not in the table: before the insertion, or after a removal.
  function InFlightFds(s: State): set<int> {
    match s.acceptor
    case Adding(_, record) => {record.sockfd}
    case Rejecting(_, fd) => {fd}
    case Closing(_, fd) => {fd}
    case _ => {}
  }

  function LeavingFds(s: State): set<int> {
    set t | t in s.threads && s.threads[t].pc.Leaving? :: s.threads[t].sockfd
  }

  ghost predicate FdsConserved(s: State) {
    && s.open.Keys == SlotFds(s) + InFlightFds(s) + LeavingFds(s)
    && SlotFds(s) !! InFlightFds(s) !! LeavingFds(s)
  }

  /** The open descriptors are exactly the three kinds the program still accounts for. */
  lemma ReachableFdsConserved(s: State)
    requires Reachable(s)
    ensures FdsConserved(s)
  {
    ReachableInv(s);
    forall i | 0 <= i < |s.table| && s.table[i].active
      ensures s.table[i].sockfd in s.open && s.table[i].sockfd !in InFlightFds(s) + LeavingFds(s)
    {
      assert SlotOk(s, i);
      forall t | t in s.threads && s.threads[t].pc.Leaving? ensures s.threads[t].sockfd != s.table[i].sockfd {
        assert ThreadOk(s, t);
      }
    }
    forall t | t in s.threads && s.threads[t].pc.Leaving?
      ensures s.threads[t].sockfd in s.open && s.threads[t].sockfd !in InFlightFds(s)
    {
      assert ThreadOk(s, t);
    }
    forall fd | fd in s.open ensures fd in SlotFds(s) + InFlightFds(s) + LeavingFds(s) {
      var c := s.open[fd];
      match s.conns[c].holder
      case Nobody =>
      case ByAcceptor =>
      case ByThread(t) => assert ThreadOk(s, t);
    }
  }

  // Somebody still has to deal with the connection.
  ghost predicate InProgress(s: State, c: nat) {
    Carries(s.acceptor, c) || exists t :: t in s.threads && s.threads[t].conn == c
  }

  ghost predicate ClosedOnce(s: State) {
    && s.badCloses == 0
    && forall c :: 0 <= c < |s.conns| ==> s.conns[c].closes == if InProgress(s, c) then 0 else 1
  }

  /** No connection is closed twice, none is closed early, and none is forgotten. */
  lemma ReachableClosedOnce(s: State)
    requires Reachable(s)
    ensures ClosedOnce(s)
  {
    ReachableInv(s);
    forall c | 0 <= c < |s.conns| ensures s.conns[c].closes == if InProgress(s, c) then 0 else 1 {
      forall t | t in s.threads && s.threads[t].conn == c ensures s.conns[c].closes == 0 {
        assert ThreadOk(s, t);
      }
    }
  }

  /* ----- the acceptor's late steps ----- */

  ghost predicate ThreadIdsTrue(s: State) {
    forall i :: 0 <= i < |s.table| && s.table[i].active && s.table[i].threadId != 0 ==>
      Live(s, s.table[i].threadId) && s.threads[s.table[i].threadId].slot == i
  }

  /** A stored thread id is that of the slot's present owner, however late it was stored. */
  lemma ReachableThreadIdsTrue(s: State)
    requires Reachable(s)
    ensures ThreadIdsTrue(s)
  {
    ReachableInv(s);
    forall i | 0 <= i < |s.table| && s.table[i].active && s.table[i].threadId != 0
      ensures Live(s, s.table[i].threadId) && s.threads[s.table[i].threadId].slot == i
    {
      assert SlotOk(s, i);
    }
  }

  ghost predicate IsAcceptorStep(step: Step) {
    !IsThreadStep(step) && !step.Scan?
  }

  lemma {:induction false} OthersLeaveAcceptor(s: State, steps: seq<Step>)
    requires IsRun(s, steps) && forall k :: 0 <= k < |steps| ==> !IsAcceptorStep(steps[k])
    ensures After(s, steps).acceptor == s.acceptor
    decreases |steps|
  {
    if steps == [] {
    } else {
      assert !IsAcceptorStep(steps[0]);
      OthersLeaveAcceptor(Apply(s, steps[0]), steps[1..]);
    }
  }

  lemma {:induction false} RunsCompose(s: State, a: seq<Step>, b: seq<Step>)
    requires IsRun(s, a) && IsRun(After(s, a), b)
    ensures IsRun(s, a + b) && After(s, a + b) == After(After(s, a), b)
    decreases |a|
  {
    if a == [] {
      assert a + b == b;
    } else {
      assert (a + b)[1..] == a[1..] + b;
      RunsCompose(Apply(s, a[0]), a[1..], b);
    }
  }

  lemma RunExtends(s: State, steps: seq<Step>, step: Step)
    requires IsRun(s, steps) && Enabled(After(s, steps), step)
    ensures IsRun(s, steps + [step]) && After(s, steps + [step]) == Apply(After(s, steps), step)
  {
    assert [step][1..] == [];
    RunsCompose(s, steps, [step]);
  }

  lemma ReachableAfter(s: State, steps: seq<Step>)
    requires Reachable(s) && IsRun(s, steps)
    ensures Reachable(After(s, steps))
  {
    var capacity: nat, timeout: int, before :| IsRun(Init(capacity, timeout), before) && After(Init(capacity, timeout), before) == s;
    RunsCompose(Init(capacity, timeout), before, steps);
  }

  lemma LookUpSucceeds(s: State)
    requires Reachable(s) && s.acceptor.Looking?
    ensures Enabled(s, LookUp)
    ensures Apply(s, LookUp).acceptor == Creating(s.acceptor.conn, s.acceptor.fd, s.acceptor.slot)
  {
    ReachableInv(s);
    LookupFinds(s, s.acceptor.slot, s.acceptor.fd);
  }

  /** The lookup after a successful insertion returns the slot just filled, whatever happens in between. */
  lemma LookupReturnsFilledSlot(s: State, between: seq<Step>)
    requires Reachable(s) && s.acceptor.Adding? && (exists i :: 0 <= i < |s.table| && !s.table[i].active)
    requires IsRun(Apply(s, AddSession), between)
    requires forall k :: 0 <= k < |between| ==> !IsAcceptorStep(between[k])
    ensures var i := FirstIndex(s.table, IsFree());
            var mid := After(Apply(s, AddSession), between);
            && Enabled(mid, LookUp)
            && Apply(mid, LookUp).acceptor == Creating(s.acceptor.conn, s.acceptor.record.sockfd, i)
  {
    var s1 := Apply(s, AddSession);
    ReachableAfter(s, [AddSession]);
    assert After(s, [AddSession]) == s1;
    ReachableAfter(s1, between);
    OthersLeaveAcceptor(s1, between);
    LookUpSucceeds(After(s1, between));
  }

  /** The branch for a lookup that returned NULL is never taken. */
  lemma LookupNeverFails(s: State)
    requires Reachable(s)
    ensures s.acceptor.Undoing? ==> !s.acceptor.lookupFailed
  {
    ReachableInv(s);
  }

  /* ----- the split activity update ----- */

  lemma {:induction false} OthersLeaveThread(s: State, tid: nat, steps: seq<Step>)
    requires IsRun(s, steps) && tid in s.threads
    requires forall k :: 0 <= k < |steps| ==> !(IsThreadStep(steps[k]) && steps[k].tid == tid)
    ensures tid in After(s, steps).threads && After(s, steps).threads[tid] == s.threads[tid]
    decreases |steps|
  {
    if steps == [] {
    } else {
      assert !(IsThreadStep(steps[0]) && steps[0].tid == tid);
      OthersLeaveThread(Apply(s, steps[0]), tid, steps[1..]);
    }
  }

  lemma FindOwnFindsOwn(s: State, tid: nat)
    requires Reachable(s) && tid in s.threads && s.threads[tid].pc == Finding
    ensures Apply(s, FindOwn(tid)) == Go(s, tid, Updating(s.threads[tid].slot))
    ensures Reachable(Apply(s, FindOwn(tid)))
  {
    var t := s.threads[tid];
    ReachableInv(s);
    assert ThreadOk(s, tid);
    LookupFinds(s, t.slot, t.sockfd);
    ReachableAfter(s, [FindOwn(tid)]);
    assert After(s, [FindOwn(tid)]) == Apply(s, FindOwn(tid));
  }

  lemma UpdateIsTouch(s: State, tid: nat, now: int)
    requires Reachable(s) && tid in s.threads && s.threads[tid].pc.Updating?
    ensures var Thread(own, fd, _, _) := s.threads[tid];
            && Enabled(s, Update(tid, now))
            && Occupies(s, own, fd)
            && Apply(s, Update(tid, now)) == Go(s, tid, Handling).(table := Touch(s.table, fd, now))
            && Touch(s.table, fd, now) == s.table[own := Refreshed(s.table[own], now)]
    ensures var own := Apply(s, Update(tid, now)).table[s.threads[tid].slot];
            own.lastActivity == now && own.status != Inactivo
  {
    var t := s.threads[tid];
    ReachableInv(s);
    assert ThreadOk(s, tid);
    LookupFinds(s, t.slot, t.sockfd);
  }

  /** Find, any steps of the others, then the locked update: one indivisible update of the caller's session. */
  lemma ActivityUpdateIsAtomic(s: State, tid: nat, between: seq<Step>, now: int)
    requires Reachable(s) && tid in s.threads && s.threads[tid].pc == Finding
    requires IsRun(Apply(s, FindOwn(tid)), between)
    requires forall k :: 0 <= k < |between| ==> !(IsThreadStep(between[k]) && between[k].tid == tid)
    ensures var own := s.threads[tid].slot;
            var fd := s.threads[tid].sockfd;
            var mid := After(Apply(s, FindOwn(tid)), between);
            && Enabled(mid, Update(tid, now))
            && Occupies(mid, own, fd)
            && Apply(mid, Update(tid, now)) == Go(mid, tid, Handling).(table := Touch(mid.table, fd, now))
            && Touch(mid.table, fd, now) == mid.table[own := Refreshed(mid.table[own], now)]
  {
    FindOwnFindsOwn(s, tid);
    var s1 := Apply(s, FindOwn(tid));
    ReachableAfter(s1, between);
    OthersLeaveThread(s1, tid, between);
    UpdateIsTouch(After(s1, between), tid, now);
  }
}
