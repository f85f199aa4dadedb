// Inactivity: when a session is INACTIVO, and what lies between two notices of
// the monitor (src/server/inactivity.c) about the same session.
module Inactivity {
  import opened Search
  import opened Sessions
  import opened ServerProtocol
  import opened ServerSafety
  import opened SessionHistory

  // No handler changes a status: the run contains no STATUS command.
  predicate KeepsStatuses(s: State, step: Step) {
    step.Edit? ==>
      && |step.table| == |s.table|
      && forall i :: 0 <= i < |s.table| ==> step.table[i].status == s.table[i].status
  }

  predicate IsQuietRun(s: State, steps: seq<Step>): (quiet: bool)
    ensures quiet ==> IsRun(s, steps)
    decreases |steps|
  {
    steps == [] ||
    (Enabled(s, steps[0]) && KeepsStatuses(s, steps[0]) && IsQuietRun(Apply(s, steps[0]), steps[1..]))
  }

  /* ----- INACTIVO exactly when a scan since the last activity found it overdue ----- */

  function Seen(s: State, step: Step, i: nat, seen: seq<int>): seq<int> {
    if Refills(s, step, i) || Refreshes(s, step, i) then []
    else if step.Scan? then seen + [step.now]
    else seen
  }

  /** The times of the scans of the slot since its last refill or activity update. */
  function ScansSince(s: State, steps: seq<Step>, i: nat, seen: seq<int> := []): seq<int>
    requires IsQuietRun(s, steps)
    decreases |steps|
  {
    if steps == [] then seen
    else
      ScansSince(Apply(s, steps[0]), steps[1..], i, Seen(s, steps[0], i, seen))
  }

  ghost predicate SawOverdue(s: State, i: nat, scans: seq<int>)
    requires i < |s.table|
  {
    exists now :: now in scans && now - s.table[i].lastActivity >= s.timeout
  }

  ghost predicate StatusExact(s: State, i: nat, scans: seq<int>) {
    && (s.acceptor.Adding? ==> s.acceptor.record.status == Activo)
    && (i < |s.table| && s.table[i].active ==> (s.table[i].status == Inactivo <==> SawOverdue(s, i, scans)))
  }

  lemma {:induction false} StatusStaysExact(s: State, steps: seq<Step>, i: nat, seen: seq<int>)
    requires IsQuietRun(s, steps) && StatusExact(s, i, seen)
    ensures StatusExact(After(s, steps), i, ScansSince(s, steps, i, seen))
    decreases |steps|
  {
    if steps == [] {
    } else {
      StatusStepExact(s, steps[0], i, seen);
      StatusStaysExact(Apply(s, steps[0]), steps[1..], i, Seen(s, steps[0], i, seen));
    }
  }

  lemma ScanStepExact(s: State, now: int, i: nat, seen: seq<int>)
    requires StatusExact(s, i, seen)
    ensures StatusExact(Apply(s, Scan(now)), i, Seen(s, Scan(now), i, seen))
  {
    var s' := Apply(s, Scan(now));
    if i < |s.table| && s.table[i].active {
      if SawOverdue(s, i, seen) {
        var t :| t in seen && t - s.table[i].lastActivity >= s.timeout;
        assert t in seen + [now];
      } else if SawOverdue(s', i, seen + [now]) {
        var t :| t in seen + [now] && t - s'.table[i].lastActivity >= s.timeout;
        assert t == now;
      } else {
        assert now in seen + [now];
      }
    }
  }

  lemma UpdateStepExact(s: State, step: Step, i: nat, seen: seq<int>)
    requires Enabled(s, step) && step.Update? && StatusExact(s, i, seen)
    ensures StatusExact(Apply(s, step), i, Seen(s, step, i, seen))
  {
    var s' := Apply(s, step);
    if i < |s.table| && s.table[i].active {
      assert SawOverdue(s, i, seen) ==> s.threads[step.tid].pc.found == i || SawOverdue(s', i, seen);
    }
  }

  lemma AddStepExact(s: State, i: nat, seen: seq<int>)
    requires Enabled(s, AddSession) && StatusExact(s, i, seen)
    ensures StatusExact(Apply(s, AddSession), i, Seen(s, AddSession, i, seen))
  {
    if i < |s.table| && FirstIndex(s.table, IsFree()) != i {
      assert Apply(s, AddSession).table[i] == s.table[i];
    }
  }

  // Steps that neither refill nor refresh the slot and are no scans.
  lemma OtherStepExact(s: State, step: Step, i: nat, seen: seq<int>)
    requires Enabled(s, step) && KeepsStatuses(s, step) && StatusExact(s, i, seen)
    requires !step.Scan? && !step.Update? && !step.AddSession?
    ensures StatusExact(Apply(s, step), i, Seen(s, step, i, seen))
  {
    var s' := Apply(s, step);
    if i < |s'.table| && s'.table[i].active {
      assert s.table[i].active && s'.table[i].status == s.table[i].status
             && s'.table[i].lastActivity == s.table[i].lastActivity;
    }
  }

  lemma StatusStepExact(s: State, step: Step, i: nat, seen: seq<int>)
    requires Enabled(s, step) && KeepsStatuses(s, step) && StatusExact(s, i, seen)
    ensures StatusExact(Apply(s, step), i, Seen(s, step, i, seen))
  {
    hide Apply, Enabled, StatusExact, Seen, KeepsStatuses;
    match step
    case Scan(now) => ScanStepExact(s, now, i, seen);
    case Update(_, _) => UpdateStepExact(s, step, i, seen);
    case AddSession => AddStepExact(s, i, seen);
    case _ => OtherStepExact(s, step, i, seen);
  }

  /** In a run without STATUS commands an active session is INACTIVO exactly when some scan
      since its last activity came at least `timeout` seconds after it; the time of the last
      activity is that of the update or of the connection, read off the steps. */
  lemma InactiveExactly(capacity: nat, timeout: int, steps: seq<Step>, i: nat)
    requires IsQuietRun(Init(capacity, timeout), steps)
    ensures var s := After(Init(capacity, timeout), steps);
            var scans := ScansSince(Init(capacity, timeout), steps, i);
            var active := LastActivity(Init(capacity, timeout), steps, i);
            i < |s.table| && s.table[i].active ==>
              (s.table[i].status == Inactivo <==> exists now :: now in scans && now - active >= timeout)
  {
    hide Apply, ScansSince, After, IsRun, IsQuietRun, LastActivity;
    StatusStaysExact(Init(capacity, timeout), steps, i, []);
    TimeoutFixed(Init(capacity, timeout), steps);
    ActivityIsStored(capacity, timeout, steps, i);
    var s := After(Init(capacity, timeout), steps);
    var scans := ScansSince(Init(capacity, timeout), steps, i);
    assert StatusExact(s, i, scans) && s.timeout == timeout;
  }

  lemma {:induction false} TimeoutFixed(s: State, steps: seq<Step>)
    requires IsRun(s, steps)
    ensures After(s, steps).timeout == s.timeout
    decreases |steps|
  {
    if steps == [] {
    } else {
      TimeoutFixed(Apply(s, steps[0]), steps[1..]);
    }
  }

  /* ----- what lies between two notices about one session ----- */

  // A scan at `now` marks the session in the slot and queues a notice about it.
  predicate Notices(s: State, now: int, i: nat) {
    i < |s.table| && Overdue(s.table[i], now, s.timeout)
  }

  datatype Event =
    | Refill   // the slot is given a new session
    | Refresh  // the locked part of an activity update of the slot
    | Line     // recv_line returns a line to the slot's owner

  predicate Is(s: State, step: Step, i: nat, event: Event) {
    match event
    case Refill => Refills(s, step, i)
    case Refresh => Refreshes(s, step, i)
    case Line => step.Receive? && Owns(s, step.tid, i)
  }

  predicate Occurs(s: State, steps: seq<Step>, i: nat, event: Event)
    requires IsRun(s, steps)
    decreases |steps|
  {
    steps != [] && (Is(s, steps[0], i, event) || Occurs(Apply(s, steps[0]), steps[1..], i, event))
  }

  // The slot cannot cause a notice before it is refilled or refreshed.
  predicate Silent(s: State, i: nat) {
    i < |s.table| && (s.table[i].active ==> s.table[i].status == Inactivo)
  }

  lemma StepStaysSilent(s: State, step: Step, i: nat)
    requires Enabled(s, step) && KeepsStatuses(s, step) && Silent(s, i)
    requires !Refills(s, step, i) && !Refreshes(s, step, i)
    ensures Silent(Apply(s, step), i)
  {
    var s' := Apply(s, step);
    assert s'.table[i].active ==> s.table[i].active && s'.table[i].status == s.table[i].status;
  }

  lemma {:induction false} StaysSilent(s: State, steps: seq<Step>, i: nat)
    requires IsQuietRun(s, steps) && Silent(s, i)
    requires !Occurs(s, steps, i, Refill) && !Occurs(s, steps, i, Refresh)
    ensures Silent(After(s, steps), i)
    decreases |steps|
  {
    if steps == [] {
    } else {
      assert !Is(s, steps[0], i, Refill) && !Is(s, steps[0], i, Refresh);
      StepStaysSilent(s, steps[0], i);
      StaysSilent(Apply(s, steps[0]), steps[1..], i);
    }
  }

  // The scan at `now` notices slot i, and after `rest` a scan at `later` notices the same session again.
  predicate NoticedAgain(s: State, now: int, i: nat, rest: seq<Step>, later: int) {
    && Notices(s, now, i)
    && IsQuietRun(Apply(s, Scan(now)), rest)
    && !Occurs(Apply(s, Scan(now)), rest, i, Refill)
    && Notices(After(Apply(s, Scan(now)), rest), later, i)
  }

  /** Between two notices about one session its activity has been updated. */
  lemma UpdateBetweenNotices(s: State, now: int, i: nat, rest: seq<Step>, later: int)
    requires NoticedAgain(s, now, i, rest, later)
    ensures Occurs(Apply(s, Scan(now)), rest, i, Refresh)
  {
    if !Occurs(Apply(s, Scan(now)), rest, i, Refresh) {
      StaysSilent(Apply(s, Scan(now)), rest, i);
    }
  }

  // The owner has received a line and not yet updated the session's activity.
  ghost predicate MidUpdate(s: State, i: nat) {
    exists t :: Owns(s, t, i) && (s.threads[t].pc.Finding? || s.threads[t].pc.Updating?)
  }

  lemma StepStaysIdle(s: State, step: Step, i: nat)
    requires Inv(s) && Enabled(s, step) && !MidUpdate(s, i) && !Is(s, step, i, Line)
    ensures !MidUpdate(Apply(s, step), i) && !Refreshes(s, step, i)
  {
    hide KernelOk, AcceptorOk, SlotOk;
    var s' := Apply(s, step);
    if IsThreadStep(step) { assert ThreadOk(s, step.tid); }
    forall t | Owns(s', t, i) ensures !s'.threads[t].pc.Finding? && !s'.threads[t].pc.Updating? {
      if t in s.threads { assert ThreadOk(s, t); }
    }
  }

  lemma {:induction false} NoLineNoRefresh(s: State, steps: seq<Step>, i: nat)
    requires Inv(s) && IsRun(s, steps) && !MidUpdate(s, i) && !Occurs(s, steps, i, Line)
    ensures !Occurs(s, steps, i, Refresh)
    decreases |steps|
  {
    if steps == [] {
    } else {
      StepStaysIdle(s, steps[0], i);
      StepKeepsInv(s, steps[0]);
      NoLineNoRefresh(Apply(s, steps[0]), steps[1..], i);
    }
  }

  predicate ReadsClock(step: Step) {
    step.Accept? || step.Update? || step.Scan?
  }

  // The clock never goes backwards: it stands at `from`, and every reading is at least the one before.
  predicate ClockAdvances(from: int, steps: seq<Step>)
    decreases |steps|
  {
    steps == [] ||
    if ReadsClock(steps[0]) then from <= steps[0].now && ClockAdvances(steps[0].now, steps[1..])
    else ClockAdvances(from, steps[1..])
  }

  // `rest` neither refills the slot nor receives a line for it, and leaves the session overdue at `later`.
  predicate OverdueWithoutLine(s: State, i: nat, rest: seq<Step>, later: int) {
    && IsQuietRun(s, rest)
    && !Occurs(s, rest, i, Refill)
    && !Occurs(s, rest, i, Line)
    && Notices(After(s, rest), later, i)
  }

  // When a session updated at `now` is overdue again.
  function NextDue(s: State, now: int): (later: int)
    ensures now <= later && later - now >= s.timeout
  {
    if s.timeout > 0 then now + s.timeout else now
  }

  lemma OverdueFromUpdating(s: State, i: nat, tid: nat, now: int)
    requires Reachable(s) && Owns(s, tid, i) && s.threads[tid].pc.Updating?
    ensures OverdueWithoutLine(s, i, [Update(tid, now)], NextDue(s, now))
  {
    UpdateIsTouch(s, tid, now);
    var rest := [Update(tid, now)];
    var s' := Apply(s, rest[0]);
    assert rest[1..] == [] && After(s, rest) == s';
    assert s'.table[i] == Refreshed(s.table[i], now);
  }

  lemma OverdueFromFinding(s: State, i: nat, tid: nat, now: int)
    requires Reachable(s) && Owns(s, tid, i) && s.threads[tid].pc.Finding?
    ensures OverdueWithoutLine(s, i, [FindOwn(tid), Update(tid, now)], NextDue(s, now))
  {
    FindOwnFindsOwn(s, tid);
    var rest := [FindOwn(tid), Update(tid, now)];
    OverdueFromUpdating(Apply(s, FindOwn(tid)), i, tid, now);
    assert rest[1..] == [Update(tid, now)];
  }

  // A session caught in the middle of an update can be noticed again without another line.
  lemma NoticedAgainWithoutLine(s: State, now: int, i: nat, tid: nat) returns (rest: seq<Step>, later: int)
    requires Reachable(s) && Notices(s, now, i)
    requires Owns(s, tid, i) && (s.threads[tid].pc.Finding? || s.threads[tid].pc.Updating?)
    ensures NoticedAgain(s, now, i, rest, later) && !Occurs(Apply(s, Scan(now)), rest, i, Line)
    ensures ClockAdvances(now, rest + [Scan(later)])
  {
    var s1 := Apply(s, Scan(now));
    ReachableAfter(s, [Scan(now)]);
    assert After(s, [Scan(now)]) == s1;
    later := NextDue(s, now);
    AdvancesToScan(tid, now, later);
    if s.threads[tid].pc.Updating? {
      rest := [Update(tid, now)];
      OverdueFromUpdating(s1, i, tid, now);
    } else {
      rest := [FindOwn(tid), Update(tid, now)];
      OverdueFromFinding(s1, i, tid, now);
    }
  }

  lemma AdvancesToScan(tid: nat, now: int, later: int)
    requires now <= later
    ensures ClockAdvances(now, [Update(tid, now)] + [Scan(later)])
    ensures ClockAdvances(now, [FindOwn(tid), Update(tid, now)] + [Scan(later)])
  {
    var steps := [FindOwn(tid), Update(tid, now)] + [Scan(later)];
    var updating := [Update(tid, now)] + [Scan(later)];
    assert steps[1..] == updating && updating[1..] == [Scan(later)] && [Scan(later)][1..] == [];
    assert ClockAdvances(now, [Scan(later)]);
  }

  /** Two notices about one session always have a received line between them exactly when
      the first does not fall between a line and the activity update it causes. When it
      does not, no clock can bring a second notice without a line; when it does, one that
      never goes backwards can. */
  lemma LineBetweenNotices(s: State, now: int, i: nat)
    requires Reachable(s) && Notices(s, now, i)
    ensures !MidUpdate(s, i) ==>
              forall rest, later :: NoticedAgain(s, now, i, rest, later) ==>
                Occurs(Apply(s, Scan(now)), rest, i, Line)
    ensures MidUpdate(s, i) ==>
              exists rest, later :: NoticedAgain(s, now, i, rest, later) && ClockAdvances(now, rest + [Scan(later)]) &&
                !Occurs(Apply(s, Scan(now)), rest, i, Line)
  {
    ReachableInv(s);
    var s1 := Apply(s, Scan(now));
    StepKeepsInv(s, Scan(now));
    if MidUpdate(s, i) {
      var tid :| Owns(s, tid, i) && (s.threads[tid].pc.Finding? || s.threads[tid].pc.Updating?);
      var rest, later := NoticedAgainWithoutLine(s, now, i, tid);
    } else {
      StepStaysIdle(s, Scan(now), i);
      forall rest, later | NoticedAgain(s, now, i, rest, later) ensures Occurs(s1, rest, i, Line) {
        UpdateBetweenNotices(s, now, i, rest, later);
        if !Occurs(s1, rest, i, Line) { NoLineNoRefresh(s1, rest, i); }
      }
    }
  }

  // One client connects, is greeted and sends a line, all at time 0.
  const ONE_LINE: seq<Step> :=
    [Accept(3, NO_ADDRESS, 0), AddSession, LookUp, CreateThread(1), ReadSockfd(1), Greet(1, true), Receive(1)]

  lemma OneLineConnects()
    ensures IsRun(Init(1, 5), ONE_LINE[..4])
    ensures var s := After(Init(1, 5), ONE_LINE[..4]);
            s.table == [NewSession(3, NO_ADDRESS, 0)] && s.timeout == 5 && s.threads == map[1 := Thread(0, -1, Starting, 0)]
  {
    var s0 := Init(1, 5);
    RunExtends(s0, [], ONE_LINE[0]);
    RunExtends(s0, [] + [ONE_LINE[0]], ONE_LINE[1]);
    RunExtends(s0, [] + [ONE_LINE[0]] + [ONE_LINE[1]], ONE_LINE[2]);
    RunExtends(s0, [] + [ONE_LINE[0]] + [ONE_LINE[1]] + [ONE_LINE[2]], ONE_LINE[3]);
    assert ONE_LINE[..4] == [] + [ONE_LINE[0]] + [ONE_LINE[1]] + [ONE_LINE[2]] + [ONE_LINE[3]];
  }

  lemma OneLineRuns()
    ensures IsRun(Init(1, 5), ONE_LINE)
    ensures var s := After(Init(1, 5), ONE_LINE);
            s.table == [NewSession(3, NO_ADDRESS, 0)] && s.timeout == 5 && s.threads == map[1 := Thread(0, 3, Finding, 0)]
  {
    OneLineConnects();
    var s0, start := Init(1, 5), ONE_LINE[..4];
    RunExtends(s0, start, ONE_LINE[4]);
    RunExtends(s0, start + [ONE_LINE[4]], ONE_LINE[5]);
    RunExtends(s0, start + [ONE_LINE[4]] + [ONE_LINE[5]], ONE_LINE[6]);
    assert ONE_LINE == start + [ONE_LINE[4]] + [ONE_LINE[5]] + [ONE_LINE[6]];
  }

  // All of it with the first scan, the update and the second scan.
  const TWO_NOTICES: seq<Step> := ONE_LINE + [Scan(5), FindOwn(1), Update(1, 5), Scan(10)]

  /** A concrete run, on a clock that never goes backwards, with two notices about one
      session and no line received between them. */
  lemma TwoNoticesNoLine()
    ensures ClockAdvances(0, TWO_NOTICES)
    ensures IsRun(Init(1, 5), ONE_LINE)
    ensures var s := After(Init(1, 5), ONE_LINE);
            && NoticedAgain(s, 5, 0, [FindOwn(1), Update(1, 5)], 10)
            && !Occurs(Apply(s, Scan(5)), [FindOwn(1), Update(1, 5)], 0, Line)
  {
    OneLineRuns();
    var s := After(Init(1, 5), ONE_LINE);
    assert Reachable(s);
    ReachableAfter(s, [Scan(5)]);
    assert After(s, [Scan(5)]) == Apply(s, Scan(5));
    OverdueFromFinding(Apply(s, Scan(5)), 0, 1, 5);
    OneLineClock();
  }

  lemma AdvancesStep(from: int, step: Step, rest: seq<Step>)
    ensures ClockAdvances(from, [step] + rest) <==>
            if ReadsClock(step) then from <= step.now && ClockAdvances(step.now, rest) else ClockAdvances(from, rest)
  {
    assert ([step] + rest)[1..] == rest;
  }

  lemma {:induction false} AdvancesWithout(from: int, steps: seq<Step>, rest: seq<Step>)
    requires forall k :: 0 <= k < |steps| ==> !ReadsClock(steps[k])
    ensures ClockAdvances(from, steps + rest) <==> ClockAdvances(from, rest)
  {
    if steps == [] {
      assert steps + rest == rest;
    } else {
      assert steps + rest == [steps[0]] + (steps[1..] + rest);
      AdvancesStep(from, steps[0], steps[1..] + rest);
      AdvancesWithout(from, steps[1..], rest);
    }
  }

  lemma OneLineClock()
    ensures ClockAdvances(0, TWO_NOTICES)
  {
    var noticed := [FindOwn(1), Update(1, 5)] + [Scan(10)];
    AdvancesToScan(1, 5, 10);
    AdvancesStep(0, Scan(5), noticed);
    AdvancesWithout(0, ONE_LINE[1..], [Scan(5)] + noticed);
    AdvancesStep(0, ONE_LINE[0], ONE_LINE[1..] + ([Scan(5)] + noticed));
    assert TWO_NOTICES == [ONE_LINE[0]] + (ONE_LINE[1..] + ([Scan(5)] + noticed));
  }
}
