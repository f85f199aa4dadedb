// What the table stores about a session, read off the steps of the run: when it was last
// active, and the address it was accepted from.
module SessionHistory {
  import opened Search
  import opened Sessions
  import opened ServerProtocol

  // The step gives the slot a new session.
  predicate Refills(s: State, step: Step, i: nat) {
    step.AddSession? && FirstIndex(s.table, IsFree()) == i && i < |s.table|
  }

  // The step is the locked part of an activity update of the slot.
  predicate Refreshes(s: State, step: Step, i: nat) {
    step.Update? && Enabled(s, step) && s.threads[step.tid].pc.found == i
  }

  // What the steps say about a slot, and about the connection that the acceptor has in hand.
  datatype History = History(acceptedAt: int, acceptedFrom: Address, activeAt: int, from: Address)

  const NO_HISTORY := History(0, NO_ADDRESS, 0, NO_ADDRESS)

  function Noted(s: State, step: Step, i: nat, h: History): History {
    if step.Accept? then h.(acceptedAt := step.now, acceptedFrom := step.addr)
    else if Refills(s, step, i) then h.(activeAt := h.acceptedAt, from := h.acceptedFrom)
    else if Refreshes(s, step, i) then h.(activeAt := step.now)
    else h
  }

  function Recorded(s: State, steps: seq<Step>, i: nat, h: History): History
    requires IsRun(s, steps)
    decreases |steps|
  {
    if steps == [] then h else Recorded(Apply(s, steps[0]), steps[1..], i, Noted(s, steps[0], i, h))
  }

  /** The time of the last activity update of the slot, or, if there was none since the slot
      was filled, of the acceptance of the connection it was filled for. */
  function LastActivity(s: State, steps: seq<Step>, i: nat): int
    requires IsRun(s, steps)
  {
    Recorded(s, steps, i, NO_HISTORY).activeAt
  }

  predicate Stored(s: State, i: nat, h: History) {
    && (s.acceptor.Adding? ==>
         s.acceptor.record.lastActivity == h.acceptedAt && s.acceptor.record.addr == h.acceptedFrom)
    && (i < |s.table| && s.table[i].active ==> s.table[i].lastActivity == h.activeAt && s.table[i].addr == h.from)
  }

  lemma AddStored(s: State, i: nat, h: History)
    requires Enabled(s, AddSession) && Stored(s, i, h)
    ensures Stored(Apply(s, AddSession), i, Noted(s, AddSession, i, h))
  {
    if i < |s.table| && FirstIndex(s.table, IsFree()) != i {
      assert Apply(s, AddSession).table[i] == s.table[i];
    }
  }

  lemma UpdateStored(s: State, step: Step, i: nat, h: History)
    requires Enabled(s, step) && step.Update? && Stored(s, i, h)
    ensures Stored(Apply(s, step), i, Noted(s, step, i, h))
  {
  }

  lemma OtherStored(s: State, step: Step, i: nat, h: History)
    requires Enabled(s, step) && !step.AddSession? && !step.Update? && Stored(s, i, h)
    ensures Stored(Apply(s, step), i, Noted(s, step, i, h))
  {
    var s' := Apply(s, step);
    if i < |s'.table| && s'.table[i].active {
      assert s.table[i].active && s'.table[i].lastActivity == s.table[i].lastActivity && s'.table[i].addr == s.table[i].addr;
    }
  }

  lemma StepStored(s: State, step: Step, i: nat, h: History)
    requires Enabled(s, step) && Stored(s, i, h)
    ensures Stored(Apply(s, step), i, Noted(s, step, i, h))
  {
    hide Apply, Enabled, Stored, Noted;
    match step
    case AddSession => AddStored(s, i, h);
    case Update(_, _) => UpdateStored(s, step, i, h);
    case _ => OtherStored(s, step, i, h);
  }

  lemma {:induction false} RunStored(s: State, steps: seq<Step>, i: nat, h: History)
    requires IsRun(s, steps) && Stored(s, i, h)
    ensures Stored(After(s, steps), i, Recorded(s, steps, i, h))
    decreases |steps|
  {
    if steps == [] {
    } else {
      StepStored(s, steps[0], i, h);
      RunStored(Apply(s, steps[0]), steps[1..], i, Noted(s, steps[0], i, h));
    }
  }

  /** Over every run, an active slot stores the time of its last activity and the address its
      connection was accepted from, whatever handlers, scans and other threads do. */
  lemma ActivityIsStored(capacity: nat, timeout: int, steps: seq<Step>, i: nat)
    requires IsRun(Init(capacity, timeout), steps)
    ensures var s := After(Init(capacity, timeout), steps);
            i < |s.table| && s.table[i].active ==>
              && s.table[i].lastActivity == LastActivity(Init(capacity, timeout), steps, i)
              && s.table[i].addr == Recorded(Init(capacity, timeout), steps, i, NO_HISTORY).from
  {
    RunStored(Init(capacity, timeout), steps, i, NO_HISTORY);
  }
}
