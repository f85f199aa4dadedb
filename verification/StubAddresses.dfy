// Where the addresses in the stub's table come from.
module StubAddresses {
  import opened CStrings
  import opened StubServer
  import StubSafety

  // What the accept loop and the threads carry has been accepted.
  predicate Traced(s: State, accepted: set<(int, CString)>) {
    && (s.acceptor.Finding? || s.acceptor.Reserving? || s.acceptor.Spawning? ==>
         (s.acceptor.fd, s.acceptor.ip) in accepted)
    && (forall t :: t in s.threads ==> (s.threads[t].cli.sockfd, s.threads[t].cli.ip) in accepted)
  }

  function Accepts(steps: seq<Step>): set<(int, CString)> {
    set k | 0 <= k < |steps| && steps[k].Accept? :: (steps[k].fd, steps[k].ip)
  }

  lemma StepTraced(s: State, step: Step, accepted: set<(int, CString)>)
    requires Enabled(s, step) && Traced(s, accepted)
    requires step.Accept? ==> (step.fd, step.ip) in accepted
    ensures Traced(Apply(s, step), accepted)
  {
  }

  lemma {:induction false} RunTraced(s: State, steps: seq<Step>, accepted: set<(int, CString)>)
    requires IsRun(s, steps) && Traced(s, accepted) && Accepts(steps) <= accepted
    ensures Traced(After(s, steps), accepted)
    decreases |steps|
  {
    if steps == [] {
    } else {
      assert steps[0].Accept? ==> (steps[0].fd, steps[0].ip) in Accepts(steps);
      forall k | 0 <= k < |steps[1..]| && steps[1..][k].Accept?
        ensures (steps[1..][k].fd, steps[1..][k].ip) in Accepts(steps)
      {
        assert steps[1..][k] == steps[k + 1];
      }
      StepTraced(s, steps[0], accepted);
      RunTraced(Apply(s, steps[0]), steps[1..], accepted);
    }
  }

  /** Over every run, a thread and a slot with a name each hold the descriptor and the address
      of one and the same accepted connection. */
  lemma AddressIsAccepted(capacity: nat, steps: seq<Step>)
    requires IsRun(Init(capacity), steps)
    ensures var s := After(Init(capacity), steps);
            && (forall t :: t in s.threads ==> Accept(s.threads[t].cli.sockfd, s.threads[t].cli.ip) in steps)
            && (forall i :: 0 <= i < |s.slots| && s.slots[i].username != "" ==>
                  Accept(s.slots[i].sockfd, s.slots[i].ip) in steps)
  {
    var s := After(Init(capacity), steps);
    assert StubSafety.Reachable(s);
    StubSafety.ReachableNamesMatch(s);
    RunTraced(Init(capacity), steps, Accepts(steps));
    forall i | 0 <= i < |s.slots| && s.slots[i].username != ""
      ensures (s.slots[i].sockfd, s.slots[i].ip) in Accepts(steps)
    {
      var t :| StubSafety.Mirrors(s, i, t);
    }
  }
}
