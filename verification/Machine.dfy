/** The step machine as an object (domain/fsm.py), and the audit trail run through it. */
module Machine {
  import opened Basics
  import opened Fsm
  import opened Store
  import opened Protocol
  import opened Invariants

  /** Where a list of events leads; None as soon as one of them is illegal. */
  function Fold(state: StepState, events: seq<StepEvent>): Option<StepState> {
    if events == [] then Some(state)
    else
      match Fold(state, events[..|events| - 1])
      case None => None
      case Some(at) => StepNext(at, events[|events| - 1])
  }

  lemma {:induction false} IllegalStays(state: StepState, events: seq<StepEvent>, n: nat)
    requires n <= |events| && Fold(state, events[..n]).None?
    ensures Fold(state, events).None?
    decreases |events| - n
  {
    if n == |events| {
      assert events[..n] == events;
    } else {
      assert events[..n + 1][..n] == events[..n];
      IllegalStays(state, events, n + 1);
    }
  }

  class StepMachine {
    var state: StepState

    constructor (state: StepState)
      ensures this.state == state
    {
      this.state := state;
    }

    /** The new state, or an error that leaves the machine where it was. */
    method Apply(event: StepEvent) returns (r: Result<StepState, string>)
      modifies this
      ensures match StepNext(old(state), event) {
                case Some(next) => state == next && r == Ok(next)
                case None => state == old(state) && r == Err("invalid-transition")
              }
    {
      var next := StepNext(state, event);
      if next.None? { return Err("invalid-transition"); }
      state := next.value;
      r := Ok(state);
    }

    /** All events in order; an illegal one stops the machine after the legal ones before it. */
    method ApplyMany(events: seq<StepEvent>) returns (r: Result<StepState, string>)
      modifies this
      ensures r.Ok? <==> Fold(old(state), events).Some?
      ensures r.Ok? ==> r.value == state && Fold(old(state), events) == Some(state)
      ensures r.Err? ==> exists n: nat :: n < |events| && Fold(old(state), events[..n]) == Some(state) && StepNext(state, events[n]).None?
    {
      for i := 0 to |events|
        invariant Fold(old(state), events[..i]) == Some(state)
      {
        assert events[..i + 1][..i] == events[..i];
        var applied := Apply(events[i]);
        if applied.Err? {
          IllegalStays(old(state), events, i + 1);
          return Err(applied.error);
        }
      }
      assert events[..|events|] == events;
      r := Ok(state);
    }

    /** Back to a given state, or to the initial one. */
    method Reset(to: Option<StepState>)
      modifies this
      ensures state == if to.Some? then to.value else Pending
    {
      state := if to.Some? then to.value else Pending;
    }
  }

  /** The events of a trail. */
  function Events(log: seq<Entry>): seq<StepEvent>
    requires forall i :: 0 <= i < |log| ==> log[i].StepEntry?
  {
    seq(|log|, i requires 0 <= i < |log| => log[i].event)
  }

  lemma {:induction false} TrailFolds(log: seq<Entry>, n: nat)
    requires Chained(log) && 0 < n <= |log|
    ensures Fold(Pending, Events(log)[..n]) == Some(log[n - 1].to)
    decreases n
  {
    var events := Events(log);
    assert events[..n][..n - 1] == events[..n - 1];
    if n > 1 {
      TrailFolds(log, n - 1);
      assert log[n - 1].from == log[n - 2].to;
    }
  }

  /** In every reachable state, a fresh machine that applies a step's audited events ends in the persisted state. */
  lemma TrailRebuildsState(db: Db, n: int)
    requires FlowInv(db) && n in db.steps
    ensures Chained(StepLog(db.audit, n)) && Fold(Pending, Events(StepLog(db.audit, n))) == Some(db.steps[n].state)
  {
    var log := StepLog(db.audit, n);
    assert Chained(log) && Replays(log, db.steps[n]);
    if log != [] {
      TrailFolds(log, |log|);
      assert Events(log)[..|log|] == Events(log);
    }
  }

  /** A machine stops for good exactly in the terminal states. */
  lemma TerminalIsNoExit(state: StepState)
    ensures Terminal(state) <==> forall event :: StepNext(state, event).None?
  {
    var exit := match state
      case Pending => Prepare case Ready => Dispatch case WaitingApproval => Approve case Dispatched => Start
      case Working => Fail case ReportReceived => StartReview case Reviewing => Verify case Revise => Retry
      case Blocked => Unblock case Conflict => Resolve case Failed => Retry case Verified => Abort case Aborted => Abort;
    assert !Terminal(state) ==> StepNext(state, exit).Some?;
  }
}
