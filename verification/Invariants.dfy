/**
  What every command keeps. A change is a legal move when it obeys the laws of one transition of
  the current step; the loop, the approval gate and the human override only ever make legal moves
  (Moves.dfy), and a legal move keeps the workflow invariant.
 */
module Invariants {
  import opened Basics
  import opened Fsm
  import opened Store
  import opened Transactions
  import opened Protocol

  // -- the workflow invariant ------------------------------------------------------

  predicate StepOk(s: Step) {
    && s.stepNo >= 1 && s.maxAttempts >= 1 && 0 <= s.attempt <= s.maxAttempts
    && (!s.state.Pending? ==> s.attempt >= 1)
    && (s.state.Revise? ==> s.attempt < s.maxAttempts)
    && !s.state.Conflict?
  }

  /** Attempts stay in range, REVISE always has one left, CONFLICT is never reached. */
  ghost predicate StepsOk(db: Db) {
    forall n <- db.steps :: db.steps[n].stepNo == n && StepOk(db.steps[n])
  }

  /** A step leaves PENDING only when every lower step is VERIFIED. */
  ghost predicate VerifiedPrefix(db: Db) {
    forall m, n :: m in db.steps && n in db.steps && m < n && !db.steps[n].state.Pending? ==> db.steps[m].state.Verified?
  }

  /** The state the subordinate task row must be in while its step is in the given state. */
  function TaskStateFor(state: StepState): Option<TaskState> {
    match state
    case Dispatched => Some(TaskDispatched)
    case Working => Some(TaskDispatched)
    case ReportReceived => Some(TaskReported)
    case Reviewing => Some(TaskReported)
    case Failed => Some(TaskFailed)
    case _ => None
  }

  ghost predicate TaskInStep(db: Db, s: Step) {
    TaskStateFor(s.state).Some? ==>
      KeyOf(s) in db.tasks && db.tasks[KeyOf(s)].state == TaskStateFor(s.state).value
  }

  ghost predicate TasksInStep(db: Db) {
    && (forall k <- db.tasks :: db.tasks[k].key == k)
    && (forall n <- db.steps :: TaskInStep(db, db.steps[n]))
  }

  /** A VERIFIED step has an ACCEPTED realization decision for exactly its attempt. */
  ghost predicate Evidenced(db: Db, s: Step) {
    s.state.Verified? ==>
      KeyOf(s) in db.decisions && db.decisions[KeyOf(s)].verdict.Accepted? && db.decisions[KeyOf(s)].key == KeyOf(s)
  }

  ghost predicate VerifiedEvidence(db: Db) {
    forall n <- db.steps :: Evidenced(db, db.steps[n])
  }

  /** The step entries of one step, in the order they were appended. */
  function StepLog(audit: seq<Entry>, n: int): seq<Entry> {
    if audit == [] then []
    else
      var last := audit[|audit| - 1];
      StepLog(audit[..|audit| - 1], n) + (if last.StepEntry? && last.stepNo == n then [last] else [])
  }

  /** A legal trail: it starts at PENDING, each target is the next source, each triple is in the table. */
  predicate Chained(log: seq<Entry>) {
    && (forall i :: 0 <= i < |log| ==> log[i].StepEntry? && StepNext(log[i].from, log[i].event) == Some(log[i].to))
    && (forall i :: 0 < i < |log| ==> log[i].from == log[i - 1].to)
    && (log != [] ==> log[0].from.Pending?)
  }

  /** Replaying the trail ends in the persisted state and attempt. */
  predicate Replays(log: seq<Entry>, s: Step) {
    if log == [] then s.state.Pending?
    else
      var last := log[|log| - 1];
      last.StepEntry? && last.to == s.state && last.attempt == s.attempt
  }

  ghost predicate AuditReplays(db: Db) {
    forall n <- db.steps :: Chained(StepLog(db.audit, n)) && Replays(StepLog(db.audit, n), db.steps[n])
  }

  ghost predicate FlowInv(db: Db) {
    StepsOk(db) && VerifiedPrefix(db) && TasksInStep(db) && VerifiedEvidence(db) && AuditReplays(db)
  }

  // -- legal moves ---------------------------------------------------------------------

  predicate LoopEvent(event: StepEvent, from: StepState) {
    match event
    case Approve => false
    case Reject => false
    case Unblock => false
    case Resolve => false
    case RaiseConflict => false
    case Block => from.Reviewing?
    case Abort => from.Failed?
    case _ => true
  }

  predicate HumanEventOk(event: StepEvent) {
    event.Approve? || event.Reject? || event.Unblock? || event.Resolve? || event.Abort?
  }

  function AttemptAfter(before: Step, event: StepEvent): int {
    match event
    case Prepare => Max(before.attempt, 1)
    case Retry => before.attempt + 1
    case _ => before.attempt
  }

  predicate Dispatches(event: StepEvent) {
    event.Dispatch? || event.Approve?
  }

  /** The identity of a step never changes. */
  predicate SameIdentity(a: Step, b: Step) {
    a.stepNo == b.stepNo && a.title == b.title && a.risk == b.risk && a.requiresHuman == b.requiresHuman
    && a.maxAttempts == b.maxAttempts
  }

  ghost predicate TaskLaw(db: Db, c: Change) {
    var key := KeyOf(c.after);
    if Dispatches(c.event) then
      c.task.Some? && c.task.value.key == key && c.task.value.state.TaskDispatched?
    else if c.event.ReceiveReport? || c.event.Fail? then
      c.task.Some? && c.task.value.key == key
      && c.task.value.state == (if c.event.Fail? then TaskFailed else TaskReported)
    else c.task.None?
  }

  predicate EvidenceLaw(c: Change) {
    && (c.evidence.Some? ==> c.before.state.Reviewing? && c.evidence.value.decision.key == KeyOf(c.after))
    && (c.evidence.Some? ==> c.evidence.value.decision.verdict.Accepted? == c.event.Verify?)
    && (c.evidence.Some? ==> (c.evidence.value.findings == []) == c.event.Verify?)
    && (c.event.Verify? ==> c.evidence.Some?)
  }

  /** A dispatch publishes its context, naming every earlier step, and its task. */
  ghost predicate PublicationLaw(db: Db, c: Change) {
    if Dispatches(c.event) then
      c.publication.Some?
      && c.publication.value.task.key == KeyOf(c.after)
      && c.publication.value.context == ContextFile(c.after.stepNo, set m <- db.steps | m < c.after.stepNo)
    else c.publication.None?
  }

  ghost predicate ValidMove(db: Db, c: Change) {
    var n := c.before.stepNo;
    && n in db.steps && db.steps[n] == c.before && IsCurrent(db.steps, n)
    && SameIdentity(c.before, c.after)
    && StepNext(c.before.state, c.event) == Some(c.after.state)
    && c.after.attempt == AttemptAfter(c.before, c.event)
    && ((c.event.Retry? || c.event.RequestRevise?) ==> c.before.attempt < c.before.maxAttempts)
    && c.entry.StepEntry? && c.entry.stepNo == n && c.entry.event == c.event
    && c.entry.from == c.before.state && c.entry.to == c.after.state && c.entry.attempt == c.after.attempt
    && (if c.entry.author.Loop? then LoopEvent(c.event, c.before.state) else HumanEventOk(c.event))
    && TaskLaw(db, c) && EvidenceLaw(c) && PublicationLaw(db, c)
  }

  // -- preservation -----------------------------------------------------------------------

  lemma StepsOkKept(db: Db, c: Change)
    requires FlowInv(db) && ValidMove(db, c)
    ensures StepsOk(Commit(db, c))
  {
    assert StepOk(c.before);
    assert StepOk(c.after);
  }

  lemma VerifiedPrefixKept(db: Db, c: Change)
    requires FlowInv(db) && ValidMove(db, c)
    ensures VerifiedPrefix(Commit(db, c))
  {
    var db' := Commit(db, c);
    forall m, n | m in db'.steps && n in db'.steps && m < n && !db'.steps[n].state.Pending?
      ensures db'.steps[m].state.Verified?
    {
      if n == c.after.stepNo {
        assert db.steps[m].state.Verified?;
      } else {
        assert db.steps[m].state.Verified?;
        assert m != c.after.stepNo;
      }
    }
  }

  lemma TasksInStepKept(db: Db, c: Change)
    requires FlowInv(db) && ValidMove(db, c)
    ensures TasksInStep(Commit(db, c))
  {
    var db' := Commit(db, c);
    forall n | n in db'.steps
      ensures TaskInStep(db', db'.steps[n])
    {
      assert n in db.steps && TaskInStep(db, db.steps[n]);
      if n == c.after.stepNo {
        assert TaskInStep(db, c.before);
      }
    }
  }

  lemma VerifiedEvidenceKept(db: Db, c: Change)
    requires FlowInv(db) && ValidMove(db, c)
    ensures VerifiedEvidence(Commit(db, c))
  {
    var db' := Commit(db, c);
    forall n | n in db'.steps
      ensures Evidenced(db', db'.steps[n])
    {
      assert n in db.steps && Evidenced(db, db.steps[n]);
    }
  }

  lemma StepLogSnoc(audit: seq<Entry>, e: Entry, n: int)
    ensures StepLog(audit + [e], n) ==
            StepLog(audit, n) + (if e.StepEntry? && e.stepNo == n then [e] else [])
  {
    assert (audit + [e])[..|audit|] == audit;
  }

  lemma AuditReplaysKept(db: Db, c: Change)
    requires FlowInv(db) && ValidMove(db, c)
    ensures AuditReplays(Commit(db, c))
  {
    var db' := Commit(db, c);
    forall n | n in db'.steps
      ensures Chained(StepLog(db'.audit, n)) && Replays(StepLog(db'.audit, n), db'.steps[n])
    {
      var log := StepLog(db.audit, n);
      StepLogSnoc(db.audit, c.entry, n);
      assert Chained(log) && Replays(log, db.steps[n]);
      if n == c.before.stepNo {
        assert StepLog(db'.audit, n) == log + [c.entry];
      } else {
        assert StepLog(db'.audit, n) == log;
      }
    }
  }

  /** Every legal move of every actor keeps the whole workflow invariant. */
  lemma MoveKeepsInvariant(db: Db, c: Change)
    requires FlowInv(db) && ValidMove(db, c)
    ensures FlowInv(Commit(db, c))
  {
    StepsOkKept(db, c);
    VerifiedPrefixKept(db, c);
    TasksInStepKept(db, c);
    VerifiedEvidenceKept(db, c);
    AuditReplaysKept(db, c);
  }

  /** A VERIFIED step, its decision and everything about it are final. */
  lemma VerifiedIsFinal(db: Db, c: Change, n: int)
    requires FlowInv(db) && ValidMove(db, c)
    requires n in db.steps && db.steps[n].state.Verified?
    ensures Commit(db, c).steps[n] == db.steps[n]
    ensures Commit(db, c).decisions[KeyOf(db.steps[n])] == db.decisions[KeyOf(db.steps[n])]
  {
    assert Evidenced(db, db.steps[n]);
  }

  /** A step other than the current one cannot be moved by anybody. */
  lemma OnlyCurrentIsOpen(db: Db, n: int)
    requires FlowInv(db) && n in db.steps
    requires !db.steps[n].state.Pending? && !db.steps[n].state.Verified?
    ensures IsCurrent(db.steps, n)
  {
  }

  lemma CurrentIsUnique(steps: map<int, Step>, m: int, n: int)
    requires IsCurrent(steps, m) && IsCurrent(steps, n)
    ensures m == n
  {
  }
}
