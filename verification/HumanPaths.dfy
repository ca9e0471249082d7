/** The two human write paths: approvals (application/approval.py) and overrides (application/human_override.py). */
module HumanPaths {
  import opened Basics
  import opened Fsm
  import opened Store
  import opened Transactions
  import opened Protocol
  import opened ProtocolScripts
  import opened Connections
  import opened Orchestration

  /** What the caller of a human command gets back. */
  function StepResult(reply: Reply): Result<Step, string> {
    match reply
    case Moved(c, _) => Ok(c.after)
    case Raised(error, _, _) => Err(error)
    case _ => Err("")
  }

  function ProjectResult(reply: Reply): Result<Project, string> {
    match reply
    case Controlled(project, _) => Ok(project)
    case Raised(error, _, _) => Err(error)
    case _ => Err("")
  }

  /** The actor and the reason, before anything is read. */
  function RequireContext(actor: string, reason: string): Option<string> {
    if Blank(actor) then Some("actor-required") else if Blank(reason) then Some("reason-required") else None
  }

  class ApprovalGate {
    const storage: Connection
    const worker: WorkerChannel

    constructor (storage: Connection, worker: WorkerChannel)
      ensures this.storage == storage && this.worker == worker
    {
      this.storage, this.worker := storage, worker;
    }

    ghost predicate Valid()
      reads this, storage
    {
      storage.Valid() && storage.depth == 0 && worker.journal == storage.journal
    }

    /** The target of the event, pinned to what this gate may realize. */
    method Target(step: Step, event: StepEvent, expected: StepState) returns (r: Option<StepState>)
      ensures r == if StepNext(step.state, event) == Some(expected) && !expected.Verified? then Some(expected) else None
    {
      var next := StepNext(step.state, event);
      if next.None? { return None; }
      if next.value.Verified? || next.value != expected { return None; }
      return Some(next.value);
    }

    /** The human go-ahead: validated, then published, then committed. */
    method Approve(n: int, actor: string, reason: string, env: Env) returns (r: Result<Step, string>)
      requires Valid()
      modifies storage, storage.journal, worker
      ensures Valid()
      ensures var reply := ApproveReply(old(storage.committed), n, actor, reason, env);
              Carried(storage, worker, reply, []) && r == StepResult(reply)
    {
      hide RowsKeyed, Blank, ExecDb, Row, Apply;
      NoFilesChange(worker.files);
      if RequireContext(actor, reason).Some? { return Err(RequireContext(actor, reason).value); }
      if n !in storage.working.steps { return Err("step-not-found"); }
      var step := storage.working.steps[n];
      var to := Target(step, StepEvent.Approve, Dispatched);
      if to.None? { return Err("invalid-transition"); }
      var attempt := Max(step.attempt, 1);
      var dispatched := PublishTask(storage, worker, step, attempt, env);
      NoFilesChange(worker.files);
      if dispatched.Err? { return Err(dispatched.error); }
      var updated := step.(state := to.value, attempt := attempt, lastUpdateAt := Some(env.now));
      if step.startedAt.None? {
        updated := updated.(startedAt := Some(env.now));
      }
      var entry := StepEntry(step.stepNo, StepEvent.Approve, step.state, to.value, attempt, Human(actor, "approve_step"), reason, env.now);
      ghost var published := storage.journal.log;
      PersistRows(storage, updated, Some(dispatched.value), entry);
      PublishedThenMoved(ApproveReply(old(storage.committed), n, actor, reason, env), old(storage.journal.log), published);
      r := Ok(updated);
    }

    /** Back to READY, where the approval policy decides again. */
    method Reject(n: int, actor: string, reason: string, now: int) returns (r: Result<Step, string>)
      requires Valid()
      modifies storage, storage.journal
      ensures Valid()
      ensures var reply := RejectReply(old(storage.committed), n, actor, reason, now);
              Stored(storage, reply, []) && r == StepResult(reply)
    {
      hide RowsKeyed, Blank, ExecDb, Row, Apply;
      if RequireContext(actor, reason).Some? { return Err(RequireContext(actor, reason).value); }
      if n !in storage.working.steps { return Err("step-not-found"); }
      var step := storage.working.steps[n];
      var to := Target(step, StepEvent.Reject, Ready);
      if to.None? { return Err("invalid-transition"); }
      var updated := step.(state := to.value, lastUpdateAt := Some(now));
      var entry := StepEntry(step.stepNo, StepEvent.Reject, step.state, to.value, step.attempt, Human(actor, "reject_step"), reason, now);
      PersistRows(storage, updated, None, entry);
      r := Ok(updated);
    }
  }

  class HumanOverride {
    const storage: Connection

    constructor (storage: Connection)
      ensures this.storage == storage
    {
      this.storage := storage;
    }

    ghost predicate Valid()
      reads this, storage
    {
      storage.Valid() && storage.depth == 0
    }

    /** Exactly one event of the step table on exactly one persisted step. */
    method ApplyStepEvent(n: int, command: HumanStepCommand, actor: string, reason: string, now: int) returns (r: Result<Step, string>)
      requires Valid()
      modifies storage, storage.journal
      ensures Valid()
      ensures var reply := OverrideReply(old(storage.committed), n, command, actor, reason, now);
              Stored(storage, reply, []) && r == StepResult(reply)
    {
      hide RowsKeyed, Blank, ExecDb, Row, Apply, StepNext, HumanEvent, OperationName;
      if RequireContext(actor, reason).Some? { return Err(RequireContext(actor, reason).value); }
      if n !in storage.working.steps { return Err("step-not-found"); }
      var step := storage.working.steps[n];
      var event := HumanEvent(command);
      var to := StepNext(step.state, event);
      if to.None? { return Err("invalid-transition"); }
      NoHumanVerifies(step.state, command);
      var updated := Record(step, event, to.value, Human(actor, OperationName(command)), reason, now);
      r := Ok(updated);
    }

    /** The step in its new state, with its audit entry. */
    method Record(step: Step, event: StepEvent, to: StepState, author: Author, reason: string, now: int) returns (updated: Step)
      requires Valid() && StepNext(step.state, event) == Some(to) && !to.Verified?
      modifies storage, storage.journal
      ensures Valid()
      ensures var reply := Reported(Transition(step, event, step.attempt, author, reason, now, false, None, None, None), false);
              Stored(storage, reply, []) && StepResult(reply) == Ok(updated)
    {
      hide RowsKeyed, ExecDb, StepNext;
      updated := step.(state := to, lastUpdateAt := Some(now));
      if to.Aborted? {
        updated := updated.(finishedAt := Some(now));
      }
      PersistRows(storage, updated, None, StepEntry(step.stepNo, event, step.state, to, step.attempt, author, reason, now));
    }

    method PauseProject(actor: string, reason: string, now: int) returns (r: Result<Project, string>)
      requires Valid()
      modifies storage, storage.journal
      ensures Valid()
      ensures var reply := ControlReply(old(storage.committed), ProjectCommand.PauseProject, actor, reason, now);
              Stored(storage, reply, []) && r == ProjectResult(reply)
    {
      if RequireContext(actor, reason).Some? { return Err(RequireContext(actor, reason).value); }
      var project := RequireProject(storage);
      if project.None? { return Err("project-invariant"); }
      if project.value.paused { return Err("no-change"); }
      var updated := project.value.(paused := true, updatedAt := now);
      CommitProject(updated, ProjectEntry(updated.name, Human(actor, "pause_project"), reason, true, updated.mode, now));
      r := Ok(updated);
    }

    method ResumeProject(actor: string, reason: string, now: int) returns (r: Result<Project, string>)
      requires Valid()
      modifies storage, storage.journal
      ensures Valid()
      ensures var reply := ControlReply(old(storage.committed), ProjectCommand.ResumeProject, actor, reason, now);
              Stored(storage, reply, []) && r == ProjectResult(reply)
    {
      if RequireContext(actor, reason).Some? { return Err(RequireContext(actor, reason).value); }
      var project := RequireProject(storage);
      if project.None? { return Err("project-invariant"); }
      if !project.value.paused { return Err("no-change"); }
      var updated := project.value.(paused := false, updatedAt := now);
      CommitProject(updated, ProjectEntry(updated.name, Human(actor, "resume_project"), reason, false, updated.mode, now));
      r := Ok(updated);
    }

    method SetMode(mode: Mode, actor: string, reason: string, now: int) returns (r: Result<Project, string>)
      requires Valid()
      modifies storage, storage.journal
      ensures Valid()
      ensures var reply := ControlReply(old(storage.committed), ProjectCommand.SetMode(mode), actor, reason, now);
              Stored(storage, reply, []) && r == ProjectResult(reply)
    {
      if RequireContext(actor, reason).Some? { return Err(RequireContext(actor, reason).value); }
      var project := RequireProject(storage);
      if project.None? { return Err("project-invariant"); }
      if project.value.mode == mode { return Err("no-change"); }
      var updated := project.value.(mode := mode, updatedAt := now);
      CommitProject(updated, ProjectEntry(updated.name, Human(actor, "set_mode"), reason, updated.paused, mode, now));
      r := Ok(updated);
    }

    /** The project row and its audit entry, in one transaction. */
    method CommitProject(project: Project, entry: Entry)
      requires Valid()
      modifies storage, storage.journal
      ensures Valid() && Stored(storage, Controlled(project, entry), [])
    {
      hide RowsKeyed;
      storage.Enter();
      storage.ExecuteWrite(PutProject(project));
      storage.ExecuteWrite(Append(entry));
      storage.Leave(false);
    }
  }

  /** No override event leads to VERIFIED. */
  lemma NoHumanVerifies(state: StepState, command: HumanStepCommand)
    ensures StepNext(state, HumanEvent(command)) != Some(Verified)
  {
  }
}
