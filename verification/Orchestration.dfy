/**
  The loop as it runs (application/orchestrator.py, application/dispatch.py): methods over the
  connection and the channel, each proved to perform exactly the micro-steps of its reply.
 */
module Orchestration {
  import opened Basics
  import opened Fsm
  import opened Store
  import opened Transactions
  import opened LoopPolicy
  import opened Protocol
  import opened ProtocolScripts
  import opened Connections
  import opened Realization

  datatype TickResult = TickResult(
    status: LoopStatus, stepNo: Option<int>, event: Option<StepEvent>,
    from: Option<StepState>, to: Option<StepState>, reason: string, attempt: Option<int>, acknowledged: bool)

  function MovedResult(c: Change, reason: string, acknowledged: bool): TickResult {
    TickResult(Transitioned, Some(c.before.stepNo), Some(c.event), Some(c.before.state), Some(c.after.state),
               reason, Some(c.after.attempt), acknowledged)
  }

  function QuietResult(status: LoopStatus, reason: string, step: Option<Step>): TickResult {
    match step
    case None => TickResult(status, None, None, None, None, reason, None, false)
    case Some(s) => TickResult(status, Some(s.stepNo), None, Some(s.state), Some(s.state), reason, Some(s.attempt), false)
  }

  /** What the caller of a tick sees of a reply. */
  function ResultOf(reply: Reply, acknowledged: bool): Result<TickResult, string> {
    match reply
    case Quiet(status, reason, step) => Ok(QuietResult(status, reason, step))
    case Raised(error, _, _) => Err(error)
    case Moved(c, _) => Ok(MovedResult(c, if c.entry.StepEntry? then c.entry.reason else "", acknowledged))
    case Controlled(_, _) => Err("")
  }

  /** From rest, the micro-steps of this reply were performed and nothing else, with at most one commit. */
  twostate predicate Stored(storage: Connection, reply: Reply, ack: seq<Micro>)
    reads storage, storage.journal
  {
    var script := ScriptOf(reply, ack);
    && storage.Valid() && storage.State() == Rest(Settled(old(storage.committed), reply))
    && storage.journal.log == old(storage.journal.log) + Micros(script)
    && storage.history == old(storage.history) + (if script.end.Commits? then [storage.committed] else [])
  }

  /** On the channel as well. */
  twostate predicate Carried(storage: Connection, worker: WorkerChannel, reply: Reply, ack: seq<Micro>)
    reads storage, storage.journal, worker
  {
    && Stored(storage, reply, ack)
    && worker.files == RunFiles(ScriptOf(reply, ack).after, RunFiles(ScriptOf(reply, ack).before, old(worker.files)))
  }

  predicate Acknowledged(reply: Reply, env: Env) {
    reply.Moved? && reply.acknowledges && !env.ackFails
  }

  /** What a tick returns. */
  ghost function TickOutcome(cfg: Config, db: Db, files: Files, env: Env): Result<TickResult, string> {
    var reply := Tick(cfg, db, files, env);
    ResultOf(reply, Acknowledged(reply, env))
  }

  lemma NoFilesChange(files: Files)
    ensures RunFiles([], files) == files
  {
  }

  lemma OneFileChange(m: Micro, files: Files)
    ensures RunFiles([m], files) == ExecFiles(m, files)
  {
    assert [m][..0] == [];
  }

  /** Database micro-steps leave the files alone. */
  lemma {:induction false} NoFileOpsKeepFiles(ms: seq<Micro>, files: Files)
    requires NoFileOps(ms)
    ensures RunFiles(ms, files) == files
    decreases |ms|
  {
    if ms != [] {
      assert !IsFileOp(ms[|ms| - 1]);
      NoFileOpsKeepFiles(ms[..|ms| - 1], files);
    }
  }

  lemma ScriptOnFiles(s: Script, files: Files)
    requires WellFormed(s)
    ensures RunFiles(Micros(s), files) == RunFiles(s.after, RunFiles(s.before, files))
  {
    if s.end.NoTransaction? {
      RunFilesConcat(s.before, s.after, files);
    } else {
      var inner := [Enter] + s.body + [Closing(s)];
      assert Micros(s) == s.before + inner + s.after;
      RunFilesConcat(s.before, inner, files);
      RunFilesConcat(s.before + inner, s.after, files);
      NoFileOpsKeepFiles(inner, RunFiles(s.before, files));
    }
  }

  /** A journal that first holds the publication and then the transition holds the whole script. */
  lemma PublishedThenMoved(reply: Reply, start: seq<Micro>, published: seq<Micro>)
    requires reply.Moved? && reply.change.evidence.None? && published == start + PublicationSteps(reply.change)
    ensures start + Micros(ScriptOf(reply, [])) == published + ([Enter] + TransitionWrites(reply.change) + [Exit])
  {
  }

  lemma SameRows(c: Change, d: Change)
    requires c.after == d.after && c.task == d.task && c.entry == d.entry
    ensures TransitionWrites(c) == TransitionWrites(d)
  {
  }

  lemma Spliced(start: seq<Micro>, gate: seq<Micro>, move: seq<Micro>)
    ensures start + ([] + [Enter] + (gate + move) + [Exit] + []) == start + [Enter] + gate + move + [Exit]
  {
  }

  /** So it does for a gated review: gate scope and transition scope, joined by the outermost one. */
  lemma GatedThenMoved(reply: Reply, c: Change, e: Evidence, start: seq<Micro>, db: Db)
    requires reply.Moved? && reply.change == c.(evidence := Some(e)) && c.publication.None?
    ensures start + Micros(ScriptOf(reply, [])) ==
            start + [Enter] + ([Enter] + EvidenceWrites(e) + [Exit]) + ([Enter] + TransitionWrites(c) + [Exit]) + [Exit]
    ensures Row(WithEvidence(db, e), c) == Settled(db, reply)
  {
    hide EvidenceWrites, TransitionWrites, ApplyAll;
    var gate, move := [Enter] + EvidenceWrites(e) + [Exit], [Enter] + TransitionWrites(c) + [Exit];
    assert TransitionWrites(reply.change) == TransitionWrites(c) by { SameRows(reply.change, c); }
    assert Body(reply.change) == gate + move;
    Spliced(start, gate, move);
  }

  /** The acknowledgement is the last micro-step of its script. */
  lemma AckIsLast(reply: Reply, ack: seq<Micro>)
    requires reply.Moved? && reply.acknowledges
    ensures Micros(ScriptOf(reply, ack)) == Micros(ScriptOf(reply, [])) + ack
    ensures ScriptOf(reply, ack).after == ack && ScriptOf(reply, []).after == []
    ensures ScriptOf(reply, ack).before == ScriptOf(reply, []).before && ScriptOf(reply, ack).end == ScriptOf(reply, []).end
  {
  }

  /** A reply that touches neither the store nor the channel has an empty script. */
  lemma NothingToDo(reply: Reply, ack: seq<Micro>, db: Db)
    requires reply.Quiet? || (reply.Raised? && reply.leftover == [] && !reply.rolledBack)
    ensures Micros(ScriptOf(reply, ack)) == [] && Settled(db, reply) == db
  {
  }

  /** A gate that cannot reach a verdict leaves an empty transaction, rolled back. */
  lemma RolledBack(error: string, start: seq<Micro>)
    ensures start + Micros(ScriptOf(Raised(error, [], true), [])) == start + [Enter] + [Rollback]
  {
  }

  lemma TickAdvances(cfg: Config, db: Db, files: Files, project: Project, step: Step, env: Env)
    requires SingleProject(db) == Some(project) && !project.paused
    requires IsRow(step, db.steps) && Current(db.steps) == Some(step.stepNo)
    ensures Tick(cfg, db, files, env) == Protocol.Advance(cfg, db, files, project, step, env)
  {
    hide Protocol.Advance;
  }

  /** Only a review consumes its report. */
  lemma OnlyReviewsAcknowledge(cfg: Config, db: Db, files: Files, project: Project, step: Step, env: Env)
    requires !step.state.Reviewing?
    ensures ReviewAck(Protocol.Advance(cfg, db, files, project, step, env), env) == []
    ensures !Acknowledged(Protocol.Advance(cfg, db, files, project, step, env), env)
  {
    AdvanceShape(cfg, db, files, project, step, env);
    hide Protocol.Advance;
  }

  /** The single project, or the invariant error. */
  method RequireProject(storage: Connection) returns (r: Option<Project>)
    ensures r == SingleProject(storage.working)
  {
    var names := storage.working.projects.Keys;
    if |names| != 1 { return None; }
    var name :| name in names;
    OneElement(names, name);
    return Some(storage.working.projects[name]);
  }

  /** The context and the task go out before anything is persisted. */
  method PublishTask(storage: Connection, worker: WorkerChannel, step: Step, attempt: int, env: Env)
    returns (r: Result<Task, string>)
    requires storage.Valid() && worker.journal == storage.journal
    modifies worker, storage.journal
    ensures match Publish(storage.working, step, attempt, env) {
              case Ok(p) =>
                r == Ok(p.task.(state := TaskDispatched))
                && storage.journal.log == old(storage.journal.log) + [PutContext(p.task.key, p.context), PutTaskFile(p.task.key, p.task)]
                && worker.files == RunFiles([PutContext(p.task.key, p.context), PutTaskFile(p.task.key, p.task)], old(worker.files))
              case Err(raised) =>
                raised.Raised? && r == Err(raised.error) && !raised.rolledBack
                && storage.journal.log == old(storage.journal.log) + raised.leftover
                && worker.files == RunFiles(raised.leftover, old(worker.files))
            }
  {
    NoFilesChange(worker.files);
    var project := RequireProject(storage);
    if project.None? { return Err("project-invariant"); }
    if |CurrentVersions(storage.working.versions)| > 1 { return Err("context-invariant"); }
    var context := BuildContext(storage.working, step.stepNo);
    var task := BuildTask(step, attempt, env.publishedAt);
    var ok := worker.Dispatch(task, context, env.contextFails, env.taskFails);
    if !ok { return Err("task-dispatch"); }
    return Ok(task.(state := TaskDispatched));
  }

  /** The step, its task and the audit entry, in one scope. */
  method PersistRows(storage: Connection, updated: Step, task: Option<Task>, entry: Entry)
    requires storage.Valid()
    modifies storage, storage.journal
    ensures Performed(storage, [Enter] + RowWrites(updated, task, entry) + [Exit], WithRows(old(storage.working), updated, task, entry))
  {
    hide ExecDb, RowsKeyed;
    ghost var start := storage.journal.log;
    ghost var rows := RowWrites(updated, task, entry);
    storage.Enter();
    storage.ExecuteWrite(PutStep(updated));
    assert storage.journal.log == start + [Enter] + rows[..1];
    if task.Some? {
      storage.ExecuteWrite(PutTask(task.value));
      assert storage.journal.log == start + [Enter] + rows[..2];
    }
    storage.ExecuteWrite(Append(entry));
    assert storage.journal.log == start + [Enter] + rows;
    storage.Leave(false);
    assert start + [Enter] + rows + [Exit] == start + ([Enter] + rows + [Exit]);
  }

  class Orchestrator {
    const cfg: Config
    const storage: Connection
    const worker: WorkerChannel
    const realization: RealizationControl

    constructor (cfg: Config, storage: Connection, worker: WorkerChannel, realization: RealizationControl)
      ensures this.cfg == cfg && this.storage == storage && this.worker == worker && this.realization == realization
    {
      this.cfg, this.storage, this.worker, this.realization := cfg, storage, worker, realization;
    }

    ghost predicate Valid()
      reads this, storage
    {
      storage.Valid() && worker.journal == storage.journal && realization.storage == storage && realization.cfg == cfg
    }

    /** One event of the step table, persisted with its task and exactly one audit entry in one scope. */
    method Transition(step: Store.Step, event: StepEvent, reason: string, attempt: int, task: Option<Task>, startClock: bool, now: int)
      returns (r: Result<TickResult, string>)
      requires Valid()
      modifies storage, storage.journal
      ensures Valid()
      ensures match Protocol.Transition(step, event, attempt, Loop, reason, now, startClock, task, None, None) {
                case None => r == Err("invalid-transition") && Untouched(storage)
                case Some(c) =>
                  r == Ok(MovedResult(c, reason, false))
                  && Performed(storage, [Enter] + TransitionWrites(c) + [Exit], Row(old(storage.working), c))
              }
    {
      hide RowsKeyed;
      var next := StepNext(step.state, event);
      if next.None? { return Err("invalid-transition"); }
      var to := next.value;
      var updated := step.(state := to, attempt := attempt, lastUpdateAt := Some(now));
      if startClock && step.startedAt.None? {
        updated := updated.(startedAt := Some(now));
      }
      if to.Verified? {
        updated := updated.(verifiedAt := Some(now), finishedAt := Some(now));
      } else if to.Aborted? {
        updated := updated.(finishedAt := Some(now));
      }
      var entry := StepEntry(step.stepNo, event, step.state, to, attempt, Loop, reason, now);
      PersistRows(storage, updated, task, entry);
      r := Ok(TickResult(Transitioned, Some(step.stepNo), Some(event), Some(step.state), Some(to), reason, Some(attempt), false));
    }

    /** A handler that is one transition and nothing else. */
    method Move(step: Store.Step, event: StepEvent, reason: string, attempt: int, task: Option<Task>, startClock: bool, now: int)
      returns (r: Result<TickResult, string>)
      requires Valid() && storage.depth == 0
      modifies storage, storage.journal
      ensures Valid()
      ensures var reply := Reported(Protocol.Transition(step, event, attempt, Loop, reason, now, startClock, task, None, None), false);
              Carried(storage, worker, reply, []) && r == ResultOf(reply, false)
    {
      hide RowsKeyed;
      r := Transition(step, event, reason, attempt, task, startClock, now);
      NoFilesChange(worker.files);
    }

    method Dispatch(step: Store.Step, env: Env) returns (r: Result<TickResult, string>)
      requires Valid() && storage.depth == 0 && step.state.Ready?
      modifies storage, storage.journal, worker
      ensures Valid()
      ensures var reply := DispatchReply(old(storage.committed), step, env);
              Carried(storage, worker, reply, []) && r == ResultOf(reply, false)
    {
      hide RowsKeyed;
      var attempt := Max(step.attempt, 1);
      var dispatched := PublishTask(storage, worker, step, attempt, env);
      NoFilesChange(worker.files);
      if dispatched.Err? { return Err(dispatched.error); }
      ghost var published := storage.journal.log;
      r := Transition(step, StepEvent.Dispatch, "dispatched", attempt, Some(dispatched.value), true, env.now);
      ghost var reply := DispatchReply(old(storage.committed), step, env);
      if reply.Moved? {
        PublishedThenMoved(reply, old(storage.journal.log), published);
      }
    }

    method Collect(step: Store.Step, allowStart: bool, env: Env) returns (r: Result<TickResult, string>)
      requires Valid() && storage.depth == 0
      modifies storage, storage.journal
      ensures Valid()
      ensures var reply := Protocol.Collect(cfg, old(storage.committed), worker.files, step, allowStart, env);
              Carried(storage, worker, reply, []) && r == ResultOf(reply, false)
    {
      NoFilesChange(worker.files);
      var report := worker.Read(KeyOf(step));
      match report
      case BadReport => return Err("report-unreadable");
      case Report(result) =>
        var task := AdvanceTask(storage.working, KeyOf(step), TaskReceiveReport, Some(result.status));
        r := Move(step, ReceiveReport, "report-received", step.attempt, task, false, env.now);
      case NoReport =>
        if TimedOut(cfg, step, env.checkedAt) {
          var task := AdvanceTask(storage.working, KeyOf(step), TaskFail, None);
          r := Move(step, Fail, "timeout", step.attempt, task, false, env.now);
        } else if allowStart {
          r := Move(step, Start, "worker-started", step.attempt, None, true, env.now);
        } else {
          r := Ok(QuietResult(Waiting, "worker-report-pending", Some(step)));
        }
    }

    /** The gate and the transition of a passing report, in one transaction. */
    method ReviewDone(step: Store.Step, env: Env) returns (r: Result<TickResult, string>)
      requires Valid() && storage.depth == 0 && step.state.Reviewing?
      modifies storage, storage.journal
      ensures Valid()
      ensures var reply := ReviewDoneReply(cfg, old(storage.committed), step, env);
              Carried(storage, worker, reply, []) && r == ResultOf(reply, false)
    {
      hide ExecDb, Gate, WithEvidence, WithRows, Row, Micros, MovedStep, Apply, EvidenceWrites, TransitionWrites, RowsKeyed;
      NoFilesChange(worker.files);
      ghost var start, db := storage.journal.log, storage.working;
      storage.Enter();
      var gate := realization.Gate(KeyOf(step), env);
      if gate.Err? {
        storage.Leave(true);
        RolledBack(gate.error, start);
        return Err(gate.error);
      }
      var outcome := ReviewOutcome(Verify, "report-done");
      if !gate.value.decision.verdict.Accepted? {
        outcome := ReviewOutcome(Block, "architecture-violation");
      }
      ghost var c := Protocol.Transition(step, outcome.event, step.attempt, Loop, outcome.reason, env.now, false, None, None, None).value;
      r := Transition(step, outcome.event, outcome.reason, step.attempt, None, false, env.now);
      storage.Leave(false);
      GatedThenMoved(Moved(c.(evidence := Some(gate.value)), true), c, gate.value, start, db);
    }

    /** The durable outcome of one report. */
    method Settle(step: Store.Step, report: WorkerResult, env: Env) returns (r: Result<TickResult, string>)
      requires Valid() && storage.depth == 0 && step.state.Reviewing?
      modifies storage, storage.journal
      ensures Valid()
      ensures var reply := ReviewReply(cfg, old(storage.committed), step, report, env);
              Carried(storage, worker, reply, []) && r == ResultOf(reply, false)
    {
      hide ExecDb, MovedStep, Gate, Commit;
      var outcome := DecideReview(report, step.attempt, step.maxAttempts);
      if outcome.event.Verify? {
        r := ReviewDone(step, env);
      } else {
        r := Move(step, outcome.event, outcome.reason, step.attempt, None, false, env.now);
      }
    }

    /** The outcome first, and only when it is durable the acknowledgement. */
    method Review(step: Store.Step, env: Env) returns (r: Result<TickResult, string>)
      requires Valid() && storage.depth == 0 && step.state.Reviewing?
      modifies storage, storage.journal, worker
      ensures Valid()
      ensures var reply := Protocol.Review(cfg, old(storage.committed), old(worker.files), step, env);
              Carried(storage, worker, reply, ReviewAck(reply, env)) && r == ResultOf(reply, reply.Moved? && !env.ackFails)
    {
      hide ExecDb, StepNext, MovedStep, Gate, Settled, Micros, RowsKeyed;
      NoFilesChange(worker.files);
      var report := worker.Read(KeyOf(step));
      match report
      case NoReport =>
        NothingToDo(Wait(step, "report-missing-after-received"), [], storage.committed);
        return Ok(QuietResult(Waiting, "report-missing-after-received", Some(step)));
      case BadReport =>
        NothingToDo(Raised("report-unreadable", [], false), [], storage.committed);
        return Err("report-unreadable");
      case Report(result) =>
        r := Settle(step, result, env);
        ghost var reply := ReviewReply(cfg, old(storage.committed), step, result, env);
        if r.Ok? {
          AckIsLast(reply, ReviewAck(reply, env));
          OneFileChange(Archive(KeyOf(step), env.stamp), worker.files);
          var acknowledged := worker.Acknowledge(KeyOf(step), env.stamp, env.ackFails);
          r := Ok(r.value.(acknowledged := acknowledged));
        }
    }

    method RetryOrAbort(step: Store.Step, env: Env) returns (r: Result<TickResult, string>)
      requires Valid() && storage.depth == 0
      modifies storage, storage.journal
      ensures Valid()
      ensures var reply := Protocol.RetryOrAbort(step, env);
              Carried(storage, worker, reply, []) && r == ResultOf(reply, false)
    {
      NoFilesChange(worker.files);
      if step.attempt < step.maxAttempts {
        r := Move(step, Retry, "retry", step.attempt + 1, None, false, env.now);
      } else if step.state.Failed? {
        r := Move(step, Abort, "attempts-exhausted", step.attempt, None, false, env.now);
      } else {
        r := Ok(QuietResult(Waiting, "revise-attempts-exhausted", Some(step)));
      }
    }

    /** The handler that the persisted state selects. */
    method Advance(step: Store.Step, project: Project, env: Env) returns (r: Result<TickResult, string>)
      requires Valid() && storage.depth == 0
      modifies storage, storage.journal, worker
      ensures Valid()
      ensures var reply := Protocol.Advance(cfg, old(storage.committed), old(worker.files), project, step, env);
              Carried(storage, worker, reply, ReviewAck(reply, env)) && r == ResultOf(reply, Acknowledged(reply, env))
    {
      hide ExecDb, StepNext, MovedStep, Gate, DecideReview, DispatchReply, Settled, Micros, Protocol.Collect, Protocol.RetryOrAbort;
      if !step.state.Reviewing? {
        OnlyReviewsAcknowledge(cfg, storage.committed, worker.files, project, step, env);
      }
      match step.state
      case Pending => r := Move(step, Prepare, "prepared", Max(step.attempt, 1), None, false, env.now);
      case Ready =>
        if RequiresApproval(project.mode, step.risk, step.requiresHuman) {
          r := Move(step, RequestApproval, "approval-required", step.attempt, None, false, env.now);
        } else {
          r := Dispatch(step, env);
        }
      case WaitingApproval => r := Quietly(Waiting, "human-approval-required", Some(step));
      case Blocked => r := Quietly(Waiting, "human-unblock-required", Some(step));
      case Conflict => r := Quietly(Waiting, "human-conflict-resolution-required", Some(step));
      case Dispatched => r := Collect(step, true, env);
      case Working => r := Collect(step, false, env);
      case ReportReceived => r := Move(step, StartReview, "review-started", step.attempt, None, false, env.now);
      case Reviewing => r := Review(step, env);
      case Revise => r := RetryOrAbort(step, env);
      case Failed => r := RetryOrAbort(step, env);
      case Aborted => r := Quietly(Stopped, "step-aborted", Some(step));
      case Verified =>
        NothingToDo(Raised("unhandled-state", [], false), [], storage.committed);
        NoFilesChange(worker.files);
        r := Err("unhandled-state");
    }

    /** A tick that only reports. */
    method Quietly(status: LoopStatus, reason: string, step: Option<Store.Step>) returns (r: Result<TickResult, string>)
      requires Valid() && storage.depth == 0
      ensures Carried(storage, worker, Quiet(status, reason, step), []) && r == ResultOf(Quiet(status, reason, step), false)
    {
      NoFilesChange(worker.files);
      r := Ok(QuietResult(status, reason, step));
    }

    /** The lowest-numbered step that is not VERIFIED, in the listed order. */
    method CurrentStep(rows: seq<Store.Step>) returns (r: Option<Store.Step>)
      requires Listing(rows, storage.working.steps)
      ensures match r {
                case None => Current(storage.working.steps) == None
                case Some(step) => Current(storage.working.steps) == Some(step.stepNo) && IsRow(step, storage.working.steps)
              }
    {
      ghost var steps := storage.working.steps;
      for i := 0 to |rows|
        invariant forall j :: 0 <= j < i ==> rows[j].state.Verified?
      {
        if !rows[i].state.Verified? {
          FoundCurrent(rows, steps, i);
          return Some(rows[i]);
        }
      }
      NoCurrent(rows, steps);
      return None;
    }

    /**
      At most one persisted transition of the current step. From rest, the micro-steps performed are
      exactly the script of a tick, and the connection comes to rest in the tick's atomic effect.
     */
    method RunOnce(env: Env) returns (r: Result<TickResult, string>)
      requires Valid() && storage.depth == 0
      modifies storage, storage.journal, worker
      ensures Valid()
      ensures var script := ScriptFor(cfg, TickCall(env), old(storage.committed), old(worker.files));
              storage.journal.log == old(storage.journal.log) + Micros(script)
              && worker.files == RunFiles(Micros(script), old(worker.files))
      ensures storage.State() == Rest(Effect(cfg, TickCall(env), old(storage.committed), old(worker.files)))
      ensures r == TickOutcome(cfg, old(storage.committed), old(worker.files), env)
    {
      hide Tick;
      r := RunTick(env);
      ghost var db, files := old(storage.committed), old(worker.files);
      ScriptRefines(cfg, TickCall(env), db, files);
      ScriptOnFiles(ScriptFor(cfg, TickCall(env), db, files), files);
    }

    method RunTick(env: Env) returns (r: Result<TickResult, string>)
      requires Valid() && storage.depth == 0
      modifies storage, storage.journal, worker
      ensures Valid()
      ensures var reply := Tick(cfg, old(storage.committed), old(worker.files), env);
              Carried(storage, worker, reply, ReviewAck(reply, env)) && r == ResultOf(reply, Acknowledged(reply, env))
    {
      hide Protocol.Advance;
      var project := RequireProject(storage);
      NoFilesChange(worker.files);
      if project.None? { return Err("project-invariant"); }
      if project.value.paused {
        r := Quietly(Paused, "project-paused", None);
        return;
      }
      var rows := storage.ListSteps();
      if rows == [] {
        EmptyListing(storage.working.steps);
        r := Quietly(NoSteps, "no-steps", None);
        return;
      }
      assert IsRow(rows[0], storage.working.steps);
      var step := CurrentStep(rows);
      if step.None? {
        r := Quietly(Complete, "all-steps-verified", None);
        return;
      }
      TickAdvances(cfg, storage.committed, worker.files, project.value, step.value, env);
      r := Advance(step.value, project.value, env);
    }
  }
}
