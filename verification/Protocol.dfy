/**
  The atomic workflow protocol: what one whole command of the loop, of the approval gate or
  of the human override does to the source of truth, as a function of the persisted state, the
  channel files and the environment. Protocol.Script says in which micro-steps it does so.
 */
module Protocol {
  import opened Basics
  import opened Fsm
  import opened Store
  import opened Transactions
  import opened LoopPolicy

  /** The configured deadline and the code-side baseline the gate expects. */
  datatype Config = Config(timeout: Option<int>, canonicalVersion: string, canonicalRules: seq<string>)

  /** Everything a command takes from outside the store and the channel. */
  datatype Env = Env(
    checkedAt: int, publishedAt: int, now: int, stamp: int,
    contextFails: bool, taskFails: bool, ackFails: bool,
    scan: Option<seq<Violation>>, scanBaseline: string)

  datatype Evidence = Evidence(findings: seq<Finding>, decision: Decision)

  datatype Publication = Publication(context: ContextFile, task: Task)

  /** One persisted step transition with everything written in the same commit. */
  datatype Change = Change(
    before: Step, event: StepEvent, after: Step, entry: Entry,
    task: Option<Task>, evidence: Option<Evidence>, publication: Option<Publication>)

  datatype LoopStatus = Transitioned | Waiting | Complete | Stopped | NoSteps | Paused

  /** A quiet tick writes nothing; a raising command leaves at most an orphan context file. */
  datatype Reply =
    | Quiet(status: LoopStatus, reason: string, step: Option<Step>)
    | Raised(error: string, leftover: seq<Micro>, rolledBack: bool)
    | Moved(change: Change, acknowledges: bool)
    | Controlled(project: Project, entry: Entry)

  function KeyOf(step: Step): Key {
    Key(step.stepNo, step.attempt)
  }

  function Max(a: int, b: int): int {
    if a >= b then a else b
  }

  /** The lowest-numbered step that is not VERIFIED. */
  predicate IsCurrent(steps: map<int, Step>, n: int) {
    n in steps && !steps[n].state.Verified? && forall m <- steps :: m < n ==> steps[m].state.Verified?
  }

  ghost function Current(steps: map<int, Step>): (r: Option<int>)
    ensures r.Some? ==> IsCurrent(steps, r.value)
    ensures r.None? ==> forall n :: !IsCurrent(steps, n)
  {
    if n: int :| IsCurrent(steps, n) then Some(n) else None
  }

  // -- one step transition -----------------------------------------------------

  function MovedStep(step: Step, to: StepState, attempt: int, now: int, startClock: bool): Step {
    step.(state := to, attempt := attempt, lastUpdateAt := Some(now),
          startedAt := if startClock && step.startedAt.None? then Some(now) else step.startedAt,
          verifiedAt := if to.Verified? then Some(now) else step.verifiedAt,
          finishedAt := if to.Verified? || to.Aborted? then Some(now) else step.finishedAt)
  }

  /** The transition of one event, or None when the table has no such transition. */
  function Transition(
    step: Step, event: StepEvent, attempt: int, author: Author, reason: string, now: int,
    startClock: bool, task: Option<Task>, evidence: Option<Evidence>, publication: Option<Publication>): Option<Change>
  {
    match StepNext(step.state, event)
    case None => None
    case Some(to) =>
      Some(Change(
             step, event, MovedStep(step, to, attempt, now, startClock),
             StepEntry(step.stepNo, event, step.state, to, attempt, author, reason, now),
             task, evidence, publication))
  }

  function Reported(change: Option<Change>, acknowledges: bool): Reply {
    match change
    case None => Raised("invalid-transition", [], false)
    case Some(c) => Moved(c, acknowledges)
  }

  /** A loop transition that only moves the step. */
  function LoopMove(step: Step, event: StepEvent, attempt: int, reason: string, now: int): Reply {
    Reported(Transition(step, event, attempt, Loop, reason, now, false, None, None, None), false)
  }

  function Wait(step: Step, reason: string): Reply {
    Quiet(Waiting, reason, Some(step))
  }

  // -- publication ----------------------------------------------------------------

  /** The context lists the verified steps that precede this one. */
  function BuildContext(db: Db, n: int): ContextFile {
    ContextFile(n, set m <- db.steps | m < n && db.steps[m].state.Verified?)
  }

  function BuildTask(step: Step, attempt: int, now: int): Task {
    Task(Key(step.stepNo, attempt), step.title, step.risk, step.maxAttempts, TaskCreated, None, now)
  }

  /** The artifacts of one dispatch, or how the publication fails. */
  ghost function Publish(db: Db, step: Step, attempt: int, env: Env): Result<Publication, Reply> {
    var context := BuildContext(db, step.stepNo);
    if SingleProject(db).None? then Err(Raised("project-invariant", [], false))
    else if |CurrentVersions(db.versions)| > 1 then Err(Raised("context-invariant", [], false))
    else if env.contextFails then Err(Raised("task-dispatch", [], false))
    else if env.taskFails then
      Err(Raised("task-dispatch", [PutContext(Key(step.stepNo, attempt), context)], false))
    else Ok(Publication(context, BuildTask(step, attempt, env.publishedAt)))
  }

  // -- the loop --------------------------------------------------------------------

  datatype Reading = NoReport | BadReport | Report(result: WorkerResult)

  function ReadReport(files: Files, key: Key): Reading {
    if key !in files.reports then NoReport
    else match files.reports[key] case Unreadable => BadReport case Readable(r) => Report(r)
  }

  /** The subordinate task row after event; None when it is absent or cannot advance. */
  function AdvanceTask(db: Db, key: Key, event: TaskEvent, status: Option<ReportStatus>): Option<Task> {
    if key !in db.tasks then None
    else
      match TaskNext(db.tasks[key].state, event)
      case None => None
      case Some(next) =>
        Some(db.tasks[key].(state := next,
                            reportStatus := if status.Some? then status else db.tasks[key].reportStatus))
  }

  function TimedOut(cfg: Config, step: Step, now: int): bool {
    var reference := if step.lastUpdateAt.Some? then step.lastUpdateAt else step.startedAt;
    cfg.timeout.Some? && reference.Some? && now - reference.value > cfg.timeout.value
  }

  ghost function DispatchReply(db: Db, step: Step, env: Env): Reply {
    var attempt := Max(step.attempt, 1);
    match Publish(db, step, attempt, env)
    case Err(raised) => raised
    case Ok(p) =>
      Reported(Transition(step, Dispatch, attempt, Loop, "dispatched", env.now, true,
                          Some(p.task.(state := TaskDispatched)), None, Some(p)), false)
  }

  function Collect(cfg: Config, db: Db, files: Files, step: Step, allowStart: bool, env: Env): Reply {
    match ReadReport(files, KeyOf(step))
    case BadReport => Raised("report-unreadable", [], false)
    case Report(r) =>
      Reported(Transition(step, ReceiveReport, step.attempt, Loop, "report-received", env.now, false,
                          AdvanceTask(db, KeyOf(step), TaskReceiveReport, Some(r.status)), None, None), false)
    case NoReport =>
      if TimedOut(cfg, step, env.checkedAt) then
        Reported(Transition(step, Fail, step.attempt, Loop, "timeout", env.now, false,
                            AdvanceTask(db, KeyOf(step), TaskFail, None), None, None), false)
      else if allowStart then
        Reported(Transition(step, Start, step.attempt, Loop, "worker-started", env.now, true, None, None, None), false)
      else Wait(step, "worker-report-pending")
  }

  /** One finding per violation, in order. */
  function FindingsOf(key: Key, violations: seq<Violation>): seq<Finding> {
    seq(|violations|, i requires 0 <= i < |violations| => Finding(key, violations[i]))
  }

  /** The realization gate: the persisted baseline must be the canonical one, then the scan decides. */
  ghost function Gate(cfg: Config, db: Db, key: Key, env: Env): Result<Evidence, string> {
    var current := CurrentVersions(db.versions);
    if forall v :: current != {v} then Err("baseline-not-single")
    else
      var name :| current == {name};
      var version := db.versions[name];
      if version.version != cfg.canonicalVersion then Err("baseline-version")
      else if version.rules != cfg.canonicalRules then Err("baseline-rules")
      else
        match env.scan
        case None => Err("scan")
        case Some(violations) =>
          if env.scanBaseline != version.version then Err("check-baseline")
          else
            var findings := FindingsOf(key, violations);
            Ok(Evidence(findings,
                        Decision(key, if violations == [] then Accepted else Rejected, env.scanBaseline, findings)))
  }

  /** A passing report is verified only if the gate accepts; otherwise it blocks. */
  ghost function ReviewDoneReply(cfg: Config, db: Db, step: Step, env: Env): Reply {
    match Gate(cfg, db, KeyOf(step), env)
    case Err(e) => Raised(e, [], true)
    case Ok(evidence) =>
      var final := if evidence.decision.verdict.Accepted? then ReviewOutcome(Verify, "report-done")
                   else ReviewOutcome(Block, "architecture-violation");
      Reported(Transition(step, final.event, step.attempt, Loop, final.reason, env.now, false,
                          None, Some(evidence), None), true)
  }

  ghost function ReviewReply(cfg: Config, db: Db, step: Step, report: WorkerResult, env: Env): Reply {
    var outcome := DecideReview(report, step.attempt, step.maxAttempts);
    if outcome.event.Verify? then ReviewDoneReply(cfg, db, step, env)
    else
      Reported(Transition(step, outcome.event, step.attempt, Loop, outcome.reason, env.now, false, None, None, None), true)
  }

  ghost function Review(cfg: Config, db: Db, files: Files, step: Step, env: Env): Reply {
    match ReadReport(files, KeyOf(step))
    case NoReport => Wait(step, "report-missing-after-received")
    case BadReport => Raised("report-unreadable", [], false)
    case Report(r) => ReviewReply(cfg, db, step, r, env)
  }

  function RetryOrAbort(step: Step, env: Env): Reply {
    if step.attempt < step.maxAttempts then LoopMove(step, Retry, step.attempt + 1, "retry", env.now)
    else if step.state.Failed? then LoopMove(step, Abort, step.attempt, "attempts-exhausted", env.now)
    else Wait(step, "revise-attempts-exhausted")
  }

  /** The persisted state of the current step selects exactly one handler. */
  ghost function Advance(cfg: Config, db: Db, files: Files, project: Project, step: Step, env: Env): Reply {
    match step.state
    case Pending => LoopMove(step, Prepare, Max(step.attempt, 1), "prepared", env.now)
    case Ready =>
      if RequiresApproval(project.mode, step.risk, step.requiresHuman) then
        LoopMove(step, RequestApproval, step.attempt, "approval-required", env.now)
      else DispatchReply(db, step, env)
    case WaitingApproval => Wait(step, "human-approval-required")
    case Blocked => Wait(step, "human-unblock-required")
    case Conflict => Wait(step, "human-conflict-resolution-required")
    case Dispatched => Collect(cfg, db, files, step, true, env)
    case Working => Collect(cfg, db, files, step, false, env)
    case ReportReceived => LoopMove(step, StartReview, step.attempt, "review-started", env.now)
    case Reviewing => Review(cfg, db, files, step, env)
    case Revise => RetryOrAbort(step, env)
    case Failed => RetryOrAbort(step, env)
    case Aborted => Quiet(Stopped, "step-aborted", Some(step))
    case Verified => Raised("unhandled-state", [], false)
  }

  ghost function Tick(cfg: Config, db: Db, files: Files, env: Env): Reply {
    match SingleProject(db)
    case None => Raised("project-invariant", [], false)
    case Some(project) =>
      if project.paused then Quiet(Paused, "project-paused", None)
      else if db.steps == map[] then Quiet(NoSteps, "no-steps", None)
      else
        match Current(db.steps)
        case None => Quiet(Complete, "all-steps-verified", None)
        case Some(n) => Advance(cfg, db, files, project, db.steps[n], env)
  }

  // -- the human paths -----------------------------------------------------------------

  datatype HumanStepCommand = UnblockStep | ResolveStep | AbortStep

  datatype ProjectCommand = PauseProject | ResumeProject | SetMode(mode: Mode)

  function HumanEvent(command: HumanStepCommand): StepEvent {
    match command case UnblockStep => Unblock case ResolveStep => Resolve case AbortStep => Abort
  }

  function OperationName(command: HumanStepCommand): string {
    match command
    case UnblockStep => "unblock_step"
    case ResolveStep => "resolve_step"
    case AbortStep => "abort_step"
  }

  ghost function ApproveReply(db: Db, n: int, actor: string, reason: string, env: Env): Reply {
    if Blank(actor) then Raised("actor-required", [], false)
    else if Blank(reason) then Raised("reason-required", [], false)
    else if n !in db.steps then Raised("step-not-found", [], false)
    else
      var step := db.steps[n];
      if StepNext(step.state, Approve) != Some(Dispatched) then Raised("invalid-transition", [], false)
      else
        var attempt := Max(step.attempt, 1);
        match Publish(db, step, attempt, env)
        case Err(raised) => raised
        case Ok(p) =>
          Reported(Transition(step, Approve, attempt, Human(actor, "approve_step"), reason, env.now, true,
                              Some(p.task.(state := TaskDispatched)), None, Some(p)), false)
  }

  function RejectReply(db: Db, n: int, actor: string, reason: string, now: int): Reply {
    if Blank(actor) then Raised("actor-required", [], false)
    else if Blank(reason) then Raised("reason-required", [], false)
    else if n !in db.steps then Raised("step-not-found", [], false)
    else
      var step := db.steps[n];
      Reported(Transition(step, Reject, step.attempt, Human(actor, "reject_step"), reason, now, false, None, None, None), false)
  }

  function OverrideReply(db: Db, n: int, command: HumanStepCommand, actor: string, reason: string, now: int): Reply {
    if Blank(actor) then Raised("actor-required", [], false)
    else if Blank(reason) then Raised("reason-required", [], false)
    else if n !in db.steps then Raised("step-not-found", [], false)
    else
      var step := db.steps[n];
      Reported(Transition(step, HumanEvent(command), step.attempt, Human(actor, OperationName(command)), reason, now,
                          false, None, None, None), false)
  }

  ghost function ControlReply(db: Db, command: ProjectCommand, actor: string, reason: string, now: int): Reply {
    if Blank(actor) then Raised("actor-required", [], false)
    else if Blank(reason) then Raised("reason-required", [], false)
    else
      match SingleProject(db)
      case None => Raised("project-invariant", [], false)
      case Some(p) =>
        var (updated, operation) :=
          match command
          case PauseProject => (p.(paused := true, updatedAt := now), "pause_project")
          case ResumeProject => (p.(paused := false, updatedAt := now), "resume_project")
          case SetMode(mode) => (p.(mode := mode, updatedAt := now), "set_mode");
        if updated.paused == p.paused && updated.mode == p.mode then Raised("no-change", [], false)
        else
          Controlled(updated, ProjectEntry(p.name, Human(actor, operation), reason, updated.paused, updated.mode, now))
  }

  // -- commands, their scripts and their effects -------------------------------------------

  datatype Call =
    | TickCall(env: Env)
    | ApproveCall(n: int, actor: string, reason: string, env: Env)
    | RejectCall(n: int, actor: string, reason: string, now: int)
    | OverrideCall(n: int, command: HumanStepCommand, actor: string, reason: string, now: int)
    | ControlCall(control: ProjectCommand, actor: string, reason: string, now: int)
    | OtherCall(body: seq<Micro>)

  /** Writes of the other components: never a step, task, evidence or project row, nor its audit. */
  predicate Foreign(w: Write) {
    match w
    case PutVersion(_) => true
    case PutRequest(_) => true
    case PutAdr(_) => true
    case PutRisk(_) => true
    case Append(e) => !e.StepEntry? && !e.ProjectEntry?
    case _ => false
  }

  predicate ForeignBody(body: seq<Micro>) {
    DepthAfter(body, 1) == Some(1) && NoFileOps(body) && forall i :: 0 <= i < |Writes(body)| ==> Foreign(Writes(body)[i])
  }

  ghost function Answer(cfg: Config, call: Call, db: Db, files: Files): Reply {
    match call
    case TickCall(env) => Tick(cfg, db, files, env)
    case ApproveCall(n, actor, reason, env) => ApproveReply(db, n, actor, reason, env)
    case RejectCall(n, actor, reason, now) => RejectReply(db, n, actor, reason, now)
    case OverrideCall(n, command, actor, reason, now) => OverrideReply(db, n, command, actor, reason, now)
    case ControlCall(command, actor, reason, now) => ControlReply(db, command, actor, reason, now)
    case OtherCall(_) => Quiet(Waiting, "", None)
  }

  /** The rows of one step transition, in the order they are written. */
  function RowWrites(after: Step, task: Option<Task>, entry: Entry): seq<Micro> {
    [Do(PutStep(after))] + (if task.Some? then [Do(PutTask(task.value))] else []) + [Do(Append(entry))]
  }

  function TransitionWrites(c: Change): seq<Micro> {
    RowWrites(c.after, c.task, c.entry)
  }

  function FindingWrites(findings: seq<Finding>): seq<Micro> {
    seq(|findings|, i requires 0 <= i < |findings| => Do(PutFinding(findings[i])))
  }

  function EvidenceWrites(e: Evidence): seq<Micro> {
    FindingWrites(e.findings) + [Do(PutDecision(e.decision))]
  }

  /** Inside a review the gate and the transition each open a nested scope. */
  function Body(c: Change): seq<Micro> {
    match c.evidence
    case None => TransitionWrites(c)
    case Some(e) => [Enter] + EvidenceWrites(e) + [Exit] + ([Enter] + TransitionWrites(c) + [Exit])
  }

  function PublicationSteps(c: Change): seq<Micro> {
    match c.publication
    case None => []
    case Some(p) => [PutContext(p.task.key, p.context), PutTaskFile(p.task.key, p.task)]
  }

  function ScriptOf(reply: Reply, ack: seq<Micro>): Script {
    match reply
    case Quiet(_, _, _) => Script([], [], NoTransaction, [])
    case Raised(_, leftover, rolledBack) => Script(leftover, [], if rolledBack then RollsBack else NoTransaction, [])
    case Moved(c, acknowledges) => Script(PublicationSteps(c), Body(c), Commits, if acknowledges then ack else [])
    case Controlled(p, e) => Script([], [Do(PutProject(p)), Do(Append(e))], Commits, [])
  }

  /** The acknowledgement is best effort: it may fail, and the durable outcome stands. */
  function ReviewAck(reply: Reply, env: Env): seq<Micro> {
    if reply.Moved? && reply.acknowledges && !env.ackFails then [Archive(KeyOf(reply.change.before), env.stamp)]
    else []
  }

  function AckSteps(call: Call, reply: Reply): seq<Micro> {
    if call.TickCall? then ReviewAck(reply, call.env) else []
  }

  ghost function ScriptFor(cfg: Config, call: Call, db: Db, files: Files): Script {
    if call.OtherCall? then
      if ForeignBody(call.body) then Script([], call.body, Commits, []) else Script([], [], NoTransaction, [])
    else
      var reply := Answer(cfg, call, db, files);
      ScriptOf(reply, AckSteps(call, reply))
  }

  function FindingSet(findings: seq<Finding>): set<Finding> {
    set f <- findings
  }

  /** The database after one change, all of it at once. */
  function Commit(db: Db, c: Change): Db {
    db.(steps := db.steps[c.after.stepNo := c.after],
        tasks := if c.task.Some? then db.tasks[c.task.value.key := c.task.value] else db.tasks,
        findings := if c.evidence.Some? then db.findings + FindingSet(c.evidence.value.findings) else db.findings,
        decisions := if c.evidence.Some? then db.decisions[c.evidence.value.decision.key := c.evidence.value.decision]
                     else db.decisions,
        audit := db.audit + [c.entry])
  }

  /** The database after a reply. */
  function Settled(db: Db, reply: Reply): Db {
    match reply
    case Moved(c, _) => Commit(db, c)
    case Controlled(p, e) => db.(projects := db.projects[p.name := p], audit := db.audit + [e])
    case _ => db
  }

  /** The atomic protocol: the effect of one whole command. */
  ghost function Effect(cfg: Config, call: Call, db: Db, files: Files): Db {
    if call.OtherCall? then
      if ForeignBody(call.body) then ApplyAll(Writes(call.body), db) else db
    else Settled(db, Answer(cfg, call, db, files))
  }
}
