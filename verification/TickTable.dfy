/**
  Which event a tick makes, and when: the loop's decisions stated on the store, the channel and the
  environment, one condition per event, and every field the transition writes.
 */
module TickTable {
  import opened Basics
  import opened Fsm
  import opened Store
  import opened Transactions
  import opened LoopPolicy
  import opened Protocol
  import opened ProtocolScripts
  import opened Invariants
  import opened Moves
  import opened Guarantees
  import opened Replay

  // -- the conditions ------------------------------------------------------------------------

  /** The step needs a human go-ahead: it asks for one, or its risk exceeds the mode's autonomy. */
  predicate NeedsHuman(mode: Mode, step: Step) {
    || step.requiresHuman
    || mode.Manual?
    || (mode.Supervised? && (step.risk.Medium? || step.risk.High?))
    || (mode.Auto? && step.risk.High?)
  }

  /** The deadline has passed since the step last moved, or started when it never did. */
  predicate Late(cfg: Config, step: Step, checkedAt: int) {
    cfg.timeout.Some?
    && ((step.lastUpdateAt.Some? && checkedAt > step.lastUpdateAt.value + cfg.timeout.value)
        || (step.lastUpdateAt.None? && step.startedAt.Some? && checkedAt > step.startedAt.value + cfg.timeout.value))
  }

  predicate HasReadable(files: Files, key: Key) {
    key in files.reports && files.reports[key].Readable?
  }

  function ReportAt(files: Files, key: Key): WorkerResult
    requires HasReadable(files, key)
  {
    files.reports[key].result
  }

  predicate Unqualified(report: WorkerResult) {
    report.questions == [] && report.issues == []
  }

  /** The gate can judge: the canonical baseline is current, and the scan was made against it. */
  ghost predicate Judged(cfg: Config, db: Db, env: Env) {
    Canonical(cfg, db) && env.scan.Some? && env.scanBaseline == cfg.canonicalVersion
  }

  /** The publication succeeds. */
  predicate Publishable(db: Db, env: Env) {
    |CurrentVersions(db.versions)| <= 1 && !env.contextFails && !env.taskFails
  }

  /** When a tick makes this event of this step. */
  ghost predicate Due(cfg: Config, db: Db, files: Files, mode: Mode, step: Step, env: Env, event: StepEvent) {
    var key := Key(step.stepNo, step.attempt);
    var collecting := step.state.Dispatched? || step.state.Working?;
    var reviewed := step.state.Reviewing? && HasReadable(files, key);
    match event
    case Prepare => step.state.Pending?
    case RequestApproval => step.state.Ready? && NeedsHuman(mode, step)
    case Dispatch => step.state.Ready? && !NeedsHuman(mode, step) && Publishable(db, env)
    case ReceiveReport => collecting && HasReadable(files, key)
    case Fail => collecting && key !in files.reports && Late(cfg, step, env.checkedAt)
    case Start => step.state.Dispatched? && key !in files.reports && !Late(cfg, step, env.checkedAt)
    case StartReview => step.state.ReportReceived?
    case Verify =>
      reviewed && Unqualified(ReportAt(files, key)) && ReportAt(files, key).status.ReportDone?
      && Judged(cfg, db, env) && env.scan == Some([])
    case RequestRevise =>
      reviewed && Unqualified(ReportAt(files, key)) && step.attempt < step.maxAttempts
      && (ReportAt(files, key).status.ReportRevise? || ReportAt(files, key).status.ReportFailed?)
    case Block =>
      reviewed
      && (|| !Unqualified(ReportAt(files, key)) || ReportAt(files, key).status.ReportBlocked?
          || (step.attempt >= step.maxAttempts && !ReportAt(files, key).status.ReportDone?)
          || (ReportAt(files, key).status.ReportDone? && Judged(cfg, db, env) && env.scan != Some([])))
    case Retry => (step.state.Revise? || step.state.Failed?) && step.attempt < step.maxAttempts
    case Abort => step.state.Failed? && step.attempt >= step.maxAttempts
    case _ => false
  }

  // -- per handler -----------------------------------------------------------------------------

  lemma LateIsTimedOut(cfg: Config, step: Step, now: int)
    ensures TimedOut(cfg, step, now) <==> Late(cfg, step, now)
  {
  }

  lemma NeedsHumanIsPolicy(mode: Mode, step: Step)
    ensures RequiresApproval(mode, step.risk, step.requiresHuman) <==> NeedsHuman(mode, step)
  {
  }

  /** The event a reply makes. */
  function Made(reply: Reply): Option<StepEvent> {
    if reply.Moved? then Some(reply.change.event) else None
  }

  lemma CollectMakes(cfg: Config, db: Db, files: Files, step: Step, env: Env)
    requires step.state.Dispatched? || step.state.Working?
    ensures Made(Collect(cfg, db, files, step, step.state.Dispatched?, env)) ==
            (if KeyOf(step) in files.reports then (if HasReadable(files, KeyOf(step)) then Some(ReceiveReport) else None)
             else if Late(cfg, step, env.checkedAt) then Some(Fail)
             else if step.state.Dispatched? then Some(Start) else None)
  {
    hide MovedStep, AdvanceTask, TimedOut, Late;
    LateIsTimedOut(cfg, step, env.checkedAt);
  }

  lemma GateMakes(cfg: Config, db: Db, step: Step, env: Env)
    requires step.state.Reviewing?
    ensures Made(ReviewDoneReply(cfg, db, step, env)) ==
            (if !Judged(cfg, db, env) then None else if env.scan == Some([]) then Some(Verify) else Some(Block))
  {
    hide MovedStep, Gate, Canonical;
    GateAcceptsIff(cfg, db, KeyOf(step), env);
  }

  lemma ReviewMakes(cfg: Config, db: Db, files: Files, step: Step, env: Env)
    requires step.state.Reviewing? && HasReadable(files, KeyOf(step))
    ensures var r := ReportAt(files, KeyOf(step));
            Made(Review(cfg, db, files, step, env)) ==
            (if !Unqualified(r) || r.status.ReportBlocked? then Some(Block)
             else if r.status.ReportDone? then
               (if !Judged(cfg, db, env) then None else if env.scan == Some([]) then Some(Verify) else Some(Block))
             else if step.attempt < step.maxAttempts then Some(RequestRevise) else Some(Block))
  {
    hide MovedStep, ReviewDoneReply, Judged;
    GateMakes(cfg, db, step, env);
  }

  lemma NothingToReview(cfg: Config, db: Db, files: Files, step: Step, env: Env)
    requires !HasReadable(files, KeyOf(step))
    ensures Made(Review(cfg, db, files, step, env)) == None
  {
    hide ReviewReply;
  }

  lemma DispatchMakes(db: Db, step: Step, env: Env)
    requires SingleProject(db).Some? && step.state.Ready?
    ensures Made(DispatchReply(db, step, env)) == if Publishable(db, env) then Some(Dispatch) else None
  {
    hide MovedStep, SingleProject, CurrentVersions, BuildContext, BuildTask;
  }

  lemma RetryMakes(step: Step, env: Env)
    requires step.state.Revise? || step.state.Failed?
    ensures Made(Protocol.RetryOrAbort(step, env)) ==
            if step.attempt < step.maxAttempts then Some(Retry) else if step.state.Failed? then Some(Abort) else None
  {
    hide MovedStep;
  }

  lemma ReadyTable(cfg: Config, db: Db, files: Files, project: Project, step: Step, env: Env, event: StepEvent)
    requires SingleProject(db) == Some(project) && step.state.Ready?
    ensures Made(Advance(cfg, db, files, project, step, env)) == Some(event) <==> Due(cfg, db, files, project.mode, step, env, event)
  {
    hide DispatchReply, SingleProject, Publishable, MovedStep, RequiresApproval, NeedsHuman;
    NeedsHumanIsPolicy(project.mode, step);
    DispatchMakes(db, step, env);
  }

  lemma CollectTable(cfg: Config, db: Db, files: Files, project: Project, step: Step, env: Env, event: StepEvent)
    requires step.state.Dispatched? || step.state.Working?
    ensures Made(Advance(cfg, db, files, project, step, env)) == Some(event) <==> Due(cfg, db, files, project.mode, step, env, event)
  {
    hide Collect, Late;
    CollectMakes(cfg, db, files, step, env);
  }

  lemma ReviewTable(cfg: Config, db: Db, files: Files, project: Project, step: Step, env: Env, event: StepEvent)
    requires step.state.Reviewing?
    ensures Made(Advance(cfg, db, files, project, step, env)) == Some(event) <==> Due(cfg, db, files, project.mode, step, env, event)
  {
    hide Review, Judged, HasReadable;
    if HasReadable(files, KeyOf(step)) {
      ReviewMakes(cfg, db, files, step, env);
    } else {
      NothingToReview(cfg, db, files, step, env);
    }
  }

  lemma RetryTable(cfg: Config, db: Db, files: Files, project: Project, step: Step, env: Env, event: StepEvent)
    requires step.state.Revise? || step.state.Failed?
    ensures Made(Advance(cfg, db, files, project, step, env)) == Some(event) <==> Due(cfg, db, files, project.mode, step, env, event)
  {
    hide Protocol.RetryOrAbort;
    RetryMakes(step, env);
  }

  lemma PlainTable(cfg: Config, db: Db, files: Files, project: Project, step: Step, env: Env, event: StepEvent)
    requires !step.state.Ready? && !step.state.Dispatched? && !step.state.Working? && !step.state.Reviewing?
    requires !step.state.Revise? && !step.state.Failed?
    ensures Made(Advance(cfg, db, files, project, step, env)) == Some(event) <==> Due(cfg, db, files, project.mode, step, env, event)
  {
    hide LoopMove, HasReadable, Late, Judged, Publishable, NeedsHuman, Unqualified;
    PlainMakes(step, env);
  }

  lemma PlainMakes(step: Step, env: Env)
    ensures step.state.Pending? ==> Made(LoopMove(step, Prepare, Max(step.attempt, 1), "prepared", env.now)) == Some(Prepare)
    ensures step.state.ReportReceived? ==> Made(LoopMove(step, StartReview, step.attempt, "review-started", env.now)) == Some(StartReview)
  {
    hide MovedStep;
  }

  lemma AdvanceTable(cfg: Config, db: Db, files: Files, project: Project, step: Step, env: Env, event: StepEvent)
    requires SingleProject(db) == Some(project)
    ensures Made(Advance(cfg, db, files, project, step, env)) == Some(event) <==> Due(cfg, db, files, project.mode, step, env, event)
  {
    hide Advance, Due, Made, SingleProject;
    match step.state
    case Ready => ReadyTable(cfg, db, files, project, step, env, event);
    case Dispatched => CollectTable(cfg, db, files, project, step, env, event);
    case Working => CollectTable(cfg, db, files, project, step, env, event);
    case Reviewing => ReviewTable(cfg, db, files, project, step, env, event);
    case Revise => RetryTable(cfg, db, files, project, step, env, event);
    case Failed => RetryTable(cfg, db, files, project, step, env, event);
    case _ => PlainTable(cfg, db, files, project, step, env, event);
  }

  /**
    The loop's decision, event by event: a tick makes an event if and only if the single project is not
    paused, and the state, the approval policy, the report, the deadline, the gate or the attempts of
    the current step call for it.
   */
  lemma TickMakes(cfg: Config, db: Db, files: Files, env: Env, event: StepEvent)
    ensures Made(Tick(cfg, db, files, env)) == Some(event) <==>
            SingleProject(db).Some? && !SingleProject(db).value.paused && Current(db.steps).Some?
            && Due(cfg, db, files, SingleProject(db).value.mode, db.steps[Current(db.steps).value], env, event)
  {
    hide Advance, Due;
    if SingleProject(db).Some? && Current(db.steps).Some? {
      AdvanceTable(cfg, db, files, SingleProject(db).value, db.steps[Current(db.steps).value], env, event);
    }
  }

  /**
    The deadline. A tick fails the current step if and only if the project runs, the step is with the
    worker, its report file does not exist, and the configured time has passed since it last moved, or
    since it started when it never moved; a step without either time is never failed.
   */
  lemma TickFailsIffLate(cfg: Config, db: Db, files: Files, env: Env)
    ensures Made(Tick(cfg, db, files, env)) == Some(Fail) <==>
            && SingleProject(db).Some? && !SingleProject(db).value.paused && Current(db.steps).Some?
            && var step := db.steps[Current(db.steps).value];
               && (step.state.Dispatched? || step.state.Working?) && Key(step.stepNo, step.attempt) !in files.reports
               && cfg.timeout.Some?
               && (if step.lastUpdateAt.Some? then env.checkedAt > step.lastUpdateAt.value + cfg.timeout.value
                   else step.startedAt.Some? && env.checkedAt > step.startedAt.value + cfg.timeout.value)
  {
    hide Tick, Made;
    TickMakes(cfg, db, files, env, Fail);
  }

  /**
    The approval policy. The loop asks for a human exactly for a READY step that needs one, and
    dispatches on its own only a READY step that needs none.
   */
  lemma LoopObeysApproval(cfg: Config, db: Db, files: Files, env: Env)
    ensures Made(Tick(cfg, db, files, env)) == Some(RequestApproval) <==>
            && SingleProject(db).Some? && !SingleProject(db).value.paused && Current(db.steps).Some?
            && db.steps[Current(db.steps).value].state.Ready?
            && NeedsHuman(SingleProject(db).value.mode, db.steps[Current(db.steps).value])
    ensures Made(Tick(cfg, db, files, env)) == Some(Dispatch) <==>
            && SingleProject(db).Some? && !SingleProject(db).value.paused && Current(db.steps).Some?
            && db.steps[Current(db.steps).value].state.Ready? && Publishable(db, env)
            && !NeedsHuman(SingleProject(db).value.mode, db.steps[Current(db.steps).value])
  {
    hide Tick, Made, NeedsHuman, Publishable;
    TickMakes(cfg, db, files, env, RequestApproval);
    TickMakes(cfg, db, files, env, Dispatch);
  }
}
