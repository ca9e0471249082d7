/** What the transition of a tick writes: every field of the step, its task, its evidence, its files and its entry. */
module TickContent {
  import opened Basics
  import opened Fsm
  import opened Store
  import opened Transactions
  import opened LoopPolicy
  import opened Protocol
  import opened ProtocolScripts
  import opened Orchestration
  import opened Scheduling
  import opened Replay
  import opened Verdicts
  import opened TickTable

  /** The clocks of a step: when it last moved, first started, was verified, and ended. */
  predicate Stamped(before: Step, event: StepEvent, after: Step, now: int) {
    && after.lastUpdateAt == Some(now)
    && after.startedAt == (if before.startedAt.None? && (event.Dispatch? || event.Approve? || event.Start?) then Some(now)
                           else before.startedAt)
    && after.verifiedAt == (if event.Verify? then Some(now) else before.verifiedAt)
    && after.finishedAt == (if event.Verify? || event.Abort? then Some(now) else before.finishedAt)
  }

  /** Preparing and dispatching make the attempt at least 1, a retry is one more, nothing else counts. */
  predicate Counted(before: Step, event: StepEvent, after: Step) {
    && (event.Retry? ==> after.attempt == before.attempt + 1)
    && (event.Prepare? || event.Dispatch? || event.Approve? ==> after.attempt == if before.attempt < 1 then 1 else before.attempt)
    && (!event.Retry? && !event.Prepare? && !event.Dispatch? && !event.Approve? ==> after.attempt == before.attempt)
  }

  predicate SamePlan(before: Step, after: Step) {
    after.stepNo == before.stepNo && after.title == before.title && after.risk == before.risk
    && after.requiresHuman == before.requiresHuman && after.maxAttempts == before.maxAttempts
  }

  /** One entry that names the step, the event, both states, the attempt and the writer. */
  predicate Entered(c: Change, author: Author, now: int) {
    c.entry.StepEntry?
    && c.entry == StepEntry(c.before.stepNo, c.event, c.before.state, c.after.state, c.after.attempt, author, c.entry.reason, now)
  }

  /** Why the loop says it moved; a review has reasons of its own. */
  predicate Reasoned(c: Change) {
    c.entry.StepEntry?
    && match c.event
       case Prepare => c.entry.reason == "prepared"
       case RequestApproval => c.entry.reason == "approval-required"
       case Dispatch => c.entry.reason == "dispatched"
       case Start => c.entry.reason == "worker-started"
       case ReceiveReport => c.entry.reason == "report-received"
       case Fail => c.entry.reason == "timeout"
       case StartReview => c.entry.reason == "review-started"
       case Verify => c.entry.reason == "report-done"
       case Retry => c.entry.reason == "retry"
       case Abort => c.entry.reason == "attempts-exhausted"
       case _ => true
  }

  /** The task row a dispatch of this attempt leaves. */
  predicate DispatchedTask(task: Task, step: Step, attempt: int, at: int) {
    task.key.stepNo == step.stepNo && task.key.attempt == attempt && task.title == step.title && task.risk == step.risk
    && task.maxAttempts == step.maxAttempts && task.state.TaskDispatched? && task.reportStatus.None? && task.createdAt == at
  }

  /** The row of the attempt moves on: its report's status is noted, nothing else of it changes. */
  predicate TaskFollows(db: Db, files: Files, c: Change) {
    var key := Key(c.before.stepNo, c.before.attempt);
    if (c.event.ReceiveReport? || c.event.Fail?) && key in db.tasks && db.tasks[key].state.TaskDispatched? then
      c.task.Some?
      && c.task.value == db.tasks[key].(state := c.task.value.state, reportStatus := c.task.value.reportStatus)
      && (c.event.Fail? ==> c.task.value.state.TaskFailed? && c.task.value.reportStatus == db.tasks[key].reportStatus)
      && (c.event.ReceiveReport? ==>
            c.task.value.state.TaskReported? && HasReadable(files, key)
            && c.task.value.reportStatus == Some(ReportAt(files, key).status))
    else if c.event.Dispatch? then c.task.Some?
    else c.task.None?
  }

  /** The context names the step and the verified steps before it; the published task is not dispatched yet. */
  ghost predicate PublishedFor(db: Db, c: Change, at: int) {
    if c.event.Dispatch? || c.event.Approve? then
      && c.task.Some? && DispatchedTask(c.task.value, c.before, c.after.attempt, at)
      && c.publication.Some? && c.publication.value.task == c.task.value.(state := TaskCreated)
      && c.publication.value.context.stepNo == c.before.stepNo
      && forall m :: m in c.publication.value.context.previous <==>
                     m in db.steps && m < c.before.stepNo && db.steps[m].state.Verified?
    else c.publication.None?
  }

  /** Evidence exactly for a clean DONE: one finding per violation in order, and the verdict they leave. */
  ghost predicate EvidenceFor(cfg: Config, files: Files, c: Change, env: Env) {
    var key := Key(c.before.stepNo, c.before.attempt);
    if c.before.state.Reviewing? && HasReadable(files, key) && Unqualified(ReportAt(files, key)) && ReportAt(files, key).status.ReportDone? then
      c.evidence.Some? && env.scan.Some?
      && var e := c.evidence.value;
         && |e.findings| == |env.scan.value|
         && (forall i :: 0 <= i < |e.findings| ==> e.findings[i].key == key && e.findings[i].violation == env.scan.value[i])
         && e.decision.key == key && e.decision.baseline == cfg.canonicalVersion && e.decision.findings == e.findings
         && e.decision.verdict == (if env.scan.value == [] then Accepted else Rejected)
    else c.evidence.None?
  }

  /** What every transition of the loop has to show. */
  ghost predicate LoopContent(cfg: Config, db: Db, files: Files, c: Change, env: Env) {
    && SamePlan(c.before, c.after) && Stamped(c.before, c.event, c.after, env.now) && Counted(c.before, c.event, c.after)
    && Entered(c, Loop, env.now) && Reasoned(c)
    && TaskFollows(db, files, c) && PublishedFor(db, c, env.publishedAt) && EvidenceFor(cfg, files, c, env)
  }

  /** The step and its entry, for any transition whose attempt is counted and whose start is clocked. */
  lemma TransitionContent(
    step: Step, event: StepEvent, attempt: int, author: Author, reason: string, now: int, clock: bool,
    task: Option<Task>, evidence: Option<Evidence>, publication: Option<Publication>)
    requires StepNext(step.state, event).Some?
    requires attempt == if event.Retry? then step.attempt + 1
                        else if (event.Prepare? || event.Dispatch? || event.Approve?) && step.attempt < 1 then 1 else step.attempt
    requires clock <==> event.Dispatch? || event.Approve? || event.Start?
    ensures var c := Transition(step, event, attempt, author, reason, now, clock, task, evidence, publication);
            && c.Some? && c.value.before == step && c.value.event == event && c.value.task == task && c.value.evidence == evidence
            && c.value.publication == publication && c.value.after.attempt == attempt
            && SamePlan(step, c.value.after) && Stamped(step, event, c.value.after, now) && Counted(step, event, c.value.after)
            && Entered(c.value, author, now) && c.value.entry.reason == reason
  {
    hide StepNext;
    EndsBy(step.state, event);
  }

  /** Only VERIFY leads to VERIFIED, only ABORT to ABORTED. */
  lemma EndsBy(state: StepState, event: StepEvent)
    requires StepNext(state, event).Some?
    ensures StepNext(state, event).value.Verified? <==> event.Verify?
    ensures StepNext(state, event).value.Aborted? <==> event.Abort?
  {
  }

  lemma ReportedContent(cfg: Config, db: Db, files: Files, step: Step, env: Env)
    requires step.state.Dispatched? || step.state.Working?
    requires HasReadable(files, KeyOf(step))
    ensures var reply := Collect(cfg, db, files, step, step.state.Dispatched?, env);
            reply.Moved? && reply.change.before == step && LoopContent(cfg, db, files, reply.change, env)
  {
    var r := ReportAt(files, KeyOf(step));
    TransitionContent(step, ReceiveReport, step.attempt, Loop, "report-received", env.now, false,
                      AdvanceTask(db, KeyOf(step), TaskReceiveReport, Some(r.status)), None, None);
    hide Transition, Stamped, Counted, SamePlan;
  }

  lemma UnreportedContent(cfg: Config, db: Db, files: Files, step: Step, env: Env)
    requires step.state.Dispatched? || step.state.Working?
    requires !HasReadable(files, KeyOf(step))
    ensures var reply := Collect(cfg, db, files, step, step.state.Dispatched?, env);
            reply.Moved? ==> reply.change.before == step && LoopContent(cfg, db, files, reply.change, env)
  {
    TransitionContent(step, Fail, step.attempt, Loop, "timeout", env.now, false, AdvanceTask(db, KeyOf(step), TaskFail, None), None, None);
    if step.state.Dispatched? {
      TransitionContent(step, Start, step.attempt, Loop, "worker-started", env.now, true, None, None, None);
    }
    hide Transition, Stamped, Counted, SamePlan, TimedOut;
  }

  lemma DispatchContent(cfg: Config, db: Db, files: Files, step: Step, env: Env)
    requires step.state.Ready?
    ensures var reply := DispatchReply(db, step, env);
            reply.Moved? ==> reply.change.before == step && LoopContent(cfg, db, files, reply.change, env)
  {
    hide SingleProject, CurrentVersions;
  }

  lemma GateEvidence(cfg: Config, db: Db, key: Key, env: Env)
    ensures var gate := Gate(cfg, db, key, env);
            gate.Ok? ==>
              && env.scan.Some? && |gate.value.findings| == |env.scan.value|
              && (forall i :: 0 <= i < |gate.value.findings| ==>
                    gate.value.findings[i].key == key && gate.value.findings[i].violation == env.scan.value[i])
              && gate.value.decision ==
                 Decision(key, if env.scan.value == [] then Accepted else Rejected, cfg.canonicalVersion, gate.value.findings)
  {
  }

  lemma ReviewContent(cfg: Config, db: Db, files: Files, step: Step, env: Env)
    requires step.state.Reviewing?
    ensures var reply := Review(cfg, db, files, step, env);
            reply.Moved? ==> reply.change.before == step && LoopContent(cfg, db, files, reply.change, env)
  {
    hide ReviewReply, LoopContent;
    if HasReadable(files, KeyOf(step)) {
      SettleContent(cfg, db, files, step, env);
    }
  }

  lemma SettleContent(cfg: Config, db: Db, files: Files, step: Step, env: Env)
    requires step.state.Reviewing? && HasReadable(files, KeyOf(step))
    ensures var reply := ReviewReply(cfg, db, step, ReportAt(files, KeyOf(step)), env);
            reply.Moved? ==> reply.change.before == step && LoopContent(cfg, db, files, reply.change, env)
  {
    var outcome := DecideReview(ReportAt(files, KeyOf(step)), step.attempt, step.maxAttempts);
    assert StepNext(Reviewing, outcome.event).Some?;
    if outcome.event.Verify? {
      GatedContent(cfg, db, files, step, env);
    } else {
      TransitionContent(step, outcome.event, step.attempt, Loop, outcome.reason, env.now, false, None, None, None);
    }
    hide Gate, Stamped, Counted, SamePlan, Transition, StepNext, ReviewDoneReply;
  }

  lemma GatedContent(cfg: Config, db: Db, files: Files, step: Step, env: Env)
    requires step.state.Reviewing? && HasReadable(files, KeyOf(step))
    requires Unqualified(ReportAt(files, KeyOf(step))) && ReportAt(files, KeyOf(step)).status.ReportDone?
    ensures var reply := ReviewDoneReply(cfg, db, step, env);
            reply.Moved? ==> reply.change.before == step && LoopContent(cfg, db, files, reply.change, env)
  {
    assert StepNext(Reviewing, Verify).Some? && StepNext(Reviewing, Block).Some?;
    hide Gate, Stamped, Counted, SamePlan, Transition, StepNext;
    var gate := Gate(cfg, db, KeyOf(step), env);
    GateEvidence(cfg, db, KeyOf(step), env);
    if gate.Ok? {
      var accepted := gate.value.decision.verdict.Accepted?;
      TransitionContent(step, if accepted then Verify else Block, step.attempt, Loop,
                        if accepted then "report-done" else "architecture-violation", env.now, false, None, Some(gate.value), None);
    }
  }

  /** A transition without a task, evidence or publication. */
  lemma MoveContent(cfg: Config, db: Db, files: Files, step: Step, event: StepEvent, attempt: int, reason: string, env: Env)
    requires StepNext(step.state, event).Some? && !step.state.Reviewing?
    requires event.Prepare? || event.RequestApproval? || event.StartReview? || event.Retry? || event.Abort?
    requires attempt == if event.Retry? then step.attempt + 1 else if event.Prepare? && step.attempt < 1 then 1 else step.attempt
    requires event.Prepare? ==> reason == "prepared"
    requires event.RequestApproval? ==> reason == "approval-required"
    requires event.StartReview? ==> reason == "review-started"
    requires event.Retry? ==> reason == "retry"
    requires event.Abort? ==> reason == "attempts-exhausted"
    ensures var reply := LoopMove(step, event, attempt, reason, env.now);
            reply.Moved? && reply.change.before == step && LoopContent(cfg, db, files, reply.change, env)
  {
    hide Stamped, Counted, SamePlan, Transition;
    TransitionContent(step, event, attempt, Loop, reason, env.now, false, None, None, None);
  }

  lemma PlainContent(cfg: Config, db: Db, files: Files, project: Project, step: Step, env: Env)
    requires step.state.Pending? || step.state.ReportReceived? || step.state.Revise? || step.state.Failed? || step.state.Ready?
    ensures var reply := Advance(cfg, db, files, project, step, env);
            reply.Moved? ==> reply.change.before == step && LoopContent(cfg, db, files, reply.change, env)
  {
    hide DispatchReply, LoopContent, LoopMove;
    match step.state
    case Pending => MoveContent(cfg, db, files, step, Prepare, Max(step.attempt, 1), "prepared", env);
    case Ready =>
      MoveContent(cfg, db, files, step, RequestApproval, step.attempt, "approval-required", env);
      DispatchContent(cfg, db, files, step, env);
    case ReportReceived => MoveContent(cfg, db, files, step, StartReview, step.attempt, "review-started", env);
    case Failed =>
      MoveContent(cfg, db, files, step, Retry, step.attempt + 1, "retry", env);
      MoveContent(cfg, db, files, step, Abort, step.attempt, "attempts-exhausted", env);
    case _ => MoveContent(cfg, db, files, step, Retry, step.attempt + 1, "retry", env);
  }

  lemma RestsUnmoved(cfg: Config, db: Db, files: Files, project: Project, step: Step, env: Env)
    requires step.state.WaitingApproval? || step.state.Blocked? || step.state.Conflict? || step.state.Verified? || step.state.Aborted?
    ensures !Advance(cfg, db, files, project, step, env).Moved?
  {
  }

  lemma AdvanceContent(cfg: Config, db: Db, files: Files, project: Project, step: Step, env: Env)
    ensures var reply := Advance(cfg, db, files, project, step, env);
            reply.Moved? ==> reply.change.before == step && LoopContent(cfg, db, files, reply.change, env)
  {
    hide Collect, Review, LoopContent, Advance;
    if step.state.Dispatched? || step.state.Working? {
      AdvanceCollects(cfg, db, files, project, step, env);
      if HasReadable(files, KeyOf(step)) {
        ReportedContent(cfg, db, files, step, env);
      } else {
        UnreportedContent(cfg, db, files, step, env);
      }
    } else if step.state.Reviewing? {
      ReviewContent(cfg, db, files, step, env);
      AdvanceReviews(cfg, db, files, project, step, env);
    } else if step.state.Pending? || step.state.ReportReceived? || step.state.Revise? || step.state.Failed? || step.state.Ready? {
      PlainContent(cfg, db, files, project, step, env);
    } else {
      RestsUnmoved(cfg, db, files, project, step, env);
    }
  }

  lemma AdvanceCollects(cfg: Config, db: Db, files: Files, project: Project, step: Step, env: Env)
    requires step.state.Dispatched? || step.state.Working?
    ensures Advance(cfg, db, files, project, step, env) == Collect(cfg, db, files, step, step.state.Dispatched?, env)
  {
    hide Collect;
  }

  /** Every transition a tick makes writes this content for the current step. */
  lemma TickWrites(cfg: Config, db: Db, files: Files, env: Env)
    requires Tick(cfg, db, files, env).Moved?
    ensures var c := Tick(cfg, db, files, env).change;
            Current(db.steps).Some? && c.before == db.steps[Current(db.steps).value] && LoopContent(cfg, db, files, c, env)
  {
    hide Advance, LoopContent;
    AdvanceContent(cfg, db, files, SingleProject(db).value, db.steps[Current(db.steps).value], env);
  }

  /** A review that does not go through the gate says why. */
  predicate ReviewReason(c: Change, report: WorkerResult) {
    c.entry.StepEntry?
    && c.entry.reason ==
       if report.questions != [] then "architecture-questions"
       else if report.issues != [] then "unresolved-issues"
       else match report.status
            case ReportBlocked => "report-blocked"
            case ReportRevise => if c.event.Block? then "revise-attempts-exhausted" else "report-revise"
            case ReportFailed => if c.event.Block? then "failed-attempts-exhausted" else "report-failed-retry"
            case ReportDone => if c.event.Block? then "architecture-violation" else "report-done"
  }

  lemma GateExplains(cfg: Config, db: Db, step: Step, report: WorkerResult, env: Env)
    requires step.state.Reviewing? && Unqualified(report) && report.status.ReportDone?
    ensures var reply := ReviewDoneReply(cfg, db, step, env);
            reply.Moved? ==> reply.acknowledges && ReviewReason(reply.change, report)
  {
    assert StepNext(Reviewing, Verify).Some? && StepNext(Reviewing, Block).Some?;
    hide Gate, MovedStep, StepNext;
  }

  lemma ReviewExplains(cfg: Config, db: Db, files: Files, step: Step, env: Env)
    requires step.state.Reviewing? && HasReadable(files, KeyOf(step))
    ensures var reply := Review(cfg, db, files, step, env);
            reply.Moved? ==> reply.acknowledges && ReviewReason(reply.change, ReportAt(files, KeyOf(step)))
  {
    assert StepNext(Reviewing, Block).Some? && StepNext(Reviewing, RequestRevise).Some?;
    hide ReviewDoneReply, MovedStep, StepNext;
    var report := ReportAt(files, KeyOf(step));
    if Unqualified(report) && report.status.ReportDone? { GateExplains(cfg, db, step, report, env); }
  }

  /** Every reviewed outcome is explained, and only reviewed outcomes are acknowledged. */
  lemma TickExplains(cfg: Config, db: Db, files: Files, env: Env)
    requires Tick(cfg, db, files, env).Moved?
    ensures var (c, acknowledges) := (Tick(cfg, db, files, env).change, Tick(cfg, db, files, env).acknowledges);
            && (acknowledges <==> c.before.state.Reviewing?)
            && (acknowledges ==> HasReadable(files, KeyOf(c.before)) && ReviewReason(c, ReportAt(files, KeyOf(c.before))))
  {
    hide Advance, Review, ReviewReason;
    var project, step := SingleProject(db).value, db.steps[Current(db.steps).value];
    AdvanceContent(cfg, db, files, project, step, env);
    if step.state.Reviewing? {
      AdvanceReviews(cfg, db, files, project, step, env);
      if HasReadable(files, KeyOf(step)) {
        ReviewExplains(cfg, db, files, step, env);
      } else {
        NothingToReview(cfg, db, files, step, env);
      }
    } else {
      AdvanceShape(cfg, db, files, project, step, env);
    }
  }

  // -- what is stored ---------------------------------------------------------------------------

  /** The rows a transition leaves: its step, its task, its evidence, one entry, and nothing else. */
  lemma MovedRows(cfg: Config, call: Call, db: Db, files: Files)
    requires !call.OtherCall? && Answer(cfg, call, db, files).Moved?
    ensures var c := Answer(cfg, call, db, files).change;
            var db' := Effect(cfg, call, db, files);
            && db'.steps == db.steps[c.after.stepNo := c.after] && db'.audit == db.audit + [c.entry]
            && db'.tasks == (if c.task.Some? then db.tasks[c.task.value.key := c.task.value] else db.tasks)
            && db'.decisions == (if c.evidence.Some? then db.decisions[c.evidence.value.decision.key := c.evidence.value.decision]
                                 else db.decisions)
            && (forall f :: f in db'.findings <==> f in db.findings || (c.evidence.Some? && f in c.evidence.value.findings))
            && db'.projects == db.projects && db'.versions == db.versions && db'.requests == db.requests
            && db'.adrs == db.adrs && db'.risks == db.risks
  {
    hide Answer;
  }

  /** Whoever neither moves a step nor changes the project writes nothing. */
  lemma UnmovedRows(cfg: Config, call: Call, db: Db, files: Files)
    requires !call.OtherCall? && !Answer(cfg, call, db, files).Moved? && !Answer(cfg, call, db, files).Controlled?
    ensures Effect(cfg, call, db, files) == db
  {
    hide Answer;
  }

  lemma PublicationFiles(c: Change, files: Files)
    ensures RunFiles(PublicationSteps(c), files) ==
            if c.publication.None? then files
            else files.(contexts := files.contexts[c.publication.value.task.key := c.publication.value.context],
                        tasks := files.tasks[c.publication.value.task.key := c.publication.value.task])
  {
    if c.publication.None? {
      NoFilesChange(files);
    } else {
      var p := c.publication.value;
      assert [PutContext(p.task.key, p.context)] + [PutTaskFile(p.task.key, p.task)] == PublicationSteps(c);
      RunFilesSnoc([PutContext(p.task.key, p.context)], PutTaskFile(p.task.key, p.task), files);
      OneFileChange(PutContext(p.task.key, p.context), files);
    }
  }

  lemma AckFiles(reply: Reply, env: Env, files: Files)
    requires reply.Moved?
    ensures RunFiles(ReviewAck(reply, env), files) ==
            if reply.acknowledges && !env.ackFails then ExecFiles(Archive(KeyOf(reply.change.before), env.stamp), files) else files
  {
    NoFilesChange(files);
    OneFileChange(Archive(KeyOf(reply.change.before), env.stamp), files);
  }

  lemma LeftoverFiles(leftover: seq<Micro>, files: Files)
    requires leftover == [] || (|leftover| == 1 && leftover[0].PutContext?)
    ensures var after := RunFiles(leftover, files);
            after.tasks == files.tasks && after.reports == files.reports && after.archive == files.archive
  {
    if leftover == [] {
      NoFilesChange(files);
    } else {
      assert leftover == [leftover[0]];
      OneFileChange(leftover[0], files);
    }
  }

  /** The files after a tick are those of its script: what comes before the transaction, then what comes after it. */
  lemma TickRunsFiles(cfg: Config, db: Db, files: Files, env: Env)
    ensures var reply := Tick(cfg, db, files, env);
            FilesAfter(cfg, TickCall(env), db, files) ==
            RunFiles(ScriptOf(reply, ReviewAck(reply, env)).after, RunFiles(ScriptOf(reply, ReviewAck(reply, env)).before, files))
  {
    hide Tick, Micros, Effect;
    AnswerIsTick(cfg, TickCall(env), db, files);
    ScriptRefines(cfg, TickCall(env), db, files);
    ScriptOnFiles(ScriptFor(cfg, TickCall(env), db, files), files);
  }

  /** The files a tick leaves: a dispatch adds its context and its task, an acknowledged review archives its report. */
  lemma TickFiles(cfg: Config, db: Db, files: Files, env: Env)
    requires Tick(cfg, db, files, env).Moved?
    ensures var c := Tick(cfg, db, files, env).change;
            var key := KeyOf(c.after);
            FilesAfter(cfg, TickCall(env), db, files) ==
            if c.event.Dispatch? && c.publication.Some? then
              files.(contexts := files.contexts[key := c.publication.value.context], tasks := files.tasks[key := c.publication.value.task])
            else if c.before.state.Reviewing? && !env.ackFails && HasReadable(files, key) then
              files.(reports := files.reports - {key}, archive := files.archive[(key, env.stamp) := files.reports[key]])
            else files
  {
    var reply := Tick(cfg, db, files, env);
    var c := reply.change;
    TickRunsFiles(cfg, db, files, env);
    TickWrites(cfg, db, files, env);
    TickExplains(cfg, db, files, env);
    PublicationFiles(c, files);
    AckFiles(reply, env, RunFiles(PublicationSteps(c), files));
    NotBoth(cfg, db, files, env);
    NoFilesChange(files);
    hide Tick, Effect, RunFiles, ReviewReason, EvidenceFor, TaskFollows, Stamped, Reasoned, PublicationSteps, Body, FilesAfter, ReviewAck;
  }

  /** A dispatch starts from READY, a review from REVIEWING. */
  lemma NotBoth(cfg: Config, db: Db, files: Files, env: Env)
    requires Tick(cfg, db, files, env).Moved?
    ensures var c := Tick(cfg, db, files, env).change;
            (c.event.Dispatch? ==> c.before.state.Ready?)
            && (c.event.Dispatch? <==> c.publication.Some?)
            && (c.before.state.Reviewing? ==> KeyOf(c.after) == KeyOf(c.before))
  {
    hide Tick, Stamped, TaskFollows, EvidenceFor, Reasoned, Entered, HasReadable, Publishable, Judged, Late, NeedsHuman;
    var c := Tick(cfg, db, files, env).change;
    TickWrites(cfg, db, files, env);
    TickMakes(cfg, db, files, env, c.event);
  }

  /** A tick that does not move leaves the reports, the tasks and the archive alone. */
  lemma IdleTickFiles(cfg: Config, db: Db, files: Files, env: Env)
    requires !Tick(cfg, db, files, env).Moved?
    ensures var (reply, after) := (Tick(cfg, db, files, env), FilesAfter(cfg, TickCall(env), db, files));
            && after.tasks == files.tasks && after.reports == files.reports && after.archive == files.archive
            && (reply.Quiet? ==> after == files)
  {
    hide Tick, Effect;
    TickRunsFiles(cfg, db, files, env);
    TickShape(cfg, db, files, env);
    NoFilesChange(files);
    if Tick(cfg, db, files, env).Raised? {
      var leftover := Tick(cfg, db, files, env).leftover;
      LeftoverFiles(leftover, files);
      NoFilesChange(RunFiles(leftover, files));
    }
  }

  /** A publication that fails leaves nothing, or, when only its task file fails, the context of the attempt. */
  lemma FailedPublication(db: Db, step: Step, attempt: int, env: Env)
    ensures var p := Publish(db, step, attempt, env);
            && (p.Ok? <==> SingleProject(db).Some? && Publishable(db, env))
            && (p.Err? ==>
                  p.error.Raised?
                  && if SingleProject(db).None? || |CurrentVersions(db.versions)| > 1 || env.contextFails then p.error.leftover == []
                     else |p.error.leftover| == 1 && p.error.leftover[0].PutContext?
                          && p.error.leftover[0].key == Key(step.stepNo, attempt)
                          && p.error.leftover[0].context.stepNo == step.stepNo
                          && forall m :: m in p.error.leftover[0].context.previous <==>
                                         m in db.steps && m < step.stepNo && db.steps[m].state.Verified?)
  {
    hide CurrentVersions;
  }

  // -- a tick that does not move -----------------------------------------------------------------

  /** Nothing to do but wait for the worker, a human, or another attempt. */
  predicate WaitsFor(cfg: Config, files: Files, step: Step, env: Env, reason: string) {
    var missing := Key(step.stepNo, step.attempt) !in files.reports;
    match step.state
    case WaitingApproval => reason == "human-approval-required"
    case Blocked => reason == "human-unblock-required"
    case Conflict => reason == "human-conflict-resolution-required"
    case Working => missing && !Late(cfg, step, env.checkedAt) && reason == "worker-report-pending"
    case Reviewing => missing && reason == "report-missing-after-received"
    case Revise => step.attempt >= step.maxAttempts && reason == "revise-attempts-exhausted"
    case _ => false
  }

  lemma CollectRests(cfg: Config, db: Db, files: Files, step: Step, env: Env)
    requires step.state.Dispatched? || step.state.Working?
    ensures var reply := Collect(cfg, db, files, step, step.state.Dispatched?, env);
            if step.state.Working? && KeyOf(step) !in files.reports && !Late(cfg, step, env.checkedAt)
            then reply == Quiet(Waiting, "worker-report-pending", Some(step)) else !reply.Quiet?
  {
    LateIsTimedOut(cfg, step, env.checkedAt);
    hide MovedStep, Late, TimedOut, AdvanceTask;
  }

  lemma ReviewRests(cfg: Config, db: Db, files: Files, step: Step, env: Env)
    ensures var reply := Review(cfg, db, files, step, env);
            if KeyOf(step) !in files.reports then reply == Quiet(Waiting, "report-missing-after-received", Some(step)) else !reply.Quiet?
  {
    hide MovedStep, Gate, DecideReview, StepNext;
  }

  lemma MovesDoNotRest(db: Db, step: Step, event: StepEvent, attempt: int, reason: string, env: Env)
    ensures !LoopMove(step, event, attempt, reason, env.now).Quiet? && !DispatchReply(db, step, env).Quiet?
  {
    hide MovedStep, StepNext, SingleProject, CurrentVersions, BuildTask, BuildContext;
  }

  lemma OtherRests(cfg: Config, db: Db, files: Files, project: Project, step: Step, env: Env, status: LoopStatus, reason: string)
    requires !step.state.Dispatched? && !step.state.Working? && !step.state.Reviewing?
    ensures Advance(cfg, db, files, project, step, env) == Quiet(status, reason, Some(step)) <==>
            (status.Waiting? && WaitsFor(cfg, files, step, env, reason))
            || (status.Stopped? && reason == "step-aborted" && step.state.Aborted?)
  {
    hide LoopMove, DispatchReply, RequiresApproval;
    match step.state
    case Pending => MovesDoNotRest(db, step, Prepare, Max(step.attempt, 1), "prepared", env);
    case Ready => MovesDoNotRest(db, step, RequestApproval, step.attempt, "approval-required", env);
    case ReportReceived => MovesDoNotRest(db, step, StartReview, step.attempt, "review-started", env);
    case Revise => MovesDoNotRest(db, step, Retry, step.attempt + 1, "retry", env);
    case Failed =>
      MovesDoNotRest(db, step, Retry, step.attempt + 1, "retry", env);
      MovesDoNotRest(db, step, Abort, step.attempt, "attempts-exhausted", env);
    case _ =>
  }

  lemma AdvanceRests(cfg: Config, db: Db, files: Files, project: Project, step: Step, env: Env, status: LoopStatus, reason: string)
    ensures Advance(cfg, db, files, project, step, env) == Quiet(status, reason, Some(step)) <==>
            (status.Waiting? && WaitsFor(cfg, files, step, env, reason))
            || (status.Stopped? && reason == "step-aborted" && step.state.Aborted?)
  {
    hide Advance, Collect, Review, Late;
    if step.state.Dispatched? || step.state.Working? {
      AdvanceCollects(cfg, db, files, project, step, env);
      CollectRests(cfg, db, files, step, env);
    } else if step.state.Reviewing? {
      AdvanceReviews(cfg, db, files, project, step, env);
      ReviewRests(cfg, db, files, step, env);
    } else {
      OtherRests(cfg, db, files, project, step, env, status, reason);
    }
  }

  lemma AdvanceNamesItsStep(cfg: Config, db: Db, files: Files, project: Project, step: Step, env: Env)
    ensures var reply := Advance(cfg, db, files, project, step, env);
            reply.Quiet? ==> reply.step == Some(step) && (reply.status.Waiting? || reply.status.Stopped?)
  {
    hide LoopMove, DispatchReply, Collect, Review, Late, RequiresApproval;
    MovesDoNotRest(db, step, Prepare, Max(step.attempt, 1), "prepared", env);
    MovesDoNotRest(db, step, RequestApproval, step.attempt, "approval-required", env);
    MovesDoNotRest(db, step, StartReview, step.attempt, "review-started", env);
    MovesDoNotRest(db, step, Retry, step.attempt + 1, "retry", env);
    MovesDoNotRest(db, step, Abort, step.attempt, "attempts-exhausted", env);
    ReviewRests(cfg, db, files, step, env);
    if step.state.Dispatched? || step.state.Working? { CollectRests(cfg, db, files, step, env); }
  }

  /** Why a tick rests: paused, without a plan, complete, stopped at an aborted step, or waiting; and that it does exactly then. */
  lemma TickRests(cfg: Config, db: Db, files: Files, env: Env, status: LoopStatus, reason: string)
    ensures (exists step :: Tick(cfg, db, files, env) == Quiet(status, reason, step)) <==>
            && SingleProject(db).Some?
            && (var project := SingleProject(db).value;
                if project.paused then status.Paused? && reason == "project-paused"
                else if db.steps == map[] then status.NoSteps? && reason == "no-steps"
                else if forall n <- db.steps :: db.steps[n].state.Verified? then status.Complete? && reason == "all-steps-verified"
                else
                  Current(db.steps).Some?
                  && var step := db.steps[Current(db.steps).value];
                     || (status.Waiting? && WaitsFor(cfg, files, step, env, reason))
                     || (status.Stopped? && reason == "step-aborted" && step.state.Aborted?))
  {
    hide Advance, WaitsFor;
    CurrentIfOpen(db.steps);
    if SingleProject(db).Some? && Current(db.steps).Some? {
      var project, step := SingleProject(db).value, db.steps[Current(db.steps).value];
      AdvanceRests(cfg, db, files, project, step, env, status, reason);
      AdvanceNamesItsStep(cfg, db, files, project, step, env);
    }
  }

  /** A plan has a current step exactly while some step is not VERIFIED. */
  lemma CurrentIfOpen(steps: map<int, Step>)
    ensures Current(steps).None? <==> forall n <- steps :: steps[n].state.Verified?
  {
    if n :| n in steps && !steps[n].state.Verified? {
      var open := set m <- steps | !steps[m].state.Verified?;
      assert n in open;
      HasLeast(open);
      var least :| IsLeast(open, least);
      forall m | m in steps && m < least
        ensures steps[m].state.Verified?
      {
        assert m !in open;
      }
      assert IsCurrent(steps, least);
    }
  }

  // -- what the caller of a tick sees --------------------------------------------------------------

  lemma TickAnswers(cfg: Config, db: Db, files: Files, env: Env)
    ensures var (reply, r) := (Tick(cfg, db, files, env), TickOutcome(cfg, db, files, env));
            && (r.Err? <==> reply.Raised?)
            && (reply.Moved? ==>
                  var (c, t) := (reply.change, r.value);
                  && t.status.Transitioned? && t.stepNo == Some(c.before.stepNo) && t.event == Some(c.event)
                  && t.from == Some(c.before.state) && t.to == Some(c.after.state) && t.attempt == Some(c.after.attempt)
                  && c.entry.StepEntry? && t.reason == c.entry.reason
                  && (t.acknowledged <==> c.before.state.Reviewing? && !env.ackFails))
            && (reply.Quiet? ==>
                  var t := r.value;
                  && t.status == reply.status && t.reason == reply.reason && t.event.None? && !t.acknowledged
                  && (if reply.step.None? then t.stepNo.None? && t.from.None? && t.to.None? && t.attempt.None?
                      else t.stepNo == Some(reply.step.value.stepNo) && t.from == Some(reply.step.value.state)
                           && t.to == t.from && t.attempt == Some(reply.step.value.attempt)))
  {
    hide Tick, LoopContent, ReviewReason;
    TickShape(cfg, db, files, env);
    if Tick(cfg, db, files, env).Moved? { TickExplains(cfg, db, files, env); }
  }
}
