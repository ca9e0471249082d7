/** The loop, the approval gate and the human override only ever make legal moves. */
module Moves {
  import opened Basics
  import opened Fsm
  import opened Store
  import opened Transactions
  import opened LoopPolicy
  import opened Protocol
  import opened ProtocolScripts
  import opened Invariants

  /** A legal move, or a reason that is the environment's and not the loop's own. */
  ghost predicate LegalReply(db: Db, reply: Reply) {
    match reply
    case Moved(c, _) => ValidMove(db, c)
    case Raised(error, _, _) => error != "invalid-transition" && error != "unhandled-state"
    case Quiet(_, reason, _) => reason != "revise-attempts-exhausted" && reason != "human-conflict-resolution-required"
    case Controlled(_, _) => false
  }

  /** The parts of a legal move that a plain loop transition has to show. */
  lemma PlainMove(db: Db, step: Step, event: StepEvent, attempt: int, author: Author, reason: string, now: int, clock: bool)
    requires FlowInv(db) && step.stepNo in db.steps && db.steps[step.stepNo] == step && IsCurrent(db.steps, step.stepNo)
    requires StepNext(step.state, event).Some? && attempt == AttemptAfter(step, event)
    requires (event.Retry? || event.RequestRevise?) ==> step.attempt < step.maxAttempts
    requires if author.Loop? then LoopEvent(event, step.state) else HumanEventOk(event)
    requires !Dispatches(event) && !event.ReceiveReport? && !event.Fail? && !event.Verify?
    ensures ValidMove(db, Transition(step, event, attempt, author, reason, now, clock, None, None, None).value)
  {
  }

  /** The task row of a collecting step is there and advances: neither fallback of the lookup is taken. */
  lemma TaskAdvances(db: Db, step: Step, event: TaskEvent, status: Option<ReportStatus>)
    requires FlowInv(db) && step.stepNo in db.steps && db.steps[step.stepNo] == step
    requires (step.state.Dispatched? || step.state.Working?) && !event.TaskDispatch?
    ensures var task := AdvanceTask(db, KeyOf(step), event, status);
            task.Some? && task.value.key == KeyOf(step)
            && task.value.state == if event.TaskFail? then TaskFailed else TaskReported
  {
    assert TaskInStep(db, step);
    assert db.tasks[KeyOf(step)].key == KeyOf(step);
  }

  lemma TaskMove(db: Db, step: Step, event: StepEvent, taskEvent: TaskEvent, status: Option<ReportStatus>, reason: string, now: int)
    requires FlowInv(db) && step.stepNo in db.steps && db.steps[step.stepNo] == step && IsCurrent(db.steps, step.stepNo)
    requires step.state.Dispatched? || step.state.Working?
    requires (event.ReceiveReport? && taskEvent.TaskReceiveReport?) || (event.Fail? && taskEvent.TaskFail?)
    ensures StepNext(step.state, event).Some?
    ensures ValidMove(db, Transition(step, event, step.attempt, Loop, reason, now, false,
                                     AdvanceTask(db, KeyOf(step), taskEvent, status), None, None).value)
  {
    TaskAdvances(db, step, taskEvent, status);
  }

  lemma CollectMoves(cfg: Config, db: Db, files: Files, step: Step, allowStart: bool, env: Env)
    requires FlowInv(db) && step.stepNo in db.steps && db.steps[step.stepNo] == step && IsCurrent(db.steps, step.stepNo)
    requires if allowStart then step.state.Dispatched? else step.state.Working?
    ensures LegalReply(db, Collect(cfg, db, files, step, allowStart, env))
  {
    match ReadReport(files, KeyOf(step))
    case BadReport =>
    case Report(r) =>
      TaskMove(db, step, ReceiveReport, TaskReceiveReport, Some(r.status), "report-received", env.now);
    case NoReport =>
      if TimedOut(cfg, step, env.checkedAt) {
        TaskMove(db, step, Fail, TaskFail, None, "timeout", env.now);
      } else if allowStart {
        PlainMove(db, step, Start, step.attempt, Loop, "worker-started", env.now, true);
      }
  }

  lemma DispatchMoves(db: Db, step: Step, event: StepEvent, author: Author, reason: string, env: Env)
    requires FlowInv(db) && step.stepNo in db.steps && db.steps[step.stepNo] == step && IsCurrent(db.steps, step.stepNo)
    requires Dispatches(event) && StepNext(step.state, event).Some?
    requires if author.Loop? then event.Dispatch? else event.Approve?
    requires Publish(db, step, Max(step.attempt, 1), env).Ok?
    ensures var p := Publish(db, step, Max(step.attempt, 1), env).value;
            ValidMove(db, Transition(step, event, Max(step.attempt, 1), author, reason, env.now, true,
                                     Some(p.task.(state := TaskDispatched)), None, Some(p)).value)
  {
    assert StepOk(step);
    assert (set m <- db.steps | m < step.stepNo && db.steps[m].state.Verified?) == set m <- db.steps | m < step.stepNo;
  }

  /** The gate accepts exactly when the scan found nothing, and files its decision under the attempt. */
  lemma GateIsExact(cfg: Config, db: Db, key: Key, env: Env)
    ensures var gate := Gate(cfg, db, key, env);
            if gate.Ok? then ExactEvidence(gate.value, key)
            else gate.error != "invalid-transition" && gate.error != "unhandled-state"
  {
  }

  predicate ExactEvidence(e: Evidence, key: Key) {
    e.decision.key == key && (e.decision.verdict.Accepted? <==> e.findings == [])
  }

  /** A gated review verifies the step or blocks it, with the evidence in the same commit. */
  lemma GatedMove(db: Db, step: Step, e: Evidence, now: int)
    requires FlowInv(db) && step.stepNo in db.steps && db.steps[step.stepNo] == step && IsCurrent(db.steps, step.stepNo)
    requires step.state.Reviewing? && ExactEvidence(e, KeyOf(step))
    ensures var final := if e.decision.verdict.Accepted? then ReviewOutcome(Verify, "report-done") else ReviewOutcome(Block, "architecture-violation");
            var c := Transition(step, final.event, step.attempt, Loop, final.reason, now, false, None, Some(e), None);
            c.Some? && ValidMove(db, c.value)
  {
  }

  lemma ReviewMoves(cfg: Config, db: Db, files: Files, step: Step, env: Env)
    requires FlowInv(db) && step.stepNo in db.steps && db.steps[step.stepNo] == step && IsCurrent(db.steps, step.stepNo)
    requires step.state.Reviewing?
    ensures LegalReply(db, Review(cfg, db, files, step, env))
  {
    hide Gate, FlowInv, IsCurrent, ValidMove;
    match ReadReport(files, KeyOf(step))
    case Report(r) =>
      var outcome := DecideReview(r, step.attempt, step.maxAttempts);
      if outcome.event.Verify? {
        GateIsExact(cfg, db, KeyOf(step), env);
        if Gate(cfg, db, KeyOf(step), env).Ok? {
          GatedMove(db, step, Gate(cfg, db, KeyOf(step), env).value, env.now);
        }
      } else {
        PlainMove(db, step, outcome.event, step.attempt, Loop, outcome.reason, env.now, false);
      }
    case _ =>
  }

  lemma ReadyMoves(db: Db, project: Project, step: Step, env: Env)
    requires FlowInv(db) && step.stepNo in db.steps && db.steps[step.stepNo] == step && IsCurrent(db.steps, step.stepNo)
    requires step.state.Ready?
    ensures LegalReply(db, DispatchReply(db, step, env))
    ensures LegalReply(db, LoopMove(step, RequestApproval, step.attempt, "approval-required", env.now))
  {
    PlainMove(db, step, RequestApproval, step.attempt, Loop, "approval-required", env.now, false);
    if Publish(db, step, Max(step.attempt, 1), env).Ok? {
      DispatchMoves(db, step, Dispatch, Loop, "dispatched", env);
    }
  }

  lemma RetryMoves(db: Db, step: Step, env: Env)
    requires FlowInv(db) && step.stepNo in db.steps && db.steps[step.stepNo] == step && IsCurrent(db.steps, step.stepNo)
    requires step.state.Revise? || step.state.Failed?
    ensures LegalReply(db, RetryOrAbort(step, env))
  {
    assert StepOk(step);
    if step.attempt < step.maxAttempts {
      PlainMove(db, step, Retry, step.attempt + 1, Loop, "retry", env.now, false);
    } else {
      PlainMove(db, step, Abort, step.attempt, Loop, "attempts-exhausted", env.now, false);
    }
  }

  lemma AdvanceMoves(cfg: Config, db: Db, files: Files, project: Project, step: Step, env: Env)
    requires FlowInv(db) && step.stepNo in db.steps && db.steps[step.stepNo] == step && IsCurrent(db.steps, step.stepNo)
    ensures LegalReply(db, Advance(cfg, db, files, project, step, env))
  {
    assert StepOk(step);
    match step.state
    case Pending => PlainMove(db, step, Prepare, Max(step.attempt, 1), Loop, "prepared", env.now, false);
    case Ready => ReadyMoves(db, project, step, env);
    case Dispatched => CollectMoves(cfg, db, files, step, true, env);
    case Working => CollectMoves(cfg, db, files, step, false, env);
    case ReportReceived => PlainMove(db, step, StartReview, step.attempt, Loop, "review-started", env.now, false);
    case Reviewing => ReviewMoves(cfg, db, files, step, env);
    case Revise => RetryMoves(db, step, env);
    case Failed => RetryMoves(db, step, env);
    case _ =>
  }

  /**
    A tick that moves makes a legal move of the current step, and the transition it looks up is
    always in the table; the wait for an exhausted REVISE and the wait on CONFLICT never happen.
   */
  lemma TickMoves(cfg: Config, db: Db, files: Files, env: Env)
    requires FlowInv(db)
    ensures LegalReply(db, Tick(cfg, db, files, env))
  {
    if SingleProject(db).Some? && !SingleProject(db).value.paused && Current(db.steps).Some? {
      var step := db.steps[Current(db.steps).value];
      assert step.stepNo == Current(db.steps).value;
      AdvanceMoves(cfg, db, files, SingleProject(db).value, step, env);
    }
  }

  lemma ApproveMoves(db: Db, n: int, actor: string, reason: string, env: Env)
    requires FlowInv(db)
    ensures var reply := ApproveReply(db, n, actor, reason, env); reply.Moved? ==> ValidMove(db, reply.change)
  {
    if n in db.steps && StepNext(db.steps[n].state, Approve) == Some(Dispatched)
       && Publish(db, db.steps[n], Max(db.steps[n].attempt, 1), env).Ok? {
      OnlyCurrentIsOpen(db, n);
      DispatchMoves(db, db.steps[n], Approve, Human(actor, "approve_step"), reason, env);
    }
  }

  lemma RejectMoves(db: Db, n: int, actor: string, reason: string, now: int)
    requires FlowInv(db)
    ensures var reply := RejectReply(db, n, actor, reason, now); reply.Moved? ==> ValidMove(db, reply.change)
  {
    if n in db.steps && StepNext(db.steps[n].state, Reject).Some? {
      OnlyCurrentIsOpen(db, n);
      PlainMove(db, db.steps[n], Reject, db.steps[n].attempt, Human(actor, "reject_step"), reason, now, false);
    }
  }

  lemma OverrideMoves(db: Db, n: int, command: HumanStepCommand, actor: string, reason: string, now: int)
    requires FlowInv(db)
    ensures var reply := OverrideReply(db, n, command, actor, reason, now); reply.Moved? ==> ValidMove(db, reply.change)
  {
    var event := HumanEvent(command);
    if n in db.steps && StepNext(db.steps[n].state, event).Some? {
      OnlyCurrentIsOpen(db, n);
      PlainMove(db, db.steps[n], event, db.steps[n].attempt, Human(actor, OperationName(command)), reason, now, false);
    }
  }

  lemma AnswerMoves(cfg: Config, call: Call, db: Db, files: Files)
    requires FlowInv(db)
    ensures var reply := Answer(cfg, call, db, files); reply.Moved? ==> ValidMove(db, reply.change)
  {
    match call
    case TickCall(env) => TickMoves(cfg, db, files, env);
    case ApproveCall(n, actor, reason, env) => ApproveMoves(db, n, actor, reason, env);
    case RejectCall(n, actor, reason, now) => RejectMoves(db, n, actor, reason, now);
    case OverrideCall(n, command, actor, reason, now) => OverrideMoves(db, n, command, actor, reason, now);
    case ControlCall(_, _, _, _) =>
    case OtherCall(_) =>
  }

  // -- commands that are not step transitions -----------------------------------------------

  /** Two states with the same workflow tables and step entries are indistinguishable to it. */
  ghost predicate SameFlow(a: Db, b: Db) {
    a.steps == b.steps && a.tasks == b.tasks && a.decisions == b.decisions
    && forall n :: StepLog(a.audit, n) == StepLog(b.audit, n)
  }

  lemma SameFlowKeepsInvariant(a: Db, b: Db)
    requires FlowInv(a) && SameFlow(a, b)
    ensures FlowInv(b)
  {
    forall n | n in b.steps
      ensures TaskInStep(b, b.steps[n]) && Evidenced(b, b.steps[n])
    {
      assert TaskInStep(a, a.steps[n]) && Evidenced(a, a.steps[n]);
    }
  }

  lemma ForeignWrite(w: Write, db: Db)
    requires Foreign(w)
    ensures SameFlow(db, Apply(w, db))
  {
    if w.Append? {
      forall n { StepLogSnoc(db.audit, w.entry, n); }
    }
  }

  lemma {:induction false} ForeignKeepsFlow(ws: seq<Write>, db: Db)
    requires forall i :: 0 <= i < |ws| ==> Foreign(ws[i])
    ensures SameFlow(db, ApplyAll(ws, db))
    decreases |ws|
  {
    if ws != [] {
      ForeignWrite(ws[0], db);
      ForeignKeepsFlow(ws[1..], Apply(ws[0], db));
    }
  }

  lemma SettledSameFlow(db: Db, reply: Reply)
    requires !reply.Moved? && Shaped(reply)
    ensures SameFlow(db, Settled(db, reply))
  {
    if reply.Controlled? {
      forall n { StepLogSnoc(db.audit, reply.entry, n); }
    }
  }

  /** Every whole command of every component keeps the workflow invariant. */
  lemma EffectKeepsInvariant(cfg: Config, call: Call, db: Db, files: Files)
    requires FlowInv(db)
    ensures FlowInv(Effect(cfg, call, db, files))
  {
    hide Answer, FlowInv;
    if call.OtherCall? {
      if ForeignBody(call.body) {
        ForeignKeepsFlow(Writes(call.body), db);
        SameFlowKeepsInvariant(db, Effect(cfg, call, db, files));
      }
    } else {
      var reply := Answer(cfg, call, db, files);
      AnswerMoves(cfg, call, db, files);
      AnswerShape(cfg, call, db, files);
      if reply.Moved? {
        MoveKeepsInvariant(db, reply.change);
      } else {
        SettledSameFlow(db, reply);
        SameFlowKeepsInvariant(db, Settled(db, reply));
      }
    }
  }
}
