/**
  When can a report whose outcome is already durable be read again? The documentation says never;
  the code says: exactly when the report, or the scan beside it, blocks the step.
 */
module Replay {
  import opened Basics
  import opened Fsm
  import opened Store
  import opened Transactions
  import opened LoopPolicy
  import opened Protocol
  import opened Invariants
  import opened Moves
  import opened Runs
  import opened History

  /** A list of whole commands over an idle channel: the worker writes nothing in between. */
  ghost function EffectAll(cfg: Config, calls: seq<Call>, db: Db, files: Files): Db {
    if calls == [] then db
    else Effect(cfg, calls[|calls| - 1], EffectAll(cfg, calls[..|calls| - 1], db, files), files)
  }

  /** Some later tick opens the report of this key again. */
  ghost predicate Rereadable(cfg: Config, db: Db, files: Files, key: Key) {
    exists calls: seq<Call> :: ReadKey(EffectAll(cfg, calls, db, files)) == Some(key)
  }

  /** The project runs and its context can be built. */
  ghost predicate Running(db: Db) {
    SingleProject(db).Some? && !SingleProject(db).value.paused && |CurrentVersions(db.versions)| <= 1
  }

  ghost predicate At(db: Db, n: int, a: int, state: StepState) {
    FlowInv(db) && Running(db) && IsCurrent(db.steps, n) && db.steps[n].state == state && db.steps[n].attempt == a
  }

  function CalmEnv(): Env {
    Env(0, 0, 0, 0, false, false, true, None, "")
  }

  function UnblockCall(n: int): Call {
    OverrideCall(n, UnblockStep, "operator", "continue", 0)
  }

  function ApproveAgain(n: int): Call {
    ApproveCall(n, "operator", "continue", CalmEnv())
  }

  /** A legal move of the current step that keeps its attempt. */
  lemma MovedAt(db: Db, c: Change, n: int, a: int, state: StepState)
    requires At(db, n, a, state) && ValidMove(db, c) && c.before.stepNo == n && c.after.attempt == a
    requires !c.after.state.Verified?
    ensures At(Commit(db, c), n, a, c.after.state)
  {
    hide FlowInv, SingleProject;
    MoveKeepsInvariant(db, c);
    assert Commit(db, c).projects == db.projects && Commit(db, c).versions == db.versions;
  }

  lemma AtIsOk(db: Db, n: int, a: int, state: StepState)
    requires At(db, n, a, state)
    ensures n in db.steps && StepOk(db.steps[n]) && db.steps[n].stepNo == n
  {
  }

  lemma NotBlank()
    ensures !Blank("operator") && !Blank("continue")
  {
    assert !IsSpace("operator"[0]) && !IsSpace("continue"[0]);
  }

  lemma UnblockReplies(db: Db, n: int)
    requires n in db.steps && db.steps[n].state.Blocked?
    ensures var reply := OverrideReply(db, n, UnblockStep, "operator", "continue", 0);
            && reply.Moved? && reply.change.before == db.steps[n]
            && reply.change.after.state.Ready? && reply.change.after.attempt == db.steps[n].attempt
  {
    hide Blank;
    NotBlank();
  }

  lemma UnblockAt(cfg: Config, db: Db, files: Files, n: int, a: int)
    requires At(db, n, a, Blocked)
    ensures At(Effect(cfg, UnblockCall(n), db, files), n, a, Ready)
  {
    hide FlowInv, Running, IsCurrent, OverrideReply, Commit;
    AtIsOk(db, n, a, Blocked);
    UnblockReplies(db, n);
    OverrideMoves(db, n, UnblockStep, "operator", "continue", 0);
    MovedAt(db, OverrideReply(db, n, UnblockStep, "operator", "continue", 0).change, n, a, Blocked);
  }

  /** With one running project, a tick is the handler of the current step. */
  lemma TickIsAdvance(cfg: Config, db: Db, files: Files, n: int, env: Env)
    requires SingleProject(db).Some? && !SingleProject(db).value.paused && IsCurrent(db.steps, n)
    ensures Tick(cfg, db, files, env) == Advance(cfg, db, files, SingleProject(db).value, db.steps[n], env)
  {
    CurrentIsUnique(db.steps, n, Current(db.steps).value);
  }

  lemma ReadyMovesOn(cfg: Config, db: Db, files: Files, step: Step)
    requires Running(db) && step.state.Ready? && step.attempt >= 1
    ensures var reply := Advance(cfg, db, files, SingleProject(db).value, step, CalmEnv());
            && reply.Moved? && reply.change.before == step && reply.change.after.attempt == step.attempt
            && (reply.change.after.state.Dispatched? || reply.change.after.state.WaitingApproval?)
  {
  }

  /** From READY, one tick, or one tick and an approval, dispatches the same attempt. */
  lemma DispatchAt(cfg: Config, db: Db, files: Files, n: int, a: int)
    requires At(db, n, a, Ready)
    ensures var db' := Effect(cfg, TickCall(CalmEnv()), db, files); At(db', n, a, Dispatched) || At(db', n, a, WaitingApproval)
  {
    assert StepOk(db.steps[n]);
    TickIsAdvance(cfg, db, files, n, CalmEnv());
    ReadyMovesOn(cfg, db, files, db.steps[n]);
    TickMoves(cfg, db, files, CalmEnv());
    MovedAt(db, Tick(cfg, db, files, CalmEnv()).change, n, a, Ready);
  }

  lemma ApproveAt(cfg: Config, db: Db, files: Files, n: int, a: int)
    requires At(db, n, a, WaitingApproval)
    ensures At(Effect(cfg, ApproveAgain(n), db, files), n, a, Dispatched)
  {
    hide FlowInv, BuildContext;
    AtIsOk(db, n, a, WaitingApproval);
    NotBlank();
    ApproveMoves(db, n, "operator", "continue", CalmEnv());
    MovedAt(db, ApproveReply(db, n, "operator", "continue", CalmEnv()).change, n, a, WaitingApproval);
  }

  lemma {:induction false} EffectAllCons(cfg: Config, call: Call, calls: seq<Call>, db: Db, files: Files)
    ensures EffectAll(cfg, [call] + calls, db, files) == EffectAll(cfg, calls, Effect(cfg, call, db, files), files)
    decreases |calls|
  {
    var all := [call] + calls;
    if calls == [] {
      assert all[..|all| - 1] == [] && all[|all| - 1] == call;
    } else {
      assert all[..|all| - 1] == [call] + calls[..|calls| - 1];
      EffectAllCons(cfg, call, calls[..|calls| - 1], db, files);
    }
  }

  /** What can be read again after one more command can be read again now. */
  lemma RereadableLater(cfg: Config, call: Call, db: Db, files: Files, key: Key)
    requires Rereadable(cfg, Effect(cfg, call, db, files), files, key)
    ensures Rereadable(cfg, db, files, key)
  {
    var calls: seq<Call> :| ReadKey(EffectAll(cfg, calls, Effect(cfg, call, db, files), files)) == Some(key);
    EffectAllCons(cfg, call, calls, db, files);
  }

  lemma DispatchedReads(db: Db, n: int, a: int)
    requires At(db, n, a, Dispatched)
    ensures ReadKey(db) == Some(Key(n, a))
  {
    CurrentIsUnique(db.steps, n, Current(db.steps).value);
    assert db.steps[n].stepNo == n;
  }

  lemma DispatchedIsRereadable(cfg: Config, db: Db, files: Files, n: int, a: int)
    requires At(db, n, a, Dispatched)
    ensures Rereadable(cfg, db, files, Key(n, a))
  {
    DispatchedReads(db, n, a);
    assert EffectAll(cfg, [], db, files) == db;
  }

  lemma ReadyIsRereadable(cfg: Config, db: Db, files: Files, n: int, a: int)
    requires At(db, n, a, Ready)
    ensures Rereadable(cfg, db, files, Key(n, a))
  {
    var next := Effect(cfg, TickCall(CalmEnv()), db, files);
    DispatchAt(cfg, db, files, n, a);
    if At(next, n, a, WaitingApproval) {
      ApproveAt(cfg, next, files, n, a);
      DispatchedIsRereadable(cfg, Effect(cfg, ApproveAgain(n), next, files), files, n, a);
      RereadableLater(cfg, ApproveAgain(n), next, files, Key(n, a));
    } else {
      DispatchedIsRereadable(cfg, next, files, n, a);
    }
    RereadableLater(cfg, TickCall(CalmEnv()), db, files, Key(n, a));
  }

  /** A blocked attempt is read again: unblock, dispatch, and the same report is on the channel. */
  lemma BlockedIsRereadable(cfg: Config, db: Db, files: Files, n: int, a: int)
    requires At(db, n, a, Blocked)
    ensures Rereadable(cfg, db, files, Key(n, a))
  {
    UnblockAt(cfg, db, files, n, a);
    ReadyIsRereadable(cfg, Effect(cfg, UnblockCall(n), db, files), files, n, a);
    RereadableLater(cfg, UnblockCall(n), db, files, Key(n, a));
  }

  lemma {:induction false} EffectAllIsLater(cfg: Config, calls: seq<Call>, db: Db, files: Files)
    requires FlowInv(db)
    ensures FlowInv(EffectAll(cfg, calls, db, files)) && Later(db, EffectAll(cfg, calls, db, files))
    decreases |calls|
  {
    if calls == [] {
      SameFlowIsLater(db, db);
    } else {
      var init, last := calls[..|calls| - 1], calls[|calls| - 1];
      EffectAllIsLater(cfg, init, db, files);
      var mid := EffectAll(cfg, init, db, files);
      EffectKeepsInvariant(cfg, last, mid, files);
      EffectIsLater(cfg, last, mid, files);
      LaterTransitive(db, mid, EffectAll(cfg, calls, db, files));
    }
  }

  lemma SpentIsNotRereadable(cfg: Config, db: Db, files: Files, n: int, a: int)
    requires FlowInv(db) && n in db.steps && Spent(db.steps[n], a)
    ensures !Rereadable(cfg, db, files, Key(n, a))
  {
    forall calls: seq<Call>
      ensures ReadKey(EffectAll(cfg, calls, db, files)) != Some(Key(n, a))
    {
      EffectAllIsLater(cfg, calls, db, files);
      var db' := EffectAll(cfg, calls, db, files);
      assert StepLater(db, db', n) && StepOk(db'.steps[n]);
    }
  }

  lemma RereadableAfterReview(cfg: Config, db: Db, files: Files, env: Env)
    requires FlowInv(db) && Running(db)
    requires Tick(cfg, db, files, env).Moved? && Tick(cfg, db, files, env).change.before.state.Reviewing?
    ensures var c := Tick(cfg, db, files, env).change;
            Rereadable(cfg, Commit(db, c), files, KeyOf(c.before)) <==> c.event.Block?
  {
    hide Tick, Rereadable;
    var c := Tick(cfg, db, files, env).change;
    TickMoves(cfg, db, files, env);
    MoveKeepsInvariant(db, c);
    var n, a := c.before.stepNo, c.before.attempt;
    if c.event.Block? {
      assert At(Commit(db, c), n, a, Blocked);
      BlockedIsRereadable(cfg, Commit(db, c), files, n, a);
    } else {
      assert Spent(c.after, a);
      SpentIsNotRereadable(cfg, Commit(db, c), files, n, a);
    }
  }

  // -- the condition, on what the review is given -------------------------------------------------

  /** The single current version is the canonical one. */
  ghost predicate Canonical(cfg: Config, db: Db) {
    exists v :: CurrentVersions(db.versions) == {v}
                && db.versions[v].version == cfg.canonicalVersion && db.versions[v].rules == cfg.canonicalRules
  }

  /** Open questions, issues, a blocked worker, no attempt left, or violations in the source. */
  predicate Blocks(report: WorkerResult, attempt: int, maxAttempts: int, scan: Option<seq<Violation>>) {
    || report.questions != [] || report.issues != [] || report.status.ReportBlocked?
    || (attempt >= maxAttempts && (report.status.ReportRevise? || report.status.ReportFailed?))
    || (report.status.ReportDone? && scan != Some([]))
  }

  /** A qualified report settles nothing; a clean DONE needs the whole gate, a clean REVISE or FAILED an attempt left. */
  ghost predicate Settles(cfg: Config, db: Db, report: WorkerResult, attempt: int, maxAttempts: int, env: Env) {
    && report.questions == [] && report.issues == []
    && match report.status {
         case ReportDone => Canonical(cfg, db) && env.scan == Some([]) && env.scanBaseline == cfg.canonicalVersion
         case ReportBlocked => false
         case _ => attempt < maxAttempts
       }
  }

  /** The gate accepts exactly a compliant scan, made against the canonical baseline while it is the current one. */
  lemma GateAcceptsIff(cfg: Config, db: Db, key: Key, env: Env)
    ensures var gate := Gate(cfg, db, key, env);
            && (gate.Ok? ==> Canonical(cfg, db) && env.scan.Some? && env.scanBaseline == cfg.canonicalVersion
                             && (gate.value.decision.verdict.Accepted? <==> env.scan == Some([])))
            && (Canonical(cfg, db) && env.scan.Some? && env.scanBaseline == cfg.canonicalVersion ==> gate.Ok?)
  {
    if v :| CurrentVersions(db.versions) == {v} {
      assert v in {v};
    }
  }

  lemma ReviewOutcomes(cfg: Config, db: Db, files: Files, step: Step, report: WorkerResult, env: Env)
    requires step.state.Reviewing? && ReadReport(files, KeyOf(step)) == Report(report)
    ensures var reply := Review(cfg, db, files, step, env);
            && (reply.Moved? || reply.Raised?)
            && (reply.Moved? ==>
                  && reply.change.before == step
                  && (reply.change.event.Block? <==> Blocks(report, step.attempt, step.maxAttempts, env.scan))
                  && (reply.change.event.Block? <==> !Settles(cfg, db, report, step.attempt, step.maxAttempts, env)))
            && (reply.Raised? ==> !Settles(cfg, db, report, step.attempt, step.maxAttempts, env))
  {
    hide Gate, Canonical;
    GateAcceptsIff(cfg, db, KeyOf(step), env);
  }

  /**
    The exact replay condition. Let the current step be in REVIEWING with this report on the channel,
    and its review durable but its acknowledgement lost. Some later tick reads the very same report
    again if and only if the report is qualified or BLOCKED, or asks for an attempt that is not left,
    or is a DONE that the scan contradicts.
   */
  lemma ReplayedIffBlocked(cfg: Config, db: Db, files: Files, env: Env, n: int, report: WorkerResult)
    requires FlowInv(db) && Running(db) && IsCurrent(db.steps, n) && db.steps[n].state.Reviewing?
    requires ReadReport(files, KeyOf(db.steps[n])) == Report(report) && Tick(cfg, db, files, env).Moved?
    ensures var step := db.steps[n];
            Rereadable(cfg, Effect(cfg, TickCall(env), db, files), files, KeyOf(step)) <==>
            Blocks(report, step.attempt, step.maxAttempts, env.scan)
  {
    hide Tick, Rereadable, Review, Advance, FlowInv;
    ReviewIsTick(cfg, db, files, env, n);
    ReviewOutcomes(cfg, db, files, db.steps[n], report, env);
    RereadableAfterReview(cfg, db, files, env);
  }

  lemma ReviewIsTick(cfg: Config, db: Db, files: Files, env: Env, n: int)
    requires Running(db) && IsCurrent(db.steps, n) && db.steps[n].state.Reviewing?
    ensures Tick(cfg, db, files, env) == Review(cfg, db, files, db.steps[n], env)
  {
    hide Tick, Review;
    TickIsAdvance(cfg, db, files, n, env);
  }

  /** Durable or not: after the tick, the report can be read again if and only if the review could not settle it. */
  lemma ReadAgainIffUnsettled(cfg: Config, db: Db, files: Files, env: Env, n: int, report: WorkerResult)
    requires FlowInv(db) && Running(db) && IsCurrent(db.steps, n) && db.steps[n].state.Reviewing?
    requires ReadReport(files, KeyOf(db.steps[n])) == Report(report)
    ensures var step := db.steps[n];
            Rereadable(cfg, Effect(cfg, TickCall(env), db, files), files, KeyOf(step)) <==>
            !Settles(cfg, db, report, step.attempt, step.maxAttempts, env)
  {
    hide Tick, Rereadable, Review, Advance, FlowInv;
    ReviewIsTick(cfg, db, files, env, n);
    ReviewOutcomes(cfg, db, files, db.steps[n], report, env);
    if Tick(cfg, db, files, env).Moved? {
      RereadableAfterReview(cfg, db, files, env);
    } else {
      ReviewingIsRereadable(cfg, db, files, n);
    }
  }

  lemma ReviewingIsRereadable(cfg: Config, db: Db, files: Files, n: int)
    requires IsCurrent(db.steps, n) && db.steps[n].state.Reviewing?
    ensures Rereadable(cfg, db, files, KeyOf(db.steps[n]))
  {
    CurrentIsUnique(db.steps, n, Current(db.steps).value);
    assert EffectAll(cfg, [], db, files) == db;
  }
}
