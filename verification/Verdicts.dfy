/**
  When is a stored realization decision final? The documentation says a verdict is never overwritten
  because evidence is kept per attempt; the code says: exactly once its attempt is spent, or while no
  review can take place.
 */
module Verdicts {
  import opened Basics
  import opened Fsm
  import opened Store
  import opened Transactions
  import opened LoopPolicy
  import opened Protocol
  import opened ProtocolScripts
  import opened Invariants
  import opened Moves
  import opened Guarantees
  import opened Runs
  import opened History
  import opened Replay

  ghost function DecisionOf(db: Db, key: Key): Option<Decision> {
    if key in db.decisions then Some(db.decisions[key]) else None
  }

  /** Commands of the loop, the approval gate and the human override only. */
  predicate Workflow(calls: seq<Call>) {
    forall i :: 0 <= i < |calls| ==> !calls[i].OtherCall?
  }

  /** Some list of workflow commands replaces the decision d of this key. */
  ghost predicate CanReplace(cfg: Config, db: Db, files: Files, key: Key, d: Option<Decision>) {
    exists calls: seq<Call> :: Workflow(calls) && DecisionOf(EffectAll(cfg, calls, db, files), key) != d
  }

  lemma ReplaceLater(cfg: Config, call: Call, db: Db, files: Files, key: Key, d: Option<Decision>)
    requires !call.OtherCall? && CanReplace(cfg, Effect(cfg, call, db, files), files, key, d)
    ensures CanReplace(cfg, db, files, key, d)
  {
    hide Effect;
    var calls: seq<Call> :| Workflow(calls) && DecisionOf(EffectAll(cfg, calls, Effect(cfg, call, db, files), files), key) != d;
    EffectAllCons(cfg, call, calls, db, files);
  }

  /** Step n is open at attempt a in this state, under the canonical baseline, with a clean report on the channel. */
  ghost predicate Judgeable(cfg: Config, db: Db, files: Files, n: int, a: int, state: StepState) {
    && At(db, n, a, state) && Canonical(cfg, db)
    && ReadReport(files, Key(n, a)) == Report(WorkerResult(ReportDone, [], []))
  }

  /** A review whose scan disagrees with the decision d. */
  function Disagreeing(cfg: Config, d: Option<Decision>): Env {
    CalmEnv().(scanBaseline := cfg.canonicalVersion,
               scan := if d.Some? && d.value.verdict.Accepted? then Some([Violation("", "", "")]) else Some([]))
  }

  lemma MovedJudgeable(cfg: Config, db: Db, files: Files, c: Change, n: int, a: int, state: StepState)
    requires Judgeable(cfg, db, files, n, a, state) && ValidMove(db, c) && c.before.stepNo == n && c.after.attempt == a
    requires !c.after.state.Verified?
    ensures Judgeable(cfg, Commit(db, c), files, n, a, c.after.state)
  {
    hide At, ValidMove;
    MovedAt(db, c, n, a, state);
  }

  lemma Disagrees(cfg: Config, db: Db, key: Key, d: Option<Decision>)
    requires Canonical(cfg, db)
    ensures var gate := Gate(cfg, db, key, Disagreeing(cfg, d));
            gate.Ok? && gate.value.decision.key == key
            && gate.value.decision.verdict.Accepted? == !(d.Some? && d.value.verdict.Accepted?)
  {
    var v :| CurrentVersions(db.versions) == {v}
             && db.versions[v].version == cfg.canonicalVersion && db.versions[v].rules == cfg.canonicalRules;
    assert v in {v};
  }

  lemma DisagreeingReview(cfg: Config, db: Db, files: Files, step: Step, d: Option<Decision>)
    requires Canonical(cfg, db) && step.state.Reviewing?
    requires ReadReport(files, KeyOf(step)) == Report(WorkerResult(ReportDone, [], []))
    ensures var reply := Review(cfg, db, files, step, Disagreeing(cfg, d));
            reply.Moved? && DecisionOf(Commit(db, reply.change), KeyOf(step)) != d
  {
    hide Gate, Canonical;
    Disagrees(cfg, db, KeyOf(step), d);
  }

  lemma FromReviewing(cfg: Config, db: Db, files: Files, n: int, a: int, d: Option<Decision>)
    requires Judgeable(cfg, db, files, n, a, Reviewing)
    ensures CanReplace(cfg, db, files, Key(n, a), d)
  {
    hide FlowInv, Canonical;
    var env := Disagreeing(cfg, d);
    KeyAt(db, n, a, Reviewing);
    TickIsAdvance(cfg, db, files, n, env);
    DisagreeingReview(cfg, db, files, db.steps[n], d);
    var db' := Effect(cfg, TickCall(env), db, files);
    assert db' == Commit(db, Review(cfg, db, files, db.steps[n], env).change) by {
      hide Review;
    }
    assert Workflow([]) && EffectAll(cfg, [], db', files) == db';
    ReplaceLater(cfg, TickCall(env), db, files, Key(n, a), d);
  }

  lemma KeyAt(db: Db, n: int, a: int, state: StepState)
    requires At(db, n, a, state)
    ensures KeyOf(db.steps[n]) == Key(n, a)
  {
  }

  /** With a clean report on the channel, the tick of these states moves on within the attempt. */
  lemma TickOn(cfg: Config, db: Db, files: Files, n: int, a: int, state: StepState, next: StepState)
    requires Judgeable(cfg, db, files, n, a, state)
    requires ((state.Dispatched? || state.Working?) && next.ReportReceived?) || (state.ReportReceived? && next.Reviewing?)
    ensures Judgeable(cfg, Effect(cfg, TickCall(CalmEnv()), db, files), files, n, a, next)
  {
    hide FlowInv, Canonical, IsCurrent, ValidMove;
    KeyAt(db, n, a, state);
    TickIsAdvance(cfg, db, files, n, CalmEnv());
    TickMoves(cfg, db, files, CalmEnv());
    MovedJudgeable(cfg, db, files, Tick(cfg, db, files, CalmEnv()).change, n, a, state);
  }

  lemma FromReceived(cfg: Config, db: Db, files: Files, n: int, a: int, d: Option<Decision>)
    requires Judgeable(cfg, db, files, n, a, ReportReceived)
    ensures CanReplace(cfg, db, files, Key(n, a), d)
  {
    hide *;
    TickOn(cfg, db, files, n, a, ReportReceived, Reviewing);
    FromReviewing(cfg, Effect(cfg, TickCall(CalmEnv()), db, files), files, n, a, d);
    ReplaceLater(cfg, TickCall(CalmEnv()), db, files, Key(n, a), d);
  }

  lemma FromDispatched(cfg: Config, db: Db, files: Files, n: int, a: int, state: StepState, d: Option<Decision>)
    requires Judgeable(cfg, db, files, n, a, state) && (state.Dispatched? || state.Working?)
    ensures CanReplace(cfg, db, files, Key(n, a), d)
  {
    hide *;
    TickOn(cfg, db, files, n, a, state, ReportReceived);
    FromReceived(cfg, Effect(cfg, TickCall(CalmEnv()), db, files), files, n, a, d);
    ReplaceLater(cfg, TickCall(CalmEnv()), db, files, Key(n, a), d);
  }

  /** A command that leaves the versions alone leaves the baseline canonical. */
  lemma StillCanonical(cfg: Config, call: Call, db: Db, files: Files)
    requires Canonical(cfg, db) && !call.OtherCall?
    ensures Canonical(cfg, Effect(cfg, call, db, files))
  {
    hide Answer;
  }

  lemma FromWaiting(cfg: Config, db: Db, files: Files, n: int, a: int, d: Option<Decision>)
    requires Judgeable(cfg, db, files, n, a, WaitingApproval)
    ensures CanReplace(cfg, db, files, Key(n, a), d)
  {
    hide At, Canonical, Effect, CanReplace;
    ApproveAt(cfg, db, files, n, a);
    StillCanonical(cfg, ApproveAgain(n), db, files);
    FromDispatched(cfg, Effect(cfg, ApproveAgain(n), db, files), files, n, a, Dispatched, d);
    ReplaceLater(cfg, ApproveAgain(n), db, files, Key(n, a), d);
  }

  lemma FromReady(cfg: Config, db: Db, files: Files, n: int, a: int, d: Option<Decision>)
    requires Judgeable(cfg, db, files, n, a, Ready)
    ensures CanReplace(cfg, db, files, Key(n, a), d)
  {
    hide At, Canonical, Effect, CanReplace;
    var db' := Effect(cfg, TickCall(CalmEnv()), db, files);
    DispatchAt(cfg, db, files, n, a);
    StillCanonical(cfg, TickCall(CalmEnv()), db, files);
    if At(db', n, a, WaitingApproval) {
      FromWaiting(cfg, db', files, n, a, d);
    } else {
      FromDispatched(cfg, db', files, n, a, Dispatched, d);
    }
    ReplaceLater(cfg, TickCall(CalmEnv()), db, files, Key(n, a), d);
  }

  lemma FromBlocked(cfg: Config, db: Db, files: Files, n: int, a: int, d: Option<Decision>)
    requires Judgeable(cfg, db, files, n, a, Blocked)
    ensures CanReplace(cfg, db, files, Key(n, a), d)
  {
    hide At, Canonical, Effect, CanReplace;
    UnblockAt(cfg, db, files, n, a);
    StillCanonical(cfg, UnblockCall(n), db, files);
    FromReady(cfg, Effect(cfg, UnblockCall(n), db, files), files, n, a, d);
    ReplaceLater(cfg, UnblockCall(n), db, files, Key(n, a), d);
  }

  lemma OpenAttemptIsReplaceable(cfg: Config, db: Db, files: Files, n: int, a: int, d: Option<Decision>)
    requires n in db.steps && Judgeable(cfg, db, files, n, a, db.steps[n].state) && !db.steps[n].state.Pending? && !Spent(db.steps[n], a)
    ensures CanReplace(cfg, db, files, Key(n, a), d)
  {
    hide CanReplace, Canonical, IsCurrent, Running;
    assert FlowInv(db);
    assert StepOk(db.steps[n]);
    match db.steps[n].state
    case Ready => FromReady(cfg, db, files, n, a, d);
    case WaitingApproval => FromWaiting(cfg, db, files, n, a, d);
    case Dispatched => FromDispatched(cfg, db, files, n, a, Dispatched, d);
    case Working => FromDispatched(cfg, db, files, n, a, Working, d);
    case ReportReceived => FromReceived(cfg, db, files, n, a, d);
    case Reviewing => FromReviewing(cfg, db, files, n, a, d);
    case Blocked => FromBlocked(cfg, db, files, n, a, d);
  }

  function CleanChannel(key: Key): Files {
    Files(map[], map[], map[key := Readable(WorkerResult(ReportDone, [], []))], map[])
  }

  /** A review can take place: there is one project, and the canonical version is the current one. */
  ghost predicate Reviewable(cfg: Config, db: Db) {
    SingleProject(db).Some? && Canonical(cfg, db)
  }

  predicate ProjectsKeyed(db: Db) {
    forall name <- db.projects :: db.projects[name].name == name
  }

  function ResumeCall(): Call {
    ControlCall(ResumeProject, "operator", "continue", 0)
  }

  /** A paused project can be resumed; nothing else changes. */
  lemma ResumeRuns(cfg: Config, db: Db, files: Files)
    requires FlowInv(db) && ProjectsKeyed(db) && Reviewable(cfg, db) && SingleProject(db).value.paused
    ensures var db' := Effect(cfg, ResumeCall(), db, files);
            FlowInv(db') && Running(db') && Canonical(cfg, db') && db'.steps == db.steps && db'.decisions == db.decisions
  {
    hide FlowInv;
    NotBlank();
    EffectKeepsInvariant(cfg, ResumeCall(), db, files);
    StillCanonical(cfg, ResumeCall(), db, files);
    KeptProjects(cfg, ResumeCall(), db, files);
    var name :| db.projects.Keys == {name};
    assert name in db.projects;
    CanonicalIsOne(cfg, db);
  }

  lemma CanonicalIsOne(cfg: Config, db: Db)
    requires Canonical(cfg, db)
    ensures |CurrentVersions(db.versions)| == 1
  {
  }

  lemma ControlKeeps(cfg: Config, call: Call, db: Db, files: Files)
    requires ProjectsKeyed(db) && call.ControlCall?
    ensures var reply := Answer(cfg, call, db, files); reply.Controlled? ==> reply.project.name in db.projects
  {
    hide Blank;
    if SingleProject(db).None? { return; }
    var name :| db.projects.Keys == {name} && SingleProject(db).value == db.projects[name];
    assert name in db.projects;
  }

  lemma SettledKeeps(db: Db, reply: Reply)
    requires ProjectsKeyed(db) && (reply.Controlled? ==> reply.project.name in db.projects)
    ensures var db' := Settled(db, reply);
            ProjectsKeyed(db') && db'.projects.Keys == db.projects.Keys && db'.versions == db.versions
  {
  }

  /** Workflow commands neither add nor remove a project, nor touch a version. */
  lemma KeptProjects(cfg: Config, call: Call, db: Db, files: Files)
    requires ProjectsKeyed(db) && !call.OtherCall?
    ensures var db' := Effect(cfg, call, db, files);
            ProjectsKeyed(db') && db'.projects.Keys == db.projects.Keys && db'.versions == db.versions
  {
    hide Answer, Tick, ControlReply, Settled, ProjectsKeyed;
    match call {
      case TickCall(env) =>
        TickShape(cfg, db, files, env);
        AnswerIsTick(cfg, call, db, files);
      case ControlCall(_, _, _, _) => ControlKeeps(cfg, call, db, files);
      case _ => HumanReplies(cfg, call, db, files);
    }
    SettledKeeps(db, Answer(cfg, call, db, files));
  }

  lemma ReviewNeedsBaseline(cfg: Config, db: Db, files: Files, step: Step, env: Env)
    ensures var reply := Review(cfg, db, files, step, env);
            reply.Moved? && reply.change.evidence.Some? ==> Canonical(cfg, db)
  {
    hide Gate, Canonical, StepNext, MovedStep, DecideReview;
    GateAcceptsIff(cfg, db, KeyOf(step), env);
  }

  lemma DispatchGathersNothing(cfg: Config, db: Db, files: Files, step: Step, allowStart: bool, env: Env)
    ensures var reply := DispatchReply(db, step, env); reply.Moved? ==> reply.change.evidence.None?
    ensures var reply := Collect(cfg, db, files, step, allowStart, env); reply.Moved? ==> reply.change.evidence.None?
  {
    hide StepNext, MovedStep, CurrentVersions, BuildContext, BuildTask, SingleProject, ReadReport, AdvanceTask, TimedOut;
  }

  lemma OnlyReviewsGather(cfg: Config, db: Db, files: Files, project: Project, step: Step, env: Env)
    requires !step.state.Reviewing?
    ensures var reply := Advance(cfg, db, files, project, step, env); reply.Moved? ==> reply.change.evidence.None?
  {
    hide StepNext, MovedStep, DispatchReply, Collect, Review, RequiresApproval;
    DispatchGathersNothing(cfg, db, files, step, step.state.Dispatched?, env);
  }

  lemma HumansGatherNothing(cfg: Config, call: Call, db: Db, files: Files)
    requires !call.TickCall?
    ensures var reply := Answer(cfg, call, db, files); reply.Moved? ==> reply.change.evidence.None?
  {
    hide StepNext, MovedStep, CurrentVersions, BuildContext, BuildTask, SingleProject, Blank;
  }

  lemma AdvanceReviews(cfg: Config, db: Db, files: Files, project: Project, step: Step, env: Env)
    requires step.state.Reviewing?
    ensures Advance(cfg, db, files, project, step, env) == Review(cfg, db, files, step, env)
  {
    hide Review;
  }

  lemma TickGathersNothing(cfg: Config, db: Db, files: Files, env: Env)
    requires !Reviewable(cfg, db)
    ensures var reply := Tick(cfg, db, files, env); reply.Moved? ==> reply.change.evidence.None?
  {
    hide Advance, Review, Canonical;
    if SingleProject(db).Some? && Current(db.steps).Some? {
      var project, step := SingleProject(db).value, db.steps[Current(db.steps).value];
      if step.state.Reviewing? {
        ReviewNeedsBaseline(cfg, db, files, step, env);
        AdvanceReviews(cfg, db, files, project, step, env);
      } else {
        OnlyReviewsGather(cfg, db, files, project, step, env);
      }
    }
  }

  /** Without a reviewable project no workflow command writes a decision. */
  lemma NoReviewNoDecision(cfg: Config, call: Call, db: Db, files: Files)
    requires !Reviewable(cfg, db) && !call.OtherCall?
    ensures Effect(cfg, call, db, files).decisions == db.decisions
  {
    hide Answer, Tick, Reviewable;
    if call.TickCall? {
      TickGathersNothing(cfg, db, files, call.env);
      AnswerIsTick(cfg, call, db, files);
    } else {
      HumansGatherNothing(cfg, call, db, files);
    }
  }

  lemma AnswerIsTick(cfg: Config, call: Call, db: Db, files: Files)
    requires call.TickCall?
    ensures Answer(cfg, call, db, files) == Tick(cfg, db, files, call.env)
  {
    hide Tick;
  }

  lemma {:induction false} UnreviewableStays(cfg: Config, calls: seq<Call>, db: Db, files: Files)
    requires Workflow(calls) && !Reviewable(cfg, db) && ProjectsKeyed(db)
    ensures var db' := EffectAll(cfg, calls, db, files);
            !Reviewable(cfg, db') && ProjectsKeyed(db') && db'.decisions == db.decisions
    decreases |calls|
  {
    hide Effect;
    if calls != [] {
      var init, last := calls[..|calls| - 1], calls[|calls| - 1];
      UnreviewableStays(cfg, init, db, files);
      var mid := EffectAll(cfg, init, db, files);
      KeptProjects(cfg, last, mid, files);
      NoReviewNoDecision(cfg, last, mid, files);
    }
  }

  /** Whatever commands follow, of any component, and whatever the channel holds, this decision stays. */
  ghost predicate DecisionIsFinal(cfg: Config, db: Db, key: Key) {
    forall calls: seq<Call>, files: Files :: DecisionOf(EffectAll(cfg, calls, db, files), key) == DecisionOf(db, key)
  }

  /** The same for the commands of the workflow. */
  ghost predicate DecisionStands(cfg: Config, db: Db, key: Key) {
    forall calls: seq<Call>, files: Files ::
      Workflow(calls) ==> DecisionOf(EffectAll(cfg, calls, db, files), key) == DecisionOf(db, key)
  }

  /**
    The exact finality condition. The decision of an attempt already begun can never be replaced by the
    workflow if and only if that attempt is spent (the step has moved on to a later attempt, or stands
    in REVISE, FAILED, VERIFIED or ABORTED), or no review can take place at all. A pause does not count:
    it can be lifted. In particular the REJECTED decision of a BLOCKED step can still be replaced after
    an UNBLOCK. A spent attempt's decision is safe from every component.
   */
  lemma DecisionFinalIffSpent(cfg: Config, db: Db, n: int, a: int)
    requires FlowInv(db) && ProjectsKeyed(db)
    requires n in db.steps && 1 <= a <= db.steps[n].attempt && !db.steps[n].state.Pending?
    ensures DecisionStands(cfg, db, Key(n, a)) <==> Spent(db.steps[n], a) || !Reviewable(cfg, db)
    ensures Spent(db.steps[n], a) ==> DecisionIsFinal(cfg, db, Key(n, a))
  {
    hide EffectAll, FlowInv, Reviewable;
    if Spent(db.steps[n], a) {
      forall calls: seq<Call>, files: Files
        ensures DecisionOf(EffectAll(cfg, calls, db, files), Key(n, a)) == DecisionOf(db, Key(n, a))
      {
        SpentDecisionStays(cfg, calls, db, files, n, a);
      }
    } else if !Reviewable(cfg, db) {
      forall calls: seq<Call>, files: Files | Workflow(calls)
        ensures DecisionOf(EffectAll(cfg, calls, db, files), Key(n, a)) == DecisionOf(db, Key(n, a))
      {
        UnreviewableStays(cfg, calls, db, files);
      }
    } else {
      NotFinal(cfg, db, n, a);
    }
  }

  lemma SpentDecisionStays(cfg: Config, calls: seq<Call>, db: Db, files: Files, n: int, a: int)
    requires FlowInv(db) && n in db.steps && Spent(db.steps[n], a)
    ensures DecisionOf(EffectAll(cfg, calls, db, files), Key(n, a)) == DecisionOf(db, Key(n, a))
  {
    hide EffectAll, FlowInv;
    EffectAllIsLater(cfg, calls, db, files);
    assert StepLater(db, EffectAll(cfg, calls, db, files), n);
  }

  lemma OpenIsReplaceable(cfg: Config, db: Db, n: int, a: int, d: Option<Decision>)
    requires FlowInv(db) && Running(db) && Canonical(cfg, db)
    requires n in db.steps && 1 <= a <= db.steps[n].attempt && !db.steps[n].state.Pending? && !Spent(db.steps[n], a)
    ensures CanReplace(cfg, db, CleanChannel(Key(n, a)), Key(n, a), d)
  {
    hide EffectAll, FlowInv, Canonical, Running;
    OnlyCurrentIsOpen(db, n);
    OpenAttemptIsReplaceable(cfg, db, CleanChannel(Key(n, a)), n, a, d);
  }

  lemma NotFinal(cfg: Config, db: Db, n: int, a: int)
    requires FlowInv(db) && ProjectsKeyed(db) && Reviewable(cfg, db)
    requires n in db.steps && 1 <= a <= db.steps[n].attempt && !db.steps[n].state.Pending? && !Spent(db.steps[n], a)
    ensures !DecisionStands(cfg, db, Key(n, a))
  {
    hide EffectAll, FlowInv, Canonical, Effect;
    var key := Key(n, a);
    var files := CleanChannel(key);
    if SingleProject(db).value.paused {
      ResumeRuns(cfg, db, files);
      OpenIsReplaceable(cfg, Effect(cfg, ResumeCall(), db, files), n, a, DecisionOf(db, key));
      ReplaceLater(cfg, ResumeCall(), db, files, key, DecisionOf(db, key));
    } else {
      CanonicalIsOne(cfg, db);
      OpenIsReplaceable(cfg, db, n, a, DecisionOf(db, key));
    }
    var calls: seq<Call> :| Workflow(calls) && DecisionOf(EffectAll(cfg, calls, db, files), key) != DecisionOf(db, key);
  }
}
