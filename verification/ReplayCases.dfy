/**
  Two runs of a one-step plan, command by command: a report read again after its review was durable
  (against the documentation, see Replay), and a REJECTED decision replaced by an ACCEPTED one
  (see Verdicts). Acknowledging the report fails in both.
 */
module ReplayCases {
  import opened Basics
  import opened Fsm
  import opened Store
  import opened Transactions
  import opened LoopPolicy
  import opened Protocol
  import opened Invariants
  import opened Moves
  import opened Runs
  import opened History
  import opened Replay
  import opened Verdicts

  const PLAN_STEP := Step(1, "step", Low, false, 1, Pending, 0, None, None, None, None)

  const PLAN_PROJECT := Project("project", Auto, false, 0)

  const PLAN_KEY := Key(1, 1)

  /** One PENDING step with a single attempt, in a running AUTO project on the canonical baseline. */
  function Plan(cfg: Config): Db {
    Db(map[PLAN_PROJECT.name := PLAN_PROJECT], map[1 := PLAN_STEP], map[], {}, map[],
       map[cfg.canonicalVersion := Version(cfg.canonicalVersion, "", cfg.canonicalRules, None, true, 0)],
       map[], map[], map[], [])
  }

  /** The worker has published this report for the first attempt. */
  function Channel(report: WorkerResult): Files {
    Files(map[], map[], map[PLAN_KEY := Readable(report)], map[])
  }

  const PLAIN_TICK := TickCall(CalmEnv())

  const TO_REVIEWING: seq<Call> := [PLAIN_TICK, PLAIN_TICK, PLAIN_TICK, PLAIN_TICK]

  ghost function Then(cfg: Config, calls: seq<Call>, report: WorkerResult): Db {
    EffectAll(cfg, calls, Plan(cfg), Channel(report))
  }

  /** Where the run stands: the step in this state at its first attempt, everything else as planned. */
  ghost predicate Stands(cfg: Config, db: Db, state: StepState) {
    && FlowInv(db) && SingleProject(db) == Some(PLAN_PROJECT) && db.versions == Plan(cfg).versions
    && db.steps.Keys == {1} && SameIdentity(db.steps[1], PLAN_STEP)
    && db.steps[1].state == state && db.steps[1].attempt == (if state.Pending? then 0 else 1)
  }

  lemma PlanStands(cfg: Config)
    ensures Stands(cfg, Plan(cfg), Pending)
  {
    var db := Plan(cfg);
    assert db.projects.Keys == {PLAN_PROJECT.name};
    forall name | db.projects.Keys == {name}
      ensures name == PLAN_PROJECT.name
    {
      assert PLAN_PROJECT.name in {name};
    }
    assert StepLog(db.audit, 1) == [];
  }

  lemma StandsRuns(cfg: Config, db: Db, state: StepState)
    requires Stands(cfg, db, state)
    ensures Running(db) && Canonical(cfg, db) && db.steps[1].stepNo == 1
    ensures !state.Verified? ==> IsCurrent(db.steps, 1)
    ensures state.Dispatched? || state.Working? || state.Reviewing? ==> ReadKey(db) == Some(PLAN_KEY)
  {
    hide FlowInv;
    assert CurrentVersions(db.versions) == {cfg.canonicalVersion};
    assert 1 in db.steps;
    assert db.steps[1].stepNo == 1;
    if !state.Verified? {
      assert forall m <- db.steps :: m == 1;
      assert IsCurrent(db.steps, 1);
      CurrentIsUnique(db.steps, 1, Current(db.steps).value);
    }
  }

  /** A command that moves the step moves it along the table, and nothing else but what it gathered. */
  lemma StandsOn(cfg: Config, call: Call, db: Db, files: Files, state: StepState)
    requires Stands(cfg, db, state) && !call.OtherCall? && Answer(cfg, call, db, files).Moved?
    requires !Answer(cfg, call, db, files).change.event.Retry?
    ensures var c := Answer(cfg, call, db, files).change;
            var db' := Effect(cfg, call, db, files);
            && StepNext(state, c.event).Some? && Stands(cfg, db', StepNext(state, c.event).value)
            && DecisionOf(db', PLAN_KEY) ==
               if c.evidence.Some? then Some(c.evidence.value.decision) else DecisionOf(db, PLAN_KEY)
  {
    hide Answer, FlowInv, StepNext, SingleProject;
    var c := Answer(cfg, call, db, files).change;
    AnswerMoves(cfg, call, db, files);
    EffectKeepsInvariant(cfg, call, db, files);
    assert c.before.stepNo == 1;
    NoWayBack(state, c.event);
    assert Effect(cfg, call, db, files).projects == db.projects;
    SameProjectAs(db, Effect(cfg, call, db, files));
  }

  lemma SameProjectAs(a: Db, b: Db)
    requires a.projects == b.projects
    ensures SingleProject(a) == SingleProject(b)
  {
  }

  lemma NoWayBack(state: StepState, event: StepEvent)
    ensures var next := StepNext(state, event);
            next.Some? ==> !next.value.Pending? && (state.Pending? <==> event.Prepare?)
  {
  }

  /** The step is in this state, at its first attempt. */
  predicate StepIs(db: Db, state: StepState) {
    1 in db.steps && db.steps[1].state == state && db.steps[1].attempt == 1
  }

  lemma StandsIs(cfg: Config, db: Db, state: StepState)
    requires Stands(cfg, db, state) && !state.Pending?
    ensures FlowInv(db) && StepIs(db, state)
  {
    hide FlowInv;
    assert 1 in db.steps;
  }

  /** The event with which a plain tick moves a step on that has a readable report. */
  function PlainEvent(state: StepState): StepEvent {
    match state
    case Pending => Prepare
    case Ready => Dispatch
    case Dispatched => ReceiveReport
    case _ => StartReview
  }

  function PlainNext(state: StepState): StepState {
    match state
    case Pending => Ready
    case Ready => Dispatched
    case Dispatched => ReportReceived
    case _ => Reviewing
  }

  lemma PlainTick(cfg: Config, db: Db, report: WorkerResult, state: StepState)
    requires Stands(cfg, db, state) && (state.Pending? || state.Ready? || state.Dispatched? || state.ReportReceived?)
    ensures var reply := Answer(cfg, PLAIN_TICK, db, Channel(report));
            reply.Moved? && reply.change.event == PlainEvent(state) && reply.change.evidence.None?
  {
    hide FlowInv, Canonical, ReadKey, Tick;
    StandsRuns(cfg, db, state);
    TickIsAdvance(cfg, db, Channel(report), 1, CalmEnv());
    OnlyReviewsGather(cfg, db, Channel(report), SingleProject(db).value, db.steps[1], CalmEnv());
  }

  lemma PlainStep(cfg: Config, db: Db, report: WorkerResult, state: StepState)
    requires Stands(cfg, db, state) && (state.Pending? || state.Ready? || state.Dispatched? || state.ReportReceived?)
    ensures var db' := Effect(cfg, PLAIN_TICK, db, Channel(report));
            Stands(cfg, db', PlainNext(state)) && DecisionOf(db', PLAN_KEY) == DecisionOf(db, PLAN_KEY)
  {
    hide Stands, Effect, Answer;
    PlainTick(cfg, db, report, state);
    StandsOn(cfg, PLAIN_TICK, db, Channel(report), state);
  }

  /** One command more. */
  lemma OneMore(cfg: Config, calls: seq<Call>, call: Call, report: WorkerResult)
    ensures Then(cfg, calls + [call], report) == Effect(cfg, call, Then(cfg, calls, report), Channel(report))
  {
    assert (calls + [call])[..|calls|] == calls;
  }

  lemma ReachesReviewing(cfg: Config, report: WorkerResult)
    ensures Stands(cfg, Then(cfg, TO_REVIEWING, report), Reviewing)
  {
    hide Stands, Effect, Then;
    PlanStands(cfg);
    assert Then(cfg, [], report) == Plan(cfg) by { NothingYet(cfg, report); }
    PlainStep(cfg, Plan(cfg), report, Pending);
    OneMore(cfg, [], PLAIN_TICK, report);
    PlainStep(cfg, Then(cfg, [] + [PLAIN_TICK], report), report, Ready);
    OneMore(cfg, [] + [PLAIN_TICK], PLAIN_TICK, report);
    PlainStep(cfg, Then(cfg, [] + [PLAIN_TICK] + [PLAIN_TICK], report), report, Dispatched);
    OneMore(cfg, [] + [PLAIN_TICK] + [PLAIN_TICK], PLAIN_TICK, report);
    PlainStep(cfg, Then(cfg, [] + [PLAIN_TICK] + [PLAIN_TICK] + [PLAIN_TICK], report), report, ReportReceived);
    OneMore(cfg, [] + [PLAIN_TICK] + [PLAIN_TICK] + [PLAIN_TICK], PLAIN_TICK, report);
    assert TO_REVIEWING == [] + [PLAIN_TICK] + [PLAIN_TICK] + [PLAIN_TICK] + [PLAIN_TICK];
  }

  lemma NothingYet(cfg: Config, report: WorkerResult)
    ensures Then(cfg, [], report) == Plan(cfg)
  {
  }

  // -- a report that is read twice ---------------------------------------------------------------

  const BLOCKED_REPORT := WorkerResult(ReportBlocked, [], [])

  lemma BlockedReview(cfg: Config, db: Db)
    requires Stands(cfg, db, Reviewing)
    ensures Stands(cfg, Effect(cfg, PLAIN_TICK, db, Channel(BLOCKED_REPORT)), Blocked)
  {
    hide FlowInv, Effect, Tick, Stands;
    var files := Channel(BLOCKED_REPORT);
    StandsCurrent(cfg, db, Reviewing);
    ReviewIsTick(cfg, db, files, CalmEnv(), 1);
    AnswerIsTick(cfg, PLAIN_TICK, db, files);
    StandsOn(cfg, PLAIN_TICK, db, files, Reviewing);
  }

  lemma StandsCurrent(cfg: Config, db: Db, state: StepState)
    requires Stands(cfg, db, state) && !state.Verified? && !state.Pending?
    ensures IsCurrent(db.steps, 1) && db.steps[1].state == state && KeyOf(db.steps[1]) == PLAN_KEY && Running(db) && Canonical(cfg, db)
  {
    hide FlowInv;
    StandsRuns(cfg, db, state);
  }

  lemma UnblockStands(cfg: Config, db: Db, files: Files)
    requires Stands(cfg, db, Blocked)
    ensures var db' := Effect(cfg, UnblockCall(1), db, files);
            Stands(cfg, db', Ready) && DecisionOf(db', PLAN_KEY) == DecisionOf(db, PLAN_KEY)
  {
    hide FlowInv, Effect, Stands;
    NotBlank();
    StandsCurrent(cfg, db, Blocked);
    StandsOn(cfg, UnblockCall(1), db, files, Blocked);
  }

  const REVIEWED := TO_REVIEWING + [PLAIN_TICK]

  const DISPATCHED_AGAIN := REVIEWED + [UnblockCall(1)] + [PLAIN_TICK]

  lemma SecondDispatch(cfg: Config, report: WorkerResult, calls: seq<Call>)
    requires Stands(cfg, Then(cfg, calls, report), Blocked)
    ensures Stands(cfg, Then(cfg, calls + [UnblockCall(1)] + [PLAIN_TICK], report), Dispatched)
    ensures DecisionOf(Then(cfg, calls + [UnblockCall(1)] + [PLAIN_TICK], report), PLAN_KEY) ==
            DecisionOf(Then(cfg, calls, report), PLAN_KEY)
  {
    hide Effect, Then, Stands, DecisionOf;
    UnblockStands(cfg, Then(cfg, calls, report), Channel(report));
    OneMore(cfg, calls, UnblockCall(1), report);
    PlainStep(cfg, Then(cfg, calls + [UnblockCall(1)], report), report, Ready);
    OneMore(cfg, calls + [UnblockCall(1)], PLAIN_TICK, report);
  }

  /**
    The report of attempt 1 is reviewed and the outcome is durable (BLOCKED). After an UNBLOCK and a
    dispatch the next tick opens the very same report, and receives it a second time.
   */
  lemma ReportReadTwice(cfg: Config)
    ensures var db := Then(cfg, TO_REVIEWING, BLOCKED_REPORT);
            FlowInv(db) && Running(db) && StepIs(db, Reviewing) && ReadKey(db) == Some(PLAN_KEY)
    ensures StepIs(Then(cfg, REVIEWED, BLOCKED_REPORT), Blocked)
    ensures ReadKey(Then(cfg, DISPATCHED_AGAIN, BLOCKED_REPORT)) == Some(PLAN_KEY)
    ensures StepIs(Then(cfg, DISPATCHED_AGAIN + [PLAIN_TICK], BLOCKED_REPORT), ReportReceived)
  {
    hide *;
    var report := BLOCKED_REPORT;
    ReachesReviewing(cfg, report);
    StandsRuns(cfg, Then(cfg, TO_REVIEWING, report), Reviewing);
    StandsIs(cfg, Then(cfg, TO_REVIEWING, report), Reviewing);
    BlockedReview(cfg, Then(cfg, TO_REVIEWING, report));
    ReceivedAgain(cfg);
  }

  lemma ReceivedAgain(cfg: Config)
    requires Stands(cfg, Effect(cfg, PLAIN_TICK, Then(cfg, TO_REVIEWING, BLOCKED_REPORT), Channel(BLOCKED_REPORT)), Blocked)
    ensures StepIs(Then(cfg, REVIEWED, BLOCKED_REPORT), Blocked)
    ensures ReadKey(Then(cfg, DISPATCHED_AGAIN, BLOCKED_REPORT)) == Some(PLAN_KEY)
    ensures StepIs(Then(cfg, DISPATCHED_AGAIN + [PLAIN_TICK], BLOCKED_REPORT), ReportReceived)
  {
    hide Effect, Then, Stands, ReadKey, StepIs, TO_REVIEWING;
    var report := BLOCKED_REPORT;
    OneMore(cfg, TO_REVIEWING, PLAIN_TICK, report);
    StandsIs(cfg, Then(cfg, REVIEWED, report), Blocked);
    SecondDispatch(cfg, report, REVIEWED);
    StandsRuns(cfg, Then(cfg, DISPATCHED_AGAIN, report), Dispatched);
    PlainStep(cfg, Then(cfg, DISPATCHED_AGAIN, report), report, Dispatched);
    OneMore(cfg, DISPATCHED_AGAIN, PLAIN_TICK, report);
    StandsIs(cfg, Then(cfg, DISPATCHED_AGAIN + [PLAIN_TICK], report), ReportReceived);
  }

  // -- a decision that is replaced ------------------------------------------------------------------

  const DONE_REPORT := WorkerResult(ReportDone, [], [])

  /** A review whose scan finds these violations. */
  function ScanTick(cfg: Config, violations: seq<Violation>): Call {
    TickCall(CalmEnv().(scanBaseline := cfg.canonicalVersion, scan := Some(violations)))
  }

  const VIOLATION := Violation("forbidden-layer-import", "app.domain", "app.infrastructure")

  lemma ScannedReview(cfg: Config, db: Db, violations: seq<Violation>)
    requires Stands(cfg, db, Reviewing)
    ensures var db' := Effect(cfg, ScanTick(cfg, violations), db, Channel(DONE_REPORT));
            && Stands(cfg, db', if violations == [] then Verified else Blocked)
            && DecisionOf(db', PLAN_KEY).Some?
            && (DecisionOf(db', PLAN_KEY).value.verdict.Accepted? <==> violations == [])
  {
    hide FlowInv, Effect, Tick, Stands, Gate, Canonical;
    var call, files := ScanTick(cfg, violations), Channel(DONE_REPORT);
    StandsCurrent(cfg, db, Reviewing);
    ReviewIsTick(cfg, db, files, call.env, 1);
    AnswerIsTick(cfg, call, db, files);
    GateAcceptsIff(cfg, db, PLAN_KEY, call.env);
    StandsOn(cfg, call, db, files, Reviewing);
  }

  function Refused(cfg: Config): seq<Call> {
    TO_REVIEWING + [ScanTick(cfg, [VIOLATION])]
  }

  /** The second round: unblock, dispatch, receive, start the review, and review under a clean scan. */
  function SecondRound(cfg: Config): seq<Call> {
    Refused(cfg) + [UnblockCall(1)] + [PLAIN_TICK] + [PLAIN_TICK] + [PLAIN_TICK] + [ScanTick(cfg, [])]
  }

  predicate Decides(db: Db, verdict: Verdict) {
    PLAN_KEY in db.decisions && db.decisions[PLAN_KEY].verdict == verdict
  }

  /** Attempt 1 is BLOCKED with a REJECTED decision; five commands later the same key holds an ACCEPTED one. */
  lemma DecisionReplaced(cfg: Config)
    ensures var db := Then(cfg, Refused(cfg), DONE_REPORT); FlowInv(db) && StepIs(db, Blocked) && Decides(db, Rejected)
    ensures var db := Then(cfg, SecondRound(cfg), DONE_REPORT); StepIs(db, Verified) && Decides(db, Accepted)
  {
    hide Effect, Then, FlowInv, Stands, StepIs, TO_REVIEWING, ScanTick;
    var report, calls := DONE_REPORT, Refused(cfg);
    ReachesReviewing(cfg, report);
    ScannedReview(cfg, Then(cfg, TO_REVIEWING, report), [VIOLATION]);
    OneMore(cfg, TO_REVIEWING, ScanTick(cfg, [VIOLATION]), report);
    StandsIs(cfg, Then(cfg, calls, report), Blocked);
    SecondDispatch(cfg, report, calls);
    SecondReview(cfg, calls + [UnblockCall(1)] + [PLAIN_TICK]);
  }

  lemma SecondReview(cfg: Config, calls: seq<Call>)
    requires Stands(cfg, Then(cfg, calls, DONE_REPORT), Dispatched)
    ensures var db := Then(cfg, calls + [PLAIN_TICK] + [PLAIN_TICK] + [ScanTick(cfg, [])], DONE_REPORT);
            StepIs(db, Verified) && Decides(db, Accepted)
  {
    hide Effect, Then, FlowInv, Stands, StepIs, ScanTick;
    var report := DONE_REPORT;
    PlainStep(cfg, Then(cfg, calls, report), report, Dispatched);
    OneMore(cfg, calls, PLAIN_TICK, report);
    PlainStep(cfg, Then(cfg, calls + [PLAIN_TICK], report), report, ReportReceived);
    OneMore(cfg, calls + [PLAIN_TICK], PLAIN_TICK, report);
    var reviewing := calls + [PLAIN_TICK] + [PLAIN_TICK];
    ScannedReview(cfg, Then(cfg, reviewing, report), []);
    OneMore(cfg, reviewing, ScanTick(cfg, []), report);
    StandsIs(cfg, Then(cfg, reviewing + [ScanTick(cfg, [])], report), Verified);
  }
}
