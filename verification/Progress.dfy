/** What a whole call of the scheduler achieves, and why its iteration limit is never the reason it stops. */
module Progress {
  import opened Basics
  import opened Fsm
  import opened Store
  import opened Transactions
  import opened LoopPolicy
  import opened Protocol
  import opened ProtocolScripts
  import opened Invariants
  import opened Moves
  import opened Budget
  import opened Connections
  import opened Orchestration
  import opened Scheduling

  // -- the limit -----------------------------------------------------------------------

  /** As long as every tick transitions, the work that remains possible shrinks by one each time. */
  lemma {:induction false} RankFalls(order: seq<int>, cfg: Config, s: Stage, worlds: seq<World>, n: nat)
    requires n <= |worlds| && FlowInv(s.db) && Lists(order, s.db.steps)
    requires forall i :: 0 <= i < n ==> ReplyAt(cfg, s, worlds, i).Moved?
    ensures var db := StageAt(cfg, s, worlds, n).db;
            FlowInv(db) && Lists(order, db.steps) && TotalRank(order, db.steps) + n <= TotalRank(order, s.db.steps)
    decreases n
  {
    hide ReplyFrom, TickFrom, FlowInv, Lists;
    if n > 0 {
      RankFalls(order, cfg, s, worlds, n - 1);
      assert ReplyAt(cfg, s, worlds, n - 1).Moved?;
      OneTickFalls(order, cfg, StageAt(cfg, s, worlds, n - 1), worlds[n - 1]);
    }
  }

  lemma OneTickFalls(order: seq<int>, cfg: Config, s: Stage, w: World)
    requires FlowInv(s.db) && Lists(order, s.db.steps) && ReplyFrom(cfg, s, w).Moved?
    ensures var db := TickFrom(cfg, s, w).db;
            FlowInv(db) && Lists(order, db.steps) && TotalRank(order, db.steps) + 1 <= TotalRank(order, s.db.steps)
  {
    hide Tick, FlowInv, ValidMove, Rank, RunFiles, ScriptFor;
    var files := Arrived(s.files, w.arrives);
    var c := Tick(cfg, s.db, files, w.env).change;
    AnswerMoves(cfg, TickCall(w.env), s.db, files);
    TickShape(cfg, s.db, files, w.env);
    MoveKeepsInvariant(s.db, c);
    MoveLowersRank(s.db, c);
    MovesListed(order, s.db, c);
  }

  lemma MovesListed(order: seq<int>, db: Db, c: Change)
    requires ValidMove(db, c) && Lists(order, db.steps)
    ensures Lists(order, Commit(db, c).steps)
    ensures TotalRank(order, Commit(db, c).steps) == TotalRank(order, db.steps) + Rank(c.after) - Rank(c.before)
  {
    UpdateOne(Rank, order, db.steps, c.after);
  }

  lemma TransitionedMeansMoved(cfg: Config, s: Stage, w: World)
    ensures var r := OutcomeFrom(cfg, s, w);
            r.Ok? && r.value.status.Transitioned? <==> ReplyFrom(cfg, s, w).Moved?
  {
    TickShape(cfg, s.db, Arrived(s.files, w.arrives), w.env);
    hide Tick;
  }

  /**
    With more iterations allowed than the plan has rank, the iteration limit is never the reason a
    call stops, whatever the worker, the clock and the gate do.
   */
  lemma LimitNeverReached(order: seq<int>, cfg: Config, s: Stage, worlds: seq<World>, run: SchedulerRun)
    requires FlowInv(s.db) && Lists(order, s.db.steps) && TotalRank(order, s.db.steps) < |worlds|
    requires RunsUntilIdle(cfg, s, worlds, run)
    ensures !run.limitReached && |run.ticks| - 1 <= TotalRank(order, s.db.steps)
  {
    hide OutcomeFrom, ReplyFrom, TickFrom, FlowInv;
    var n := if run.limitReached then |run.ticks| else |run.ticks| - 1;
    forall i | 0 <= i < n
      ensures ReplyAt(cfg, s, worlds, i).Moved?
    {
      TransitionedMeansMoved(cfg, StageAt(cfg, s, worlds, i), worlds[i]);
      assert OutcomeAt(cfg, s, worlds, i) == Ok(run.ticks[i]);
    }
    RankFalls(order, cfg, s, worlds, n);
    ListedRanks(order, StageAt(cfg, s, worlds, n).db);
  }

  // -- progress --------------------------------------------------------------------------

  /** The smooth path has five transitions per step. */
  function Left(s: Step): int {
    match s.state
    case Pending => 5
    case Ready => 4
    case Dispatched => 3
    case ReportReceived => 2
    case Reviewing => 1
    case _ => 0
  }

  predicate CleanReport(file: ReportFile) {
    file == Readable(WorkerResult(ReportDone, [], []))
  }

  /** A clean report is on the channel for the attempt this step is on, or will be on. */
  predicate HasReport(files: Files, s: Step) {
    var key := Key(s.stepNo, Max(s.attempt, 1));
    key in files.reports && CleanReport(files.reports[key])
  }

  /** The step is on the smooth path: no approval, a clean report, no detour. */
  predicate SmoothStep(files: Files, s: Step) {
    && !s.requiresHuman && !s.risk.High?
    && (s.state.Verified? || (Left(s) > 0 && HasReport(files, s) && (!s.state.Pending? ==> s.attempt >= 1)))
  }

  /** A running AUTO project on the canonical baseline. */
  ghost predicate AutoProject(cfg: Config, db: Db) {
    && SingleProject(db).Some? && !SingleProject(db).value.paused && SingleProject(db).value.mode.Auto?
    && exists v :: CurrentVersions(db.versions) == {v}
                   && db.versions[v].version == cfg.canonicalVersion && db.versions[v].rules == cfg.canonicalRules
  }

  ghost predicate Smooth(cfg: Config, s: Stage) {
    && AutoProject(cfg, s.db) && Keyed(s.db.steps)
    && forall n <- s.db.steps :: SmoothStep(s.files, s.db.steps[n])
  }

  /** Nothing in the way: the channel accepts files and the gate is compliant. */
  predicate FairEnv(cfg: Config, env: Env) {
    !env.contextFails && !env.taskFails && env.scan == Some([]) && env.scanBaseline == cfg.canonicalVersion
  }

  /** Reports that arrive are clean; when they arrive, and whether acknowledging works, is open. */
  predicate Fair(cfg: Config, w: World) {
    FairEnv(cfg, w.env) && forall k <- w.arrives :: CleanReport(w.arrives[k])
  }

  /** Two stores that differ in the rows of the workflow only. */
  predicate SameProject(a: Db, b: Db) {
    a.projects == b.projects && a.versions == b.versions
  }

  lemma GateAccepts(cfg: Config, db: Db, key: Key, env: Env)
    requires AutoProject(cfg, db) && env.scan == Some([]) && env.scanBaseline == cfg.canonicalVersion
    ensures var gate := Gate(cfg, db, key, env);
            gate.Ok? && gate.value.decision.verdict.Accepted?
  {
    var v :| CurrentVersions(db.versions) == {v};
    assert v in {v};
  }

  lemma PublicationSucceeds(cfg: Config, db: Db, step: Step, attempt: int, env: Env)
    requires AutoProject(cfg, db) && !env.contextFails && !env.taskFails
    ensures Publish(db, step, attempt, env).Ok?
  {
    var v :| CurrentVersions(db.versions) == {v};
    assert |CurrentVersions(db.versions)| == 1;
  }

  /** On the smooth path a tick moves the current step one place further. */
  lemma SmoothMove(cfg: Config, db: Db, files: Files, step: Step, env: Env)
    requires AutoProject(cfg, db) && SmoothStep(files, step) && !step.state.Verified?
    requires FairEnv(cfg, env)
    ensures var reply := Advance(cfg, db, files, SingleProject(db).value, step, env);
            && reply.Moved? && reply.change.before == step && reply.change.after.stepNo == step.stepNo
            && SmoothAfter(reply.change)
            && (reply.acknowledges ==> reply.change.after.state.Verified?)
  {
    match step.state
    case Ready => PublicationSucceeds(cfg, db, step, step.attempt, env);
    case Reviewing => GateAccepts(cfg, db, KeyOf(step), env);
    case _ =>
  }

  predicate SmoothAfter(c: Change) {
    && Left(c.after) + 1 == Left(c.before) && c.after.attempt == Max(c.before.attempt, 1)
    && c.after.requiresHuman == c.before.requiresHuman && c.after.risk == c.before.risk
    && (c.after.state.Verified? <==> Left(c.after) == 0)
  }

  /** A tick takes away at most the report of the attempt it has just reviewed. */
  lemma ReportsKept(cfg: Config, db: Db, files: Files, env: Env)
    ensures var reply := Tick(cfg, db, files, env);
            var after := FilesAfter(cfg, TickCall(env), db, files);
            reply.Moved? ==>
              after.reports == files.reports
              || (reply.acknowledges && after.reports == files.reports - {KeyOf(reply.change.before)})
  {
    hide Tick, Body, Micros, Effect, PublicationSteps;
    var reply := Tick(cfg, db, files, env);
    if reply.Moved? {
      var script := ScriptOf(reply, ReviewAck(reply, env));
      ScriptRefines(cfg, TickCall(env), db, files);
      ScriptOnFiles(script, files);
      PublishingKeepsReports(reply.change, files);
      NoFilesChange(RunFiles(script.before, files));
      OneFileChange(Archive(KeyOf(reply.change.before), env.stamp), RunFiles(script.before, files));
    }
  }

  lemma PublishingKeepsReports(c: Change, files: Files)
    ensures RunFiles(PublicationSteps(c), files).reports == files.reports
  {
    var steps := PublicationSteps(c);
    if steps != [] {
      assert steps == [steps[0]] + [steps[1]];
      RunFilesSnoc([steps[0]], steps[1], files);
      OneFileChange(steps[0], files);
    }
  }

  /** The smooth path is kept by the tick that walks it. */
  lemma SmoothKept(cfg: Config, s: Stage, w: World, n: int)
    requires Smooth(cfg, s) && Fair(cfg, w) && Current(s.db.steps) == Some(n)
    ensures var reply := ReplyFrom(cfg, s, w);
            && reply.Moved? && reply.change.before == s.db.steps[n] && reply.change.after.stepNo == n
            && Left(reply.change.after) + 1 == Left(reply.change.before)
            && TickFrom(cfg, s, w).db == Commit(s.db, reply.change) && Smooth(cfg, TickFrom(cfg, s, w))
  {
    hide Advance, FilesAfter, AutoProject;
    var files := Arrived(s.files, w.arrives);
    var step, project := s.db.steps[n], ProjectOf(cfg, s.db);
    TickAdvances(cfg, s.db, files, project, step, w.env);
    SmoothMove(cfg, s.db, files, step, w.env);
    ReportsKept(cfg, s.db, files, w.env);
    var c := ReplyFrom(cfg, s, w).change;
    SameAuto(cfg, s.db, Commit(s.db, c));
    SmoothSteps(s, w, TickFrom(cfg, s, w), c);
  }

  ghost function ProjectOf(cfg: Config, db: Db): (p: Project)
    requires AutoProject(cfg, db)
    ensures SingleProject(db) == Some(p) && !p.paused
  {
    SingleProject(db).value
  }

  lemma SameAuto(cfg: Config, a: Db, b: Db)
    requires AutoProject(cfg, a) && SameProject(a, b)
    ensures AutoProject(cfg, b)
  {
  }

  lemma SmoothSteps(s: Stage, w: World, s': Stage, c: Change)
    requires Keyed(s.db.steps) && forall n <- s.db.steps :: SmoothStep(s.files, s.db.steps[n])
    requires forall k <- w.arrives :: CleanReport(w.arrives[k])
    requires c.before.stepNo in s.db.steps && s.db.steps[c.before.stepNo] == c.before && c.after.stepNo == c.before.stepNo
    requires s'.db == Commit(s.db, c) && SmoothAfter(c)
    requires var reports := Arrived(s.files, w.arrives).reports;
             s'.files.reports == reports || (c.after.state.Verified? && s'.files.reports == reports - {KeyOf(c.before)})
    ensures Keyed(s'.db.steps) && forall n <- s'.db.steps :: SmoothStep(s'.files, s'.db.steps[n])
  {
    forall n | n in s'.db.steps
      ensures SmoothStep(s'.files, s'.db.steps[n])
    {
      assert n in s.db.steps && SmoothStep(s.files, s.db.steps[n]);
    }
  }

  lemma {:induction false} AllLeft(order: seq<int>, steps: map<int, Step>)
    requires forall i :: 0 <= i < |order| ==> order[i] in steps
    ensures Total(Left, order, steps) >= 0
    ensures Total(Left, order, steps) == 0 ==> forall i :: 0 <= i < |order| ==> Left(steps[order[i]]) == 0
    ensures (forall i :: 0 <= i < |order| ==> steps[order[i]].state.Verified?) ==> Total(Left, order, steps) == 0
    ensures (forall i :: 0 <= i < |order| ==> steps[order[i]].state.Pending?) ==> Total(Left, order, steps) == 5 * |order|
    decreases |order|
  {
    if order != [] {
      AllLeft(order[1..], steps);
    }
  }

  /** There is a current step exactly while something is left to do. */
  lemma CurrentWhileLeft(order: seq<int>, cfg: Config, s: Stage)
    requires Smooth(cfg, s) && Lists(order, s.db.steps)
    ensures Current(s.db.steps).Some? <==> Total(Left, order, s.db.steps) > 0
  {
    var steps := s.db.steps;
    AllLeft(order, steps);
    if Total(Left, order, steps) > 0 {
      var open := set n <- steps | !steps[n].state.Verified?;
      var i :| 0 <= i < |order| && !steps[order[i]].state.Verified?;
      assert order[i] in open;
      HasLeast(open);
      var n :| IsLeast(open, n);
      forall m | m in steps && m < n
        ensures steps[m].state.Verified?
      {
        assert m !in open;
      }
      assert IsCurrent(steps, n);
    } else {
      forall n | n in steps
        ensures steps[n].state.Verified?
      {
        assert n in order && SmoothStep(s.files, steps[n]);
      }
    }
  }

  /** Each of the first ticks takes the plan one place further. */
  lemma {:induction false} SmoothRun(order: seq<int>, cfg: Config, s: Stage, worlds: seq<World>, n: nat)
    requires Smooth(cfg, s) && Lists(order, s.db.steps) && forall i :: 0 <= i < |worlds| ==> Fair(cfg, worlds[i])
    requires n <= |worlds| && n <= Total(Left, order, s.db.steps)
    ensures var here := StageAt(cfg, s, worlds, n);
            Smooth(cfg, here) && Lists(order, here.db.steps) && Total(Left, order, here.db.steps) == Total(Left, order, s.db.steps) - n
    ensures forall i :: 0 <= i < n ==> ReplyAt(cfg, s, worlds, i).Moved?
    decreases n
  {
    hide ReplyFrom, TickFrom, Smooth, Lists;
    if n > 0 {
      SmoothRun(order, cfg, s, worlds, n - 1);
      SmoothTick(order, cfg, StageAt(cfg, s, worlds, n - 1), worlds[n - 1]);
      assert ReplyAt(cfg, s, worlds, n - 1).Moved?;
    }
  }

  lemma SmoothTick(order: seq<int>, cfg: Config, s: Stage, w: World)
    requires Smooth(cfg, s) && Fair(cfg, w) && Lists(order, s.db.steps) && Total(Left, order, s.db.steps) > 0
    ensures var next := TickFrom(cfg, s, w);
            Smooth(cfg, next) && Lists(order, next.db.steps) && Total(Left, order, next.db.steps) == Total(Left, order, s.db.steps) - 1
    ensures ReplyFrom(cfg, s, w).Moved?
  {
    hide ReplyFrom, TickFrom, Smooth;
    CurrentWhileLeft(order, cfg, s);
    SmoothKept(cfg, s, w, Current(s.db.steps).value);
    UpdateOne(Left, order, s.db.steps, ReplyFrom(cfg, s, w).change.after);
  }

  /** How a finished plan answers. */
  function FinalResult(order: seq<int>): TickResult {
    if order == [] then QuietResult(NoSteps, "no-steps", None) else QuietResult(Complete, "all-steps-verified", None)
  }

  lemma FinalIsQuiet(order: seq<int>)
    ensures !FinalResult(order).status.Transitioned?
    ensures FinalResult(order).reason == if order == [] then "no-steps" else "all-steps-verified"
  {
  }

  lemma EmptyPlan(steps: map<int, Step>)
    requires Lists([], steps)
    ensures steps == map[]
  {
    assert forall n <- steps :: n in steps ==> false;
    assert steps.Keys == {};
  }

  /** With nothing left, a tick reports completion and writes nothing. */
  lemma SmoothEnd(order: seq<int>, cfg: Config, s: Stage, w: World)
    requires Smooth(cfg, s) && Lists(order, s.db.steps) && Total(Left, order, s.db.steps) == 0
    ensures OutcomeFrom(cfg, s, w) ==
            Ok(FinalResult(order))
    ensures forall n <- s.db.steps :: s.db.steps[n].state.Verified?
  {
    CurrentWhileLeft(order, cfg, s);
    AllLeft(order, s.db.steps);
    forall n | n in s.db.steps
      ensures s.db.steps[n].state.Verified?
    {
      assert n in order && SmoothStep(s.files, s.db.steps[n]);
    }
    if order == [] {
      EmptyPlan(s.db.steps);
    } else {
      assert order[0] in s.db.steps;
    }
  }

  lemma MovedTransitions(cfg: Config, s: Stage, worlds: seq<World>, n: nat)
    requires n <= |worlds| && forall i :: 0 <= i < n ==> ReplyAt(cfg, s, worlds, i).Moved?
    ensures forall i :: 0 <= i < n ==> TransitionsAt(cfg, s, worlds, i)
  {
    hide ReplyFrom, OutcomeFrom, StageAt;
    forall i | 0 <= i < n
      ensures TransitionsAt(cfg, s, worlds, i)
    {
      assert ReplyAt(cfg, s, worlds, i).Moved?;
      TransitionedMeansMoved(cfg, StageAt(cfg, s, worlds, i), worlds[i]);
    }
  }

  ghost predicate TransitionsAt(cfg: Config, s: Stage, worlds: seq<World>, i: nat)
    requires i < |worlds|
  {
    OutcomeAt(cfg, s, worlds, i).Ok? && OutcomeAt(cfg, s, worlds, i).value.status.Transitioned?
  }

  /** The seeded plan, each of its steps pending, has five places per step left. */
  lemma SeededLeft(order: seq<int>, steps: map<int, Step>)
    requires Lists(order, steps) && forall n <- steps :: steps[n].state.Pending?
    ensures Total(Left, order, steps) == 5 * |order|
  {
    forall i | 0 <= i < |order|
      ensures steps[order[i]].state.Pending?
    {
      var n := order[i];
      assert n in steps;
    }
    AllLeft(order, steps);
  }

  lemma SmoothOutcomes(order: seq<int>, cfg: Config, s: Stage, worlds: seq<World>)
    requires Smooth(cfg, s) && Lists(order, s.db.steps) && forall n <- s.db.steps :: s.db.steps[n].state.Pending?
    requires |worlds| > 5 * |order| && forall i :: 0 <= i < |worlds| ==> Fair(cfg, worlds[i])
    ensures forall i :: 0 <= i < 5 * |order| ==> TransitionsAt(cfg, s, worlds, i)
    ensures OutcomeAt(cfg, s, worlds, 5 * |order|) ==
            Ok(FinalResult(order))
    ensures forall n <- StageAt(cfg, s, worlds, 5 * |order|).db.steps ::
              StageAt(cfg, s, worlds, 5 * |order|).db.steps[n].state.Verified?
  {
    hide ReplyFrom, TickFrom, OutcomeFrom, Smooth, Total, TransitionsAt, Lists, Fair, FinalResult, Left;
    var total := 5 * |order|;
    SeededLeft(order, s.db.steps);
    SmoothRun(order, cfg, s, worlds, total);
    SmoothEnd(order, cfg, StageAt(cfg, s, worlds, total), worlds[total]);
    MovedTransitions(cfg, s, worlds, total);
  }

  lemma ExactLength(cfg: Config, s: Stage, worlds: seq<World>, run: SchedulerRun, total: nat)
    requires RunsUntilIdle(cfg, s, worlds, run) && total < |worlds|
    requires forall i :: 0 <= i < total ==> TransitionsAt(cfg, s, worlds, i)
    requires OutcomeAt(cfg, s, worlds, total).Ok? && !OutcomeAt(cfg, s, worlds, total).value.status.Transitioned?
    ensures |run.ticks| == total + 1 && run.TransitionCount() == total && !run.limitReached
    ensures run.StoppedBecause() == OutcomeAt(cfg, s, worlds, total).value.reason
  {
    hide OutcomeAt;
    var n := |run.ticks|;
    assert OutcomeAt(cfg, s, worlds, n - 1) == Ok(run.ticks[n - 1]);
    assert n - 1 < total ==> TransitionsAt(cfg, s, worlds, n - 1);
    if n > total {
      assert OutcomeAt(cfg, s, worlds, total) == Ok(run.ticks[total]);
    }
    AllCount(run.ticks[..total]);
  }

  /** Ticks that all transitioned are all counted. */
  lemma {:induction false} AllCount(ticks: seq<TickResult>)
    requires AllTransitioned(ticks)
    ensures Transitions(ticks) == ticks
    decreases |ticks|
  {
    if ticks != [] { AllCount(ticks[..|ticks| - 1]); }
  }

  lemma NeverRaises(cfg: Config, s: Stage, worlds: seq<World>, n: nat, error: string, total: nat)
    requires total < |worlds|
    requires forall i :: 0 <= i < total ==> TransitionsAt(cfg, s, worlds, i)
    requires OutcomeAt(cfg, s, worlds, total).Ok? && !OutcomeAt(cfg, s, worlds, total).value.status.Transitioned?
    ensures !RaisesAt(cfg, s, worlds, n, error)
  {
    hide OutcomeAt;
    assert n < total ==> TransitionsAt(cfg, s, worlds, n);
  }

  /**
    Progress. From a plan of N PENDING steps that need no approval, with a clean report for every
    attempt and a compliant gate, a call with more than 5 * N iterations makes exactly 5 * N
    transitions and stops because every step is VERIFIED.
   */
  lemma SchedulerCompletes(order: seq<int>, cfg: Config, s: Stage, worlds: seq<World>, run: SchedulerRun)
    requires Smooth(cfg, s) && Lists(order, s.db.steps) && forall n <- s.db.steps :: s.db.steps[n].state.Pending?
    requires |worlds| > 5 * |order| && forall i :: 0 <= i < |worlds| ==> Fair(cfg, worlds[i])
    requires RunsUntilIdle(cfg, s, worlds, run)
    ensures run.TransitionCount() == 5 * |order| && |run.ticks| == 5 * |order| + 1 && !run.limitReached
    ensures run.StoppedBecause() == if order == [] then "no-steps" else "all-steps-verified"
    ensures forall n <- StageAt(cfg, s, worlds, 5 * |order|).db.steps ::
              StageAt(cfg, s, worlds, 5 * |order|).db.steps[n].state.Verified?
  {
    hide *;
    FinalIsQuiet(order);
    SmoothOutcomes(order, cfg, s, worlds);
    ExactLength(cfg, s, worlds, run, 5 * |order|);
  }

  /** Nor does any of its ticks raise. */
  lemma SchedulerNeverRaises(order: seq<int>, cfg: Config, s: Stage, worlds: seq<World>, n: nat, error: string)
    requires Smooth(cfg, s) && Lists(order, s.db.steps) && forall n <- s.db.steps :: s.db.steps[n].state.Pending?
    requires |worlds| > 5 * |order| && forall i :: 0 <= i < |worlds| ==> Fair(cfg, worlds[i])
    ensures !RaisesAt(cfg, s, worlds, n, error)
  {
    hide *;
    FinalIsQuiet(order);
    SmoothOutcomes(order, cfg, s, worlds);
    NeverRaises(cfg, s, worlds, n, error, 5 * |order|);
  }
}
