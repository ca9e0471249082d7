/**
  Chaining ticks (application/scheduler.py): the loop runs until it waits, completes or raises, and
  what that amounts to over a whole call.
 */
module Scheduling {
  import opened Basics
  import opened Fsm
  import opened Store
  import opened Transactions
  import opened LoopPolicy
  import opened Protocol
  import opened ProtocolScripts
  import opened Invariants
  import opened Moves
  import opened Budget
  import opened Connections
  import opened Realization
  import opened Orchestration

  /** Before a tick: what the worker has published meanwhile, and everything else the tick meets. */
  datatype World = World(arrives: map<Key, ReportFile>, env: Env)

  datatype Stage = Stage(db: Db, files: Files)

  /** The files after a command's whole script. */
  ghost function FilesAfter(cfg: Config, call: Call, db: Db, files: Files): Files {
    RunFiles(Micros(ScriptFor(cfg, call, db, files)), files)
  }

  ghost function TickFrom(cfg: Config, s: Stage, w: World): Stage {
    var files := Arrived(s.files, w.arrives);
    Stage(Effect(cfg, TickCall(w.env), s.db, files), FilesAfter(cfg, TickCall(w.env), s.db, files))
  }

  /** Where n ticks lead. */
  ghost function StageAt(cfg: Config, s: Stage, worlds: seq<World>, n: nat): Stage
    requires n <= |worlds|
  {
    if n == 0 then s else TickFrom(cfg, StageAt(cfg, s, worlds, n - 1), worlds[n - 1])
  }

  ghost function ReplyFrom(cfg: Config, s: Stage, w: World): Reply {
    Tick(cfg, s.db, Arrived(s.files, w.arrives), w.env)
  }

  ghost function OutcomeFrom(cfg: Config, s: Stage, w: World): Result<TickResult, string> {
    TickOutcome(cfg, s.db, Arrived(s.files, w.arrives), w.env)
  }

  /** The answer of tick n. */
  ghost function ReplyAt(cfg: Config, s: Stage, worlds: seq<World>, n: nat): Reply
    requires n < |worlds|
  {
    ReplyFrom(cfg, StageAt(cfg, s, worlds, n), worlds[n])
  }

  ghost function OutcomeAt(cfg: Config, s: Stage, worlds: seq<World>, n: nat): Result<TickResult, string>
    requires n < |worlds|
  {
    OutcomeFrom(cfg, StageAt(cfg, s, worlds, n), worlds[n])
  }

  datatype SchedulerRun = SchedulerRun(ticks: seq<TickResult>, limitReached: bool) {
    function TransitionCount(): nat {
      |Transitions(ticks)|
    }

    function StoppedBecause(): string {
      if limitReached then "iteration-limit" else if ticks == [] then "never-started" else ticks[|ticks| - 1].reason
    }
  }

  function Transitions(ticks: seq<TickResult>): seq<TickResult> {
    if ticks == [] then []
    else Transitions(ticks[..|ticks| - 1]) + (if ticks[|ticks| - 1].status.Transitioned? then [ticks[|ticks| - 1]] else [])
  }

  /** These are the first ticks, and all but the last transitioned. */
  ghost predicate Chains(cfg: Config, s: Stage, worlds: seq<World>, ticks: seq<TickResult>) {
    && |ticks| <= |worlds|
    && (forall i :: 0 <= i < |ticks| ==> OutcomeAt(cfg, s, worlds, i) == Ok(ticks[i]))
    && (forall i :: 0 <= i < |ticks| - 1 ==> ticks[i].status.Transitioned?)
  }

  /** The ticks chain as long as they transition, at most once per world, and the last one says why they stopped. */
  ghost predicate RunsUntilIdle(cfg: Config, s: Stage, worlds: seq<World>, run: SchedulerRun) {
    var n := |run.ticks|;
    && 0 < n && Chains(cfg, s, worlds, run.ticks)
    && (run.limitReached <==> run.ticks[n - 1].status.Transitioned?)
    && (run.limitReached ==> n == |worlds|)
  }

  /** A tick raised, and every one before it transitioned. */
  ghost predicate RaisesAt(cfg: Config, s: Stage, worlds: seq<World>, n: nat, error: string) {
    && n < |worlds| && OutcomeAt(cfg, s, worlds, n) == Err(error)
    && exists ticks :: |ticks| == n && AllTransitioned(ticks) && Chains(cfg, s, worlds, ticks)
  }

  predicate AllTransitioned(ticks: seq<TickResult>) {
    forall i :: 0 <= i < |ticks| ==> ticks[i].status.Transitioned?
  }

  lemma NothingChained(cfg: Config, s: Stage, worlds: seq<World>)
    ensures Chains(cfg, s, worlds, []) && AllTransitioned([])
  {
  }

  lemma ChainsSnoc(cfg: Config, s: Stage, worlds: seq<World>, ticks: seq<TickResult>, tick: TickResult)
    requires Chains(cfg, s, worlds, ticks) && AllTransitioned(ticks) && |ticks| < |worlds|
    requires OutcomeAt(cfg, s, worlds, |ticks|) == Ok(tick)
    ensures Chains(cfg, s, worlds, ticks + [tick])
    ensures tick.status.Transitioned? ==> AllTransitioned(ticks + [tick])
  {
    hide OutcomeAt;
  }

  class Scheduler {
    const orchestrator: Orchestrator

    constructor (orchestrator: Orchestrator)
      ensures this.orchestrator == orchestrator
    {
      this.orchestrator := orchestrator;
    }

    ghost function Here(): Stage
      reads this, orchestrator, orchestrator.storage, orchestrator.worker
    {
      Stage(orchestrator.storage.committed, orchestrator.worker.files)
    }

    method TickOnce(w: World) returns (tick: Result<TickResult, string>)
      requires orchestrator.Valid() && orchestrator.storage.depth == 0
      modifies orchestrator.storage, orchestrator.storage.journal, orchestrator.worker
      ensures orchestrator.Valid() && orchestrator.storage.depth == 0
      ensures Here() == TickFrom(orchestrator.cfg, old(Here()), w) && tick == OutcomeFrom(orchestrator.cfg, old(Here()), w)
    {
      hide Effect, ScriptFor, RunFiles, TickOutcome;
      orchestrator.worker.Receive(w.arrives);
      tick := orchestrator.RunOnce(w.env);
    }

    /** One world per iteration allowed: the length of worlds is the iteration limit. */
    method RunUntilIdle(worlds: seq<World>) returns (r: Result<SchedulerRun, string>, ghost n: nat)
      requires orchestrator.Valid() && orchestrator.storage.depth == 0 && |worlds| >= 1
      modifies orchestrator.storage, orchestrator.storage.journal, orchestrator.worker
      ensures orchestrator.Valid() && orchestrator.storage.depth == 0
      ensures n <= |worlds| && Here() == StageAt(orchestrator.cfg, old(Here()), worlds, n)
      ensures match r {
                case Ok(run) => n == |run.ticks| && RunsUntilIdle(orchestrator.cfg, old(Here()), worlds, run)
                case Err(e) => n >= 1 && RaisesAt(orchestrator.cfg, old(Here()), worlds, n - 1, e)
              }
    {
      hide TickFrom, OutcomeFrom, Chains;
      ghost var cfg, start := orchestrator.cfg, Here();
      var ticks: seq<TickResult> := [];
      NothingChained(cfg, start, worlds);
      for i := 0 to |worlds|
        invariant orchestrator.Valid() && orchestrator.storage.depth == 0
        invariant |ticks| == i && Here() == StageAt(cfg, start, worlds, i)
        invariant Chains(cfg, start, worlds, ticks) && AllTransitioned(ticks)
      {
        var tick := TickOnce(worlds[i]);
        if tick.Err? {
          return Err(tick.error), i + 1;
        }
        ChainsSnoc(cfg, start, worlds, ticks, tick.value);
        ticks := ticks + [tick.value];
        if !tick.value.status.Transitioned? {
          return Ok(SchedulerRun(ticks, false)), i + 1;
        }
      }
      return Ok(SchedulerRun(ticks, true)), |worlds|;
    }
  }
}
