/** What the workflow invariant means for a plan, and what each actor is unable to do. */
module Guarantees {
  import opened Basics
  import opened Fsm
  import opened Store
  import opened Transactions
  import opened LoopPolicy
  import opened Protocol
  import opened ProtocolScripts
  import opened Invariants
  import opened Moves
  import opened Connections

  /** In step order: VERIFIED steps, at most one step in any other state, PENDING steps. */
  ghost predicate SplitsAt(rows: seq<Step>, i: nat) {
    && i <= |rows|
    && (forall j :: 0 <= j < i ==> rows[j].state.Verified?)
    && (forall j :: i < j < |rows| ==> rows[j].state.Pending?)
    && (i < |rows| ==> !rows[i].state.Verified?)
  }

  /** Every reachable plan splits, and it splits at its current step. */
  lemma PlanSplits(db: Db, rows: seq<Step>) returns (i: nat)
    requires FlowInv(db) && Listing(rows, db.steps)
    ensures SplitsAt(rows, i)
    ensures if i < |rows| then Current(db.steps) == Some(rows[i].stepNo) else Current(db.steps) == None
  {
    i := 0;
    while i < |rows| && rows[i].state.Verified?
      invariant i <= |rows| && forall j :: 0 <= j < i ==> rows[j].state.Verified?
    {
      i := i + 1;
    }
    if i < |rows| {
      FoundCurrent(rows, db.steps, i);
      forall j | i < j < |rows|
        ensures rows[j].state.Pending?
      {
        assert IsRow(rows[i], db.steps) && IsRow(rows[j], db.steps);
      }
    } else {
      NoCurrent(rows, db.steps);
    }
  }

  /** A human command that moves a step. */
  function StepOfHuman(call: Call): Option<int> {
    match call
    case ApproveCall(n, _, _, _) => Some(n)
    case RejectCall(n, _, _, _) => Some(n)
    case OverrideCall(n, _, _, _, _) => Some(n)
    case _ => None
  }

  /** Step n, and nothing else, has a new row, and it is not a VERIFIED one. */
  ghost predicate OnlyMoves(before: map<int, Step>, after: map<int, Step>, n: int) {
    n in after && after == before[n := after[n]] && !after[n].state.Verified?
  }

  lemma HumanMovesNamed(cfg: Config, call: Call, db: Db, files: Files)
    requires FlowInv(db) && StepOfHuman(call).Some?
    ensures var reply := Answer(cfg, call, db, files);
            reply.Moved? ==> reply.change.before.stepNo == StepOfHuman(call).value && !reply.change.after.state.Verified?
  {
    hide FlowInv, SingleProject, CurrentVersions, BuildTask, Blank;
    var n := StepOfHuman(call).value;
    if n in db.steps {
      RowKey(db, n);
    }
  }

  lemma RowKey(db: Db, n: int)
    requires FlowInv(db) && n in db.steps
    ensures db.steps[n].stepNo == n
  {
  }

  /**
    No approval, rejection or override touches any step but the one it names, that one is the
    current step, and it does not become VERIFIED.
   */
  lemma HumansMoveOnlyTheCurrentStep(cfg: Config, call: Call, db: Db, files: Files)
    requires FlowInv(db) && StepOfHuman(call).Some?
    ensures var db' := Effect(cfg, call, db, files);
            var n := StepOfHuman(call).value;
            db' == db || (IsCurrent(db.steps, n) && OnlyMoves(db.steps, db'.steps, n))
  {
    hide Answer, FlowInv;
    AnswerMoves(cfg, call, db, files);
    HumanMovesNamed(cfg, call, db, files);
    HumanReplies(cfg, call, db, files);
  }

  lemma HumanReplies(cfg: Config, call: Call, db: Db, files: Files)
    requires StepOfHuman(call).Some?
    ensures !Answer(cfg, call, db, files).Controlled?
  {
    hide SingleProject, CurrentVersions, StepNext, MovedStep, Blank;
  }

  /** Only the loop creates a VERIFIED step. */
  lemma OnlyTheLoopVerifies(cfg: Config, call: Call, db: Db, files: Files, n: int)
    requires FlowInv(db) && n in db.steps && !db.steps[n].state.Verified?
    requires var db' := Effect(cfg, call, db, files); n in db'.steps && db'.steps[n].state.Verified?
    ensures call.TickCall?
  {
    hide Answer, FlowInv;
    if call.OtherCall? {
      if ForeignBody(call.body) { ForeignKeepsFlow(Writes(call.body), db); }
    } else if StepOfHuman(call).Some? {
      HumansMoveOnlyTheCurrentStep(cfg, call, db, files);
    } else if call.ControlCall? {
      ControlMovesNothing(cfg, call, db, files);
    }
  }

  lemma ControlMovesNothing(cfg: Config, call: Call, db: Db, files: Files)
    requires call.ControlCall?
    ensures !Answer(cfg, call, db, files).Moved?
  {
    hide SingleProject, Blank;
  }

  ghost predicate CarriesEvidence(cfg: Config, db: Db, db': Db, n: int)
    requires n in db'.steps
  {
    var key := KeyOf(db'.steps[n]);
    && |db'.audit| == |db.audit| + 1 && db.audit < db'.audit
    && db'.audit[|db.audit|].StepEntry? && db'.audit[|db.audit|].event.Verify? && db'.audit[|db.audit|].stepNo == n
    && key in db'.decisions && db'.decisions[key] == Decision(key, Accepted, cfg.canonicalVersion, [])
  }

  /**
    Verification carries its evidence: in the very commit that makes a step VERIFIED, the last audit
    entry is its VERIFY entry and the decision of that attempt is stored ACCEPTED, without findings,
    against the canonical baseline.
   */
  lemma VerificationCarriesEvidence(cfg: Config, call: Call, db: Db, files: Files, n: int)
    requires FlowInv(db) && n in db.steps && !db.steps[n].state.Verified?
    requires var db' := Effect(cfg, call, db, files); n in db'.steps && db'.steps[n].state.Verified?
    ensures CarriesEvidence(cfg, db, Effect(cfg, call, db, files), n)
  {
    OnlyTheLoopVerifies(cfg, call, db, files, n);
    var reply := Tick(cfg, db, files, call.env);
    TickMoves(cfg, db, files, call.env);
    TickShape(cfg, db, files, call.env);
    VerifyingTick(cfg, db, files, call.env);
    hide Tick, FlowInv;
  }

  lemma AcceptedGate(cfg: Config, db: Db, key: Key, env: Env)
    ensures var gate := Gate(cfg, db, key, env);
            gate.Ok? && gate.value.decision.verdict.Accepted? ==>
              gate.value == Evidence([], Decision(key, Accepted, cfg.canonicalVersion, []))
  {
  }

  lemma ReviewVerifies(cfg: Config, db: Db, files: Files, step: Step, env: Env)
    requires step.state.Reviewing?
    requires Review(cfg, db, files, step, env).Moved? && Review(cfg, db, files, step, env).change.after.state.Verified?
    ensures var c := Review(cfg, db, files, step, env).change;
            c.event.Verify? && c.evidence == Some(Evidence([], Decision(KeyOf(c.after), Accepted, cfg.canonicalVersion, [])))
  {
    hide Gate;
    AcceptedGate(cfg, db, KeyOf(step), env);
  }

  lemma VerifyingTick(cfg: Config, db: Db, files: Files, env: Env)
    requires FlowInv(db)
    requires Tick(cfg, db, files, env).Moved? && Tick(cfg, db, files, env).change.after.state.Verified?
    ensures var c := Tick(cfg, db, files, env).change;
            c.event.Verify? && c.evidence == Some(Evidence([], Decision(KeyOf(c.after), Accepted, cfg.canonicalVersion, [])))
  {
    hide DispatchReply, Collect, Review, RetryOrAbort, LoopMove, FlowInv;
    var step := db.steps[Current(db.steps).value];
    TickMoves(cfg, db, files, env);
    AdvanceShape(cfg, db, files, SingleProject(db).value, step, env);
    assert step.state.Reviewing?;
    ReviewVerifies(cfg, db, files, step, env);
  }
}
