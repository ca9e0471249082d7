/** Every command's script has the shape the crash theorem needs, and its outcome is the atomic effect. */
module ProtocolScripts {
  import opened Basics
  import opened Fsm
  import opened Store
  import opened Transactions
  import opened LoopPolicy
  import opened Protocol

  lemma {:induction false} WritesConcat(a: seq<Micro>, b: seq<Micro>)
    ensures Writes(a + b) == Writes(a) + Writes(b)
    decreases |b|
  {
    if b == [] {
      assert a + b == a;
    } else {
      assert (a + b)[..|a + b| - 1] == a + b[..|b| - 1];
      WritesConcat(a, b[..|b| - 1]);
    }
  }

  lemma {:induction false} DepthConcat(a: seq<Micro>, b: seq<Micro>, d: nat)
    requires DepthAfter(a, d).Some?
    ensures DepthAfter(a + b, d) == DepthAfter(b, DepthAfter(a, d).value)
    decreases |b|
  {
    if b == [] {
      assert a + b == a;
    } else {
      assert (a + b)[..|a + b| - 1] == a + b[..|b| - 1];
      DepthConcat(a, b[..|b| - 1], d);
    }
  }

  predicate IsDo(m: Micro) { m.Do? }

  lemma {:induction false} PlainWrites(ms: seq<Micro>, d: nat)
    requires forall i :: 0 <= i < |ms| ==> IsDo(ms[i])
    ensures DepthAfter(ms, d) == Some(d)
    ensures |Writes(ms)| == |ms| && forall i :: 0 <= i < |ms| ==> ms[i].Do? && Writes(ms)[i] == ms[i].write
    decreases |ms|
  {
    if ms != [] {
      PlainWrites(ms[..|ms| - 1], d);
      assert IsDo(ms[|ms| - 1]);
    }
  }

  /** A nested scope writes what its contents write, and returns to the depth it started from. */
  lemma Nested(ms: seq<Micro>, d: nat)
    requires d >= 1 && forall i :: 0 <= i < |ms| ==> IsDo(ms[i])
    ensures DepthAfter([Enter] + ms + [Exit], d) == Some(d)
    ensures Writes([Enter] + ms + [Exit]) == Writes(ms)
  {
    assert [Enter][..0] == [] && [Exit][..0] == [];
    PlainWrites(ms, d + 1);
    DepthConcat([Enter], ms, d);
    DepthConcat([Enter] + ms, [Exit], d);
    WritesConcat([Enter], ms);
    WritesConcat([Enter] + ms, [Exit]);
  }

  lemma {:induction false} ApplyFindings(findings: seq<Finding>, db: Db)
    ensures ApplyAll(Writes(FindingWrites(findings)), db) == db.(findings := db.findings + FindingSet(findings))
    decreases |findings|
  {
    var ms := FindingWrites(findings);
    PlainWrites(ms, 1);
    if findings == [] {
      assert db.findings + FindingSet(findings) == db.findings;
    } else {
      var init, last := findings[..|findings| - 1], findings[|findings| - 1];
      assert ms[..|ms| - 1] == FindingWrites(init);
      ApplyFindings(init, db);
      ApplyAllConcat(Writes(FindingWrites(init)), [PutFinding(last)], db);
      ApplyOne(PutFinding(last), ApplyAll(Writes(FindingWrites(init)), db));
      assert findings == init + [last];
      assert FindingSet(findings) == FindingSet(init) + {last};
      assert db.findings + FindingSet(init) + {last} == db.findings + FindingSet(findings);
    }
  }

  lemma ApplyOne(w: Write, db: Db)
    ensures ApplyAll([w], db) == Apply(w, db)
  {
    assert [w][1..] == [];
  }

  lemma ApplyTwo(v: Write, w: Write, db: Db)
    ensures ApplyAll([v, w], db) == Apply(w, Apply(v, db))
  {
    assert [v, w][1..] == [w];
    ApplyOne(w, Apply(v, db));
  }

  lemma ApplyThree(u: Write, v: Write, w: Write, db: Db)
    ensures ApplyAll([u, v, w], db) == Apply(w, Apply(v, Apply(u, db)))
  {
    assert [u, v, w][1..] == [v, w];
    ApplyTwo(v, w, Apply(u, db));
  }

  /** The findings of one review and its decision. */
  function WithEvidence(db: Db, e: Evidence): Db {
    db.(findings := db.findings + FindingSet(e.findings), decisions := db.decisions[e.decision.key := e.decision])
  }

  lemma ApplyEvidence(e: Evidence, db: Db)
    ensures ApplyAll(Writes(EvidenceWrites(e)), db) == WithEvidence(db, e)
  {
    var put := [Do(PutDecision(e.decision))];
    assert put[..0] == [];
    WritesConcat(FindingWrites(e.findings), put);
    ApplyAllConcat(Writes(FindingWrites(e.findings)), [PutDecision(e.decision)], db);
    ApplyFindings(e.findings, db);
    ApplyOne(PutDecision(e.decision), ApplyAll(Writes(FindingWrites(e.findings)), db));
  }

  /** The step, its task and its audit entry. */
  function WithRows(db: Db, after: Step, task: Option<Task>, entry: Entry): Db {
    db.(steps := db.steps[after.stepNo := after],
        tasks := if task.Some? then db.tasks[task.value.key := task.value] else db.tasks,
        audit := db.audit + [entry])
  }

  function Row(db: Db, c: Change): Db {
    WithRows(db, c.after, c.task, c.entry)
  }

  lemma TransitionIsRows(c: Change)
    ensures Writes(TransitionWrites(c)) ==
            if c.task.Some? then [PutStep(c.after), PutTask(c.task.value), Append(c.entry)] else [PutStep(c.after), Append(c.entry)]
  {
    hide Writes;
    PlainWrites(TransitionWrites(c), 1);
  }

  lemma ApplyTransition(c: Change, db: Db)
    ensures ApplyAll(Writes(TransitionWrites(c)), db) == Row(db, c)
  {
    hide Writes, TransitionWrites, ApplyAll;
    TransitionIsRows(c);
    if c.task.Some? {
      ApplyThree(PutStep(c.after), PutTask(c.task.value), Append(c.entry), db);
    } else {
      ApplyTwo(PutStep(c.after), Append(c.entry), db);
    }
  }

  lemma BodyCommits(c: Change, db: Db)
    ensures NoFileOps(Body(c))
    ensures DepthAfter(Body(c), 1) == Some(1)
    ensures ApplyAll(Writes(Body(c)), db) == Commit(db, c)
  {
    match c.evidence
    case None =>
      PlainWrites(TransitionWrites(c), 1);
      ApplyTransition(c, db);
    case Some(e) =>
      var first, second := [Enter] + EvidenceWrites(e) + [Exit], [Enter] + TransitionWrites(c) + [Exit];
      Nested(EvidenceWrites(e), 1);
      Nested(TransitionWrites(c), 1);
      DepthConcat(first, second, 1);
      WritesConcat(first, second);
      ApplyAllConcat(Writes(first), Writes(second), db);
      ApplyEvidence(e, db);
      ApplyTransition(c, ApplyAll(Writes(first), db));
  }

  /** A raising command leaves at most a context file behind; a project command audits the project. */
  predicate Shaped(reply: Reply) {
    match reply
    case Raised(_, leftover, _) => leftover == [] || (|leftover| == 1 && leftover[0].PutContext?)
    case Controlled(_, entry) => entry.ProjectEntry?
    case _ => true
  }

  /** The loop's replies: it signs its moves, acknowledges only reviews, and never claims a move it did not make. */
  predicate LoopShaped(reply: Reply) {
    match reply
    case Raised(_, _, _) => Shaped(reply)
    case Controlled(_, _) => false
    case Quiet(status, _, _) => !status.Transitioned?
    case Moved(c, acknowledges) =>
      c.entry.StepEntry? && c.entry.author.Loop? && (acknowledges ==> c.before.state.Reviewing?)
  }

  /** A handler moves the step it was given. */
  predicate MovesOnly(reply: Reply, step: Step) {
    reply.Moved? ==> reply.change.before == step
  }

  lemma ReportedShape(
    step: Step, event: StepEvent, attempt: int, reason: string, now: int, clock: bool,
    task: Option<Task>, evidence: Option<Evidence>, publication: Option<Publication>, acknowledges: bool)
    requires acknowledges ==> step.state.Reviewing?
    ensures LoopShaped(Reported(Transition(step, event, attempt, Loop, reason, now, clock, task, evidence, publication), acknowledges))
    ensures MovesOnly(Reported(Transition(step, event, attempt, Loop, reason, now, clock, task, evidence, publication), acknowledges), step)
  {
    hide StepNext, MovedStep;
  }

  lemma DispatchShape(db: Db, step: Step, env: Env)
    ensures LoopShaped(DispatchReply(db, step, env)) && MovesOnly(DispatchReply(db, step, env), step)
  {
    hide StepNext, MovedStep, BuildTask, BuildContext, CurrentVersions;
  }

  lemma CollectShape(cfg: Config, db: Db, files: Files, step: Step, allowStart: bool, env: Env)
    ensures LoopShaped(Collect(cfg, db, files, step, allowStart, env)) && MovesOnly(Collect(cfg, db, files, step, allowStart, env), step)
  {
    hide StepNext, MovedStep, AdvanceTask, TimedOut;
  }

  lemma ReviewShape(cfg: Config, db: Db, files: Files, step: Step, env: Env)
    requires step.state.Reviewing?
    ensures LoopShaped(Review(cfg, db, files, step, env)) && MovesOnly(Review(cfg, db, files, step, env), step)
  {
    hide StepNext, MovedStep, Gate, DecideReview;
  }

  lemma AdvanceShape(cfg: Config, db: Db, files: Files, project: Project, step: Step, env: Env)
    ensures LoopShaped(Advance(cfg, db, files, project, step, env)) && MovesOnly(Advance(cfg, db, files, project, step, env), step)
  {
    hide StepNext, MovedStep, DispatchReply, Collect, Review, LoopShaped, MovesOnly;
    match step.state
    case Pending => ReportedShape(step, Prepare, Max(step.attempt, 1), "prepared", env.now, false, None, None, None, false);
    case Ready =>
      ReportedShape(step, RequestApproval, step.attempt, "approval-required", env.now, false, None, None, None, false);
      DispatchShape(db, step, env);
    case Dispatched => CollectShape(cfg, db, files, step, true, env);
    case Working => CollectShape(cfg, db, files, step, false, env);
    case ReportReceived => ReportedShape(step, StartReview, step.attempt, "review-started", env.now, false, None, None, None, false);
    case Reviewing => ReviewShape(cfg, db, files, step, env);
    case _ => RestShape(cfg, db, files, project, step, env);
  }

  lemma RestShape(cfg: Config, db: Db, files: Files, project: Project, step: Step, env: Env)
    requires step.state.Revise? || step.state.Failed? || step.state.WaitingApproval? || step.state.Blocked?
             || step.state.Conflict? || Terminal(step.state)
    ensures LoopShaped(Advance(cfg, db, files, project, step, env)) && MovesOnly(Advance(cfg, db, files, project, step, env), step)
  {
    hide StepNext, MovedStep, DispatchReply, Collect, Review;
  }

  lemma TickShape(cfg: Config, db: Db, files: Files, env: Env)
    ensures LoopShaped(Tick(cfg, db, files, env))
  {
    hide Advance;
    if SingleProject(db).Some? && Current(db.steps).Some? {
      AdvanceShape(cfg, db, files, SingleProject(db).value, db.steps[Current(db.steps).value], env);
    }
  }

  lemma AnswerShape(cfg: Config, call: Call, db: Db, files: Files)
    ensures Shaped(Answer(cfg, call, db, files))
  {
    hide Tick;
    if call.TickCall? {
      TickShape(cfg, db, files, call.env);
    }
  }

  lemma ReplyRefines(reply: Reply, ack: seq<Micro>, db: Db)
    requires FileOnly(ack) && Shaped(reply)
    ensures WellFormed(ScriptOf(reply, ack))
    ensures Outcome(ScriptOf(reply, ack), db) == Settled(db, reply)
  {
    match reply
    case Moved(c, _) =>
      BodyCommits(c, db);
    case Controlled(p, e) =>
      var body := [Do(PutProject(p)), Do(Append(e))];
      PlainWrites(body, 1);
      assert Writes(body) == [PutProject(p), Append(e)];
      ApplyTwo(PutProject(p), Append(e), db);
    case _ =>
  }

  /** The atomic protocol is what the micro-steps of a command amount to. */
  lemma ScriptRefines(cfg: Config, call: Call, db: Db, files: Files)
    ensures WellFormed(ScriptFor(cfg, call, db, files))
    ensures Outcome(ScriptFor(cfg, call, db, files), db) == Effect(cfg, call, db, files)
  {
    hide Answer;
    if !call.OtherCall? {
      var reply := Answer(cfg, call, db, files);
      AnswerShape(cfg, call, db, files);
      ReplyRefines(reply, AckSteps(call, reply), db);
    }
  }
}
