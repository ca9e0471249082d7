/** Which human commands succeed, what they write, and what a pause and the approval policy hold over whole runs. */
module HumanTable {
  import opened Basics
  import opened Fsm
  import opened Store
  import opened Transactions
  import opened LoopPolicy
  import opened Protocol
  import opened ProtocolScripts
  import opened Invariants
  import opened Moves
  import opened Runs
  import opened Guarantees
  import opened Budget
  import opened Orchestration
  import opened Scheduling
  import opened Replay
  import opened Verdicts
  import opened HumanPaths
  import opened TickTable
  import opened TickContent

  predicate Explained(actor: string, reason: string) {
    !Blank(actor) && !Blank(reason)
  }

  /** A human transition of this step: these fields, one entry under the human's name, no evidence. */
  predicate HumanContent(c: Change, step: Step, event: StepEvent, to: StepState, actor: string, operation: string, reason: string, now: int) {
    && c.before == step && c.event == event && c.after.state == to
    && SamePlan(step, c.after) && Stamped(step, event, c.after, now) && Counted(step, event, c.after)
    && Entered(c, Human(actor, operation), now) && c.entry.StepEntry? && c.entry.reason == reason
    && c.evidence.None?
  }

  /** An approval dispatches a waiting step, if and only if it is explained and its task can be published. */
  lemma ApprovalTable(db: Db, n: int, actor: string, reason: string, env: Env)
    ensures var reply := ApproveReply(db, n, actor, reason, env);
            && (reply.Moved? <==>
                  Explained(actor, reason) && n in db.steps && db.steps[n].state.WaitingApproval?
                  && SingleProject(db).Some? && Publishable(db, env))
            && (reply.Moved? ==>
                  HumanContent(reply.change, db.steps[n], Approve, Dispatched, actor, "approve_step", reason, env.now)
                  && PublishedFor(db, reply.change, env.publishedAt))
            && (reply.Moved? || reply.Raised?)
  {
    hide Blank, SingleProject, CurrentVersions;
    if n in db.steps && db.steps[n].state.WaitingApproval? {
      TransitionContent(db.steps[n], Approve, Max(db.steps[n].attempt, 1), Human(actor, "approve_step"), reason, env.now, true,
                        None, None, None);
    }
  }

  /** A successful approval leaves the context and the task of the attempt on the channel, and touches no other file. */
  lemma ApprovalFiles(cfg: Config, call: Call, db: Db, files: Files)
    requires call.ApproveCall? && ApproveReply(db, call.n, call.actor, call.reason, call.env).Moved?
    ensures var c := ApproveReply(db, call.n, call.actor, call.reason, call.env).change;
            c.publication.Some?
            && FilesAfter(cfg, call, db, files) ==
               files.(contexts := files.contexts[KeyOf(c.after) := c.publication.value.context],
                      tasks := files.tasks[KeyOf(c.after) := c.publication.value.task])
  {
    var reply := ApproveReply(db, call.n, call.actor, call.reason, call.env);
    ApprovalTable(db, call.n, call.actor, call.reason, call.env);
    ScriptRefines(cfg, call, db, files);
    ScriptOnFiles(ScriptFor(cfg, call, db, files), files);
    PublicationFiles(reply.change, files);
    NoFilesChange(RunFiles(PublicationSteps(reply.change), files));
    hide ApproveReply, Micros, Effect, RunFiles, Body, PublicationSteps;
  }

  /** A rejection returns a waiting step to READY, if and only if it is explained. */
  lemma RejectionTable(db: Db, n: int, actor: string, reason: string, now: int)
    ensures var reply := RejectReply(db, n, actor, reason, now);
            && (reply.Moved? <==> Explained(actor, reason) && n in db.steps && db.steps[n].state.WaitingApproval?)
            && (reply.Moved? ==>
                  HumanContent(reply.change, db.steps[n], Reject, Ready, actor, "reject_step", reason, now)
                  && reply.change.task.None? && reply.change.publication.None?)
            && (reply.Moved? || reply.Raised?)
  {
    hide Blank, MovedStep;
    if n in db.steps && db.steps[n].state.WaitingApproval? {
      TransitionContent(db.steps[n], Reject, db.steps[n].attempt, Human(actor, "reject_step"), reason, now, false, None, None, None);
      hide Stamped, Counted, SamePlan;
    }
  }

  /** The states each override takes, where it leads, and the name it leaves in the trail. */
  predicate Overrides(command: HumanStepCommand, from: StepState, event: StepEvent, to: StepState, operation: string) {
    match command
    case UnblockStep => from.Blocked? && event.Unblock? && to.Ready? && operation == "unblock_step"
    case ResolveStep => from.Conflict? && event.Resolve? && to.Ready? && operation == "resolve_step"
    case AbortStep =>
      (from.WaitingApproval? || from.Blocked? || from.Conflict? || from.Failed?)
      && event.Abort? && to.Aborted? && operation == "abort_step"
  }

  lemma OverrideTable(
    db: Db, n: int, command: HumanStepCommand, actor: string, reason: string, now: int, event: StepEvent, to: StepState, operation: string)
    requires n in db.steps && Overrides(command, db.steps[n].state, event, to, operation)
    ensures var reply := OverrideReply(db, n, command, actor, reason, now);
            && (reply.Moved? <==> Explained(actor, reason))
            && (reply.Moved? ==>
                  HumanContent(reply.change, db.steps[n], event, to, actor, operation, reason, now)
                  && reply.change.task.None? && reply.change.publication.None?)
  {
    hide Blank, MovedStep;
    TransitionContent(db.steps[n], event, db.steps[n].attempt, Human(actor, operation), reason, now, false, None, None, None);
    hide Stamped, Counted, SamePlan;
  }

  /** And in no other state does an override do anything. */
  lemma OverrideRefused(db: Db, n: int, command: HumanStepCommand, actor: string, reason: string, now: int)
    requires n in db.steps ==>
               forall event: StepEvent, to: StepState, operation: string :: !Overrides(command, db.steps[n].state, event, to, operation)
    ensures OverrideReply(db, n, command, actor, reason, now).Raised?
  {
    hide Blank, MovedStep;
    if n in db.steps {
      var state := db.steps[n].state;
      assert !Overrides(command, state, Unblock, Ready, "unblock_step");
      assert !Overrides(command, state, Resolve, Ready, "resolve_step");
      assert !Overrides(command, state, Abort, Aborted, "abort_step");
    }
  }

  // -- the project's switches ------------------------------------------------------------------

  /** Pause, resume and set-mode each change one switch of the single project, leave one entry, and refuse to change nothing. */
  lemma ControlTable(db: Db, command: ProjectCommand, actor: string, reason: string, now: int)
    ensures var reply := ControlReply(db, command, actor, reason, now);
            && (reply.Controlled? <==>
                  Explained(actor, reason) && SingleProject(db).Some?
                  && var p := SingleProject(db).value;
                     match command
                     case PauseProject => !p.paused
                     case ResumeProject => p.paused
                     case SetMode(mode) => p.mode != mode)
            && (reply.Controlled? ==>
                  var (p, after, entry) := (SingleProject(db).value, reply.project, reply.entry);
                  && after.name == p.name && after.updatedAt == now
                  && after.paused == (if command.PauseProject? then true else if command.ResumeProject? then false else p.paused)
                  && after.mode == (if command.SetMode? then command.mode else p.mode)
                  && entry.ProjectEntry? && entry.name == p.name && entry.paused == after.paused && entry.mode == after.mode
                  && entry.at == now && entry.reason == reason
                  && entry.author == Human(actor, if command.PauseProject? then "pause_project"
                                                  else if command.ResumeProject? then "resume_project" else "set_mode"))
            && (reply.Controlled? || reply.Raised?)
  {
    hide Blank, SingleProject;
  }

  /** What a project command leaves: that project's row, one entry, and everything else. */
  lemma ControlledRows(cfg: Config, call: Call, db: Db, files: Files)
    requires !call.OtherCall? && Answer(cfg, call, db, files).Controlled?
    ensures var reply := Answer(cfg, call, db, files);
            Effect(cfg, call, db, files) ==
            db.(projects := db.projects[reply.project.name := reply.project], audit := db.audit + [reply.entry])
  {
    hide Answer;
  }

  // -- a pause -----------------------------------------------------------------------------------

  ghost predicate PausedProject(db: Db) {
    ProjectsKeyed(db) && SingleProject(db).Some? && SingleProject(db).value.paused
  }

  /** A tick of a paused project says so and writes nothing, neither a row nor a file. */
  lemma PausedTick(cfg: Config, db: Db, files: Files, env: Env)
    requires SingleProject(db).Some? && SingleProject(db).value.paused
    ensures Tick(cfg, db, files, env) == Quiet(Paused, "project-paused", None)
    ensures Effect(cfg, TickCall(env), db, files) == db
  {
    hide Advance;
  }

  predicate Resumes(call: Call) {
    call.ControlCall? && call.control.ResumeProject?
  }

  lemma SameProjects(a: Db, b: Db)
    requires b.projects == a.projects
    ensures SingleProject(b) == SingleProject(a)
  {
  }

  lemma OneProjectRow(db: Db, p: Project)
    requires ProjectsKeyed(db) && SingleProject(db).Some? && p.name == SingleProject(db).value.name
    ensures SingleProject(db.(projects := db.projects[p.name := p])) == Some(p)
    ensures ProjectsKeyed(db.(projects := db.projects[p.name := p]))
  {
    var name :| db.projects.Keys == {name} && SingleProject(db).value == db.projects[name];
    assert name in db.projects && name == p.name;
    var projects := db.projects[p.name := p];
    assert projects.Keys == {name};
    forall other | projects.Keys == {other} ensures other == name { assert other in {name}; }
  }

  /** Nothing but a RESUME ends a pause. */
  lemma PauseHolds(cfg: Config, call: Call, db: Db, files: Files)
    requires PausedProject(db) && !Resumes(call) && !call.OtherCall?
    ensures PausedProject(Effect(cfg, call, db, files))
  {
    hide Answer, ControlReply, Blank;
    var reply, db' := Answer(cfg, call, db, files), Effect(cfg, call, db, files);
    if reply.Controlled? {
      OnlyControlsControl(cfg, call, db, files);
      ControlTable(db, call.control, call.actor, call.reason, call.now);
      OneProjectRow(db, reply.project);
      ControlledRows(cfg, call, db, files);
      SameProjects(db.(projects := db.projects[reply.project.name := reply.project]), db');
    } else {
      SameProjects(db, db');
    }
  }

  lemma OnlyControlsControl(cfg: Config, call: Call, db: Db, files: Files)
    requires Answer(cfg, call, db, files).Controlled?
    ensures call.ControlCall? && Answer(cfg, call, db, files) == ControlReply(db, call.control, call.actor, call.reason, call.now)
  {
    hide Tick, ControlReply;
    if call.TickCall? {
      TickShape(cfg, db, files, call.env);
    } else if StepOfHuman(call).Some? {
      HumanReplies(cfg, call, db, files);
    }
  }

  /** While a project is paused, and until a RESUME, no list of commands makes a single loop transition. */
  lemma {:induction false} PausedLoopIsStill(cfg: Config, calls: seq<Call>, db: Db, files: Files)
    requires PausedProject(db) && Workflow(calls) && forall i :: 0 <= i < |calls| ==> !Resumes(calls[i])
    ensures PausedProject(EffectAll(cfg, calls, db, files))
    ensures ByHumans(EffectAll(cfg, calls, db, files).audit, |db.audit|)
    decreases |calls|
  {
    hide Effect;
    if calls != [] {
      var init, last := calls[..|calls| - 1], calls[|calls| - 1];
      PausedLoopIsStill(cfg, init, db, files);
      var mid := EffectAll(cfg, init, db, files);
      PauseHolds(cfg, last, mid, files);
      PausedEntry(cfg, last, mid, files);
    }
  }

  /** Everything in the trail from position k on was written under a human's name. */
  predicate ByHumans(audit: seq<Entry>, k: nat) {
    k <= |audit| && forall i :: k <= i < |audit| ==> (audit[i].StepEntry? || audit[i].ProjectEntry?) && audit[i].author.Human?
  }

  /** No entry, or one under a human's name. */
  predicate AddsHuman(before: seq<Entry>, after: seq<Entry>) {
    after == before || (|after| == |before| + 1 && before < after && ByHumans(after, |before|))
  }

  lemma PausedEntry(cfg: Config, call: Call, db: Db, files: Files)
    requires PausedProject(db) && !call.OtherCall?
    ensures AddsHuman(db.audit, Effect(cfg, call, db, files).audit)
  {
    hide Answer, Tick, ControlReply, Blank;
    var reply := Answer(cfg, call, db, files);
    if call.TickCall? {
      PausedTick(cfg, db, files, call.env);
    } else if reply.Moved? {
      HumanSigns(cfg, call, db, files);
    } else if reply.Controlled? {
      OnlyControlsControl(cfg, call, db, files);
      ControlTable(db, call.control, call.actor, call.reason, call.now);
    }
  }

  lemma HumanSigns(cfg: Config, call: Call, db: Db, files: Files)
    requires !call.TickCall? && Answer(cfg, call, db, files).Moved?
    ensures var c := Answer(cfg, call, db, files).change; c.entry.StepEntry? && c.entry.author.Human?
  {
    hide MovedStep, StepNext, SingleProject, CurrentVersions, BuildTask, BuildContext, Blank;
  }

  // -- approval over whole runs -----------------------------------------------------------------

  predicate IntoDispatched(e: Entry) {
    e.StepEntry? && e.to.Dispatched?
  }

  /** A human gave the go-ahead. */
  predicate Approved(e: Entry) {
    e.StepEntry? && e.author.Human? && e.author.operation == "approve_step"
  }

  lemma DispatchedHow(state: StepState, event: StepEvent)
    requires StepNext(state, event) == Some(Dispatched)
    ensures event.Dispatch? || event.Approve?
  {
  }

  lemma OnlyTicksDispatch(cfg: Config, call: Call, db: Db, files: Files)
    requires !call.TickCall? && Answer(cfg, call, db, files).Moved?
    ensures !Answer(cfg, call, db, files).change.event.Dispatch?
    ensures Answer(cfg, call, db, files).change.event.Approve? ==>
              call.ApproveCall? && Answer(cfg, call, db, files) == ApproveReply(db, call.n, call.actor, call.reason, call.env)
  {
    hide MovedStep, StepNext, SingleProject, CurrentVersions, BuildTask, BuildContext, Blank;
  }

  /** A step enters DISPATCHED by a human approval, or by a loop that needed none. */
  lemma DispatchIsApproved(cfg: Config, call: Call, db: Db, files: Files)
    requires FlowInv(db) && Answer(cfg, call, db, files).Moved? && Answer(cfg, call, db, files).change.after.state.Dispatched?
    ensures var c := Answer(cfg, call, db, files).change;
            Approved(c.entry) || (SingleProject(db).Some? && !NeedsHuman(SingleProject(db).value.mode, c.before))
  {
    hide Answer, Tick, FlowInv, NeedsHuman, ApproveReply, StepNext;
    var c := Answer(cfg, call, db, files).change;
    AnswerMoves(cfg, call, db, files);
    DispatchedHow(c.before.state, c.event);
    if call.TickCall? {
      AnswerIsTick(cfg, call, db, files);
      TickMakes(cfg, db, files, call.env, c.event);
      TickWrites(cfg, db, files, call.env);
    } else {
      OnlyTicksDispatch(cfg, call, db, files);
      ApprovalTable(db, call.n, call.actor, call.reason, call.env);
    }
  }

  /** The entry dispatches a step that asks for a human. */
  predicate NeedsApproval(steps: map<int, Step>, e: Entry) {
    IntoDispatched(e) && e.stepNo in steps && steps[e.stepNo].requiresHuman
  }

  /** Every dispatch of a step that asks for a human was approved by one. */
  ghost predicate AskedFor(db: Db) {
    forall i :: 0 <= i < |db.audit| ==> (NeedsApproval(db.steps, db.audit[i]) ==> Approved(db.audit[i]))
  }

  /** Every dispatch at all was. */
  predicate AllApproved(db: Db) {
    forall i :: 0 <= i < |db.audit| ==> (IntoDispatched(db.audit[i]) ==> Approved(db.audit[i]))
  }

  ghost predicate Manual(db: Db) {
    SingleProject(db).Some? ==> SingleProject(db).value.mode.Manual?
  }

  lemma StepsOnlyIn(cfg: Config, call: Call, db: Db, files: Files) returns (tail: seq<Entry>)
    requires call.OtherCall? || !Answer(cfg, call, db, files).Moved?
    ensures var db' := Effect(cfg, call, db, files);
            db'.steps == db.steps && db'.audit == db.audit + tail && forall i :: 0 <= i < |tail| ==> !tail[i].StepEntry?
  {
    hide Answer;
    tail := [];
    if call.OtherCall? {
      if ForeignBody(call.body) {
        ForeignKeepsFlow(Writes(call.body), db);
        tail := ForeignTail(Writes(call.body), db);
      }
    } else {
      AnswerShape(cfg, call, db, files);
      if Answer(cfg, call, db, files).Controlled? { tail := [Answer(cfg, call, db, files).entry]; }
    }
  }

  lemma ApprovalKept(cfg: Config, call: Call, db: Db, files: Files)
    requires FlowInv(db)
    ensures AskedFor(db) ==> AskedFor(Effect(cfg, call, db, files))
    ensures AllApproved(db) && Manual(db) ==> AllApproved(Effect(cfg, call, db, files))
  {
    hide Answer, FlowInv, Effect;
    if call.OtherCall? || !Answer(cfg, call, db, files).Moved? {
      var tail := StepsOnlyIn(cfg, call, db, files);
    } else {
      var c := Answer(cfg, call, db, files).change;
      AnswerMoves(cfg, call, db, files);
      MovedRows(cfg, call, db, files);
      if c.after.state.Dispatched? { DispatchIsApproved(cfg, call, db, files); }
    }
  }

  /** In every run from a seeded plan, whatever crashes, a step that asks for a human is never dispatched without one. */
  lemma {:induction false} RunsAskHumans(cfg: Config, s: Sys, actions: seq<Action>)
    requires Init(s)
    ensures AskedFor(Run(cfg, s, actions).conn.committed)
    decreases |actions|
  {
    hide Effect, Act, FlowInv;
    InitInv(cfg, s);
    if actions == [] {
      NothingDispatched(s);
    } else {
      var init := actions[..|actions| - 1];
      RunsAskHumans(cfg, s, init);
      RunKeepsInvariant(cfg, s, init);
      ActRefines(cfg, Run(cfg, s, init), actions[|actions| - 1]);
      var db, db' := Run(cfg, s, init).conn.committed, Run(cfg, s, actions).conn.committed;
      if db' != db {
        var call: Call, files: Files :| db' == Effect(cfg, call, db, files);
        ApprovalKept(cfg, call, db, files);
      }
    }
  }

  lemma NothingDispatched(s: Sys)
    requires Init(s)
    ensures AskedFor(s.conn.committed) && AllApproved(s.conn.committed)
  {
    var audit := s.conn.committed.audit;
    forall i | 0 <= i < |audit|
      ensures !audit[i].StepEntry?
    {
      if audit[i].StepEntry? { InLog(audit, i); }
    }
  }

  lemma {:induction false} InLog(audit: seq<Entry>, i: nat)
    requires i < |audit| && audit[i].StepEntry?
    ensures audit[i] in StepLog(audit, audit[i].stepNo)
    decreases |audit|
  {
    if i < |audit| - 1 { InLog(audit[..|audit| - 1], i); }
  }

  /** And while the project stays MANUAL, no step is. */
  lemma {:induction false} ManualRunsAskHumans(cfg: Config, s: Sys, actions: seq<Action>)
    requires Init(s) && forall k :: 0 <= k <= |actions| ==> Manual(Run(cfg, s, actions[..k]).conn.committed)
    ensures AllApproved(Run(cfg, s, actions).conn.committed)
    decreases |actions|
  {
    hide Effect, Act, FlowInv;
    InitInv(cfg, s);
    if actions == [] {
      NothingDispatched(s);
    } else {
      var init := actions[..|actions| - 1];
      forall k | 0 <= k <= |init|
        ensures Manual(Run(cfg, s, init[..k]).conn.committed)
      {
        assert init[..k] == actions[..k];
      }
      ManualRunsAskHumans(cfg, s, init);
      RunKeepsInvariant(cfg, s, init);
      ActRefines(cfg, Run(cfg, s, init), actions[|actions| - 1]);
      var db, db' := Run(cfg, s, init).conn.committed, Run(cfg, s, actions).conn.committed;
      assert init == init[..|init|] == actions[..|init|];
      assert Manual(db);
      if db' != db {
        var call: Call, files: Files :| db' == Effect(cfg, call, db, files);
        ApprovalKept(cfg, call, db, files);
      }
    }
  }

  // -- what the caller of a human command sees --------------------------------------------------------

  /** A successful command returns the row it stored; a refused one raises. */
  lemma HumanAnswers(cfg: Config, call: Call, db: Db, files: Files)
    requires !call.TickCall? && !call.OtherCall?
    ensures var (reply, db') := (Answer(cfg, call, db, files), Effect(cfg, call, db, files));
            && (reply.Moved? ==>
                  var n := reply.change.after.stepNo;
                  n in db'.steps && StepResult(reply) == Ok(db'.steps[n]) && n == reply.change.before.stepNo)
            && (reply.Controlled? ==> reply.project.name in db'.projects && ProjectResult(reply) == Ok(db'.projects[reply.project.name]))
            && (reply.Raised? ==> StepResult(reply).Err? && ProjectResult(reply).Err? && db' == db)
            && !reply.Quiet?
  {
    hide MovedStep, StepNext, SingleProject, CurrentVersions, BuildTask, BuildContext, Blank;
    HumansKeepNumbers(cfg, call, db, files);
    hide Answer;
  }

  lemma HumansKeepNumbers(cfg: Config, call: Call, db: Db, files: Files)
    requires !call.TickCall? && !call.OtherCall?
    ensures var reply := Answer(cfg, call, db, files);
            !reply.Quiet? && (reply.Moved? ==> reply.change.after.stepNo == reply.change.before.stepNo)
  {
    hide StepNext, SingleProject, CurrentVersions, BuildTask, BuildContext, Blank;
  }
}
