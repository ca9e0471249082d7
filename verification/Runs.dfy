/**
  Whole runs. One actor at a time executes its command micro-step by micro-step over the single
  connection; the process may die between any two of them; the worker may publish or rewrite any
  report at any moment; everything else a command learns from outside is arbitrary.
 */
module Runs {
  import opened Basics
  import opened Fsm
  import opened Store
  import opened Transactions
  import opened Protocol
  import opened ProtocolScripts
  import opened Invariants
  import opened Moves

  /** A running command remembers what it read when it began. */
  datatype Job = Idle | Busy(call: Call, base: Db, seen: Files, pc: nat)

  datatype Sys = Sys(conn: Conn, files: Files, job: Job)

  datatype Action = Launch(call: Call) | NextMicro | Die | WorkerReports(key: Key, file: ReportFile)

  ghost function JobScript(cfg: Config, job: Job): Script
    requires job.Busy?
  {
    ScriptFor(cfg, job.call, job.base, job.seen)
  }

  ghost function Act(cfg: Config, s: Sys, a: Action): Sys {
    match a
    case Launch(call) =>
      if s.job.Idle? then s.(job := Busy(call, s.conn.committed, s.files, 0)) else s
    case NextMicro =>
      if s.job.Idle? then s
      else
        var ms := Micros(JobScript(cfg, s.job));
        if s.job.pc < |ms| then
          Sys(ExecDb(ms[s.job.pc], s.conn), ExecFiles(ms[s.job.pc], s.files), s.job.(pc := s.job.pc + 1))
        else s.(job := Idle)
    case Die => Sys(Crash(s.conn), s.files, Idle)
    case WorkerReports(k, f) => s.(files := s.files.(reports := s.files.reports[k := f]))
  }

  ghost function Run(cfg: Config, s: Sys, actions: seq<Action>): Sys {
    if actions == [] then s else Act(cfg, Run(cfg, s, actions[..|actions| - 1]), actions[|actions| - 1])
  }

  // -- the channel side of the invariant -----------------------------------------------------

  predicate InFlight(state: StepState) {
    state.Dispatched? || state.Working? || state.ReportReceived? || state.Reviewing?
  }

  /** The task file is the commit marker: it never exists without its context file. */
  predicate ContextFirst(files: Files) {
    forall k <- files.tasks :: k in files.contexts
  }

  /** A persisted dispatch has its published artifacts. */
  predicate Published(db: Db, files: Files) {
    forall n <- db.steps :: InFlight(db.steps[n].state) ==> KeyOf(db.steps[n]) in files.tasks
  }

  /** The publications among the first k micro-steps are on disk. */
  predicate OnDisk(before: seq<Micro>, k: nat, files: Files) {
    forall i :: 0 <= i < k && i < |before| ==>
      (before[i].PutContext? ==> before[i].key in files.contexts) && (before[i].PutTaskFile? ==> before[i].key in files.tasks)
  }

  ghost predicate SysInv(cfg: Config, s: Sys) {
    && FlowInv(s.conn.committed) && ContextFirst(s.files) && Published(s.conn.committed, s.files)
    && (s.job.Idle? ==> s.conn == Rest(s.conn.committed))
    && (s.job.Busy? ==>
          var script := JobScript(cfg, s.job);
          && FlowInv(s.job.base)
          && s.job.pc <= |Micros(script)|
          && s.conn == RunDb(Micros(script)[..s.job.pc], Rest(s.job.base))
          && OnDisk(script.before, s.job.pc, s.files))
  }

  /** Initially nothing runs, the plan is seeded with PENDING steps and no step was ever audited. */
  ghost predicate Init(s: Sys) {
    && s.job.Idle? && s.conn == Rest(s.conn.committed) && ContextFirst(s.files)
    && var db := s.conn.committed;
       && (forall n <- db.steps :: db.steps[n].stepNo == n && StepOk(db.steps[n]) && db.steps[n].state.Pending?)
       && (forall k <- db.tasks :: db.tasks[k].key == k)
       && (forall n :: StepLog(db.audit, n) == [])
  }

  lemma InitInv(cfg: Config, s: Sys)
    requires Init(s)
    ensures SysInv(cfg, s)
  {
    var db := s.conn.committed;
    forall n | n in db.steps
      ensures TaskInStep(db, db.steps[n]) && Evidenced(db, db.steps[n])
    {
    }
  }

  // -- one action ---------------------------------------------------------------------------------

  /** The database of a busy command is the one before or the one after the whole command. */
  lemma BeforeOrAfter(cfg: Config, s: Sys)
    requires SysInv(cfg, s) && s.job.Busy?
    ensures var script := JobScript(cfg, s.job);
            s.conn.committed == if script.end.Commits? && s.job.pc >= CommitPoint(script)
                                then Effect(cfg, s.job.call, s.job.base, s.job.seen) else s.job.base
  {
    ScriptRefines(cfg, s.job.call, s.job.base, s.job.seen);
    CrashPoint(JobScript(cfg, s.job), s.job.base, s.job.pc);
  }

  predicate ContextThenTask(before: seq<Micro>) {
    match |before|
    case 0 => true
    case 1 => before[0].PutContext?
    case _ => |before| == 2 && before[0].PutContext? && before[1].PutTaskFile? && before[1].key == before[0].key
  }

  /** Publications come first in a script, context before task, and go to the key being dispatched. */
  lemma BeforeShape(cfg: Config, call: Call, db: Db, files: Files)
    ensures ContextThenTask(ScriptFor(cfg, call, db, files).before)
    ensures forall m <- ScriptFor(cfg, call, db, files).after :: m.Archive?
  {
    hide Answer;
    if !call.OtherCall? {
      AnswerShape(cfg, call, db, files);
    }
  }

  /** Committing a command whose publications are on disk keeps every dispatch published. */
  lemma EffectPublished(cfg: Config, call: Call, db: Db, seen: Files, files: Files)
    requires FlowInv(db) && Published(db, files)
    requires var before := ScriptFor(cfg, call, db, seen).before; OnDisk(before, |before|, files)
    ensures Published(Effect(cfg, call, db, seen), files)
  {
    hide Answer;
    if call.OtherCall? {
      if ForeignBody(call.body) {
        ForeignKeepsFlow(Writes(call.body), db);
      }
    } else {
      var reply := Answer(cfg, call, db, seen);
      AnswerMoves(cfg, call, db, seen);
      if reply.Moved? {
        MovePublished(db, reply.change, files);
      } else if reply.Controlled? {
        assert Settled(db, reply).steps == db.steps;
      }
    }
  }

  lemma MovePublished(db: Db, c: Change, files: Files)
    requires ValidMove(db, c) && Published(db, files) && OnDisk(PublicationSteps(c), |PublicationSteps(c)|, files)
    ensures Published(Commit(db, c), files)
  {
    if InFlight(c.after.state) {
      if Dispatches(c.event) {
        assert PublicationSteps(c)[1].PutTaskFile? && PublicationSteps(c)[1].key == KeyOf(c.after);
      } else {
        assert InFlight(c.before.state) && KeyOf(c.after) == KeyOf(c.before);
      }
    }
  }

  /** Which micro-step of a script comes at position k. */
  lemma MicroAt(s: Script, k: nat)
    requires k < |Micros(s)|
    ensures k < |s.before| ==> Micros(s)[k] == s.before[k]
    ensures k >= |s.before| && IsFileOp(Micros(s)[k]) && NoFileOps(s.body) ==> Micros(s)[k] in s.after
  {
  }

  lemma NextMicroKeepsFiles(cfg: Config, s: Sys)
    requires SysInv(cfg, s) && s.job.Busy? && s.job.pc < |Micros(JobScript(cfg, s.job))|
    ensures var m := Micros(JobScript(cfg, s.job))[s.job.pc];
            var files := ExecFiles(m, s.files);
            && ContextFirst(files)
            && OnDisk(JobScript(cfg, s.job).before, s.job.pc + 1, files)
            && s.files.tasks.Keys <= files.tasks.Keys
  {
    hide ScriptFor, RunDb;
    var script, pc := JobScript(cfg, s.job), s.job.pc;
    BeforeShape(cfg, s.job.call, s.job.base, s.job.seen);
    ScriptRefines(cfg, s.job.call, s.job.base, s.job.seen);
    MicroAt(script, pc);
    if pc == 1 && |script.before| == 2 {
      assert script.before[0].PutContext? && script.before[0].key in s.files.contexts;
    }
  }

  /** No action of anybody, and no crash anywhere, breaks the system invariant. */
  lemma ActKeepsInvariant(cfg: Config, s: Sys, a: Action)
    requires SysInv(cfg, s)
    ensures SysInv(cfg, Act(cfg, s, a))
  {
    match a
    case NextMicro =>
      if s.job.Busy? {
        ScriptRefines(cfg, s.job.call, s.job.base, s.job.seen);
        if s.job.pc < |Micros(JobScript(cfg, s.job))| {
          MicroKeepsInvariant(cfg, s);
        } else {
          CrashPoint(JobScript(cfg, s.job), s.job.base, s.job.pc);
          assert Micros(JobScript(cfg, s.job))[..s.job.pc] == Micros(JobScript(cfg, s.job));
        }
      }
    case _ =>
  }

  /** The connection follows the script, and its durable side stays published and invariant. */
  lemma MicroOnConnection(cfg: Config, s: Sys)
    requires SysInv(cfg, s) && s.job.Busy? && s.job.pc < |Micros(JobScript(cfg, s.job))|
    ensures var ms, pc := Micros(JobScript(cfg, s.job)), s.job.pc;
            var conn := ExecDb(ms[pc], s.conn);
            conn == RunDb(ms[..pc + 1], Rest(s.job.base))
            && FlowInv(conn.committed) && Published(conn.committed, s.files)
  {
    hide ScriptFor, FlowInv, Published, Effect;
    var script, pc := JobScript(cfg, s.job), s.job.pc;
    var ms := Micros(script);
    assert ms[..pc + 1] == ms[..pc] + [ms[pc]];
    RunDbSnoc(ms[..pc], ms[pc], Rest(s.job.base));
    ScriptRefines(cfg, s.job.call, s.job.base, s.job.seen);
    CrashPoint(script, s.job.base, pc);
    CrashPoint(script, s.job.base, pc + 1);
    if pc + 1 == CommitPoint(script) && script.end.Commits? {
      EffectKeepsInvariant(cfg, s.job.call, s.job.base, s.job.seen);
      EffectPublished(cfg, s.job.call, s.job.base, s.job.seen, s.files);
    }
  }

  lemma MicroKeepsInvariant(cfg: Config, s: Sys)
    requires SysInv(cfg, s) && s.job.Busy? && s.job.pc < |Micros(JobScript(cfg, s.job))|
    ensures SysInv(cfg, Act(cfg, s, NextMicro))
  {
    NextMicroKeepsFiles(cfg, s);
    MicroOnConnection(cfg, s);
  }

  lemma {:induction false} RunKeepsInvariant(cfg: Config, s: Sys, actions: seq<Action>)
    requires SysInv(cfg, s)
    ensures SysInv(cfg, Run(cfg, s, actions))
    decreases |actions|
  {
    if actions != [] {
      RunKeepsInvariant(cfg, s, actions[..|actions| - 1]);
      ActKeepsInvariant(cfg, Run(cfg, s, actions[..|actions| - 1]), actions[|actions| - 1]);
    }
  }

  /** Whatever happens from a seeded plan on, the durable store is safe and the channel is published. */
  lemma ReachableIsSafe(cfg: Config, s: Sys, actions: seq<Action>)
    requires Init(s)
    ensures var now := Run(cfg, s, actions);
            FlowInv(now.conn.committed) && ContextFirst(now.files) && Published(now.conn.committed, now.files)
  {
    InitInv(cfg, s);
    RunKeepsInvariant(cfg, s, actions);
    hide *;
  }

  // -- refinement -------------------------------------------------------------------------------------

  /** One step of the atomic protocol, or a stutter. */
  ghost predicate AtomicStep(cfg: Config, db: Db, db': Db) {
    db' == db || exists call: Call, files: Files :: db' == Effect(cfg, call, db, files)
  }

  /** The committed databases a run passes through, one per action. */
  ghost function Durable(cfg: Config, s: Sys, actions: seq<Action>): seq<Db> {
    seq(|actions| + 1, i requires 0 <= i <= |actions| => Run(cfg, s, actions[..i]).conn.committed)
  }

  lemma ActRefines(cfg: Config, s: Sys, a: Action)
    requires SysInv(cfg, s)
    ensures AtomicStep(cfg, s.conn.committed, Act(cfg, s, a).conn.committed)
  {
    if a.NextMicro? && s.job.Busy? && s.job.pc < |Micros(JobScript(cfg, s.job))| {
      var s' := Act(cfg, s, a);
      ActKeepsInvariant(cfg, s, a);
      BeforeOrAfter(cfg, s);
      BeforeOrAfter(cfg, s');
      assert s'.job == s.job.(pc := s.job.pc + 1);
      if s'.conn.committed != s.conn.committed {
        assert s.conn.committed == s.job.base;
        assert s'.conn.committed == Effect(cfg, s.job.call, s.conn.committed, s.job.seen);
      }
    }
  }

  /**
    Crash refinement. However commands, crashes and reports interleave, the durable database only
    ever moves by whole atomic transitions: every run is a stuttering run of the atomic protocol.
   */
  lemma RunsRefineAtomicProtocol(cfg: Config, s: Sys, actions: seq<Action>)
    requires SysInv(cfg, s)
    ensures var dbs := Durable(cfg, s, actions);
            forall i :: 0 <= i < |actions| ==> AtomicStep(cfg, dbs[i], dbs[i + 1])
  {
    forall i | 0 <= i < |actions|
      ensures AtomicStep(cfg, Durable(cfg, s, actions)[i], Durable(cfg, s, actions)[i + 1])
    {
      RunKeepsInvariant(cfg, s, actions[..i]);
      ActRefines(cfg, Run(cfg, s, actions[..i]), actions[i]);
      assert actions[..i + 1][..i] == actions[..i];
    }
  }
}
