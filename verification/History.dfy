/** What is final: verified steps, spent attempts, their decisions and the audit trail. */
module History {
  import opened Basics
  import opened Fsm
  import opened Store
  import opened Transactions
  import opened LoopPolicy
  import opened Protocol
  import opened ProtocolScripts
  import opened Invariants
  import opened Moves
  import opened Runs

  /** The step has moved past attempt a, so that attempt's report can no longer matter. */
  predicate Spent(s: Step, a: int) {
    s.attempt > a || (s.attempt == a && (s.state.Revise? || s.state.Failed? || s.state.Verified? || s.state.Aborted?))
  }

  ghost predicate SameDecision(db: Db, db': Db, k: Key) {
    (k in db.decisions <==> k in db'.decisions) && (k in db.decisions ==> db.decisions[k] == db'.decisions[k])
  }

  ghost predicate StepLater(db: Db, db': Db, n: int)
    requires n in db.steps && n in db'.steps
  {
    var s, s' := db.steps[n], db'.steps[n];
    && SameIdentity(s, s') && s.attempt <= s'.attempt
    && (Terminal(s.state) ==> s' == s)
    && forall a :: Spent(s, a) ==> Spent(s', a) && SameDecision(db, db', Key(n, a))
  }

  /** db' comes after db: nothing that was final has changed. */
  ghost predicate Later(db: Db, db': Db) {
    && db.steps.Keys == db'.steps.Keys && db.audit <= db'.audit
    && forall n <- db.steps :: StepLater(db, db', n)
  }

  lemma LaterTransitive(a: Db, b: Db, c: Db)
    requires Later(a, b) && Later(b, c)
    ensures Later(a, c)
  {
    forall n | n in a.steps
      ensures StepLater(a, c, n)
    {
      assert StepLater(a, b, n) && StepLater(b, c, n);
    }
  }

  lemma MoveIsLater(db: Db, c: Change)
    requires FlowInv(db) && ValidMove(db, c)
    ensures Later(db, Commit(db, c))
  {
    var db' := Commit(db, c);
    forall n | n in db.steps
      ensures StepLater(db, db', n)
    {
      forall a | Spent(db.steps[n], a)
        ensures Spent(db'.steps[n], a) && SameDecision(db, db', Key(n, a))
      {
      }
    }
  }

  lemma ForeignWriteIsLater(w: Write, db: Db)
    requires Foreign(w)
    ensures db.audit <= Apply(w, db).audit
  {
  }

  lemma {:induction false} ForeignGrowsAudit(ws: seq<Write>, db: Db)
    requires forall i :: 0 <= i < |ws| ==> Foreign(ws[i])
    ensures db.audit <= ApplyAll(ws, db).audit
    decreases |ws|
  {
    if ws != [] {
      ForeignWriteIsLater(ws[0], db);
      ForeignGrowsAudit(ws[1..], Apply(ws[0], db));
    }
  }

  lemma SameFlowIsLater(db: Db, db': Db)
    requires SameFlow(db, db') && db.audit <= db'.audit
    ensures Later(db, db')
  {
    forall n | n in db.steps
      ensures StepLater(db, db', n)
    {
    }
  }

  lemma EffectIsLater(cfg: Config, call: Call, db: Db, files: Files)
    requires FlowInv(db)
    ensures Later(db, Effect(cfg, call, db, files))
  {
    hide Answer;
    if call.OtherCall? {
      if ForeignBody(call.body) {
        ForeignKeepsFlow(Writes(call.body), db);
        ForeignGrowsAudit(Writes(call.body), db);
      }
      SameFlowIsLater(db, Effect(cfg, call, db, files));
    } else {
      var reply := Answer(cfg, call, db, files);
      AnswerMoves(cfg, call, db, files);
      AnswerShape(cfg, call, db, files);
      if reply.Moved? {
        MoveIsLater(db, reply.change);
      } else {
        SettledSameFlow(db, reply);
        SameFlowIsLater(db, Settled(db, reply));
      }
    }
  }

  lemma AtomicStepIsLater(cfg: Config, db: Db, db': Db)
    requires FlowInv(db) && AtomicStep(cfg, db, db')
    ensures Later(db, db')
  {
    if db' == db {
      SameFlowIsLater(db, db);
    } else {
      var call: Call, files: Files :| db' == Effect(cfg, call, db, files);
      EffectIsLater(cfg, call, db, files);
    }
  }

  /**
    Finality over whole runs: with crashes anywhere, a verified or aborted step never changes again,
    attempts never decrease, a spent attempt stays spent with its decision untouched, and the audit
    trail only grows.
   */
  lemma {:induction false} RunIsLater(cfg: Config, s: Sys, actions: seq<Action>)
    requires SysInv(cfg, s)
    ensures Later(s.conn.committed, Run(cfg, s, actions).conn.committed)
    decreases |actions|
  {
    if actions == [] {
      SameFlowIsLater(s.conn.committed, s.conn.committed);
    } else {
      var init := actions[..|actions| - 1];
      var mid := Run(cfg, s, init);
      RunKeepsInvariant(cfg, s, init);
      RunIsLater(cfg, s, init);
      ActRefines(cfg, mid, actions[|actions| - 1]);
      AtomicStepIsLater(cfg, mid.conn.committed, Run(cfg, s, actions).conn.committed);
      LaterTransitive(s.conn.committed, mid.conn.committed, Run(cfg, s, actions).conn.committed);
    }
  }

  // -- which report a tick reads ---------------------------------------------------------------------

  /** The one report the next tick may open. */
  ghost function ReadKey(db: Db): Option<Key> {
    match Current(db.steps)
    case None => None
    case Some(n) =>
      var s := db.steps[n];
      if s.state.Dispatched? || s.state.Working? || s.state.Reviewing? then Some(KeyOf(s)) else None
  }

  /** A tick's answer depends on no other report. */
  lemma TickReadsOneReport(cfg: Config, db: Db, files: Files, files': Files, env: Env)
    requires ReadKey(db).Some? ==> ReadReport(files, ReadKey(db).value) == ReadReport(files', ReadKey(db).value)
    ensures Tick(cfg, db, files, env) == Tick(cfg, db, files', env)
  {
  }

  /** Once an attempt is spent, no later tick of any run reads its report. */
  lemma NoStaleRead(cfg: Config, s: Sys, actions: seq<Action>, n: int, a: int)
    requires SysInv(cfg, s) && n in s.conn.committed.steps && Spent(s.conn.committed.steps[n], a)
    ensures ReadKey(Run(cfg, s, actions).conn.committed) != Some(Key(n, a))
  {
    RunIsLater(cfg, s, actions);
    RunKeepsInvariant(cfg, s, actions);
    var db := Run(cfg, s, actions).conn.committed;
    assert StepLater(s.conn.committed, db, n);
    assert StepOk(db.steps[n]);
  }
}
