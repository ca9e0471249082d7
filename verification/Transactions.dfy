/**
  The transaction boundary over one shared connection (infrastructure/sqlite.py), the
  worker's file channel (infrastructure/cline.py), and what a crash leaves of both.

  A command is a list of micro-steps; the process may die between any two of them.
  What survives is the committed database and the files; the working copy and the
  nesting depth do not.
 */
module Transactions {
  import opened Basics
  import opened Fsm
  import opened Store

  datatype WorkerResult = WorkerResult(status: ReportStatus, issues: seq<string>, questions: seq<string>)

  /** A report file either validates for its own key, or reading it raises. */
  datatype ReportFile = Unreadable | Readable(result: WorkerResult)

  datatype ContextFile = ContextFile(stepNo: int, previous: set<int>)

  datatype Files = Files(
    contexts: map<Key, ContextFile>,
    tasks: map<Key, Task>,
    reports: map<Key, ReportFile>,
    archive: map<(Key, int), ReportFile>)

  datatype Micro =
    | Enter
    | Exit
    | Rollback
    | Do(write: Write)
    | PutContext(key: Key, context: ContextFile)
    | PutTaskFile(key: Key, task: Task)
    | Archive(key: Key, stamp: int)

  /** The connection: what is durable, what this connection sees, and how deep it is nested. */
  datatype Conn = Conn(committed: Db, working: Db, depth: nat)

  function Rest(db: Db): Conn {
    Conn(db, db, 0)
  }

  function Crash(c: Conn): Conn {
    Rest(c.committed)
  }

  function ExecDb(m: Micro, c: Conn): Conn {
    match m
    case Enter => c.(depth := c.depth + 1)
    case Exit =>
      if c.depth == 1 then Conn(c.working, c.working, 0)
      else if c.depth > 1 then c.(depth := c.depth - 1)
      else c
    case Rollback => Rest(c.committed)
    case Do(w) =>
      var db := Apply(w, c.working);
      if c.depth == 0 then Rest(db) else c.(working := db)
    case _ => c
  }

  function ExecFiles(m: Micro, f: Files): Files {
    match m
    case PutContext(k, ctx) => f.(contexts := f.contexts[k := ctx])
    case PutTaskFile(k, t) => f.(tasks := f.tasks[k := t])
    case Archive(k, stamp) =>
      if k in f.reports && f.reports[k].Readable? then
        f.(reports := f.reports - {k}, archive := f.archive[(k, stamp) := f.reports[k]])
      else f
    case _ => f
  }

  function RunDb(ms: seq<Micro>, c: Conn): Conn {
    if ms == [] then c else ExecDb(ms[|ms| - 1], RunDb(ms[..|ms| - 1], c))
  }

  function RunFiles(ms: seq<Micro>, f: Files): Files {
    if ms == [] then f else ExecFiles(ms[|ms| - 1], RunFiles(ms[..|ms| - 1], f))
  }

  lemma RunDbSnoc(ms: seq<Micro>, m: Micro, c: Conn)
    ensures RunDb(ms + [m], c) == ExecDb(m, RunDb(ms, c))
  {
    assert (ms + [m])[..|ms|] == ms;
  }

  lemma RunFilesSnoc(ms: seq<Micro>, m: Micro, f: Files)
    ensures RunFiles(ms + [m], f) == ExecFiles(m, RunFiles(ms, f))
  {
    assert (ms + [m])[..|ms|] == ms;
  }

  lemma {:induction false} RunDbConcat(a: seq<Micro>, b: seq<Micro>, c: Conn)
    ensures RunDb(a + b, c) == RunDb(b, RunDb(a, c))
    decreases |b|
  {
    if b == [] {
      assert a + b == a;
    } else {
      assert (a + b)[..|a + b| - 1] == a + b[..|b| - 1];
      RunDbConcat(a, b[..|b| - 1], c);
    }
  }

  lemma {:induction false} RunFilesConcat(a: seq<Micro>, b: seq<Micro>, f: Files)
    ensures RunFiles(a + b, f) == RunFiles(b, RunFiles(a, f))
    decreases |b|
  {
    if b == [] {
      assert a + b == a;
    } else {
      assert (a + b)[..|a + b| - 1] == a + b[..|b| - 1];
      RunFilesConcat(a, b[..|b| - 1], f);
    }
  }

  /** The writes of a list of micro-steps, in order. */
  function Writes(ms: seq<Micro>): seq<Write> {
    if ms == [] then []
    else Writes(ms[..|ms| - 1]) + (if ms[|ms| - 1].Do? then [ms[|ms| - 1].write] else [])
  }

  /** The nesting depth after ms, starting at depth d; None if ms would end the outermost scope. */
  function DepthAfter(ms: seq<Micro>, d: nat): Option<nat> {
    if ms == [] then Some(d)
    else
      match DepthAfter(ms[..|ms| - 1], d)
      case None => None
      case Some(k) =>
        match ms[|ms| - 1]
        case Enter => Some(k + 1)
        case Exit => if k > 1 then Some(k - 1) else None
        case Rollback => None
        case _ => Some(k)
  }

  predicate IsFileOp(m: Micro) {
    m.PutContext? || m.PutTaskFile? || m.Archive?
  }

  predicate FileOnly(ms: seq<Micro>) {
    forall i :: 0 <= i < |ms| ==> IsFileOp(ms[i])
  }

  predicate NoFileOps(ms: seq<Micro>) {
    forall i :: 0 <= i < |ms| ==> !IsFileOp(ms[i])
  }

  datatype TxEnd = NoTransaction | Commits | RollsBack

  /** One command: files published first, one outermost transaction, files consumed last. */
  datatype Script = Script(before: seq<Micro>, body: seq<Micro>, end: TxEnd, after: seq<Micro>)

  function Micros(s: Script): seq<Micro> {
    if s.end.NoTransaction? then s.before + s.after
    else s.before + [Enter] + s.body + [Closing(s)] + s.after
  }

  /** The micro-step that ends the outermost scope. */
  function Closing(s: Script): Micro {
    if s.end.Commits? then Exit else Rollback
  }

  predicate WellFormed(s: Script) {
    && FileOnly(s.before) && FileOnly(s.after) && NoFileOps(s.body)
    && (s.end.NoTransaction? ==> s.body == [])
    && (s.end.Commits? ==> DepthAfter(s.body, 1) == Some(1))
    && (s.end.RollsBack? ==> DepthAfter(s.body, 1).Some?)
  }

  /** What the command leaves in the database when it runs to its end. */
  function Outcome(s: Script, db: Db): Db {
    if s.end.Commits? then ApplyAll(Writes(s.body), db) else db
  }

  /** The number of micro-steps after which the command's effect is durable. */
  function CommitPoint(s: Script): nat {
    |s.before| + |s.body| + 2
  }

  lemma {:induction false} FileOpsKeepDb(ms: seq<Micro>, c: Conn)
    requires FileOnly(ms)
    ensures RunDb(ms, c) == c
    decreases |ms|
  {
    if ms != [] {
      FileOpsKeepDb(ms[..|ms| - 1], c);
    }
  }

  /** Inside a scope, however deeply nested, nothing is durable and every write is seen. */
  lemma {:induction false} InsideScope(ms: seq<Micro>, c: Conn)
    requires c.depth >= 1 && DepthAfter(ms, c.depth).Some?
    ensures RunDb(ms, c) == Conn(c.committed, ApplyAll(Writes(ms), c.working), DepthAfter(ms, c.depth).value)
    ensures DepthAfter(ms, c.depth).value >= 1
    decreases |ms|
  {
    if ms != [] {
      var init, last := ms[..|ms| - 1], ms[|ms| - 1];
      InsideScope(init, c);
      if last.Do? {
        ApplyAllConcat(Writes(init), [last.write], c.working);
        assert ApplyAll([last.write], ApplyAll(Writes(init), c.working)) == Apply(last.write, ApplyAll(Writes(init), c.working));
      } else {
        assert Writes(ms) == Writes(init);
      }
    }
  }

  lemma {:induction false} DepthOfPrefix(ms: seq<Micro>, d: nat, k: nat)
    requires k <= |ms| && DepthAfter(ms, d).Some?
    ensures DepthAfter(ms[..k], d).Some?
    decreases |ms|
  {
    if k == |ms| {
      assert ms[..k] == ms;
    } else {
      assert ms[..|ms| - 1][..k] == ms[..k];
      DepthOfPrefix(ms[..|ms| - 1], d, k);
    }
  }

  /**
    Crash atomicity. Whatever the nesting of its writes, after k micro-steps of a command the
    committed database is the one before the command until the outermost scope ends, and the
    whole outcome from then on; a command that rolls back never changes it.
   */
  lemma CrashPoint(s: Script, db: Db, k: nat)
    requires WellFormed(s) && k <= |Micros(s)|
    ensures RunDb(Micros(s)[..k], Rest(db)).committed ==
            if s.end.Commits? && k >= CommitPoint(s) then Outcome(s, db) else db
    ensures k == |Micros(s)| ==> RunDb(Micros(s)[..k], Rest(db)) == Rest(Outcome(s, db))
  {
    var ms, b := Micros(s), |s.before|;
    if k <= b {
      assert ms[..k] == s.before[..k];
      FileOpsKeepDb(s.before[..k], Rest(db));
    } else if s.end.NoTransaction? {
      var j := k - b;
      assert ms[..k] == s.before + s.after[..j];
      RunDbConcat(s.before, s.after[..j], Rest(db));
      FileOpsKeepDb(s.before, Rest(db));
      FileOpsKeepDb(s.after[..j], Rest(db));
    } else {
      FileOpsKeepDb(s.before, Rest(db));
      CrashInTransaction(s, db, k);
    }
    if k == |ms| && s.end.NoTransaction? {
      assert ms[..k] == s.before + s.after;
      RunDbConcat(s.before, s.after, Rest(db));
      FileOpsKeepDb(s.before, Rest(db));
      FileOpsKeepDb(s.after, Rest(db));
    }
  }

  /** Up to and including the body, the outermost scope is open and nothing is durable. */
  lemma ScopeOpen(s: Script, db: Db, j: nat)
    requires WellFormed(s) && j <= |s.body| && !s.end.NoTransaction?
    ensures DepthAfter(s.body[..j], 1).Some?
    ensures RunDb(s.before + [Enter] + s.body[..j], Rest(db)) ==
            Conn(db, ApplyAll(Writes(s.body[..j]), db), DepthAfter(s.body[..j], 1).value)
  {
    var head := s.before + [Enter];
    FileOpsKeepDb(s.before, Rest(db));
    RunDbSnoc(s.before, Enter, Rest(db));
    RunDbConcat(head, s.body[..j], Rest(db));
    DepthOfPrefix(s.body, 1, j);
    InsideScope(s.body[..j], Conn(db, db, 1));
  }

  /** Ending the scope makes the whole body durable, or none of it. */
  lemma ScopeEnded(s: Script, db: Db)
    requires WellFormed(s) && !s.end.NoTransaction?
    ensures RunDb(s.before + [Enter] + s.body + [Closing(s)], Rest(db)) == Rest(Outcome(s, db))
  {
    assert s.body[..|s.body|] == s.body;
    ScopeOpen(s, db, |s.body|);
    RunDbSnoc(s.before + [Enter] + s.body, Closing(s), Rest(db));
  }

  lemma CrashInTransaction(s: Script, db: Db, k: nat)
    requires WellFormed(s) && !s.end.NoTransaction?
    requires |s.before| < k <= |Micros(s)|
    ensures RunDb(Micros(s)[..k], Rest(db)).committed ==
            if s.end.Commits? && k >= CommitPoint(s) then Outcome(s, db) else db
    ensures k == |Micros(s)| ==> RunDb(Micros(s)[..k], Rest(db)) == Rest(Outcome(s, db))
  {
    var b, n := |s.before|, |s.body|;
    if k <= b + 1 + n {
      assert Micros(s)[..k] == s.before + [Enter] + s.body[..k - b - 1];
      ScopeOpen(s, db, k - b - 1);
    } else {
      var closed := s.before + [Enter] + s.body + [Closing(s)];
      var rest := s.after[..k - b - n - 2];
      assert Micros(s)[..k] == closed + rest;
      ScopeEnded(s, db);
      RunDbConcat(closed, rest, Rest(db));
      FileOpsKeepDb(rest, Rest(Outcome(s, db)));
    }
  }
}
