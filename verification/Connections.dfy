/**
  The shared connection with its transaction boundary and the worker's file channel, as objects.
  Both note every micro-step in one journal, so a caller's contract can state the order in which
  the database and the files were written.
 */
module Connections {
  import opened Basics
  import opened Fsm
  import opened Store
  import opened Transactions
  import opened Protocol

  /** The order in which a dispatch puts its artifacts on disk, as far as it gets. */
  function Published(task: Task, context: ContextFile, contextFails: bool, taskFails: bool): seq<Micro> {
    if contextFails then []
    else if taskFails then [PutContext(task.key, context)]
    else [PutContext(task.key, context), PutTaskFile(task.key, task)]
  }

  function Arrived(files: Files, arrives: map<Key, ReportFile>): Files {
    files.(reports := files.reports + arrives)
  }

  /** What has arrived is there, over what was there before; nothing else changes. */
  lemma ArrivalsAreThere(files: Files, arrives: map<Key, ReportFile>, key: Key)
    ensures var after := Arrived(files, arrives);
            && after.contexts == files.contexts && after.tasks == files.tasks && after.archive == files.archive
            && (key in after.reports <==> key in files.reports || key in arrives)
            && (key in arrives ==> after.reports[key] == arrives[key])
            && (key !in arrives && key in files.reports ==> after.reports[key] == files.reports[key])
  {
  }

  /** Step rows sit under their own number. */
  predicate Keyed(steps: map<int, Step>) {
    forall n <- steps :: steps[n].stepNo == n
  }

  predicate RowsKeyed(db: Db) {
    && Keyed(db.steps)
    && (forall id <- db.adrs :: db.adrs[id].id == id)
    && (forall v <- db.versions :: db.versions[v].version == v)
    && (forall id <- db.requests :: db.requests[id].requestId == id)
    && (forall id <- db.risks :: db.risks[id].id == id)
  }

  predicate IsRow(row: Step, steps: map<int, Step>) {
    row.stepNo in steps && steps[row.stepNo] == row
  }

  /** All rows, each once, in ascending order. */
  ghost predicate Listing(rows: seq<Step>, steps: map<int, Step>) {
    && (forall i :: 0 <= i < |rows| ==> IsRow(rows[i], steps))
    && (forall i, j :: 0 <= i < j < |rows| ==> rows[i].stepNo < rows[j].stepNo)
    && (forall n <- steps :: exists i :: 0 <= i < |rows| && rows[i].stepNo == n)
  }

  /** The rows listed so far precede the numbers that remain. */
  ghost predicate Remaining(rows: seq<Step>, rest: set<int>, steps: map<int, Step>) {
    && rest <= steps.Keys && Keyed(steps)
    && (forall i :: 0 <= i < |rows| ==> IsRow(rows[i], steps) && forall n <- rest :: rows[i].stepNo < n)
    && (forall i, j :: 0 <= i < j < |rows| ==> rows[i].stepNo < rows[j].stepNo)
    && (forall n <- steps :: n in rest || exists i :: 0 <= i < |rows| && rows[i].stepNo == n)
  }

  lemma NextRow(rows: seq<Step>, rest: set<int>, steps: map<int, Step>, n: int)
    requires Remaining(rows, rest, steps) && IsLeast(rest, n)
    ensures Remaining(rows + [steps[n]], rest - {n}, steps)
  {
    var rows' := rows + [steps[n]];
    assert rows'[|rows|].stepNo == n;
    forall m | m in steps && m !in rest - {n}
      ensures exists i :: 0 <= i < |rows'| && rows'[i].stepNo == m
    {
      if m != n {
        var i :| 0 <= i < |rows| && rows[i].stepNo == m;
        assert rows'[i].stepNo == m;
      }
    }
  }

  /** In an ascending listing the first row that is not VERIFIED is the current step. */
  lemma FoundCurrent(rows: seq<Step>, steps: map<int, Step>, i: nat)
    requires Listing(rows, steps) && i < |rows| && !rows[i].state.Verified?
    requires forall j :: 0 <= j < i ==> rows[j].state.Verified?
    ensures Current(steps) == Some(rows[i].stepNo)
  {
    var n := rows[i].stepNo;
    assert IsRow(rows[i], steps);
    forall m | m in steps && m < n
      ensures steps[m].state.Verified?
    {
      var j :| 0 <= j < |rows| && rows[j].stepNo == m;
      assert IsRow(rows[j], steps);
    }
    assert IsCurrent(steps, n);
  }

  lemma NoCurrent(rows: seq<Step>, steps: map<int, Step>)
    requires Listing(rows, steps) && forall j :: 0 <= j < |rows| ==> rows[j].state.Verified?
    ensures Current(steps) == None
  {
    forall n | n in steps
      ensures steps[n].state.Verified?
    {
      var j :| 0 <= j < |rows| && rows[j].stepNo == n;
      assert IsRow(rows[j], steps);
    }
  }

  lemma EmptyListing(steps: map<int, Step>)
    requires Listing([], steps)
    ensures steps == map[]
  {
    assert forall n <- steps :: n in steps ==> false;
    assert steps.Keys == {};
  }

  class Journal {
    ghost var log: seq<Micro>

    constructor ()
      ensures log == []
    {
      log := [];
    }
  }

  /** One SQLite connection: nested scopes join the outermost one, writes outside commit themselves. */
  class Connection {
    const journal: Journal
    var committed: Db
    var working: Db
    var depth: nat
    var explicitControl: bool
    /** Every value the durable database has had, oldest first. */
    ghost var history: seq<Db>

    ghost predicate Valid()
      reads this
    {
      explicitControl == (depth > 0) && (depth == 0 ==> working == committed)
      && RowsKeyed(committed) && RowsKeyed(working)
      && history != [] && history[|history| - 1] == committed
    }

    ghost function State(): Conn
      reads this
    {
      Conn(committed, working, depth)
    }

    constructor (db: Db, journal: Journal)
      requires RowsKeyed(db)
      ensures Valid() && State() == Rest(db) && this.journal == journal && history == [db]
    {
      this.journal := journal;
      committed, working, depth, explicitControl := db, db, 0, false;
      history := [db];
    }

    /** Opens a scope; only the outermost one begins a transaction. */
    method Enter()
      requires Valid()
      modifies this, journal
      ensures Valid() && State() == ExecDb(Micro.Enter, old(State()))
      ensures committed == old(committed) && working == old(working) && depth == old(depth) + 1
      ensures journal.log == old(journal.log) + [Micro.Enter] && history == old(history)
    {
      if depth > 0 {
        depth := depth + 1;
      } else {
        explicitControl := true;
        depth := 1;
      }
      journal.log := journal.log + [Micro.Enter];
    }

    /** Leaves a scope: the outermost one commits, or rolls back when an exception leaves it. */
    method Leave(raised: bool)
      requires Valid() && depth > 0
      modifies this, journal
      ensures Valid()
      ensures var m := if raised && old(depth) == 1 then Rollback else Exit;
              State() == ExecDb(m, old(State())) && journal.log == old(journal.log) + [m]
      ensures depth == old(depth) - 1
      ensures committed == if depth == 0 && !raised then old(working) else old(committed)
      ensures working == if depth == 0 && raised then old(committed) else old(working)
      ensures history == if old(depth) == 1 && !raised then old(history) + [committed] else old(history)
    {
      if depth > 1 {
        depth := depth - 1;
        journal.log := journal.log + [Exit];
      } else {
        if raised {
          working := committed;
          journal.log := journal.log + [Rollback];
        } else {
          committed := working;
          history := history + [committed];
          journal.log := journal.log + [Exit];
        }
        depth := 0;
        explicitControl := false;
      }
    }

    /** A write joins an open transaction; without one the adapter commits it itself. */
    method ExecuteWrite(w: Write)
      requires Valid()
      modifies this, journal
      ensures Valid() && State() == ExecDb(Do(w), old(State()))
      ensures depth == old(depth) && working == Apply(w, old(working))
      ensures committed == if depth > 0 then old(committed) else working
      ensures journal.log == old(journal.log) + [Do(w)]
      ensures history == if old(depth) > 0 then old(history) else old(history) + [committed]
    {
      working := Apply(w, working);
      if !explicitControl {
        committed := working;
        history := history + [committed];
      }
      journal.log := journal.log + [Do(w)];
    }

    /** The process dies: only what was committed survives. */
    method Restart()
      requires Valid()
      modifies this
      ensures Valid() && State() == Crash(old(State())) && history == old(history)
    {
      working, depth, explicitControl := committed, 0, false;
    }

    /** The step rows in the order of their numbers. */
    method ListSteps() returns (rows: seq<Step>)
      requires Valid()
      ensures Listing(rows, working.steps)
    {
      var steps := working.steps;
      rows := [];
      var rest := steps.Keys;
      assert Remaining(rows, rest, steps);
      while rest != {}
        invariant Remaining(rows, rest, steps)
        decreases rest
      {
        HasLeast(rest);
        var n :| IsLeast(rest, n);
        NextRow(rows, rest, steps, n);
        rows := rows + [steps[n]];
        rest := rest - {n};
      }
    }
  }

  /** The worker's directory of context, task and report files. */
  class WorkerChannel {
    const journal: Journal
    var files: Files

    constructor (files: Files, journal: Journal)
      ensures this.files == files && this.journal == journal
    {
      this.files, this.journal := files, journal;
    }

    /** The context first, then the task as the commit marker; a failing write stops the sequence. */
    method Dispatch(task: Task, context: ContextFile, contextFails: bool, taskFails: bool) returns (ok: bool)
      modifies this, journal
      ensures ok == (!contextFails && !taskFails)
      ensures journal.log == old(journal.log) + Published(task, context, contextFails, taskFails)
      ensures files == RunFiles(Published(task, context, contextFails, taskFails), old(files))
    {
      ghost var first, second := PutContext(task.key, context), PutTaskFile(task.key, task);
      RunFilesSnoc([], first, files);
      RunFilesSnoc([first], second, files);
      assert [] + [first] == [first] && [first] + [second] == [first, second];
      if contextFails { return false; }
      files := files.(contexts := files.contexts[task.key := context]);
      journal.log := journal.log + [first];
      if taskFails { return false; }
      files := files.(tasks := files.tasks[task.key := task]);
      journal.log := journal.log + [second];
      return true;
    }

    /** What the worker leaves between two ticks. */
    method Receive(arrives: map<Key, ReportFile>)
      modifies this`files
      ensures files == Arrived(old(files), arrives)
    {
      files := files.(reports := files.reports + arrives);
    }

    /** Strictly read-only: the same answer until somebody moves the file. */
    method Read(key: Key) returns (r: Reading)
      ensures r == ReadReport(files, key)
    {
      if key !in files.reports { return NoReport; }
      match files.reports[key]
      case Unreadable => return BadReport;
      case Readable(result) => return Report(result);
    }

    /** Moves a valid report into the archive; anything else is refused and left where it is. */
    method Acknowledge(key: Key, stamp: int, fails: bool) returns (ok: bool)
      modifies this, journal
      ensures ok == (!fails && ReadReport(old(files), key).Report?)
      ensures journal.log == old(journal.log) + (if fails then [] else [Archive(key, stamp)])
      ensures files == if fails then old(files) else ExecFiles(Archive(key, stamp), old(files))
    {
      if fails { return false; }
      journal.log := journal.log + [Archive(key, stamp)];
      if key !in files.reports || files.reports[key].Unreadable? { return false; }
      files := files.(reports := files.reports - {key}, archive := files.archive[(key, stamp) := files.reports[key]]);
      return true;
    }
  }

  /** The connection went through these micro-steps; outside any scope, the last of them committed. */
  twostate predicate Performed(c: Connection, ms: seq<Micro>, db: Db)
    reads c, c.journal
  {
    && c.Valid() && c.depth == old(c.depth) && c.journal.log == old(c.journal.log) + ms
    && c.working == db && c.committed == (if c.depth == 0 then db else old(c.committed))
    && c.history == old(c.history) + (if c.depth == 0 then [db] else [])
  }

  /** A scope left by an exception: outermost, nothing of it is durable. */
  twostate predicate Untouched(c: Connection)
    reads c, c.journal
  {
    c.Valid() && c.State() == old(c.State()) && c.journal.log == old(c.journal.log) && c.history == old(c.history)
  }

  /**
    A call with this specified outcome was made: it succeeded, its effect is in the store and, outside
    any scope, durable in at most one commit; or it raised and nothing of it is or becomes durable.
   */
  twostate predicate Did(c: Connection, outcome: Result<Db, string>)
    reads c
  {
    && c.Valid() && c.depth == old(c.depth)
    && match outcome {
         case Ok(db) => c.working == db && c.committed == (if c.depth == 0 then db else old(c.committed))
         case Err(_) => c.committed == old(c.committed)
       }
    && (c.history == old(c.history) || (c.depth == 0 && outcome.Ok? && c.history == old(c.history) + [c.committed]))
  }
}
