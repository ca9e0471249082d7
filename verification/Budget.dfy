/**
  Bounded work. The audit trail itself counts the transitions: every persisted loop transition
  lowers a rank, and only UNBLOCK, RESOLVE and REJECT raise it, by 5, 5 and 1.
 */
module Budget {
  import opened Basics
  import opened Fsm
  import opened Store
  import opened Transactions
  import opened Protocol
  import opened ProtocolScripts
  import opened Invariants
  import opened Moves
  import opened Runs
  import opened History

  /** The most loop transitions a step can still make without a human event. */
  function Rank(s: Step): int {
    var left := 6 * (s.maxAttempts - s.attempt);
    match s.state
    case Pending => 6 * (s.maxAttempts - Max(s.attempt, 1)) + 6
    case Ready => left + 5
    case WaitingApproval => left + 4
    case Dispatched => left + 4
    case Working => left + 3
    case ReportReceived => left + 2
    case Reviewing => left + 1
    case Failed => left + 1
    case Revise => left
    case Blocked => left
    case Conflict => left
    case Verified => 0
    case Aborted => 0
  }

  /** What a human event can give back. */
  function Refund(event: StepEvent): int {
    if event.Unblock? || event.Resolve? then 5 else if event.Reject? then 1 else 0
  }

  lemma MoveLowersRank(db: Db, c: Change)
    requires FlowInv(db) && ValidMove(db, c)
    ensures Rank(c.after) >= 0
    ensures if c.entry.author.Loop? then Rank(c.after) + 1 <= Rank(c.before) else Rank(c.after) <= Rank(c.before) + Refund(c.event)
  {
    assert StepOk(c.before);
    StepsOkKept(db, c);
    assert Commit(db, c).steps[c.after.stepNo] == c.after;
  }

  // -- sums over the plan ---------------------------------------------------------------------

  /** The plan's step numbers, each once. */
  ghost predicate Lists(order: seq<int>, steps: map<int, Step>) {
    && (forall i, j :: 0 <= i < j < |order| ==> order[i] != order[j])
    && (forall i :: 0 <= i < |order| ==> order[i] in steps)
    && (forall n <- steps :: n in order)
  }

  /** The sum of a measure over the plan. */
  function Total(measure: Step -> int, order: seq<int>, steps: map<int, Step>): int
    requires forall i :: 0 <= i < |order| ==> order[i] in steps
  {
    if order == [] then 0 else measure(steps[order[0]]) + Total(measure, order[1..], steps)
  }

  function TotalRank(order: seq<int>, steps: map<int, Step>): int
    requires forall i :: 0 <= i < |order| ==> order[i] in steps
  {
    Total(Rank, order, steps)
  }

  function MaxAttempts(s: Step): int {
    s.maxAttempts
  }

  function TotalAttempts(order: seq<int>, steps: map<int, Step>): int
    requires forall i :: 0 <= i < |order| ==> order[i] in steps
  {
    Total(MaxAttempts, order, steps)
  }

  lemma {:induction false} UpdateElsewhere(measure: Step -> int, order: seq<int>, steps: map<int, Step>, s: Step)
    requires forall i :: 0 <= i < |order| ==> order[i] in steps
    requires s.stepNo !in order
    ensures Total(measure, order, steps[s.stepNo := s]) == Total(measure, order, steps)
    decreases |order|
  {
    if order != [] {
      assert order[0] in order;
      UpdateElsewhere(measure, order[1..], steps, s);
    }
  }

  /** Updating one row moves the sum by that row's difference. */
  lemma {:induction false} UpdateOne(measure: Step -> int, order: seq<int>, steps: map<int, Step>, s: Step)
    requires forall i :: 0 <= i < |order| ==> order[i] in steps
    requires forall i, j :: 0 <= i < j < |order| ==> order[i] != order[j]
    requires s.stepNo in order
    ensures Total(measure, order, steps[s.stepNo := s]) == Total(measure, order, steps) + measure(s) - measure(steps[s.stepNo])
    decreases |order|
  {
    if order[0] == s.stepNo {
      UpdateElsewhere(measure, order[1..], steps, s);
    } else {
      UpdateOne(measure, order[1..], steps, s);
    }
  }

  lemma {:induction false} RanksAreNatural(order: seq<int>, steps: map<int, Step>)
    requires forall i :: 0 <= i < |order| ==> order[i] in steps && StepOk(steps[order[i]])
    ensures TotalRank(order, steps) >= 0
    decreases |order|
  {
    if order != [] {
      assert StepOk(steps[order[0]]);
      RanksAreNatural(order[1..], steps);
    }
  }

  lemma ListedRanks(order: seq<int>, db: Db)
    requires FlowInv(db) && Lists(order, db.steps)
    ensures TotalRank(order, db.steps) >= 0
  {
    forall i | 0 <= i < |order|
      ensures order[i] in db.steps && StepOk(db.steps[order[i]])
    {
      var n := order[i];
      assert n in db.steps;
    }
    RanksAreNatural(order, db.steps);
  }

  lemma {:induction false} InitialRank(order: seq<int>, steps: map<int, Step>)
    requires forall i :: 0 <= i < |order| ==> order[i] in steps && StepOk(steps[order[i]]) && steps[order[i]].state.Pending?
    ensures TotalRank(order, steps) <= 6 * TotalAttempts(order, steps)
    decreases |order|
  {
    if order != [] {
      assert StepOk(steps[order[0]]);
      InitialRank(order[1..], steps);
    }
  }

  // -- counting in the trail ------------------------------------------------------------------------

  /** How many transitions the loop has persisted. */
  function LoopCount(audit: seq<Entry>): nat {
    if audit == [] then 0
    else
      var last := audit[|audit| - 1];
      LoopCount(audit[..|audit| - 1]) + (if last.StepEntry? && last.author.Loop? then 1 else 0)
  }

  /** How often a human event succeeded. */
  function HumanCount(audit: seq<Entry>, event: StepEvent): nat {
    if audit == [] then 0
    else
      var last := audit[|audit| - 1];
      HumanCount(audit[..|audit| - 1], event) + (if last.StepEntry? && last.author.Human? && last.event == event then 1 else 0)
  }

  function Refunds(audit: seq<Entry>): nat {
    5 * (HumanCount(audit, Unblock) + HumanCount(audit, Resolve)) + HumanCount(audit, Reject)
  }

  lemma CountSnoc(audit: seq<Entry>, e: Entry)
    ensures LoopCount(audit + [e]) == LoopCount(audit) + (if e.StepEntry? && e.author.Loop? then 1 else 0)
    ensures Refunds(audit + [e]) == Refunds(audit) + (if e.StepEntry? && e.author.Human? then Refund(e.event) else 0)
  {
    assert (audit + [e])[..|audit|] == audit;
  }

  /** The bound with the work still possible on its left-hand side. */
  ghost predicate WithinBudget(order: seq<int>, db: Db) {
    Lists(order, db.steps)
    && LoopCount(db.audit) + TotalRank(order, db.steps) <= 6 * TotalAttempts(order, db.steps) + Refunds(db.audit)
  }

  lemma MoveWithinBudget(order: seq<int>, db: Db, c: Change)
    requires FlowInv(db) && ValidMove(db, c) && WithinBudget(order, db)
    ensures WithinBudget(order, Commit(db, c))
  {
    hide FlowInv, Rank, Total, LoopCount, Refunds, StepNext;
    MoveLowersRank(db, c);
    UpdateOne(Rank, order, db.steps, c.after);
    UpdateOne(MaxAttempts, order, db.steps, c.after);
    CountSnoc(db.audit, c.entry);
  }

  /** Two states in which the loop has done, and may do, the same work. */
  ghost predicate SameWork(a: Db, b: Db) {
    a.steps == b.steps && LoopCount(a.audit) == LoopCount(b.audit) && Refunds(a.audit) == Refunds(b.audit)
  }

  /** What other components append to the trail counts for nothing. */
  lemma {:induction false} OtherEntriesCountNothing(audit: seq<Entry>, tail: seq<Entry>)
    requires forall i :: 0 <= i < |tail| ==> !tail[i].StepEntry?
    ensures LoopCount(audit + tail) == LoopCount(audit) && Refunds(audit + tail) == Refunds(audit)
    decreases |tail|
  {
    if tail == [] {
      assert audit + tail == audit;
    } else {
      var init, last := tail[..|tail| - 1], tail[|tail| - 1];
      OtherEntriesCountNothing(audit, init);
      CountSnoc(audit + init, last);
      assert audit + tail == audit + init + [last];
    }
  }

  lemma ForeignWriteTail(w: Write, db: Db) returns (tail: seq<Entry>)
    requires Foreign(w)
    ensures Apply(w, db).audit == db.audit + tail && forall i :: 0 <= i < |tail| ==> !tail[i].StepEntry?
  {
    tail := if w.Append? then [w.entry] else [];
  }

  lemma {:induction false} ForeignTail(ws: seq<Write>, db: Db) returns (tail: seq<Entry>)
    requires forall i :: 0 <= i < |ws| ==> Foreign(ws[i])
    ensures ApplyAll(ws, db).audit == db.audit + tail && forall i :: 0 <= i < |tail| ==> !tail[i].StepEntry?
    decreases |ws|
  {
    if ws == [] {
      tail := [];
    } else {
      var first := ForeignWriteTail(ws[0], db);
      var next := Apply(ws[0], db);
      var rest := ForeignTail(ws[1..], next);
      tail := first + rest;
      assert ApplyAll(ws, db) == ApplyAll(ws[1..], next);
      assert db.audit + first + rest == db.audit + tail;
    }
  }

  /** Commands that move no step leave the work done and the work possible as they were. */
  lemma QuietWork(cfg: Config, call: Call, db: Db, files: Files)
    requires FlowInv(db) && (call.OtherCall? || !Answer(cfg, call, db, files).Moved?)
    ensures SameWork(db, Effect(cfg, call, db, files))
  {
    hide Answer;
    if call.OtherCall? {
      if ForeignBody(call.body) {
        ForeignKeepsFlow(Writes(call.body), db);
        var tail := ForeignTail(Writes(call.body), db);
        OtherEntriesCountNothing(db.audit, tail);
      }
    } else {
      var reply := Answer(cfg, call, db, files);
      AnswerShape(cfg, call, db, files);
      if reply.Controlled? { OtherEntriesCountNothing(db.audit, [reply.entry]); }
    }
  }

  lemma EffectWithinBudget(order: seq<int>, cfg: Config, call: Call, db: Db, files: Files)
    requires FlowInv(db) && WithinBudget(order, db)
    ensures WithinBudget(order, Effect(cfg, call, db, files))
  {
    if call.OtherCall? || !Answer(cfg, call, db, files).Moved? {
      QuietWork(cfg, call, db, files);
    } else {
      AnswerMoves(cfg, call, db, files);
      MoveWithinBudget(order, db, Answer(cfg, call, db, files).change);
    }
  }

  lemma {:induction false} RunWithinBudget(order: seq<int>, cfg: Config, s: Sys, actions: seq<Action>)
    requires SysInv(cfg, s) && WithinBudget(order, s.conn.committed)
    ensures WithinBudget(order, Run(cfg, s, actions).conn.committed)
    decreases |actions|
  {
    if actions != [] {
      var init := actions[..|actions| - 1];
      var mid := Run(cfg, s, init);
      RunKeepsInvariant(cfg, s, init);
      RunWithinBudget(order, cfg, s, init);
      ActRefines(cfg, mid, actions[|actions| - 1]);
      var db, db' := mid.conn.committed, Run(cfg, s, actions).conn.committed;
      if db' != db {
        var call: Call, files: Files :| db' == Effect(cfg, call, db, files);
        EffectWithinBudget(order, cfg, call, db, files);
      }
    }
  }

  lemma {:induction false} NoStepEntriesNoCounts(audit: seq<Entry>)
    requires forall n :: StepLog(audit, n) == []
    ensures LoopCount(audit) == 0
    decreases |audit|
  {
    if audit != [] {
      var init, last := audit[..|audit| - 1], audit[|audit| - 1];
      forall n ensures StepLog(init, n) == [] { assert StepLog(audit, n) == []; }
      var n := if last.StepEntry? then last.stepNo else 0;
      assert StepLog(audit, n) == [];
      NoStepEntriesNoCounts(init);
    }
  }

  lemma SeededSteps(order: seq<int>, s: Sys)
    requires Init(s) && Lists(order, s.conn.committed.steps)
    ensures forall i :: 0 <= i < |order| ==> StepOk(s.conn.committed.steps[order[i]]) && s.conn.committed.steps[order[i]].state.Pending?
  {
    var db := s.conn.committed;
    forall i | 0 <= i < |order|
      ensures StepOk(db.steps[order[i]]) && db.steps[order[i]].state.Pending?
    {
      var n := order[i];
      assert n in db.steps;
    }
  }

  /**
    Bounded work: from a seeded plan, whatever happens, the loop persists at most
    6 * (sum of max_attempts) + 5 * (UNBLOCKs + RESOLVEs) + REJECTs transitions.
   */
  lemma LoopWorkIsBounded(order: seq<int>, cfg: Config, s: Sys, actions: seq<Action>)
    requires Init(s) && Lists(order, s.conn.committed.steps)
    ensures var db := Run(cfg, s, actions).conn.committed;
            Lists(order, db.steps) && LoopCount(db.audit) <= 6 * TotalAttempts(order, s.conn.committed.steps) + Refunds(db.audit)
  {
    InitInv(cfg, s);
    SeededSteps(order, s);
    InitialRank(order, s.conn.committed.steps);
    NoStepEntriesNoCounts(s.conn.committed.audit);
    RunWithinBudget(order, cfg, s, actions);
    RunKeepsInvariant(cfg, s, actions);
    var db := Run(cfg, s, actions).conn.committed;
    AttemptsKept(order, cfg, s, actions);
    ListedRanks(order, db);
  }

  /** The attempt budget of the plan never changes. */
  lemma {:induction false} AttemptsKept(order: seq<int>, cfg: Config, s: Sys, actions: seq<Action>)
    requires SysInv(cfg, s) && Lists(order, s.conn.committed.steps)
    ensures Lists(order, Run(cfg, s, actions).conn.committed.steps)
    ensures TotalAttempts(order, Run(cfg, s, actions).conn.committed.steps) == TotalAttempts(order, s.conn.committed.steps)
  {
    RunIsLater(cfg, s, actions);
    SameAttempts(order, s.conn.committed, Run(cfg, s, actions).conn.committed);
  }

  lemma {:induction false} SameAttempts(order: seq<int>, db: Db, db': Db)
    requires Later(db, db') && forall i :: 0 <= i < |order| ==> order[i] in db.steps
    ensures TotalAttempts(order, db'.steps) == TotalAttempts(order, db.steps)
    decreases |order|
  {
    if order != [] {
      assert order[0] in db.steps && StepLater(db, db', order[0]);
      SameAttempts(order[1..], db, db');
    }
  }

  // -- what the two counts count -------------------------------------------------------------------------

  predicate ByLoop(e: Entry) {
    e.StepEntry? && e.author.Loop?
  }

  predicate ByHuman(e: Entry, event: StepEvent) {
    e.StepEntry? && e.author.Human? && e.event == event
  }

  /** Where the loop wrote, and where a human made this event. */
  function LoopEntries(audit: seq<Entry>): set<nat> {
    set i: nat | i < |audit| && ByLoop(audit[i])
  }

  function HumanEntries(audit: seq<Entry>, event: StepEvent): set<nat> {
    set i: nat | i < |audit| && ByHuman(audit[i], event)
  }

  lemma LoopEntriesSnoc(audit: seq<Entry>, e: Entry)
    ensures |LoopEntries(audit + [e])| == |LoopEntries(audit)| + (if ByLoop(e) then 1 else 0)
  {
    hide ByLoop;
    var all := audit + [e];
    assert forall i: nat :: i < |all| ==> all[i] == if i < |audit| then audit[i] else e;
    assert LoopEntries(all) == LoopEntries(audit) + (if ByLoop(e) then {|audit|} else {});
    assert |audit| !in LoopEntries(audit);
  }

  lemma HumanEntriesSnoc(audit: seq<Entry>, e: Entry, event: StepEvent)
    ensures |HumanEntries(audit + [e], event)| == |HumanEntries(audit, event)| + (if ByHuman(e, event) then 1 else 0)
  {
    hide ByHuman;
    var all := audit + [e];
    var before, after := HumanEntries(audit, event), HumanEntries(all, event);
    forall i: nat
      ensures i in after <==> i in before || (i == |audit| && ByHuman(e, event))
    {
      if i < |audit| { assert all[i] == audit[i]; } else if i == |audit| { assert all[i] == e; }
    }
    assert |audit| !in before;
    hide HumanEntries;
    if ByHuman(e, event) {
      assert after == before + {|audit|};
    } else {
      assert after == before;
    }
  }

  lemma NoEntries(event: StepEvent)
    ensures |LoopEntries([])| == 0 && |HumanEntries([], event)| == 0
  {
    assert LoopEntries([]) == {} && HumanEntries([], event) == {};
  }

  /** The counts of the bound are numbers of audit entries. */
  lemma {:induction false} CountsCountEntries(audit: seq<Entry>, event: StepEvent)
    ensures LoopCount(audit) == |LoopEntries(audit)| && HumanCount(audit, event) == |HumanEntries(audit, event)|
    decreases |audit|
  {
    hide LoopEntries, HumanEntries;
    if audit == [] {
      NoEntries(event);
    } else {
      var init, last := audit[..|audit| - 1], audit[|audit| - 1];
      CountsCountEntries(init, event);
      LoopEntriesSnoc(init, last);
      HumanEntriesSnoc(init, last, event);
      assert audit == init + [last];
    }
  }
}
