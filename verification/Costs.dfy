/** The cost ledger (infrastructure/cost.py, CostQuery in ports/capabilities.py), in whole micro-dollars. */
module Costs {
  import opened Basics
  import opened Texts
  import opened TimeText

  /** The billable content of one event; when it was recorded is not part of it. */
  datatype Content = Content(
    provider: string, model: string, input: nat, output: nat, cost: nat, priced: bool,
    project: Option<string>, stepNo: Option<int>)

  datatype CostRecord = CostRecord(eventId: string, content: Content, createdAt: Utc)

  /** A stored row keeps its instant as text. */
  datatype Row = Row(eventId: string, content: Content, created: string)

  /** None means no filter. */
  datatype CostQuery = CostQuery(
    project: Option<string>, stepNo: Option<int>, provider: Option<string>, fromTime: Option<Utc>, toTime: Option<Utc>)

  datatype CostSummary = CostSummary(total: nat, input: nat, output: nat, records: nat, priced: nat, unpriced: nat)

  function RowOf(c: CostRecord): Row {
    Row(c.eventId, c.content, Iso(c.createdAt))
  }

  /** A row the ledger wrote reads back as the record it was written from. */
  predicate Written(row: Row) {
    Parsed(row.created).Some? && Iso(Parsed(row.created).value) == row.created
  }

  function RecordOf(row: Row): CostRecord
    requires Written(row)
  {
    CostRecord(row.eventId, row.content, Parsed(row.created).value)
  }

  lemma RowReadsBack(c: CostRecord)
    ensures Written(RowOf(c)) && RecordOf(RowOf(c)) == c
  {
    ParsedIso(c.createdAt);
  }

  // -- the two filters -----------------------------------------------------------------------

  /** CostQuery.matches: every filter that is set, on typed values. */
  predicate Matches(q: CostQuery, c: CostRecord) {
    && (q.project.Some? ==> c.content.project == q.project)
    && (q.stepNo.Some? ==> c.content.stepNo == q.stepNo)
    && (q.provider.Some? ==> c.content.provider == q.provider.value)
    && (q.fromTime.Some? ==> !Before(c.createdAt, q.fromTime.value))
    && (q.toTime.Some? ==> !Before(q.toTime.value, c.createdAt))
  }

  /** The WHERE clause: text comparisons on the stored columns. */
  predicate SqlSelects(q: CostQuery, row: Row) {
    && (q.project.Some? ==> row.content.project == q.project)
    && (q.stepNo.Some? ==> row.content.stepNo == q.stepNo)
    && (q.provider.Some? ==> row.content.provider == q.provider.value)
    && (q.fromTime.Some? ==> !Below(row.created, Iso(q.fromTime.value)))
    && (q.toTime.Some? ==> !Below(Iso(q.toTime.value), row.created))
  }

  /** The database and the contract never disagree: comparing the texts is comparing the instants. */
  lemma SqlSelectsExactlyMatches(q: CostQuery, row: Row)
    requires Written(row)
    ensures SqlSelects(q, row) <==> Matches(q, RecordOf(row))
  {
    hide Iso, Parsed, Below, Before;
    var at := Parsed(row.created).value;
    if q.fromTime.Some? { IsoKeepsOrder(at, q.fromTime.value); }
    if q.toTime.Some? { IsoKeepsOrder(q.toTime.value, at); }
  }

  // -- recording -----------------------------------------------------------------------------------

  function Find(rows: seq<Row>, id: string): Option<Row> {
    if rows == [] then None
    else if rows[|rows| - 1].eventId == id then Some(rows[|rows| - 1])
    else Find(rows[..|rows| - 1], id)
  }

  /** A replay is quiet, a re-used identity with other content raises, anything else is appended. */
  function Recorded(rows: seq<Row>, c: CostRecord): Result<seq<Row>, string> {
    match Find(rows, c.eventId)
    case Some(stored) => if stored.content == c.content then Ok(rows) else Err("identity-conflict")
    case None => Ok(rows + [RowOf(c)])
  }

  /** Any sequence of recordings; a raising one changes nothing. */
  function Posted(rows: seq<Row>, costs: seq<CostRecord>): seq<Row> {
    if costs == [] then rows
    else
      var before := Posted(rows, costs[..|costs| - 1]);
      match Recorded(before, costs[|costs| - 1])
      case Err(_) => before
      case Ok(after) => after
  }

  predicate NewEvent(costs: seq<CostRecord>, id: string) {
    forall i :: 0 <= i < |costs| ==> costs[i].eventId != id
  }

  /** The first record of each event, in order. */
  function FirstRecords(costs: seq<CostRecord>): seq<CostRecord> {
    if costs == [] then []
    else
      var before, last := FirstRecords(costs[..|costs| - 1]), costs[|costs| - 1];
      if NewEvent(costs[..|costs| - 1], last.eventId) then before + [last] else before
  }

  function Rows(costs: seq<CostRecord>): seq<Row> {
    seq(|costs|, i requires 0 <= i < |costs| => RowOf(costs[i]))
  }

  lemma {:induction false} FindInRows(costs: seq<CostRecord>, id: string)
    ensures Find(Rows(costs), id).None? <==> NewEvent(costs, id)
    ensures Find(Rows(costs), id).Some? ==> exists i :: 0 <= i < |costs| && costs[i].eventId == id && Find(Rows(costs), id) == Some(RowOf(costs[i]))
    decreases |costs|
  {
    hide Iso, Parsed;
    if costs != [] {
      var init := costs[..|costs| - 1];
      assert Rows(costs)[..|costs| - 1] == Rows(init);
      FindInRows(init, id);
      if costs[|costs| - 1].eventId != id {
        if Find(Rows(init), id).Some? {
          var i :| 0 <= i < |init| && init[i].eventId == id && Find(Rows(init), id) == Some(RowOf(init[i]));
          assert costs[i] == init[i];
        } else {
          assert NewEvent(costs, id);
        }
      } else {
        assert Find(Rows(costs), id) == Some(RowOf(costs[|costs| - 1]));
      }
    }
  }

  /** The events of a stream and of its first records are the same. */
  lemma {:induction false} SameEvents(costs: seq<CostRecord>, id: string)
    ensures NewEvent(FirstRecords(costs), id) <==> NewEvent(costs, id)
    decreases |costs|
  {
    if costs != [] {
      var init, last := costs[..|costs| - 1], costs[|costs| - 1];
      SameEvents(init, id);
      assert costs == init + [last];
      if NewEvent(init, last.eventId) {
        NewEventSnoc(FirstRecords(init), last, id);
      }
      NewEventSnoc(init, last, id);
      if !NewEvent(init, last.eventId) && last.eventId == id { SameEvents(init, last.eventId); }
    }
  }

  lemma NewEventSnoc(costs: seq<CostRecord>, last: CostRecord, id: string)
    ensures NewEvent(costs + [last], id) <==> NewEvent(costs, id) && last.eventId != id
  {
    if NewEvent(costs + [last], id) {
      assert (costs + [last])[|costs|] == last;
      forall i | 0 <= i < |costs|
        ensures costs[i].eventId != id
      {
        assert (costs + [last])[i] == costs[i];
      }
    }
  }

  /** After any recordings, replays and conflicts in any order, the table is the first record of each event, in order. */
  lemma {:induction false} LedgerIsFirstRecords(costs: seq<CostRecord>)
    ensures Posted([], costs) == Rows(FirstRecords(costs))
    decreases |costs|
  {
    hide Iso, Parsed, NewEvent;
    if costs != [] {
      var init, last := costs[..|costs| - 1], costs[|costs| - 1];
      LedgerIsFirstRecords(init);
      FindInRows(FirstRecords(init), last.eventId);
      SameEvents(init, last.eventId);
      assert Rows(FirstRecords(init) + [last]) == Rows(FirstRecords(init)) + [RowOf(last)];
    }
  }

  /** Each event once, under the content that was accepted first. */
  lemma {:induction false} FirstRecordsAreFirst(costs: seq<CostRecord>, k: nat) returns (i: nat)
    requires k < |FirstRecords(costs)|
    ensures i < |costs| && costs[i] == FirstRecords(costs)[k] && NewEvent(costs[..i], costs[i].eventId)
    decreases |costs|
  {
    var init := costs[..|costs| - 1];
    if k < |FirstRecords(init)| {
      i := FirstRecordsAreFirst(init, k);
      assert init[..i] == costs[..i];
    } else {
      i := |costs| - 1;
    }
  }

  /** No event is kept twice. */
  lemma {:induction false} EventsOnce(costs: seq<CostRecord>)
    ensures forall i, j :: 0 <= i < j < |FirstRecords(costs)| ==> FirstRecords(costs)[i].eventId != FirstRecords(costs)[j].eventId
    decreases |costs|
  {
    if costs != [] {
      var init, last := costs[..|costs| - 1], costs[|costs| - 1];
      EventsOnce(init);
      SameEvents(init, last.eventId);
    }
  }

  /** Recording known events again, with equal or other content, never changes the table. */
  lemma {:induction false} ReplaysChangeNothing(costs: seq<CostRecord>, again: seq<CostRecord>)
    requires forall i :: 0 <= i < |again| ==> !NewEvent(costs, again[i].eventId)
    ensures Posted(Posted([], costs), again) == Posted([], costs)
    decreases |again|
  {
    if again != [] {
      ReplaysChangeNothing(costs, again[..|again| - 1]);
      LedgerIsFirstRecords(costs);
      SameEvents(costs, again[|again| - 1].eventId);
      FindInRows(FirstRecords(costs), again[|again| - 1].eventId);
    }
  }

  /** Two records bill the same: everything but the event's identity and its instant. */
  predicate BillsTheSame(a: Content, b: Content) {
    && a.provider == b.provider && a.model == b.model && a.input == b.input && a.output == b.output && a.cost == b.cost
    && a.priced == b.priced && a.project == b.project && a.stepNo == b.stepNo
  }

  /**
    One more recording, after any others: of a known event it is quiet if it bills what that event was
    first accepted with, and raises if it does not; of a new event it adds one row.
   */
  lemma RecordingTable(costs: seq<CostRecord>, c: CostRecord)
    ensures var rows := Posted([], costs);
            && (NewEvent(costs, c.eventId) ==> Recorded(rows, c) == Ok(rows + [RowOf(c)]))
            && (forall k :: 0 <= k < |FirstRecords(costs)| ==>
                  (FirstRecords(costs)[k].eventId == c.eventId ==>
                     if BillsTheSame(FirstRecords(costs)[k].content, c.content) then Recorded(rows, c) == Ok(rows)
                     else Recorded(rows, c).Err?))
  {
    hide Iso, Parsed;
    LedgerIsFirstRecords(costs);
    SameEvents(costs, c.eventId);
    FindInRows(FirstRecords(costs), c.eventId);
    EventsOnce(costs);
  }

  // -- querying ---------------------------------------------------------------------------------------

  function Added(s: CostSummary, c: Content): CostSummary {
    CostSummary(s.total + c.cost, s.input + c.input, s.output + c.output, s.records + 1,
                s.priced + (if c.priced then 1 else 0), s.unpriced + (if c.priced then 0 else 1))
  }

  /** The sums over the records that match. */
  function Summed(costs: seq<CostRecord>, q: CostQuery): CostSummary {
    if costs == [] then CostSummary(0, 0, 0, 0, 0, 0)
    else
      var before, last := Summed(costs[..|costs| - 1], q), costs[|costs| - 1];
      if Matches(q, last) then Added(before, last.content) else before
  }

  // -- one column at a time ---------------------------------------------------------------------------

  /** The sum of one column over the records that match. */
  function SumBy(costs: seq<CostRecord>, q: CostQuery, column: CostRecord -> nat): nat {
    if costs == [] then 0
    else
      var last := costs[|costs| - 1];
      SumBy(costs[..|costs| - 1], q, column) + (if Matches(q, last) then column(last) else 0)
  }

  function CostOf(c: CostRecord): nat { c.content.cost }

  function InputOf(c: CostRecord): nat { c.content.input }

  function OutputOf(c: CostRecord): nat { c.content.output }

  function EachOne(c: CostRecord): nat { 1 }

  function PricedOnes(c: CostRecord): nat { if c.content.priced then 1 else 0 }

  function UnpricedOnes(c: CostRecord): nat { if c.content.priced then 0 else 1 }

  /** Each total of a summary is the sum of its own column; the counts count matching records. */
  predicate ColumnsOf(s: CostSummary, costs: seq<CostRecord>, q: CostQuery) {
    && s.total == SumBy(costs, q, CostOf) && s.input == SumBy(costs, q, InputOf) && s.output == SumBy(costs, q, OutputOf)
    && s.records == SumBy(costs, q, EachOne) && s.priced == SumBy(costs, q, PricedOnes) && s.unpriced == SumBy(costs, q, UnpricedOnes)
  }

  lemma {:induction false} SummedByColumn(costs: seq<CostRecord>, q: CostQuery)
    ensures ColumnsOf(Summed(costs, q), costs, q)
    decreases |costs|
  {
    hide Matches;
    if costs != [] { SummedByColumn(costs[..|costs| - 1], q); }
  }

  // -- what a filter means --------------------------------------------------------------------------------

  const EVERYTHING := CostQuery(None, None, None, None, None)

  /** An empty query matches everything, and each filter that is set narrows it by its own field; both time bounds are inclusive. */
  lemma FiltersNarrow(q: CostQuery, c: CostRecord, text: string, n: int, at: Utc)
    ensures Matches(EVERYTHING, c)
    ensures Matches(q.(project := Some(text)), c) <==> Matches(q.(project := None), c) && c.content.project == Some(text)
    ensures Matches(q.(stepNo := Some(n)), c) <==> Matches(q.(stepNo := None), c) && c.content.stepNo == Some(n)
    ensures Matches(q.(provider := Some(text)), c) <==> Matches(q.(provider := None), c) && c.content.provider == text
    ensures Matches(q.(fromTime := Some(at)), c) <==>
            Matches(q.(fromTime := None), c) && (Before(at, c.createdAt) || at == c.createdAt)
    ensures Matches(q.(toTime := Some(at)), c) <==>
            Matches(q.(toTime := None), c) && (Before(c.createdAt, at) || at == c.createdAt)
  {
  }

  function Records(rows: seq<Row>): seq<CostRecord>
    requires forall i :: 0 <= i < |rows| ==> Written(rows[i])
  {
    seq(|rows|, i requires 0 <= i < |rows| => RecordOf(rows[i]))
  }

  class CostLedger {
    var rows: seq<Row>

    ghost predicate Valid()
      reads this
    {
      forall i :: 0 <= i < |rows| ==> Written(rows[i])
    }

    constructor ()
      ensures Valid() && rows == []
    {
      rows := [];
    }

    /** Look first, then insert: idempotent, and never destructive. */
    method Record(c: CostRecord) returns (r: Result<(), string>)
      requires Valid()
      modifies this
      ensures Valid()
      ensures match Recorded(old(rows), c) {
                case Ok(after) => r == Ok(()) && rows == after
                case Err(e) => r == Err(e) && rows == old(rows)
              }
    {
      hide Parsed, Iso;
      var stored := Find(rows, c.eventId);
      if stored.Some? {
        return if stored.value.content == c.content then Ok(()) else Err("identity-conflict");
      }
      RowReadsBack(c);
      rows := rows + [RowOf(c)];
      r := Ok(());
    }

    /** Rows narrowed in SQL, each re-checked, then summed: the sums over the stored records that match. */
    method Query(q: CostQuery) returns (s: CostSummary)
      requires Valid()
      ensures s == Summed(Records(rows), q)
      ensures ColumnsOf(s, Records(rows), q) && s.priced + s.unpriced == s.records
    {
      hide Parsed, Iso, SqlSelects, Matches, Written;
      s := CostSummary(0, 0, 0, 0, 0, 0);
      for i := 0 to |rows|
        invariant s == Summed(Records(rows)[..i], q) && s.priced + s.unpriced == s.records
      {
        SqlSelectsExactlyMatches(q, rows[i]);
        assert Records(rows)[..i + 1][..i] == Records(rows)[..i];
        if SqlSelects(q, rows[i]) && Matches(q, RecordOf(rows[i])) {
          s := Added(s, rows[i].content);
        }
      }
      assert Records(rows)[..|rows|] == Records(rows);
      SummedByColumn(Records(rows), q);
    }
  }

  /** Whatever was recorded, replayed or refused, a query sums each distinct event once, by its first content and its own instant. */
  lemma QueriesSumDistinctEvents(costs: seq<CostRecord>, q: CostQuery)
    ensures forall i :: 0 <= i < |Posted([], costs)| ==> Written(Posted([], costs)[i])
    ensures Summed(Records(Posted([], costs)), q) == Summed(FirstRecords(costs), q)
    ensures ColumnsOf(Summed(Records(Posted([], costs)), q), FirstRecords(costs), q)
  {
    hide Parsed, Iso, Summed, FirstRecords, Posted, Written;
    LedgerIsFirstRecords(costs);
    var firsts := FirstRecords(costs);
    forall i | 0 <= i < |firsts|
      ensures Written(Rows(firsts)[i]) && RecordOf(Rows(firsts)[i]) == firsts[i]
    {
      RowReadsBack(firsts[i]);
    }
    assert Records(Rows(firsts)) == firsts;
    SummedByColumn(firsts, q);
  }
}
