/**
  What the decision-record table always satisfies: the audit trail alone rebuilds it, and
  supersession is a forest whose chains end in a record that is in force or was retired.
 */
module AdrHistory {
  import opened Basics
  import opened Store
  import opened Connections
  import opened Adrs

  // -- the trail rebuilds the table ------------------------------------------------------

  datatype AdrState = AdrState(status: AdrStatus, version: nat, supersededBy: Option<string>)

  function StateOf(adr: Adr): AdrState {
    AdrState(adr.status, adr.version, adr.supersededBy)
  }

  function States(adrs: map<string, Adr>): map<string, AdrState> {
    map id <- adrs :: StateOf(adrs[id])
  }

  /** One entry replayed; accepting a proposed successor leaves no entry of its own. */
  function ReplayEntry(table: map<string, AdrState>, id: string, action: AdrAction): map<string, AdrState> {
    if action.AdrCreate? then table[id := AdrState(AdrProposed, 1, None)]
    else if id !in table then table
    else
      match action
      case AdrCreate => table
      case AdrAccept => table[id := table[id].(status := AdrAccepted)]
      case AdrReject => table[id := table[id].(status := AdrRejected)]
      case AdrDeprecate => table[id := table[id].(status := AdrDeprecated)]
      case AdrAmend(_) => table[id := table[id].(version := table[id].version + 1)]
      case AdrSupersede(successor) =>
        var retired := table[id := table[id].(status := AdrSuperseded, supersededBy := Some(successor))];
        if successor in retired && retired[successor].status.AdrProposed?
        then retired[successor := retired[successor].(status := AdrAccepted)]
        else retired
  }

  function Replayed(audit: seq<Entry>): map<string, AdrState> {
    if audit == [] then map[]
    else
      var before, last := Replayed(audit[..|audit| - 1]), audit[|audit| - 1];
      if last.AdrEntry? then ReplayEntry(before, last.adrId, last.action) else before
  }

  function AmendCount(audit: seq<Entry>, id: string): nat {
    if audit == [] then 0
    else
      var last := audit[|audit| - 1];
      AmendCount(audit[..|audit| - 1], id) + (if last.AdrEntry? && last.adrId == id && last.action.AdrAmend? then 1 else 0)
  }

  // -- supersession ------------------------------------------------------------------------

  /** Where in the trail a record was last superseded. */
  function SupersededAt(audit: seq<Entry>, id: string): (r: Option<nat>)
    ensures r.Some? ==> r.value < |audit|
  {
    if audit == [] then None
    else
      var last := audit[|audit| - 1];
      if last.AdrEntry? && last.adrId == id && last.action.AdrSupersede? then Some(|audit| - 1)
      else SupersededAt(audit[..|audit| - 1], id)
  }

  /** A superseded record names a later record that was accepted, and that was not superseded before it. */
  ghost predicate Rooted(db: Db, id: string)
    requires id in db.adrs
  {
    var adr := db.adrs[id];
    && (adr.supersededBy.Some? <==> adr.status.AdrSuperseded?)
    && (adr.supersededBy.Some? ==>
          var next := adr.supersededBy.value;
          && next != id && next in db.adrs
          && (db.adrs[next].status.AdrAccepted? || db.adrs[next].status.AdrDeprecated? || db.adrs[next].status.AdrSuperseded?)
          && SupersededAt(db.audit, id).Some?
          && (db.adrs[next].status.AdrSuperseded? ==>
                SupersededAt(db.audit, next).Some?
                && SupersededAt(db.audit, id).value < SupersededAt(db.audit, next).value))
  }

  ghost predicate AdrInv(db: Db) {
    && (forall id <- db.adrs :: db.adrs[id].id == id && Rooted(db, id))
    && Replayed(db.audit) == States(db.adrs)
    && (forall id <- db.adrs :: db.adrs[id].version == 1 + AmendCount(db.audit, id))
    && (forall id :: id !in db.adrs ==> AmendCount(db.audit, id) == 0)
  }

  /** The end of the chain that starts at a record. */
  ghost function ChainEnd(db: Db, id: string): (end: string)
    requires AdrInv(db) && id in db.adrs
    ensures end in db.adrs && !db.adrs[end].status.AdrSuperseded?
    ensures db.adrs[id].status.AdrSuperseded? ==> db.adrs[end].status.AdrAccepted? || db.adrs[end].status.AdrDeprecated?
    decreases if db.adrs[id].status.AdrSuperseded? then |db.audit| - SupersededAt(db.audit, id).value else 0
  {
    assert Rooted(db, id);
    if db.adrs[id].supersededBy.None? then id
    else
      assert Rooted(db, db.adrs[id].supersededBy.value);
      ChainEnd(db, db.adrs[id].supersededBy.value)
  }

  /** k supersessions further. */
  ghost function Follow(db: Db, id: string, k: nat): Option<string> {
    if k == 0 then Some(id)
    else
      match Follow(db, id, k - 1)
      case None => None
      case Some(at) => if at in db.adrs then db.adrs[at].supersededBy else None
  }

  /** Along a chain, each record was superseded later than the one before: no chain returns to its start. */
  lemma {:induction false} NoCycle(db: Db, id: string, k: nat)
    requires AdrInv(db) && id in db.adrs && k >= 1 && Follow(db, id, k).Some?
    ensures var at := Follow(db, id, k).value;
            at in db.adrs && at != id && db.adrs[id].status.AdrSuperseded?
            && (db.adrs[at].status.AdrSuperseded? ==> SupersededAt(db.audit, id).value < SupersededAt(db.audit, at).value)
    decreases k
  {
    if k == 1 {
      assert Follow(db, id, 0) == Some(id);
      assert Rooted(db, id);
    } else {
      NoCycle(db, id, k - 1);
      assert Rooted(db, Follow(db, id, k - 1).value);
    }
  }

  // -- preservation ----------------------------------------------------------------------------

  lemma EntrySnoc(audit: seq<Entry>, e: Entry, id: string)
    ensures Replayed(audit + [e]) == if e.AdrEntry? then ReplayEntry(Replayed(audit), e.adrId, e.action) else Replayed(audit)
    ensures AmendCount(audit + [e], id) ==
            AmendCount(audit, id) + (if e.AdrEntry? && e.adrId == id && e.action.AdrAmend? then 1 else 0)
    ensures SupersededAt(audit + [e], id) ==
            if e.AdrEntry? && e.adrId == id && e.action.AdrSupersede? then Some(|audit|) else SupersededAt(audit, id)
  {
    assert (audit + [e])[..|audit|] == audit;
  }

  /** Entries about anything else change nothing for the records. */
  lemma OtherEntryKeeps(db: Db, db': Db, e: Entry)
    requires AdrInv(db) && !e.AdrEntry? && db'.adrs == db.adrs && db'.audit == db.audit + [e]
    ensures AdrInv(db')
  {
    forall id { EntrySnoc(db.audit, e, id); }
    EntrySnoc(db.audit, e, "");
    forall id | id in db'.adrs ensures Rooted(db', id) { assert Rooted(db, id); }
  }

  lemma SameRecordsKeep(db: Db, db': Db)
    requires AdrInv(db) && db'.adrs == db.adrs && db'.audit == db.audit
    ensures AdrInv(db')
  {
    forall id | id in db'.adrs ensures Rooted(db', id) { assert Rooted(db, id); }
  }

  lemma ProposeKeeps(db: Db, id: string, text: AdrText, now: int)
    requires AdrInv(db) && ProposeAdr(db, id, text, now).Ok?
    ensures AdrInv(ProposeAdr(db, id, text, now).value)
  {
    var adr := Adr(id, text, AdrProposed, 1, None, now, now);
    OneRow(db.adrs, adr);
    RowKeeps(db, adr, AdrCreate, now);
  }

  /** One row replaced under one entry that is not a supersession. */
  lemma RowKeeps(db: Db, row: Adr, action: AdrAction, now: int)
    requires AdrInv(db) && !action.AdrSupersede?
    requires row.supersededBy.None? && !row.status.AdrSuperseded?
    requires ReplayEntry(States(db.adrs), row.id, action) == States(db.adrs)[row.id := StateOf(row)]
    requires if action.AdrCreate? then row.id !in db.adrs && row.version == 1
             else row.id in db.adrs && row.version == db.adrs[row.id].version + (if action.AdrAmend? then 1 else 0)
    requires row.id in db.adrs && (db.adrs[row.id].status.AdrAccepted? || db.adrs[row.id].status.AdrDeprecated?) ==>
               row.status.AdrAccepted? || row.status.AdrDeprecated?
    requires row.id in db.adrs ==> !db.adrs[row.id].status.AdrSuperseded?
    ensures AdrInv(Filed(db, [row], row.id, action, now))
  {
    OneRow(db.adrs, row);
    EntrySnoc(db.audit, AdrEntry(row.id, action, now), row.id);
    StatesAfter(db.adrs, row);
    RowCounts(db, row, action, now);
    RowRooted(db, row, action, now);
    hide ReplayEntry, Rooted, AmendCount, Replayed, StateOf;
  }

  lemma StatesAfter(adrs: map<string, Adr>, row: Adr)
    ensures States(adrs[row.id := row]) == States(adrs)[row.id := StateOf(row)]
  {
  }

  lemma RowCounts(db: Db, row: Adr, action: AdrAction, now: int)
    requires AdrInv(db)
    requires if action.AdrCreate? then row.id !in db.adrs && row.version == 1
             else row.id in db.adrs && row.version == db.adrs[row.id].version + (if action.AdrAmend? then 1 else 0)
    ensures var audit := db.audit + [AdrEntry(row.id, action, now)];
            var adrs := db.adrs[row.id := row];
            (forall id <- adrs :: adrs[id].version == 1 + AmendCount(audit, id))
            && (forall id :: id !in adrs ==> AmendCount(audit, id) == 0)
  {
    hide Rooted, Replayed, States;
    forall id { EntrySnoc(db.audit, AdrEntry(row.id, action, now), id); }
  }

  lemma RowRooted(db: Db, row: Adr, action: AdrAction, now: int)
    requires AdrInv(db) && !action.AdrSupersede?
    requires row.supersededBy.None? && !row.status.AdrSuperseded?
    requires row.id in db.adrs && (db.adrs[row.id].status.AdrAccepted? || db.adrs[row.id].status.AdrDeprecated?) ==>
               row.status.AdrAccepted? || row.status.AdrDeprecated?
    requires row.id in db.adrs ==> !db.adrs[row.id].status.AdrSuperseded?
    ensures var db' := Filed(db, [row], row.id, action, now); forall id <- db'.adrs :: Rooted(db', id)
  {
    hide Replayed, States, AmendCount;
    var db' := Filed(db, [row], row.id, action, now);
    OneRow(db.adrs, row);
    forall id { EntrySnoc(db.audit, AdrEntry(row.id, action, now), id); }
    forall id | id in db'.adrs
      ensures Rooted(db', id)
    {
      if id != row.id { assert Rooted(db, id); }
    }
  }

  /** No status change is ever made to a superseded record. */
  lemma MoveKeeps(db: Db, id: string, target: AdrStatus, action: AdrAction, now: int)
    requires AdrInv(db) && MoveAdr(db, id, target, action, now).Ok?
    requires (target, action) == (AdrAccepted, AdrAccept) || (target, action) == (AdrRejected, AdrReject)
             || (target, action) == (AdrDeprecated, AdrDeprecate)
    ensures AdrInv(MoveAdr(db, id, target, action, now).value)
  {
    assert Rooted(db, id);
    RowKeeps(db, db.adrs[id].(status := target, updatedAt := now), action, now);
  }

  lemma AmendKeeps(db: Db, id: string, changes: AdrChanges, now: int)
    requires AdrInv(db) && AmendAdr(db, id, changes, now).Ok?
    ensures AdrInv(AmendAdr(db, id, changes, now).value)
  {
    assert Rooted(db, id);
    AmendedRow(db, id, changes, now);
  }

  /** A superseded record keeps its place in the forest under an amendment. */
  lemma AmendedRow(db: Db, id: string, changes: AdrChanges, now: int)
    requires AdrInv(db) && id in db.adrs
    ensures var adr := db.adrs[id];
            AdrInv(Filed(db, [adr.(text := Amended(adr.text, changes), version := adr.version + 1, updatedAt := now)],
                         id, AdrAmend(adr.version + 1), now))
  {
    hide AmendCount, Replayed, Rooted, ReplayEntry, States, Amended;
    var adr := db.adrs[id];
    var row := adr.(text := Amended(adr.text, changes), version := adr.version + 1, updatedAt := now);
    OneRow(db.adrs, row);
    AmendReplays(db, row, now);
    RowCounts(db, row, AdrAmend(adr.version + 1), now);
    AmendRooted(db, row, now);
  }

  lemma AmendReplays(db: Db, row: Adr, now: int)
    requires AdrInv(db) && row.id in db.adrs && row.version == db.adrs[row.id].version + 1
    requires row.status == db.adrs[row.id].status && row.supersededBy == db.adrs[row.id].supersededBy
    ensures Replayed(db.audit + [AdrEntry(row.id, AdrAmend(row.version), now)]) == States(db.adrs[row.id := row])
  {
    hide Rooted, AmendCount;
    StatesAfter(db.adrs, row);
    EntrySnoc(db.audit, AdrEntry(row.id, AdrAmend(row.version), now), row.id);
  }

  lemma AmendRooted(db: Db, row: Adr, now: int)
    requires AdrInv(db) && row.id in db.adrs
    requires row.status == db.adrs[row.id].status && row.supersededBy == db.adrs[row.id].supersededBy
    ensures var db' := Filed(db, [row], row.id, AdrAmend(row.version), now); forall k <- db'.adrs :: Rooted(db', k)
  {
    hide AmendCount, Replayed, States, PutAll;
    OneRow(db.adrs, row);
    var entry := AdrEntry(row.id, AdrAmend(row.version), now);
    var db' := Filed(db, [row], row.id, AdrAmend(row.version), now);
    forall k | k in db'.adrs
      ensures Rooted(db', k)
    {
      assert Rooted(db, k);
      EntrySnoc(db.audit, entry, k);
      if db.adrs[k].supersededBy.Some? { EntrySnoc(db.audit, entry, db.adrs[k].supersededBy.value); }
    }
  }

  lemma SupersedeKeeps(db: Db, id: string, successorId: string, now: int)
    requires AdrInv(db) && SupersedeAdr(db, id, successorId, now).Ok?
    ensures AdrInv(SupersedeAdr(db, id, successorId, now).value)
  {
    hide AmendCount, Replayed, Rooted, ReplayEntry, States, PutAll;
    SupersedeCounts(db, id, successorId, now);
    SupersedeReplays(db, id, successorId, now);
    SupersedeRooted(db, id, successorId, now);
  }

  lemma SupersedeRows(db: Db, id: string, successorId: string, now: int)
    requires AdrInv(db) && SupersedeAdr(db, id, successorId, now).Ok?
    ensures var adr, next := db.adrs[id], db.adrs[successorId];
            SupersedeAdr(db, id, successorId, now).value.adrs ==
            db.adrs[id := adr.(status := AdrSuperseded, supersededBy := Some(successorId), updatedAt := now)]
                   [successorId := if next.status.AdrProposed? then next.(status := AdrAccepted, updatedAt := now) else next]
  {
    hide Replayed, AmendCount, Rooted;
    var adr, next := db.adrs[id], db.adrs[successorId];
    TwoRows(db.adrs, adr.(status := AdrSuperseded, supersededBy := Some(successorId), updatedAt := now),
            if next.status.AdrProposed? then next.(status := AdrAccepted, updatedAt := now) else next);
  }

  lemma SupersedeCounts(db: Db, id: string, successorId: string, now: int)
    requires AdrInv(db) && SupersedeAdr(db, id, successorId, now).Ok?
    ensures var db' := SupersedeAdr(db, id, successorId, now).value;
            (forall k <- db'.adrs :: db'.adrs[k].id == k && db'.adrs[k].version == 1 + AmendCount(db'.audit, k))
            && (forall k :: k !in db'.adrs ==> AmendCount(db'.audit, k) == 0)
  {
    hide Replayed, Rooted, AmendCount, PutAll, States;
    SupersedeRows(db, id, successorId, now);
    SameAmends(db.audit, AdrEntry(id, AdrSupersede(successorId), now));
  }

  lemma SameAmends(audit: seq<Entry>, e: Entry)
    requires e.AdrEntry? && !e.action.AdrAmend?
    ensures forall k :: AmendCount(audit + [e], k) == AmendCount(audit, k)
  {
    forall k { EntrySnoc(audit, e, k); }
  }

  lemma SupersedeReplays(db: Db, id: string, successorId: string, now: int)
    requires AdrInv(db) && SupersedeAdr(db, id, successorId, now).Ok?
    ensures var db' := SupersedeAdr(db, id, successorId, now).value; Replayed(db'.audit) == States(db'.adrs)
  {
    hide AmendCount, Rooted;
    SupersedeRows(db, id, successorId, now);
    EntrySnoc(db.audit, AdrEntry(id, AdrSupersede(successorId), now), id);
  }

  lemma SupersedeRooted(db: Db, id: string, successorId: string, now: int)
    requires AdrInv(db) && SupersedeAdr(db, id, successorId, now).Ok?
    ensures var db' := SupersedeAdr(db, id, successorId, now).value; forall k <- db'.adrs :: Rooted(db', k)
  {
    hide Replayed, AmendCount;
    SupersedeRows(db, id, successorId, now);
    var db' := SupersedeAdr(db, id, successorId, now).value;
    forall k | k in db'.adrs
      ensures Rooted(db', k)
    {
      assert Rooted(db, k) && Rooted(db, id) && Rooted(db, successorId);
      var entry := AdrEntry(id, AdrSupersede(successorId), now);
      EntrySnoc(db.audit, entry, k);
      if db'.adrs[k].supersededBy.Some? { EntrySnoc(db.audit, entry, db'.adrs[k].supersededBy.value); }
    }
  }
}
