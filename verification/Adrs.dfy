/** The decision-record lifecycle (application/adr_manager.py): specification, objects, and the invariants of its table. */
module Adrs {
  import opened Basics
  import opened Store
  import opened Transactions
  import opened Connections

  /** Which status may follow which. */
  predicate AdrAllowed(from: AdrStatus, to: AdrStatus) {
    match from
    case AdrProposed => to.AdrAccepted? || to.AdrRejected?
    case AdrAccepted => to.AdrDeprecated? || to.AdrSuperseded?
    case AdrDeprecated => to.AdrSuperseded?
    case AdrRejected => false
    case AdrSuperseded => false
  }

  /** The fields an amendment changes. */
  datatype AdrChanges = AdrChanges(
    title: Option<string>, context: Option<string>, decision: Option<string>,
    consequences: Option<seq<string>>, related: Option<seq<string>>)

  function OrElse<T>(change: Option<T>, present: T): T {
    if change.Some? then change.value else present
  }

  function Amended(text: AdrText, c: AdrChanges): AdrText {
    AdrText(OrElse(c.title, text.title), OrElse(c.context, text.context), OrElse(c.decision, text.decision),
            OrElse(c.consequences, text.consequences), OrElse(c.related, text.related))
  }

  // -- what each call does to the store ---------------------------------------------------

  function ProposeAdr(db: Db, id: string, text: AdrText, now: int): Result<Db, string> {
    if id in db.adrs then Err("adr-exists")
    else if Blank(id) || Blank(text.title) then Err("adr-invalid")
    else Ok(Filed(db, [Adr(id, text, AdrProposed, 1, None, now, now)], id, AdrCreate, now))
  }

  /** ADR rows and exactly one entry. */
  function Filed(db: Db, rows: seq<Adr>, id: string, action: AdrAction, now: int): Db {
    db.(adrs := PutAll(db.adrs, rows), audit := db.audit + [AdrEntry(id, action, now)])
  }

  function PutAll(adrs: map<string, Adr>, rows: seq<Adr>): map<string, Adr> {
    if rows == [] then adrs else PutAll(adrs, rows[..|rows| - 1])[rows[|rows| - 1].id := rows[|rows| - 1]]
  }

  function MoveAdr(db: Db, id: string, target: AdrStatus, action: AdrAction, now: int): Result<Db, string> {
    if id !in db.adrs then Err("adr-not-found")
    else if !AdrAllowed(db.adrs[id].status, target) then Err("adr-transition")
    else Ok(Filed(db, [db.adrs[id].(status := target, updatedAt := now)], id, action, now))
  }

  function AcceptAdr(db: Db, id: string, now: int): Result<Db, string> {
    MoveAdr(db, id, AdrAccepted, AdrAccept, now)
  }

  function RejectAdr(db: Db, id: string, now: int): Result<Db, string> {
    MoveAdr(db, id, AdrRejected, AdrReject, now)
  }

  function DeprecateAdr(db: Db, id: string, now: int): Result<Db, string> {
    MoveAdr(db, id, AdrDeprecated, AdrDeprecate, now)
  }

  function AmendAdr(db: Db, id: string, changes: AdrChanges, now: int): Result<Db, string> {
    if id !in db.adrs then Err("adr-not-found")
    else if changes == AdrChanges(None, None, None, None, None) then Err("adr-no-change")
    else
      var adr := db.adrs[id];
      var text := Amended(adr.text, changes);
      if Blank(text.title) then Err("adr-invalid")
      else Ok(Filed(db, [adr.(text := text, version := adr.version + 1, updatedAt := now)], id, AdrAmend(adr.version + 1), now))
  }

  function SupersedeAdr(db: Db, id: string, successorId: string, now: int): Result<Db, string> {
    if id !in db.adrs || successorId !in db.adrs then Err("adr-not-found")
    else if id == successorId then Err("adr-supersedes-itself")
    else
      var adr, successor := db.adrs[id], db.adrs[successorId];
      if adr.supersededBy.Some? then Err("adr-already-superseded")
      else if !AdrAllowed(adr.status, AdrSuperseded) then Err("adr-transition")
      else if !successor.status.AdrProposed? && !successor.status.AdrAccepted? then Err("adr-successor")
      else
        var accepted := if successor.status.AdrProposed? then successor.(status := AdrAccepted, updatedAt := now) else successor;
        Ok(Filed(db, [adr.(status := AdrSuperseded, supersededBy := Some(successorId), updatedAt := now), accepted],
                 id, AdrSupersede(successorId), now))
  }

  // -- the manager ----------------------------------------------------------------------------

  class ADRManager {
    const storage: Connection

    constructor (storage: Connection)
      ensures this.storage == storage
    {
      this.storage := storage;
    }

    /** Every row and exactly one audit entry, in one scope. */
    method Commit(rows: seq<Adr>, id: string, action: AdrAction, now: int)
      requires storage.Valid()
      modifies storage, storage.journal
      ensures Did(storage, Ok(Filed(old(storage.working), rows, id, action, now)))
    {
      hide ExecDb, RowsKeyed;
      storage.Enter();
      ghost var start := storage.working;
      for i := 0 to |rows|
        invariant storage.Valid() && storage.depth == old(storage.depth) + 1
        invariant storage.committed == old(storage.committed) && storage.history == old(storage.history)
        invariant storage.working == start.(adrs := PutAll(start.adrs, rows[..i]))
      {
        assert rows[..i + 1][..i] == rows[..i];
        storage.ExecuteWrite(PutAdr(rows[i]));
      }
      assert rows[..|rows|] == rows;
      storage.ExecuteWrite(Append(AdrEntry(id, action, now)));
      storage.Leave(false);
    }

    /** A new record at version 1. */
    method Propose(id: string, text: AdrText, now: int) returns (r: Result<Adr, string>)
      requires storage.Valid()
      modifies storage, storage.journal
      ensures Answered(storage, ProposeAdr(old(storage.working), id, text, now), r, id)
    {
      if id in storage.working.adrs { return Err("adr-exists"); }
      if Blank(id) || Blank(text.title) { return Err("adr-invalid"); }
      var adr := Adr(id, text, AdrProposed, 1, None, now, now);
      Commit([adr], id, AdrCreate, now);
      OneRow(old(storage.working).adrs, adr);
      r := Ok(adr);
    }

    method Accept(id: string, now: int) returns (r: Result<Adr, string>)
      requires storage.Valid()
      modifies storage, storage.journal
      ensures Answered(storage, AcceptAdr(old(storage.working), id, now), r, id)
    {
      r := ChangeStatus(id, AdrAccepted, AdrAccept, now);
    }

    method Reject(id: string, now: int) returns (r: Result<Adr, string>)
      requires storage.Valid()
      modifies storage, storage.journal
      ensures Answered(storage, RejectAdr(old(storage.working), id, now), r, id)
    {
      r := ChangeStatus(id, AdrRejected, AdrReject, now);
    }

    method Deprecate(id: string, now: int) returns (r: Result<Adr, string>)
      requires storage.Valid()
      modifies storage, storage.journal
      ensures Answered(storage, DeprecateAdr(old(storage.working), id, now), r, id)
    {
      r := ChangeStatus(id, AdrDeprecated, AdrDeprecate, now);
    }

    method ChangeStatus(id: string, target: AdrStatus, action: AdrAction, now: int) returns (r: Result<Adr, string>)
      requires storage.Valid()
      modifies storage, storage.journal
      ensures Answered(storage, MoveAdr(old(storage.working), id, target, action, now), r, id)
    {
      if id !in storage.working.adrs { return Err("adr-not-found"); }
      var adr := storage.working.adrs[id];
      if !AdrAllowed(adr.status, target) { return Err("adr-transition"); }
      var updated := adr.(status := target, updatedAt := now);
      Commit([updated], id, action, now);
      OneRow(old(storage.working).adrs, updated);
      r := Ok(updated);
    }

    /** New content under the next version; the status is untouched. */
    method Amend(id: string, changes: AdrChanges, now: int) returns (r: Result<Adr, string>)
      requires storage.Valid()
      modifies storage, storage.journal
      ensures Answered(storage, AmendAdr(old(storage.working), id, changes, now), r, id)
    {
      if id !in storage.working.adrs { return Err("adr-not-found"); }
      if changes == AdrChanges(None, None, None, None, None) { return Err("adr-no-change"); }
      var adr := storage.working.adrs[id];
      var text := Amended(adr.text, changes);
      if Blank(text.title) { return Err("adr-invalid"); }
      var updated := adr.(text := text, version := adr.version + 1, updatedAt := now);
      Commit([updated], id, AdrAmend(updated.version), now);
      OneRow(old(storage.working).adrs, updated);
      r := Ok(updated);
    }

    /** Both sides of the relationship in one commit, under one entry of the superseded record. */
    method Supersede(id: string, successorId: string, now: int) returns (r: Result<Adr, string>)
      requires storage.Valid()
      modifies storage, storage.journal
      ensures Answered(storage, SupersedeAdr(old(storage.working), id, successorId, now), r, id)
    {
      var adrs := storage.working.adrs;
      if id !in adrs || successorId !in adrs { return Err("adr-not-found"); }
      if id == successorId { return Err("adr-supersedes-itself"); }
      var adr, successor := adrs[id], adrs[successorId];
      if adr.supersededBy.Some? { return Err("adr-already-superseded"); }
      if !AdrAllowed(adr.status, AdrSuperseded) { return Err("adr-transition"); }
      if !successor.status.AdrProposed? && !successor.status.AdrAccepted? { return Err("adr-successor"); }
      var updated := adr.(status := AdrSuperseded, supersededBy := Some(successorId), updatedAt := now);
      if successor.status.AdrProposed? {
        successor := successor.(status := AdrAccepted, updatedAt := now);
      }
      Commit([updated, successor], id, AdrSupersede(successorId), now);
      TwoRows(adrs, updated, successor);
      r := Ok(updated);
    }
  }

  /** A manager call either has its specified effect and returns the record, or raises before any write. */
  twostate predicate Answered(storage: Connection, outcome: Result<Db, string>, new r: Result<Adr, string>, id: string)
    reads storage
  {
    && Did(storage, outcome)
    && match outcome {
         case Ok(db) => id in db.adrs && r == Ok(db.adrs[id])
         case Err(error) => r == Err(error) && storage.working == old(storage.working)
       }
  }

  lemma OneRow(adrs: map<string, Adr>, row: Adr)
    ensures PutAll(adrs, [row]) == adrs[row.id := row]
  {
    assert [row][..0] == [];
  }

  lemma TwoRows(adrs: map<string, Adr>, first: Adr, second: Adr)
    ensures PutAll(adrs, [first, second]) == adrs[first.id := first][second.id := second]
  {
    assert [first, second][..1] == [first];
    OneRow(adrs, first);
  }
}
