/**
  The versioned baseline (application/architecture_versioning.py): one atomic roll-over with its
  accompanying decision records, and the chain the stored versions always form.
 */
module Versions {
  import opened Basics
  import opened Store
  import opened Transactions
  import opened Connections
  import opened Adrs

  /** A record the code side declares. */
  datatype AdrSpec = AdrSpec(id: string, text: AdrText)

  predicate VersionContentMatches(existing: Version, spec: Version) {
    existing.version == spec.version && existing.baseline == spec.baseline && existing.rules == spec.rules
  }

  predicate VersionMatches(existing: Version, spec: Version) {
    VersionContentMatches(existing, spec) && existing.supersededBy == spec.supersededBy && existing.isCurrent == spec.isCurrent
  }

  predicate AdrMatches(existing: Adr, spec: AdrSpec) {
    existing.status.AdrAccepted? && existing.text == spec.text
  }

  // -- what an introduction does to the store ------------------------------------------------

  /** The predecessor retires in favour of the new version. */
  function Retired(db: Db, name: string, spec: Version): Db
    requires name in db.versions
  {
    db.(versions := db.versions[name := db.versions[name].(isCurrent := false, supersededBy := Some(spec.version))][spec.version := spec])
  }

  /** Inserts the new version and retires exactly one predecessor. */
  function RolledOver(db: Db, spec: Version, supersedes: Option<string>): Result<Db, string> {
    if spec.version in db.versions then AlreadyPresent(db, spec, supersedes)
    else
      match supersedes
      case None =>
        if CurrentVersions(db.versions) != {} then Err("still-current")
        else Ok(db.(versions := db.versions[spec.version := spec]))
      case Some(name) =>
        if name !in db.versions then Err("predecessor-missing")
        else if db.versions[name].supersededBy.Some? then Err("already-superseded")
        else if !db.versions[name].isCurrent then Err("predecessor-not-current")
        else Ok(Retired(db, name, spec))
  }

  function AlreadyPresent(db: Db, spec: Version, supersedes: Option<string>): Result<Db, string>
    requires spec.version in db.versions
  {
    if !VersionMatches(db.versions[spec.version], spec) then Err("version-differs")
    else
      match supersedes
      case None => Ok(db)
      case Some(name) =>
        if name !in db.versions then Err("predecessor-missing")
        else if db.versions[name].supersededBy != Some(spec.version) || db.versions[name].isCurrent then Err("predecessor-differs")
        else Ok(db)
  }

  /** A missing record is proposed and accepted; a differing one is a conflict. */
  function AdrEnsured(db: Db, spec: AdrSpec, now: int): Result<Db, string> {
    if spec.id !in db.adrs then
      match ProposeAdr(db, spec.id, spec.text, now)
      case Err(e) => Err(e)
      case Ok(proposed) => AcceptAdr(proposed, spec.id, now)
    else if AdrMatches(db.adrs[spec.id], spec) then Ok(db)
    else Err("adr-differs")
  }

  function AdrsEnsured(db: Db, specs: seq<AdrSpec>, now: int): Result<Db, string> {
    if specs == [] then Ok(db)
    else
      match AdrsEnsured(db, specs[..|specs| - 1], now)
      case Err(e) => Err(e)
      case Ok(before) => AdrEnsured(before, specs[|specs| - 1], now)
  }

  /** The roll-over and its records, all or nothing. */
  function Introduced(adrSpecs: seq<AdrSpec>, db: Db, spec: Version, supersedes: Option<string>, now: int): Result<Db, string> {
    if !spec.isCurrent then Err("not-current")
    else if supersedes == Some(spec.version) then Err("supersedes-itself")
    else
      match RolledOver(db, spec, supersedes)
      case Err(e) => Err(e)
      case Ok(rolled) => AdrsEnsured(rolled, adrSpecs, now)
  }

  lemma EnsureSnoc(db: Db, specs: seq<AdrSpec>, i: nat, now: int)
    requires i < |specs| && AdrsEnsured(db, specs[..i], now).Ok?
    ensures AdrsEnsured(db, specs[..i + 1], now) == AdrEnsured(AdrsEnsured(db, specs[..i], now).value, specs[i], now)
  {
    assert specs[..i + 1][..i] == specs[..i];
  }

  /** A conflict at one record is the outcome of the whole list. */
  lemma {:induction false} ConflictStays(db: Db, specs: seq<AdrSpec>, i: nat, now: int)
    requires i <= |specs| && AdrsEnsured(db, specs[..i], now).Err?
    ensures AdrsEnsured(db, specs, now) == AdrsEnsured(db, specs[..i], now)
    decreases |specs| - i
  {
    if i == |specs| {
      assert specs[..i] == specs;
    } else {
      assert specs[..i + 1][..i] == specs[..i];
      ConflictStays(db, specs, i + 1, now);
    }
  }

  /** The outcome of a method that may raise, next to the outcome its specification gives. */
  predicate SameOutcome<T>(r: Result<T, string>, outcome: Result<Db, string>) {
    r.Ok? == outcome.Ok? && (r.Err? ==> r.error == outcome.error)
  }

  class ArchitectureVersioning {
    const storage: Connection
    const adrManager: ADRManager
    const adrSpecs: seq<AdrSpec>

    constructor (storage: Connection, adrManager: ADRManager, adrSpecs: seq<AdrSpec>)
      requires adrManager.storage == storage
      ensures this.storage == storage && this.adrManager == adrManager && this.adrSpecs == adrSpecs
    {
      this.storage, this.adrManager, this.adrSpecs := storage, adrManager, adrSpecs;
    }

    ghost predicate Valid()
      reads this, storage
    {
      storage.Valid() && adrManager.storage == storage
    }

    /** Makes spec the current baseline; any conflict rolls everything back. */
    method Introduce(spec: Version, supersedes: Option<string>, now: int) returns (r: Result<(), string>)
      requires Valid()
      modifies storage, storage.journal
      ensures Valid()
      ensures var outcome := Introduced(adrSpecs, old(storage.working), spec, supersedes, now);
              Did(storage, outcome) && SameOutcome(r, outcome)
    {
      hide ExecDb, RolledOver, AdrsEnsured, RowsKeyed;
      if !spec.isCurrent { return Err("not-current"); }
      if supersedes == Some(spec.version) { return Err("supersedes-itself"); }
      storage.Enter();
      var rolled := RollOver(spec, supersedes);
      if rolled.Err? {
        storage.Leave(true);
        return Err(rolled.error);
      }
      var ensured := EnsureAdrs(now);
      storage.Leave(ensured.Err?);
      r := ensured;
    }

    method RollOver(spec: Version, supersedes: Option<string>) returns (r: Result<(), string>)
      requires Valid() && storage.depth > 0
      modifies storage, storage.journal
      ensures Valid()
      ensures var outcome := RolledOver(old(storage.working), spec, supersedes);
              Did(storage, outcome) && SameOutcome(r, outcome)
    {
      var versions := storage.working.versions;
      if spec.version in versions {
        r := CheckPresent(spec, supersedes);
        return;
      }
      if supersedes.None? {
        if CurrentVersions(versions) != {} { return Err("still-current"); }
        storage.ExecuteWrite(PutVersion(spec));
        return Ok(());
      }
      if supersedes.value !in versions { return Err("predecessor-missing"); }
      var predecessor := versions[supersedes.value];
      if predecessor.supersededBy.Some? { return Err("already-superseded"); }
      if !predecessor.isCurrent { return Err("predecessor-not-current"); }
      storage.ExecuteWrite(PutVersion(predecessor.(isCurrent := false, supersededBy := Some(spec.version))));
      storage.ExecuteWrite(PutVersion(spec));
      r := Ok(());
    }

    /** Reads only: is the stored version the declared one, in its declared place? */
    method CheckPresent(spec: Version, supersedes: Option<string>) returns (r: Result<(), string>)
      requires storage.Valid() && spec.version in storage.working.versions
      ensures SameOutcome(r, AlreadyPresent(storage.working, spec, supersedes))
      ensures AlreadyPresent(storage.working, spec, supersedes).Ok? ==> AlreadyPresent(storage.working, spec, supersedes).value == storage.working
    {
      var versions := storage.working.versions;
      if !VersionMatches(versions[spec.version], spec) { return Err("version-differs"); }
      if supersedes.None? { return Ok(()); }
      if supersedes.value !in versions { return Err("predecessor-missing"); }
      var predecessor := versions[supersedes.value];
      if predecessor.supersededBy != Some(spec.version) || predecessor.isCurrent { return Err("predecessor-differs"); }
      r := Ok(());
    }

    method EnsureAdrs(now: int) returns (r: Result<(), string>)
      requires Valid() && storage.depth > 0
      modifies storage, storage.journal
      ensures Valid()
      ensures var outcome := AdrsEnsured(old(storage.working), adrSpecs, now);
              Did(storage, outcome) && SameOutcome(r, outcome)
    {
      r := EnsureRecords(adrManager, adrSpecs, now);
    }
  }

  /** One record after the other, inside the scope of the caller, until one conflicts. */
  method EnsureRecords(manager: ADRManager, specs: seq<AdrSpec>, now: int) returns (r: Result<(), string>)
    requires manager.storage.Valid() && manager.storage.depth > 0
    modifies manager.storage, manager.storage.journal
    ensures var outcome := AdrsEnsured(old(manager.storage.working), specs, now);
            Did(manager.storage, outcome) && SameOutcome(r, outcome)
  {
    hide AdrEnsured, RowsKeyed, ExecDb;
    var storage := manager.storage;
    ghost var start := storage.working;
    for i := 0 to |specs|
      invariant storage.Valid() && storage.depth == old(storage.depth)
      invariant storage.committed == old(storage.committed) && storage.history == old(storage.history)
      invariant AdrsEnsured(start, specs[..i], now) == Ok(storage.working)
    {
      EnsureSnoc(start, specs, i, now);
      var ensured := EnsureRecord(manager, specs[i], now);
      if ensured.Err? {
        ConflictStays(start, specs, i + 1, now);
        return Err(ensured.error);
      }
    }
    assert specs[..|specs|] == specs;
    r := Ok(());
  }

  method EnsureRecord(manager: ADRManager, spec: AdrSpec, now: int) returns (r: Result<(), string>)
    requires manager.storage.Valid() && manager.storage.depth > 0
    modifies manager.storage, manager.storage.journal
    ensures var outcome := AdrEnsured(old(manager.storage.working), spec, now);
            Did(manager.storage, outcome) && SameOutcome(r, outcome)
  {
    var adrs := manager.storage.working.adrs;
    if spec.id !in adrs {
      var proposed := manager.Propose(spec.id, spec.text, now);
      if proposed.Err? { return Err(proposed.error); }
      var accepted := manager.Accept(spec.id, now);
      return if accepted.Ok? then Ok(()) else Err(accepted.error);
    }
    return if AdrMatches(adrs[spec.id], spec) then Ok(()) else Err("adr-differs");
  }
}
