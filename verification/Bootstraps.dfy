/**
  Start-up: reconciling the canonical specification with the store
  (application/architecture_bootstrap.py) and replaying the declared changes (composition/evolution.py).
 */
module Bootstraps {
  import opened Basics
  import opened Store
  import opened Transactions
  import opened Connections
  import opened Realization
  import opened Adrs
  import opened Versions
  import opened Requests

  /** The canonical specification: a project, a first baseline, its records and its risks. */
  datatype Boot = Boot(project: Project, version: string, baseline: string, rules: seq<string>, adrs: seq<AdrSpec>, risks: seq<RiskSpec>)

  function FirstVersion(boot: Boot, now: int): Version {
    Version(boot.version, boot.baseline, boot.rules, None, true, now)
  }

  /** The factory stamps the project it builds. */
  function NewProject(boot: Boot, now: int): Project {
    boot.project.(updatedAt := now)
  }

  /** Created only when absent; the runtime state of a live project is never touched. */
  ghost function ProjectReconciled(db: Db, spec: Project): Result<Db, string> {
    if db.projects == map[] then Ok(db.(projects := map[spec.name := spec]))
    else if SingleProject(db).None? then Err("several-projects")
    else if SingleProject(db).value.name != spec.name then Err("other-project")
    else Ok(db)
  }

  /** The baseline's content is reconciled; its place in the history is never rewritten. */
  function VersionReconciled(db: Db, spec: Version): Result<Db, string> {
    if spec.version !in db.versions then
      if CurrentVersions(db.versions) != {} then Err("other-current")
      else Ok(db.(versions := db.versions[spec.version := spec]))
    else
      var existing := db.versions[spec.version];
      if !VersionContentMatches(existing, spec) then Err("version-differs")
      else if existing.isCurrent then
        if CurrentVersions(db.versions) - {spec.version} != {} then Err("two-current") else Ok(db)
      else if existing.supersededBy.None? || existing.supersededBy.value !in db.versions
              || !db.versions[existing.supersededBy.value].isCurrent then Err("successor-not-current")
      else Ok(db)
  }

  /** Everything created or already present, or nothing at all. */
  ghost function Seeded(boot: Boot, db: Db, now: int): Result<Db, string> {
    match ProjectReconciled(db, NewProject(boot, now))
    case Err(e) => Err(e)
    case Ok(projected) =>
      match VersionReconciled(projected, FirstVersion(boot, now))
      case Err(e) => Err(e)
      case Ok(versioned) =>
        match AdrsEnsured(versioned, boot.adrs, now)
        case Err(e) => Err(e)
        case Ok(recorded) => RisksRegistered(recorded, boot.risks, now)
  }

  class ArchitectureBootstrap {
    const storage: Connection
    const boot: Boot
    const adrManager: ADRManager

    constructor (storage: Connection, boot: Boot, adrManager: ADRManager)
      requires adrManager.storage == storage
      ensures this.storage == storage && this.boot == boot && this.adrManager == adrManager
    {
      this.storage, this.boot, this.adrManager := storage, boot, adrManager;
    }

    ghost predicate Valid()
      reads this, storage
    {
      storage.Valid() && adrManager.storage == storage
    }

    method Seed(now: int) returns (r: Result<(), string>)
      requires Valid() && storage.depth == 0
      modifies storage, storage.journal
      ensures Valid()
      ensures var outcome := Seeded(boot, old(storage.working), now);
              Did(storage, outcome) && SameOutcome(r, outcome)
    {
      hide ExecDb, RowsKeyed, ProjectReconciled, VersionReconciled, AdrsEnsured, RisksRegistered;
      storage.Enter();
      r := ReconcileProject(NewProject(boot, now));
      if r.Ok? {
        r := ReconcileVersion(FirstVersion(boot, now));
      }
      if r.Ok? {
        r := EnsureRecords(adrManager, boot.adrs, now);
      }
      if r.Ok? {
        r := EnsureRisks(storage, boot.risks, now);
      }
      storage.Leave(r.Err?);
    }

    method ReconcileProject(spec: Project) returns (r: Result<(), string>)
      requires Valid() && storage.depth > 0
      modifies storage, storage.journal
      ensures Valid()
      ensures var outcome := ProjectReconciled(old(storage.working), spec);
              Did(storage, outcome) && SameOutcome(r, outcome)
    {
      var projects := storage.working.projects;
      if projects == map[] {
        storage.ExecuteWrite(PutProject(spec));
        assert projects[spec.name := spec] == map[spec.name := spec];
        return Ok(());
      }
      if |projects.Keys| != 1 { return Err("several-projects"); }
      var name :| name in projects.Keys;
      OneElement(projects.Keys, name);
      r := if projects[name].name != spec.name then Err("other-project") else Ok(());
    }

    method ReconcileVersion(spec: Version) returns (r: Result<(), string>)
      requires Valid() && storage.depth > 0
      modifies storage, storage.journal
      ensures Valid()
      ensures var outcome := VersionReconciled(old(storage.working), spec);
              Did(storage, outcome) && SameOutcome(r, outcome)
    {
      var versions := storage.working.versions;
      if spec.version !in versions {
        if CurrentVersions(versions) != {} { return Err("other-current"); }
        storage.ExecuteWrite(PutVersion(spec));
        return Ok(());
      }
      var existing := versions[spec.version];
      if !VersionContentMatches(existing, spec) { return Err("version-differs"); }
      if existing.isCurrent {
        return if CurrentVersions(versions) - {spec.version} != {} then Err("two-current") else Ok(());
      }
      if existing.supersededBy.None? || existing.supersededBy.value !in versions || !versions[existing.supersededBy.value].isCurrent {
        return Err("successor-not-current");
      }
      r := Ok(());
    }
  }

  /** A declared change and who approved it. */
  datatype Declared = Declared(request: Request, adr: AdrSpec, approver: string)

  /** The catalogue is built, and stamped, anew by every process. */
  function NewRequest(change: Declared, now: int): Request {
    change.request.(createdAt := now)
  }

  /** The four transactions of a start-up with one declared change. */
  ghost function StartStep(cat: Catalogue, boot: Boot, change: Declared, k: nat, db: Db, now: int): Result<Db, string>
    requires k < 4
  {
    match k
    case 0 => Seeded(boot, db, now)
    case 1 => ProposeRequest(db, NewRequest(change, now), change.adr, now)
    case 2 => ApproveRequest(db, change.request.requestId, change.approver, now)
    case _ => ApplyRequest(cat, db, change.request.requestId, now)
  }

  /** The first k of them; a raising step leaves what was committed before it. */
  ghost function StartPrefix(cat: Catalogue, boot: Boot, change: Declared, k: nat, db: Db, now: int): (Db, bool)
    requires k <= 4
  {
    if k == 0 then (db, true)
    else
      var (before, fine) := StartPrefix(cat, boot, change, k - 1, db, now);
      if !fine then (before, false)
      else
        match StartStep(cat, boot, change, k - 1, before, now)
        case Err(_) => (before, false)
        case Ok(after) => (after, true)
  }

  /** A whole start-up: seed, then the declared change. */
  method Start(bootstrap: ArchitectureBootstrap, evolution: ArchitectureEvolution, change: Declared, now: int) returns (r: Result<(), string>)
    requires bootstrap.Valid() && evolution.Valid() && bootstrap.storage == evolution.storage && bootstrap.storage.depth == 0
    modifies bootstrap.storage, bootstrap.storage.journal
    ensures bootstrap.Valid() && evolution.Valid()
    ensures (bootstrap.storage.committed, r.Ok?) ==
            StartPrefix(evolution.cat, bootstrap.boot, change, 4, old(bootstrap.storage.committed), now)
  {
    hide Seeded, ProposeRequest, ApproveRequest, ApplyRequest, RowsKeyed;
    var storage := bootstrap.storage;
    ghost var cat, boot, db := evolution.cat, bootstrap.boot, storage.committed;
    r := bootstrap.Seed(now);
    assert StartPrefix(cat, boot, change, 1, db, now) == (storage.committed, r.Ok?);
    if r.Ok? { r := evolution.Propose(NewRequest(change, now), change.adr, now); }
    assert StartPrefix(cat, boot, change, 2, db, now) == (storage.committed, r.Ok?);
    if r.Ok? { r := evolution.Approve(change.request.requestId, change.approver, now); }
    assert StartPrefix(cat, boot, change, 3, db, now) == (storage.committed, r.Ok?);
    if r.Ok? { r := evolution.Apply(change.request.requestId, now); }
  }
}
