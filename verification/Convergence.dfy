/**
  An interrupted start-up converges: crashed between any of its transactions and rerun any number of
  times, it reaches the state of the uninterrupted one, up to timestamps.
 */
module Convergence {
  import opened Basics
  import opened Store
  import opened Connections
  import opened Realization
  import opened Adrs
  import opened Versions
  import opened Requests
  import opened Bootstraps
  import opened EvolutionRuns
  import opened StartUp

  // -- forgetting the clock ----------------------------------------------------------------

  function NoTime(t: Option<int>): Option<int> {
    if t.Some? then Some(0) else None
  }

  function TimelessProject(p: Project): Project {
    p.(updatedAt := 0)
  }

  function TimelessVersion(v: Version): Version {
    v.(createdAt := 0)
  }

  function TimelessRequest(r: Request): Request {
    r.(createdAt := 0, approvedAt := NoTime(r.approvedAt), appliedAt := NoTime(r.appliedAt))
  }

  function TimelessAdr(a: Adr): Adr {
    a.(createdAt := 0, updatedAt := 0)
  }

  function TimelessRisk(r: Risk): Risk {
    r.(createdAt := 0)
  }

  function TimelessEntry(e: Entry): Entry {
    e.(at := 0)
  }

  function TimelessTrail(audit: seq<Entry>): seq<Entry> {
    seq(|audit|, i requires 0 <= i < |audit| => TimelessEntry(audit[i]))
  }

  function TimelessAdrs(adrs: map<string, Adr>): map<string, Adr> {
    map k <- adrs :: TimelessAdr(adrs[k])
  }

  function TimelessVersions(versions: map<string, Version>): map<string, Version> {
    map k <- versions :: TimelessVersion(versions[k])
  }

  function TimelessRequests(requests: map<string, Request>): map<string, Request> {
    map k <- requests :: TimelessRequest(requests[k])
  }

  function TimelessRisks(risks: map<string, Risk>): map<string, Risk> {
    map k <- risks :: TimelessRisk(risks[k])
  }

  function TimelessProjects(projects: map<string, Project>): map<string, Project> {
    map k <- projects :: TimelessProject(projects[k])
  }

  /** The store without the clock readings of start-up and evolution. */
  function Timeless(db: Db): Db {
    db.(projects := TimelessProjects(db.projects), versions := TimelessVersions(db.versions),
        requests := TimelessRequests(db.requests), adrs := TimelessAdrs(db.adrs), risks := TimelessRisks(db.risks),
        audit := TimelessTrail(db.audit))
  }

  function TimelessOutcome(r: Result<Db, string>): Result<Db, string> {
    match r
    case Err(e) => Err(e)
    case Ok(db) => Ok(Timeless(db))
  }

  // -- the operations do not look at the clock -------------------------------------------------

  lemma TrailSnoc(audit: seq<Entry>, e: Entry)
    ensures TimelessTrail(audit + [e]) == TimelessTrail(audit) + [TimelessEntry(e)]
  {
  }

  lemma AdrsSnoc(adrs: map<string, Adr>, row: Adr)
    ensures TimelessAdrs(adrs[row.id := row]) == TimelessAdrs(adrs)[row.id := TimelessAdr(row)]
  {
  }

  lemma FiledTimeless(db: Db, row: Adr, id: string, action: AdrAction, now: int)
    ensures Timeless(Filed(db, [row], id, action, now)) == Filed(Timeless(db), [TimelessAdr(row)], id, action, 0)
  {
    hide PutAll;
    OneRow(db.adrs, row);
    OneRow(Timeless(db).adrs, TimelessAdr(row));
    AdrsSnoc(db.adrs, row);
    TrailSnoc(db.audit, AdrEntry(id, action, now));
  }

  lemma ProposeAdrTimeless(db: Db, id: string, text: AdrText, now: int)
    ensures TimelessOutcome(ProposeAdr(db, id, text, now)) == ProposeAdr(Timeless(db), id, text, 0)
  {
    hide Filed, Blank;
    FiledTimeless(db, Adr(id, text, AdrProposed, 1, None, now, now), id, AdrCreate, now);
  }

  lemma MoveAdrTimeless(db: Db, id: string, target: AdrStatus, action: AdrAction, now: int)
    ensures TimelessOutcome(MoveAdr(db, id, target, action, now)) == MoveAdr(Timeless(db), id, target, action, 0)
  {
    hide Filed;
    if id in db.adrs {
      FiledTimeless(db, db.adrs[id].(status := target, updatedAt := now), id, action, now);
    }
  }

  lemma AdrEnsuredTimeless(db: Db, spec: AdrSpec, now: int)
    ensures TimelessOutcome(AdrEnsured(db, spec, now)) == AdrEnsured(Timeless(db), spec, 0)
  {
    hide ProposeAdr, MoveAdr;
    ProposeAdrTimeless(db, spec.id, spec.text, now);
    if spec.id !in db.adrs && ProposeAdr(db, spec.id, spec.text, now).Ok? {
      MoveAdrTimeless(ProposeAdr(db, spec.id, spec.text, now).value, spec.id, AdrAccepted, AdrAccept, now);
    }
  }

  lemma {:induction false} AdrsEnsuredTimeless(db: Db, specs: seq<AdrSpec>, now: int)
    ensures TimelessOutcome(AdrsEnsured(db, specs, now)) == AdrsEnsured(Timeless(db), specs, 0)
    decreases |specs|
  {
    hide AdrEnsured, Timeless;
    if specs != [] {
      var init := specs[..|specs| - 1];
      AdrsEnsuredTimeless(db, init, now);
      if AdrsEnsured(db, init, now).Ok? {
        AdrEnsuredTimeless(AdrsEnsured(db, init, now).value, specs[|specs| - 1], now);
      }
    }
  }

  lemma RisksSnocTimeless(risks: map<string, Risk>, row: Risk)
    ensures TimelessRisks(risks[row.id := row]) == TimelessRisks(risks)[row.id := TimelessRisk(row)]
  {
  }

  lemma RiskRegisteredTimeless(db: Db, spec: RiskSpec, now: int)
    ensures TimelessOutcome(RiskRegistered(db, spec, now)) == RiskRegistered(Timeless(db), spec, 0)
  {
    hide Blank;
    RisksSnocTimeless(db.risks, Risk(spec.id, spec.text, true, now));
    TrailSnoc(db.audit, RiskEntry(spec.id, now));
  }

  lemma {:induction false} RisksRegisteredTimeless(db: Db, specs: seq<RiskSpec>, now: int)
    ensures TimelessOutcome(RisksRegistered(db, specs, now)) == RisksRegistered(Timeless(db), specs, 0)
    decreases |specs|
  {
    hide RiskRegistered, Timeless;
    if specs != [] {
      var init := specs[..|specs| - 1];
      RisksRegisteredTimeless(db, init, now);
      if RisksRegistered(db, init, now).Ok? {
        RiskRegisteredTimeless(RisksRegistered(db, init, now).value, specs[|specs| - 1], now);
      }
    }
  }

  lemma VersionsSnoc(versions: map<string, Version>, k: string, row: Version)
    ensures TimelessVersions(versions[k := row]) == TimelessVersions(versions)[k := TimelessVersion(row)]
    ensures CurrentVersions(TimelessVersions(versions)) == CurrentVersions(versions)
  {
  }

  lemma RetiredTimeless(db: Db, name: string, spec: Version)
    requires name in db.versions
    ensures Timeless(Retired(db, name, spec)) == Retired(Timeless(db), name, TimelessVersion(spec))
  {
    hide CurrentVersions;
    var retired := db.versions[name].(isCurrent := false, supersededBy := Some(spec.version));
    VersionsSnoc(db.versions, name, retired);
    VersionsSnoc(db.versions[name := retired], spec.version, spec);
  }

  lemma PresentTimeless(db: Db, spec: Version, supersedes: Option<string>)
    requires spec.version in db.versions
    ensures TimelessOutcome(AlreadyPresent(db, spec, supersedes)) == AlreadyPresent(Timeless(db), TimelessVersion(spec), supersedes)
  {
  }

  lemma RolledOverTimeless(db: Db, spec: Version, supersedes: Option<string>)
    ensures TimelessOutcome(RolledOver(db, spec, supersedes)) == RolledOver(Timeless(db), TimelessVersion(spec), supersedes)
  {
    hide CurrentVersions, Retired, AlreadyPresent;
    VersionsSnoc(db.versions, spec.version, spec);
    if spec.version in db.versions {
      PresentTimeless(db, spec, supersedes);
    } else if supersedes.Some? && supersedes.value in db.versions {
      RetiredTimeless(db, supersedes.value, spec);
    }
  }

  lemma IntroducedTimeless(adrSpecs: seq<AdrSpec>, db: Db, spec: Version, supersedes: Option<string>, now: int)
    ensures TimelessOutcome(Introduced(adrSpecs, db, spec, supersedes, now)) ==
            Introduced(adrSpecs, Timeless(db), TimelessVersion(spec), supersedes, 0)
  {
    hide RolledOver, AdrsEnsured, Timeless;
    RolledOverTimeless(db, spec, supersedes);
    if RolledOver(db, spec, supersedes).Ok? {
      AdrsEnsuredTimeless(RolledOver(db, spec, supersedes).value, adrSpecs, now);
    }
  }

  // -- requests ------------------------------------------------------------------------------------

  lemma RequestsSnoc(requests: map<string, Request>, row: Request)
    ensures TimelessRequests(requests[row.requestId := row]) == TimelessRequests(requests)[row.requestId := TimelessRequest(row)]
  {
  }

  lemma WithRequestTimeless(db: Db, request: Request, now: int)
    ensures Timeless(WithRequest(db, request, now)) == WithRequest(Timeless(db), TimelessRequest(request), 0)
    ensures Timeless(PutRequestRow(db, request)) == PutRequestRow(Timeless(db), TimelessRequest(request))
  {
    RequestsSnoc(db.requests, request);
    TrailSnoc(db.audit, RequestEntry(request.requestId, request.status, now));
  }

  lemma RecordedTimeless(outcome: Result<Db, string>, request: Request, now: int)
    ensures TimelessOutcome(Recorded(outcome, request, now)) ==
            Recorded(TimelessOutcome(outcome), TimelessRequest(request), 0)
  {
    if outcome.Ok? { TrailSnoc(outcome.value.audit, RequestEntry(request.requestId, request.status, now)); }
  }

  lemma LinkedTimeless(db: Db, id: string, spec: AdrSpec, now: int)
    ensures LinkedAdrVerified(Timeless(db), id, spec) == LinkedAdrVerified(db, id, spec)
    ensures TimelessOutcome(AdrProposedFor(db, spec, now)) == AdrProposedFor(Timeless(db), spec, 0)
    ensures TimelessOutcome(LinkedAdrAccepted(db, id, now)) == LinkedAdrAccepted(Timeless(db), id, 0)
  {
    hide ProposeAdr, MoveAdr;
    ProposeAdrTimeless(db, spec.id, spec.text, now);
    MoveAdrTimeless(db, id, AdrAccepted, AdrAccept, now);
  }

  lemma ProposeTimeless(db: Db, request: Request, adr: AdrSpec, now: int)
    ensures TimelessOutcome(ProposeRequest(db, request, adr, now)) == ProposeRequest(Timeless(db), TimelessRequest(request), adr, 0)
  {
    hide AdrProposedFor, LinkedAdrVerified, WithRequest;
    WithRequestTimeless(db, request, now);
    LinkedTimeless(WithRequest(db, request, now), adr.id, adr, now);
    LinkedTimeless(db, adr.id, adr, now);
  }

  lemma ApprovedTimeless(db: Db, request: Request, approver: string, now: int)
    ensures var approved := ApprovedRequest(request, approver, now);
            TimelessOutcome(Recorded(LinkedAdrAccepted(PutRequestRow(db, approved), request.adrId, now), approved, now)) ==
            Recorded(LinkedAdrAccepted(PutRequestRow(Timeless(db), ApprovedRequest(TimelessRequest(request), approver, 0)), request.adrId, 0),
                     ApprovedRequest(TimelessRequest(request), approver, 0), 0)
  {
    hide LinkedAdrAccepted, Recorded, PutRequestRow, Timeless;
    var approved := ApprovedRequest(request, approver, now);
    WithRequestTimeless(db, approved, now);
    LinkedTimeless(PutRequestRow(db, approved), request.adrId, AdrSpec("", AdrText("", "", "", [], [])), now);
    RecordedTimeless(LinkedAdrAccepted(PutRequestRow(db, approved), request.adrId, now), approved, now);
  }

  lemma ApproveTimeless(db: Db, id: string, approver: string, now: int)
    ensures TimelessOutcome(ApproveRequest(db, id, approver, now)) == ApproveRequest(Timeless(db), id, approver, 0)
  {
    hide LinkedAdrAccepted, Recorded, PutRequestRow, Blank;
    if id in db.requests {
      assert Timeless(db).requests[id] == TimelessRequest(db.requests[id]);
      ApprovedTimeless(db, db.requests[id], approver, now);
    }
  }

  // -- applying ---------------------------------------------------------------------------------------

  lemma RefusedTimeless(cat: Catalogue, db: Db, id: string)
    ensures ApplyRefused(cat, Timeless(db), id) == ApplyRefused(cat, db, id)
  {
    hide Blank;
  }

  lemma SameCurrent(db: Db)
    ensures CurrentVersions(Timeless(db).versions) == CurrentVersions(db.versions)
  {
  }

  lemma ApplyApprovedTimeless(cat: Catalogue, db: Db, request: Request, spec: Version, now: int)
    ensures TimelessOutcome(ApplyApproved(cat, db, request, spec, now)) ==
            ApplyApproved(cat, Timeless(db), TimelessRequest(request), TimelessVersion(spec), 0)
  {
    hide Introduced, RisksRegistered, WithRequest, CurrentVersions, Timeless;
    SameCurrent(db);
    IntroducedTimeless(cat.adrSpecs, db, spec, Some(request.sourceVersion), now);
    if Introduced(cat.adrSpecs, db, spec, Some(request.sourceVersion), now).Ok? {
      var introduced := Introduced(cat.adrSpecs, db, spec, Some(request.sourceVersion), now).value;
      RisksRegisteredTimeless(introduced, DeclaredRisks(cat, request.requestId), now);
      if RisksRegistered(introduced, DeclaredRisks(cat, request.requestId), now).Ok? {
        var registered := RisksRegistered(introduced, DeclaredRisks(cat, request.requestId), now).value;
        WithRequestTimeless(registered, AppliedRequest(request, now), now);
        SameCurrent(WithRequest(registered, AppliedRequest(request, now), now));
      }
    }
  }

  lemma VerifyTimeless(cat: Catalogue, db: Db, request: Request, spec: Version, now: int)
    ensures TimelessOutcome(VerifyApplied(cat, db, request, spec, now)) ==
            VerifyApplied(cat, Timeless(db), TimelessRequest(request), TimelessVersion(spec), 0)
  {
    hide Introduced, CurrentVersions;
    SameCurrent(db);
    IntroducedTimeless(cat.adrSpecs, db, spec, Some(request.sourceVersion), now);
  }

  lemma ApplyTimeless(cat: Catalogue, db: Db, id: string, now: int)
    ensures TimelessOutcome(ApplyRequest(cat, db, id, now)) == ApplyRequest(cat, Timeless(db), id, 0)
  {
    hide ApplyRefused, ApplyApproved, VerifyApplied;
    RefusedTimeless(cat, db, id);
    if ApplyRefused(cat, db, id).None? {
      NotRefused(cat, db, id);
      var request := db.requests[id];
      ApplyApprovedTimeless(cat, db, request, TargetSpec(cat, request, now), now);
      VerifyTimeless(cat, db, request, TargetSpec(cat, request, now), now);
    }
  }

  lemma NotRefused(cat: Catalogue, db: Db, id: string)
    requires ApplyRefused(cat, db, id).None?
    ensures id in db.requests && db.requests[id].targetVersion in cat.canonical
    ensures id in Timeless(db).requests && Timeless(db).requests[id] == TimelessRequest(db.requests[id])
  {
    hide Blank;
  }

  // -- seeding ---------------------------------------------------------------------------------------

  lemma ProjectTimeless(db: Db, spec: Project)
    ensures TimelessOutcome(ProjectReconciled(db, spec)) == ProjectReconciled(Timeless(db), TimelessProject(spec))
  {
    var projects := TimelessProjects(db.projects);
    assert projects.Keys == db.projects.Keys;
    assert db.projects == map[] <==> db.projects.Keys == {};
    assert projects == map[] <==> projects.Keys == {};
    assert TimelessProjects(map[spec.name := spec]) == map[spec.name := TimelessProject(spec)];
    if SingleProject(db).Some? {
      var name :| db.projects.Keys == {name};
      assert projects.Keys == {name} && name in {name};
    }
  }

  lemma VersionTimeless(db: Db, spec: Version)
    ensures TimelessOutcome(VersionReconciled(db, spec)) == VersionReconciled(Timeless(db), TimelessVersion(spec))
  {
    hide CurrentVersions;
    VersionsSnoc(db.versions, spec.version, spec);
    if spec.version in db.versions {
      var existing := db.versions[spec.version];
      assert Timeless(db).versions[spec.version] == TimelessVersion(existing);
      if existing.supersededBy.Some? && existing.supersededBy.value in db.versions {
        assert Timeless(db).versions[existing.supersededBy.value] == TimelessVersion(db.versions[existing.supersededBy.value]);
      }
    }
  }

  lemma SeededTimeless(boot: Boot, db: Db, now: int)
    ensures TimelessOutcome(Seeded(boot, db, now)) == Seeded(boot, Timeless(db), 0)
  {
    hide ProjectReconciled, VersionReconciled, AdrsEnsured, RisksRegistered, Timeless;
    ProjectTimeless(db, NewProject(boot, now));
    if ProjectReconciled(db, NewProject(boot, now)).Ok? {
      var projected := ProjectReconciled(db, NewProject(boot, now)).value;
      VersionTimeless(projected, FirstVersion(boot, now));
      if VersionReconciled(projected, FirstVersion(boot, now)).Ok? {
        var versioned := VersionReconciled(projected, FirstVersion(boot, now)).value;
        AdrsEnsuredTimeless(versioned, boot.adrs, now);
        if AdrsEnsured(versioned, boot.adrs, now).Ok? {
          RisksRegisteredTimeless(AdrsEnsured(versioned, boot.adrs, now).value, boot.risks, now);
        }
      }
    }
  }

  // -- the start-up --------------------------------------------------------------------------------------

  /** A declared change whose request carries no approval of its own. */
  predicate Fresh(change: Declared) {
    change.request.approvedAt.None? && change.request.appliedAt.None?
  }

  lemma StepTimeless(cat: Catalogue, boot: Boot, change: Declared, k: nat, db: Db, now: int)
    requires k < 4 && Fresh(change)
    ensures TimelessOutcome(StartStep(cat, boot, change, k, db, now)) == StartStep(cat, boot, change, k, Timeless(db), 0)
  {
    hide Seeded, ProposeRequest, ApproveRequest, ApplyRequest, Timeless;
    match k
    case 0 => SeededTimeless(boot, db, now);
    case 1 => ProposeTimeless(db, NewRequest(change, now), change.adr, now);
    case 2 => ApproveTimeless(db, change.request.requestId, change.approver, now);
    case _ => ApplyTimeless(cat, db, change.request.requestId, now);
  }

  /** One process: it gets through the first k transactions before it dies, or raises earlier. */
  datatype Attempt = Attempt(k: nat, now: int)

  ghost function Attempts(cat: Catalogue, boot: Boot, change: Declared, db: Db, attempts: seq<Attempt>): Db
    requires forall i :: 0 <= i < |attempts| ==> attempts[i].k <= 4
  {
    if attempts == [] then db
    else
      var before := Attempts(cat, boot, change, db, attempts[..|attempts| - 1]);
      StartPrefix(cat, boot, change, attempts[|attempts| - 1].k, before, attempts[|attempts| - 1].now).0
  }

  /** The store after the first j transactions of the uninterrupted start-up, with no clock. */
  ghost function Milestone(cat: Catalogue, boot: Boot, change: Declared, db: Db, j: nat): Db
    requires j <= 4
  {
    StartPrefix(cat, boot, change, j, Timeless(db), 0).0
  }

  ghost predicate Uninterrupted(cat: Catalogue, boot: Boot, change: Declared, db: Db) {
    StartPrefix(cat, boot, change, 4, Timeless(db), 0).1
  }

  lemma {:induction false} PrefixFine(cat: Catalogue, boot: Boot, change: Declared, db: Db, now: int, j: nat, k: nat)
    requires j <= k <= 4 && StartPrefix(cat, boot, change, k, db, now).1
    ensures StartPrefix(cat, boot, change, j, db, now).1
    decreases k
  {
    hide StartStep;
    if j < k { PrefixFine(cat, boot, change, db, now, j, k - 1); }
  }

  /** The state of an interrupted start-up: the first j transactions are done, and that is the j-th milestone. */
  ghost predicate Reached(cat: Catalogue, boot: Boot, change: Declared, start: Db, db: Db, j: nat) {
    j <= 4 && EvoInv(db, false) && DoneBelow(cat, boot, change, j, db) && Timeless(db) == Milestone(cat, boot, change, start, j)
  }

  /** One more transaction reaches the next milestone. */
  lemma NextMilestone(cat: Catalogue, boot: Boot, change: Declared, start: Db, db: Db, j: nat, now: int)
    requires j < 4 && Reached(cat, boot, change, start, db, j)
    requires Fresh(change) && Declares(boot, change) && Uninterrupted(cat, boot, change, start)
    ensures StartStep(cat, boot, change, j, db, now).Ok?
    ensures Reached(cat, boot, change, start, StartStep(cat, boot, change, j, db, now).value, j + 1)
  {
    hide StartStep, EvoInv, DoneBelow, Timeless, Fresh, Declares;
    PrefixFine(cat, boot, change, Timeless(start), 0, j + 1, 4);
    StepTimeless(cat, boot, change, j, db, now);
    StepAdvances(cat, boot, change, j, db, now);
  }

  /** A process that starts at milestone j and gets through k transactions ends at the larger of the two. */
  lemma {:induction false} AttemptReaches(cat: Catalogue, boot: Boot, change: Declared, start: Db, db: Db, j: nat, k: nat, now: int)
    requires Reached(cat, boot, change, start, db, j) && k <= 4
    requires Fresh(change) && Declares(boot, change) && Uninterrupted(cat, boot, change, start)
    ensures var (db', fine) := StartPrefix(cat, boot, change, k, db, now);
            fine && Reached(cat, boot, change, start, db', if k > j then k else j)
    decreases k
  {
    hide StartStep, EvoInv, DoneBelow, Timeless, Fresh, Declares, Uninterrupted, Milestone;
    if k > j {
      AttemptReaches(cat, boot, change, start, db, j, k - 1, now);
      NextMilestone(cat, boot, change, start, StartPrefix(cat, boot, change, k - 1, db, now).0, k - 1, now);
    } else {
      DoneOnly(cat, boot, change, j, k, db);
      DonePrefix(cat, boot, change, k, db, now);
    }
  }

  lemma DoneOnly(cat: Catalogue, boot: Boot, change: Declared, j: nat, k: nat, db: Db)
    requires DoneBelow(cat, boot, change, j, db) && k <= j
    ensures DoneBelow(cat, boot, change, k, db)
  {
  }

  lemma {:induction false} AttemptsReach(cat: Catalogue, boot: Boot, change: Declared, start: Db, attempts: seq<Attempt>) returns (j: nat)
    requires EvoInv(start, false) && Fresh(change) && Declares(boot, change) && Uninterrupted(cat, boot, change, start)
    requires forall i :: 0 <= i < |attempts| ==> attempts[i].k <= 4
    ensures Reached(cat, boot, change, start, Attempts(cat, boot, change, start, attempts), j)
    decreases |attempts|
  {
    hide StartStep, EvoInv, Timeless, Fresh, Declares, Uninterrupted;
    if attempts == [] {
      j := 0;
    } else {
      var init, last := attempts[..|attempts| - 1], attempts[|attempts| - 1];
      var i := AttemptsReach(cat, boot, change, start, init);
      AttemptReaches(cat, boot, change, start, Attempts(cat, boot, change, start, init), i, last.k, last.now);
      j := if last.k > i then last.k else i;
    }
  }

  /**
    Convergence. Whenever the uninterrupted start-up would succeed, any number of start-ups, each
    crashing between any two of its transactions, followed by one that runs to its end, succeeds too
    and leaves the same store up to timestamps.
   */
  lemma StartUpConverges(cat: Catalogue, boot: Boot, change: Declared, start: Db, attempts: seq<Attempt>, now: int)
    requires EvoInv(start, false) && Fresh(change) && Declares(boot, change) && Uninterrupted(cat, boot, change, start)
    requires forall i :: 0 <= i < |attempts| ==> attempts[i].k <= 4
    ensures var (db, fine) := StartPrefix(cat, boot, change, 4, Attempts(cat, boot, change, start, attempts), now);
            fine && Timeless(db) == Milestone(cat, boot, change, start, 4)
  {
    hide StartStep, EvoInv, Timeless, Fresh, Declares, Uninterrupted, Milestone, Attempts;
    var j := AttemptsReach(cat, boot, change, start, attempts);
    AttemptReaches(cat, boot, change, start, Attempts(cat, boot, change, start, attempts), j, 4, now);
  }

  /** The uninterrupted start-up itself, at any time, reaches that same store. */
  lemma UninterruptedReaches(cat: Catalogue, boot: Boot, change: Declared, start: Db, now: int)
    requires EvoInv(start, false) && Fresh(change) && Declares(boot, change) && Uninterrupted(cat, boot, change, start)
    ensures var (db, fine) := StartPrefix(cat, boot, change, 4, start, now);
            fine && Timeless(db) == Milestone(cat, boot, change, start, 4)
  {
    StartUpConverges(cat, boot, change, start, [], now);
    assert Attempts(cat, boot, change, start, []) == start;
    hide *;
  }

  // -- what being equal up to timestamps leaves equal ---------------------------------------------

  predicate SameRequestButTime(a: Request, b: Request) {
    && a.requestId == b.requestId && a.title == b.title && a.rationale == b.rationale && a.sourceVersion == b.sourceVersion
    && a.targetVersion == b.targetVersion && a.ruleIds == b.ruleIds && a.adrId == b.adrId && a.roadmapImpact == b.roadmapImpact
    && a.status == b.status && a.approvedBy == b.approvedBy
    && a.approvedAt.Some? == b.approvedAt.Some? && a.appliedAt.Some? == b.appliedAt.Some?
  }

  predicate SameAdrButTime(a: Adr, b: Adr) {
    a.id == b.id && a.text == b.text && a.status == b.status && a.version == b.version && a.supersededBy == b.supersededBy
  }

  predicate SameProjectButTime(a: Project, b: Project) {
    a.name == b.name && a.mode == b.mode && a.paused == b.paused
  }

  predicate SameVersionButTime(a: Version, b: Version) {
    a.version == b.version && a.baseline == b.baseline && a.rules == b.rules && a.supersededBy == b.supersededBy
    && a.isCurrent == b.isCurrent
  }

  predicate SameRiskButTime(a: Risk, b: Risk) {
    a.id == b.id && a.text == b.text && a.open == b.open
  }

  lemma ProjectTimes(a: map<string, Project>, b: map<string, Project>)
    requires TimelessProjects(a) == TimelessProjects(b)
    ensures a.Keys == b.Keys && forall k <- a :: SameProjectButTime(a[k], b[k])
  {
    assert TimelessProjects(a).Keys == a.Keys && TimelessProjects(b).Keys == b.Keys;
    forall k | k in a
      ensures k in b && SameProjectButTime(a[k], b[k])
    {
      assert k in TimelessProjects(a).Keys;
      assert TimelessProjects(a)[k] == TimelessProjects(b)[k];
    }
  }

  lemma VersionTimes(a: map<string, Version>, b: map<string, Version>)
    requires TimelessVersions(a) == TimelessVersions(b)
    ensures a.Keys == b.Keys && forall k <- a :: SameVersionButTime(a[k], b[k])
  {
    assert TimelessVersions(a).Keys == a.Keys && TimelessVersions(b).Keys == b.Keys;
    forall k | k in a
      ensures k in b && SameVersionButTime(a[k], b[k])
    {
      assert k in TimelessVersions(a).Keys;
      assert TimelessVersions(a)[k] == TimelessVersions(b)[k];
    }
  }

  lemma RequestTimes(a: map<string, Request>, b: map<string, Request>)
    requires TimelessRequests(a) == TimelessRequests(b)
    ensures a.Keys == b.Keys && forall k <- a :: SameRequestButTime(a[k], b[k])
  {
    assert TimelessRequests(a).Keys == a.Keys && TimelessRequests(b).Keys == b.Keys;
    forall k | k in a
      ensures k in b && SameRequestButTime(a[k], b[k])
    {
      assert k in TimelessRequests(a).Keys;
      assert TimelessRequests(a)[k] == TimelessRequests(b)[k];
    }
  }

  lemma AdrTimes(a: map<string, Adr>, b: map<string, Adr>)
    requires TimelessAdrs(a) == TimelessAdrs(b)
    ensures a.Keys == b.Keys && forall k <- a :: SameAdrButTime(a[k], b[k])
  {
    assert TimelessAdrs(a).Keys == a.Keys && TimelessAdrs(b).Keys == b.Keys;
    forall k | k in a
      ensures k in b && SameAdrButTime(a[k], b[k])
    {
      assert k in TimelessAdrs(a).Keys;
      assert TimelessAdrs(a)[k] == TimelessAdrs(b)[k];
    }
  }

  lemma RiskTimes(a: map<string, Risk>, b: map<string, Risk>)
    requires TimelessRisks(a) == TimelessRisks(b)
    ensures a.Keys == b.Keys && forall k <- a :: SameRiskButTime(a[k], b[k])
  {
    assert TimelessRisks(a).Keys == a.Keys && TimelessRisks(b).Keys == b.Keys;
    forall k | k in a
      ensures k in b && SameRiskButTime(a[k], b[k])
    {
      assert k in TimelessRisks(a).Keys;
      assert TimelessRisks(a)[k] == TimelessRisks(b)[k];
    }
  }

  lemma TrailTimes(a: seq<Entry>, b: seq<Entry>)
    requires TimelessTrail(a) == TimelessTrail(b)
    ensures |a| == |b| && forall i :: 0 <= i < |a| ==> b[i].(at := a[i].at) == a[i]
  {
    assert |TimelessTrail(a)| == |TimelessTrail(b)|;
    forall i | 0 <= i < |a|
      ensures b[i].(at := a[i].at) == a[i]
    {
      assert TimelessTrail(a)[i] == TimelessTrail(b)[i];
    }
  }

  /** Up to timestamps, everything else is the same. */
  lemma OnlyTimesDiffer(a: Db, b: Db)
    requires Timeless(a) == Timeless(b)
    ensures a.projects.Keys == b.projects.Keys && forall k <- a.projects :: SameProjectButTime(a.projects[k], b.projects[k])
    ensures a.versions.Keys == b.versions.Keys && forall k <- a.versions :: SameVersionButTime(a.versions[k], b.versions[k])
    ensures a.requests.Keys == b.requests.Keys && forall k <- a.requests :: SameRequestButTime(a.requests[k], b.requests[k])
    ensures a.adrs.Keys == b.adrs.Keys && forall k <- a.adrs :: SameAdrButTime(a.adrs[k], b.adrs[k])
    ensures a.risks.Keys == b.risks.Keys && forall k <- a.risks :: SameRiskButTime(a.risks[k], b.risks[k])
    ensures |a.audit| == |b.audit| && forall i :: 0 <= i < |a.audit| ==> b.audit[i].(at := a.audit[i].at) == a.audit[i]
    ensures a.steps == b.steps && a.tasks == b.tasks && a.findings == b.findings && a.decisions == b.decisions
  {
    hide TimelessProjects, TimelessVersions, TimelessRequests, TimelessAdrs, TimelessRisks, TimelessTrail;
    ProjectTimes(a.projects, b.projects);
    VersionTimes(a.versions, b.versions);
    RequestTimes(a.requests, b.requests);
    AdrTimes(a.adrs, b.adrs);
    RiskTimes(a.risks, b.risks);
    TrailTimes(a.audit, b.audit);
  }
}
