/** Start-up runs to completion however often it is interrupted, and once complete it writes nothing. */
module StartUp {
  import opened Basics
  import opened Store
  import opened Connections
  import opened Realization
  import opened Adrs
  import opened AdrHistory
  import opened Versions
  import opened VersionChain
  import opened Requests
  import opened Bootstraps
  import opened EvolutionRuns

  /** Every decision record the code side declares. */
  function AllAdrs(cat: Catalogue, boot: Boot, change: Declared): seq<AdrSpec> {
    boot.adrs + cat.adrSpecs + [change.adr]
  }

  // -- when a part of the start-up is already done -----------------------------------------

  predicate AdrsPresent(db: Db, specs: seq<AdrSpec>) {
    forall i :: 0 <= i < |specs| ==> specs[i].id in db.adrs && AdrMatches(db.adrs[specs[i].id], specs[i])
  }

  predicate RisksPresent(db: Db, specs: seq<RiskSpec>) {
    forall i :: 0 <= i < |specs| ==> specs[i].id in db.risks && RiskMatches(db.risks[specs[i].id], specs[i])
  }

  ghost predicate ProjectPresent(db: Db, name: string) {
    SingleProject(db).Some? && SingleProject(db).value.name == name
  }

  /** The version is on record with this content. */
  predicate ContentPresent(db: Db, version: string, baseline: string, rules: seq<string>) {
    version in db.versions && db.versions[version].version == version
    && db.versions[version].baseline == baseline && db.versions[version].rules == rules
  }

  /** It is current, or directly superseded by a version that is. */
  predicate NearHead(db: Db, version: string)
    requires version in db.versions
  {
    var v := db.versions[version];
    if v.isCurrent then CurrentVersions(db.versions) <= {version}
    else v.supersededBy.Some? && v.supersededBy.value in db.versions && db.versions[v.supersededBy.value].isCurrent
  }

  ghost predicate SeedDone(boot: Boot, db: Db) {
    && ProjectPresent(db, boot.project.name)
    && ContentPresent(db, boot.version, boot.baseline, boot.rules) && NearHead(db, boot.version)
    && AdrsPresent(db, boot.adrs) && RisksPresent(db, boot.risks)
  }

  predicate ProposeDone(change: Declared, db: Db) {
    var request := change.request;
    && request.status.RequestProposed? && request.adrId == change.adr.id
    && request.requestId in db.requests && RequestContentMatches(db.requests[request.requestId], request)
    && LinkedAdrVerified(db, change.adr.id, change.adr).None?
  }

  predicate ApproveDone(change: Declared, db: Db) {
    var id := change.request.requestId;
    && !Blank(change.approver) && !Blank(id) && id in db.requests
    && (db.requests[id].status.RequestApplied?
        || (db.requests[id].status.RequestApproved? && db.requests[id].approvedBy == Some(change.approver)))
  }

  /** Everything an apply establishes, apart from the target being the head of the chain. */
  predicate AppliedOnRecord(cat: Catalogue, change: Declared, db: Db) {
    var id := change.request.requestId;
    && ApplyRefused(cat, db, id).None? && db.requests[id].status.RequestApplied?
    && ContentPresent(db, db.requests[id].targetVersion, cat.canonical[db.requests[id].targetVersion].baseline, db.requests[id].ruleIds)
    && db.requests[id].sourceVersion in db.versions && db.requests[id].sourceVersion != db.requests[id].targetVersion
    && db.versions[db.requests[id].sourceVersion].supersededBy == Some(db.requests[id].targetVersion)
    && !db.versions[db.requests[id].sourceVersion].isCurrent
    && AdrsPresent(db, cat.adrSpecs)
  }

  predicate ApplyDone(cat: Catalogue, change: Declared, db: Db) {
    && AppliedOnRecord(cat, change, db)
    && var target := db.requests[change.request.requestId].targetVersion;
       SingleCurrent(db, target) && db.versions[target].supersededBy.None?
  }

  ghost predicate StepDone(cat: Catalogue, boot: Boot, change: Declared, k: nat, db: Db) {
    match k
    case 0 => SeedDone(boot, db)
    case 1 => ProposeDone(change, db)
    case 2 => ApproveDone(change, db)
    case _ => ApplyDone(cat, change, db)
  }

  // -- done means: nothing to write ------------------------------------------------------------

  lemma {:induction false} PresentAdrsAreKept(db: Db, specs: seq<AdrSpec>, now: int)
    requires AdrsPresent(db, specs)
    ensures AdrsEnsured(db, specs, now) == Ok(db)
    decreases |specs|
  {
    if specs != [] {
      PresentAdrsAreKept(db, specs[..|specs| - 1], now);
    }
  }

  lemma {:induction false} PresentRisksAreKept(db: Db, specs: seq<RiskSpec>, now: int)
    requires RisksPresent(db, specs)
    ensures RisksRegistered(db, specs, now) == Ok(db)
    decreases |specs|
  {
    if specs != [] {
      PresentRisksAreKept(db, specs[..|specs| - 1], now);
    }
  }

  lemma SeedDoneIsQuiet(boot: Boot, db: Db, now: int)
    requires SeedDone(boot, db)
    ensures Seeded(boot, db, now) == Ok(db)
  {
    PresentAdrsAreKept(db, boot.adrs, now);
    PresentRisksAreKept(db, boot.risks, now);
    var name :| db.projects.Keys == {name};
    assert name in db.projects;
    hide AdrsEnsured, RisksRegistered;
  }

  lemma ApplyDoneIsQuiet(cat: Catalogue, change: Declared, db: Db, now: int)
    requires ApplyDone(cat, change, db)
    ensures ApplyRequest(cat, db, change.request.requestId, now) == Ok(db)
  {
    hide AdrsEnsured, Blank;
    PresentAdrsAreKept(db, cat.adrSpecs, now);
    var target := db.requests[change.request.requestId].targetVersion;
    assert target in CurrentVersions(db.versions);
  }

  lemma DoneIsQuiet(cat: Catalogue, boot: Boot, change: Declared, k: nat, db: Db, now: int)
    requires k < 4 && StepDone(cat, boot, change, k, db)
    ensures StartStep(cat, boot, change, k, db, now) == Ok(db)
  {
    hide Seeded, SeedDone, ApplyRequest, ApplyDone, Blank;
    match k
    case 0 => SeedDoneIsQuiet(boot, db, now);
    case 1 =>
    case 2 =>
    case _ => ApplyDoneIsQuiet(cat, change, db, now);
  }

  // -- what the steps leave alone ------------------------------------------------------------------

  predicate AdrGrows(before: Adr, after: Adr) {
    after.text == before.text
    && (after.status == before.status || (before.status.AdrProposed? && after.status.AdrAccepted?))
  }

  /** No project row changes, no risk changes, no record changes but from PROPOSED to ACCEPTED. */
  ghost predicate Grows(db: Db, db': Db) {
    && db'.projects == db.projects
    && (forall id <- db.adrs :: id in db'.adrs && AdrGrows(db.adrs[id], db'.adrs[id]))
    && (forall id <- db.risks :: id in db'.risks && db'.risks[id] == db.risks[id])
  }

  lemma GrowsTransitive(a: Db, b: Db, c: Db)
    requires Grows(a, b) && Grows(b, c)
    ensures Grows(a, c)
  {
    forall id | id in a.adrs ensures id in c.adrs && AdrGrows(a.adrs[id], c.adrs[id]) { assert id in b.adrs; }
    forall id | id in a.risks ensures id in c.risks && c.risks[id] == a.risks[id] { assert id in b.risks; }
  }

  lemma PresentStays(db: Db, db': Db, adrs: seq<AdrSpec>, risks: seq<RiskSpec>)
    requires Grows(db, db')
    ensures AdrsPresent(db, adrs) ==> AdrsPresent(db', adrs)
    ensures RisksPresent(db, risks) ==> RisksPresent(db', risks)
  {
  }

  predicate SameHistory(db: Db, db': Db) {
    db'.versions == db.versions && db'.requests == db.requests
  }

  lemma AdrEnsuredGrows(db: Db, spec: AdrSpec, now: int)
    requires AdrEnsured(db, spec, now).Ok?
    ensures var db' := AdrEnsured(db, spec, now).value;
            Grows(db, db') && SameHistory(db, db') && AdrsPresent(db', [spec])
  {
    hide Blank, PutAll, Grows, AdrsPresent;
    if spec.id in db.adrs {
      NothingGrows(db);
      OnePresent(db, spec);
    } else {
      var adr := Adr(spec.id, spec.text, AdrProposed, 1, None, now, now);
      var accepted := adr.(status := AdrAccepted, updatedAt := now);
      OneRow(db.adrs, adr);
      OneRow(db.adrs[spec.id := adr], accepted);
      var db' := AdrEnsured(db, spec, now).value;
      NewRecordGrows(db, db', accepted);
      OnePresent(db', spec);
    }
  }

  lemma OnePresent(db: Db, spec: AdrSpec)
    requires spec.id in db.adrs && AdrMatches(db.adrs[spec.id], spec)
    ensures AdrsPresent(db, [spec])
  {
  }

  lemma NewRecordGrows(db: Db, db': Db, adr: Adr)
    requires adr.id !in db.adrs && db'.adrs == db.adrs[adr.id := adr]
    requires db'.projects == db.projects && db'.risks == db.risks
    ensures Grows(db, db')
  {
  }

  lemma {:induction false} AdrsEnsuredGrows(db: Db, specs: seq<AdrSpec>, now: int)
    requires AdrsEnsured(db, specs, now).Ok?
    ensures var db' := AdrsEnsured(db, specs, now).value;
            Grows(db, db') && SameHistory(db, db') && AdrsPresent(db', specs)
    decreases |specs|
  {
    hide AdrEnsured, Grows, AdrsPresent;
    if specs == [] {
      NothingGrows(db);
    } else {
      var init, last := specs[..|specs| - 1], specs[|specs| - 1];
      AdrsEnsuredGrows(db, init, now);
      var before, after := AdrsEnsured(db, init, now).value, AdrsEnsured(db, specs, now).value;
      AdrEnsuredGrows(before, last, now);
      GrowsTransitive(db, before, after);
      PresentStays(before, after, init, []);
      PresentSnoc(after, init, last);
      assert init + [last] == specs;
    }
  }

  lemma NothingGrows(db: Db)
    ensures Grows(db, db) && AdrsPresent(db, []) && RisksPresent(db, [])
  {
  }

  lemma PresentSnoc(db: Db, init: seq<AdrSpec>, last: AdrSpec)
    requires AdrsPresent(db, init) && AdrsPresent(db, [last])
    ensures AdrsPresent(db, init + [last])
  {
    assert [last][0] == last;
  }

  lemma RiskRegisteredGrows(db: Db, spec: RiskSpec, now: int)
    requires RiskRegistered(db, spec, now).Ok?
    ensures var db' := RiskRegistered(db, spec, now).value;
            Grows(db, db') && SameHistory(db, db') && spec.id in db'.risks && RiskMatches(db'.risks[spec.id], spec)
  {
    hide Blank;
  }

  lemma {:induction false} RisksRegisteredGrows(db: Db, specs: seq<RiskSpec>, now: int)
    requires RisksRegistered(db, specs, now).Ok?
    ensures var db' := RisksRegistered(db, specs, now).value;
            Grows(db, db') && SameHistory(db, db') && RisksPresent(db', specs)
    decreases |specs|
  {
    hide Grows, RiskRegistered;
    if specs == [] {
      NothingGrows(db);
    } else {
      var init, last := specs[..|specs| - 1], specs[|specs| - 1];
      RisksRegisteredGrows(db, init, now);
      var before, after := RisksRegistered(db, init, now).value, RisksRegistered(db, specs, now).value;
      RiskRegisteredGrows(before, last, now);
      GrowsTransitive(db, before, after);
      PresentStays(before, after, [], init);
      assert forall i :: 0 <= i < |init| ==> specs[i] == init[i];
    }
  }

  /** Where a version and its predecessor stand after an introduction. */
  predicate Installed(versions: map<string, Version>, spec: Version, source: string) {
    && spec.version in versions && VersionMatches(versions[spec.version], spec)
    && source in versions && source != spec.version
    && versions[source].supersededBy == Some(spec.version) && !versions[source].isCurrent
  }

  lemma RolledOverInstalls(db: Db, spec: Version, source: string)
    requires RolledOver(db, spec, Some(source)).Ok? && source != spec.version
    ensures var db' := RolledOver(db, spec, Some(source)).value;
            Installed(db'.versions, spec, source) && db' == db.(versions := db'.versions)
  {
  }

  lemma SameRecordsGrow(db: Db, db': Db)
    requires db'.projects == db.projects && db'.adrs == db.adrs && db'.risks == db.risks
    ensures Grows(db, db')
  {
  }

  lemma IntroducedGrows(adrSpecs: seq<AdrSpec>, db: Db, spec: Version, source: string, now: int)
    requires Introduced(adrSpecs, db, spec, Some(source), now).Ok?
    ensures var db' := Introduced(adrSpecs, db, spec, Some(source), now).value;
            && Grows(db, db') && db'.requests == db.requests && AdrsPresent(db', adrSpecs)
            && RolledOver(db, spec, Some(source)).Ok? && db'.versions == RolledOver(db, spec, Some(source)).value.versions
            && Installed(db'.versions, spec, source)
  {
    hide AdrsEnsured, AdrsPresent, RolledOver, Grows, Installed;
    var rolled := RolledOver(db, spec, Some(source)).value;
    RolledOverInstalls(db, spec, source);
    SameRecordsGrow(db, rolled);
    AdrsEnsuredGrows(rolled, adrSpecs, now);
    GrowsTransitive(db, rolled, Introduced(adrSpecs, db, spec, Some(source), now).value);
  }

  // -- each step makes itself done ---------------------------------------------------------------------

  lemma SeedMakesDone(boot: Boot, db: Db, now: int)
    requires Seeded(boot, db, now).Ok?
    ensures SeedDone(boot, Seeded(boot, db, now).value)
  {
    hide AdrsEnsured, RisksRegistered, AdrsPresent, RisksPresent;
    var projected := ProjectReconciled(db, NewProject(boot, now)).value;
    ReconciledProject(db, NewProject(boot, now));
    var versioned := VersionReconciled(projected, FirstVersion(boot, now)).value;
    ReconciledVersion(projected, boot, now);
    var recorded := AdrsEnsured(versioned, boot.adrs, now).value;
    AdrsEnsuredGrows(versioned, boot.adrs, now);
    var registered := RisksRegistered(recorded, boot.risks, now).value;
    RisksRegisteredGrows(recorded, boot.risks, now);
    PresentStays(recorded, registered, boot.adrs, []);
    hide Grows, VersionReconciled, ProjectReconciled;
    SameProjects(projected, registered, boot.project.name);
  }

  lemma SameProjects(a: Db, b: Db, name: string)
    requires ProjectPresent(a, name) && b.projects == a.projects
    ensures ProjectPresent(b, name)
  {
  }

  lemma ReconciledProject(db: Db, spec: Project)
    requires ProjectReconciled(db, spec).Ok?
    ensures var db' := ProjectReconciled(db, spec).value;
            ProjectPresent(db', spec.name) && db' == db.(projects := db'.projects)
  {
    if db.projects == map[] {
      assert map[spec.name := spec].Keys == {spec.name};
      var name :| map[spec.name := spec].Keys == {name};
      assert name in {spec.name};
    }
  }

  lemma ReconciledVersion(db: Db, boot: Boot, now: int)
    requires VersionReconciled(db, FirstVersion(boot, now)).Ok?
    ensures var db' := VersionReconciled(db, FirstVersion(boot, now)).value;
            ContentPresent(db', boot.version, boot.baseline, boot.rules) && NearHead(db', boot.version)
            && db'.projects == db.projects
  {
    var db' := VersionReconciled(db, FirstVersion(boot, now)).value;
    if boot.version !in db.versions {
      forall v | v in CurrentVersions(db'.versions)
        ensures v == boot.version
      {
        assert v != boot.version ==> v in CurrentVersions(db.versions);
      }
    }
  }

  /** The keys every history keeps. */
  lemma Keys(db: Db, id: string)
    requires EvoInv(db, false)
    ensures id in db.requests ==> db.requests[id].requestId == id && db.requests[id].adrId in db.adrs
    ensures id in db.adrs ==> db.adrs[id].id == id
    ensures id in db.versions ==> db.versions[id].version == id
  {
    hide Rooted, Replayed;
    if id in db.requests { assert RequestOk(db, db.requests[id], false); }
  }

  /** The request keeps its content and never moves back. */
  predicate RequestGrows(before: Request, after: Request) {
    && RequestContentMatches(after, before)
    && (before.status.RequestApplied? ==> after == before)
    && (before.status.RequestApproved? ==> after.status.RequestApplied? || after == before)
  }

  // -- proposing ----------------------------------------------------------------------------------------

  lemma ProposeEffect(change: Declared, db: Db, now: int)
    requires EvoInv(db, false) && ProposeRequest(db, NewRequest(change, now), change.adr, now).Ok?
    ensures var db' := ProposeRequest(db, NewRequest(change, now), change.adr, now).value;
            Grows(db, db') && db'.versions == db.versions && ProposeDone(change, db')
  {
    hide EvoInv, Blank, PutAll;
    var request, adr := NewRequest(change, now), change.adr;
    if request.requestId !in db.requests {
      var row := Adr(adr.id, adr.text, AdrProposed, 1, None, now, now);
      OneRow(db.adrs, row);
      if adr.id in db.adrs {
        SameRecordsGrow(db, ProposeRequest(db, request, adr, now).value);
      } else {
        NewRecordGrows(db, ProposeRequest(db, request, adr, now).value, row);
      }
    } else {
      NothingGrows(db);
    }
  }

  // -- approving ----------------------------------------------------------------------------------------

  lemma LinkedAcceptedGrows(db: Db, id: string, now: int)
    requires EvoInv(db, false) && LinkedAdrAccepted(db, id, now).Ok?
    ensures var db' := LinkedAdrAccepted(db, id, now).value;
            Grows(db, db') && db'.requests == db.requests && db'.versions == db.versions
  {
    hide EvoInv, PutAll, Grows;
    Keys(db, id);
    if db.adrs[id].status.AdrProposed? {
      var row := db.adrs[id].(status := AdrAccepted, updatedAt := now);
      OneRow(db.adrs, row);
      RowGrows(db, LinkedAdrAccepted(db, id, now).value, row);
    } else {
      NothingGrows(db);
    }
  }

  lemma RowGrows(db: Db, db': Db, row: Adr)
    requires row.id in db.adrs && AdrGrows(db.adrs[row.id], row) && db'.adrs == db.adrs[row.id := row]
    requires db'.projects == db.projects && db'.risks == db.risks
    ensures Grows(db, db')
  {
  }

  lemma ApproveEffect(change: Declared, db: Db, now: int)
    requires EvoInv(db, false) && ApproveRequest(db, change.request.requestId, change.approver, now).Ok?
    ensures var db' := ApproveRequest(db, change.request.requestId, change.approver, now).value;
            var id := change.request.requestId;
            Grows(db, db') && db'.versions == db.versions && ApproveDone(change, db')
            && id in db.requests && RequestGrows(db.requests[id], db'.requests[id])
  {
    hide EvoInv, Blank, Grows, LinkedAdrAccepted;
    var id := change.request.requestId;
    Keys(db, id);
    var request := db.requests[id];
    if request.status.RequestProposed? {
      var approved := ApprovedRequest(request, change.approver, now);
      AcceptIgnoresRequests(db, db.requests[id := approved], request.adrId, now);
      var linked := LinkedAdrAccepted(db, request.adrId, now).value;
      LinkedAcceptedGrows(db, request.adrId, now);
      var db' := ApproveRequest(db, id, change.approver, now).value;
      SameRecordsGrow(linked, db');
      GrowsTransitive(db, linked, db');
    } else {
      NothingGrows(db);
    }
  }

  // -- applying ------------------------------------------------------------------------------------------

  lemma ApplyApprovedEffect(cat: Catalogue, db: Db, request: Request, spec: Version, now: int)
    requires ApplyApproved(cat, db, request, spec, now).Ok? && spec.version == request.targetVersion
    ensures var db' := ApplyApproved(cat, db, request, spec, now).value;
            && Grows(db, db') && db'.requests == db.requests[request.requestId := AppliedRequest(request, now)]
            && Installed(db'.versions, spec, request.sourceVersion) && SingleCurrent(db', spec.version)
            && RolledOver(db, spec, Some(request.sourceVersion)).Ok?
            && db'.versions == RolledOver(db, spec, Some(request.sourceVersion)).value.versions
            && AdrsPresent(db', cat.adrSpecs)
  {
    hide Introduced, RisksRegistered, Grows, AdrsPresent, RolledOver, Installed;
    var introduced := Introduced(cat.adrSpecs, db, spec, Some(request.sourceVersion), now).value;
    IntroducedGrows(cat.adrSpecs, db, spec, request.sourceVersion, now);
    var registered := RisksRegistered(introduced, DeclaredRisks(cat, request.requestId), now).value;
    RisksRegisteredGrows(introduced, DeclaredRisks(cat, request.requestId), now);
    GrowsTransitive(db, introduced, registered);
    var db' := ApplyApproved(cat, db, request, spec, now).value;
    SameRecordsGrow(registered, db');
    GrowsTransitive(db, registered, db');
    PresentStays(introduced, db', cat.adrSpecs, []) by { SameRecordsGrow(registered, db'); GrowsTransitive(introduced, registered, db'); }
  }

  lemma ApplyEffect(cat: Catalogue, change: Declared, db: Db, now: int)
    requires EvoInv(db, false) && ApplyRequest(cat, db, change.request.requestId, now).Ok?
    ensures var db' := ApplyRequest(cat, db, change.request.requestId, now).value;
            var id := change.request.requestId;
            Grows(db, db') && id in db.requests && id in db'.requests && RequestGrows(db.requests[id], db'.requests[id])
            && ApplyDone(cat, change, db')
            && RolledOver(db, TargetSpec(cat, db.requests[id], now), Some(db.requests[id].sourceVersion)).Ok?
            && db'.versions == RolledOver(db, TargetSpec(cat, db.requests[id], now), Some(db.requests[id].sourceVersion)).value.versions
  {
    hide EvoInv, Blank, Grows, ApplyApproved, Introduced, RolledOver, AdrsPresent;
    var id := change.request.requestId;
    Keys(db, id);
    var request := db.requests[id];
    var spec := TargetSpec(cat, request, now);
    var db' := ApplyRequest(cat, db, id, now).value;
    if request.status.RequestApplied? {
      IntroducedGrows(cat.adrSpecs, db, spec, request.sourceVersion, now);
      AppliedInPlace(db, spec, request.sourceVersion);
    } else {
      ApplyApprovedEffect(cat, db, request, spec, now);
    }
    RecordStays(db, db', request.adrId);
  }

  lemma RecordStays(db: Db, db': Db, id: string)
    requires Grows(db, db') && id in db.adrs && db.adrs[id].status.AdrAccepted?
    ensures id in db'.adrs && db'.adrs[id].status.AdrAccepted?
  {
  }

  /** An introduction of a version that is already current changes no version. */
  lemma AppliedInPlace(db: Db, spec: Version, source: string)
    requires SingleCurrent(db, spec.version) && RolledOver(db, spec, Some(source)).Ok?
    ensures RolledOver(db, spec, Some(source)).value.versions == db.versions
  {
    assert spec.version in CurrentVersions(db.versions);
  }

  // -- a step keeps what earlier steps have done ------------------------------------------------------------

  lemma SeedStays(boot: Boot, db: Db, db': Db)
    requires SeedDone(boot, db) && Grows(db, db') && ContentPresent(db', boot.version, boot.baseline, boot.rules)
    requires NearHead(db', boot.version)
    ensures SeedDone(boot, db')
  {
    hide Grows, AdrsPresent, RisksPresent, ContentPresent, NearHead;
    PresentStays(db, db', boot.adrs, boot.risks);
    assert db'.projects == db.projects by { GrowsKeepsProjects(db, db'); }
    SameProjects(db, db', boot.project.name);
  }

  lemma GrowsKeepsProjects(db: Db, db': Db)
    requires Grows(db, db')
    ensures db'.projects == db.projects
  {
  }

  /** The apply that supersedes the first baseline leaves it next to the head of the chain. */
  lemma SeedSurvivesApply(cat: Catalogue, boot: Boot, change: Declared, db: Db, now: int)
    requires EvoInv(db, false) && SeedDone(boot, db) && ProposeDone(change, db) && change.request.sourceVersion == boot.version
    requires ApplyRequest(cat, db, change.request.requestId, now).Ok?
    ensures SeedDone(boot, ApplyRequest(cat, db, change.request.requestId, now).value)
  {
    hide EvoInv, ApplyRequest, Grows, AdrsPresent, RisksPresent, RolledOver, Blank, LinkedAdrVerified;
    var id := change.request.requestId;
    ApplyEffect(cat, change, db, now);
    var db' := ApplyRequest(cat, db, id, now).value;
    KeepsContent(db, boot, TargetSpec(cat, db.requests[id], now));
    assert db'.requests[id].targetVersion in CurrentVersions(db'.versions);
    SeedStays(boot, db, db');
  }

  lemma KeepsContent(db: Db, boot: Boot, spec: Version)
    requires ContentPresent(db, boot.version, boot.baseline, boot.rules) && RolledOver(db, spec, Some(boot.version)).Ok?
    ensures ContentPresent(RolledOver(db, spec, Some(boot.version)).value, boot.version, boot.baseline, boot.rules) || spec.version == boot.version
  {
  }

  lemma ProposeStays(change: Declared, db: Db, db': Db)
    requires ProposeDone(change, db) && Grows(db, db')
    requires change.request.requestId in db'.requests
    requires RequestGrows(db.requests[change.request.requestId], db'.requests[change.request.requestId])
    ensures ProposeDone(change, db')
  {
    assert AdrGrows(db.adrs[change.adr.id], db'.adrs[change.adr.id]);
  }

  lemma ApproveStays(change: Declared, db: Db, db': Db)
    requires ApproveDone(change, db) && change.request.requestId in db'.requests
    requires RequestGrows(db.requests[change.request.requestId], db'.requests[change.request.requestId])
    ensures ApproveDone(change, db')
  {
  }

  ghost predicate DoneBelow(cat: Catalogue, boot: Boot, change: Declared, k: nat, db: Db) {
    && (k > 0 ==> SeedDone(boot, db)) && (k > 1 ==> ProposeDone(change, db))
    && (k > 2 ==> ApproveDone(change, db)) && (k > 3 ==> ApplyDone(cat, change, db))
  }

  /** The declared change moves the baseline that the bootstrap lays down. */
  predicate Declares(boot: Boot, change: Declared) {
    change.request.sourceVersion == boot.version && WellFormedCall(ProposeCall(change.request, change.adr))
  }

  /** A successful step makes itself done and undoes none before it. */
  lemma StepAdvances(cat: Catalogue, boot: Boot, change: Declared, k: nat, db: Db, now: int)
    requires k < 4 && EvoInv(db, false) && Declares(boot, change) && DoneBelow(cat, boot, change, k, db)
    requires StartStep(cat, boot, change, k, db, now).Ok?
    ensures var db' := StartStep(cat, boot, change, k, db, now).value;
            EvoInv(db', false) && DoneBelow(cat, boot, change, k + 1, db')
  {
    hide EvoInv, Seeded, SeedDone, ProposeRequest, ProposeDone, ApproveRequest, ApproveDone, ApplyRequest, ApplyDone,
         Grows, Forward, RequestGrows;
    var db' := StartStep(cat, boot, change, k, db, now).value;
    match k
    case 0 =>
      SeedForward(boot, db, now, false);
      SeedMakesDone(boot, db, now);
    case 1 =>
      ProposeForward(db, NewRequest(change, now), change.adr, now, false);
      ProposeEffect(change, db, now);
      SeedUnmoved(boot, db, db');
    case 2 =>
      ApproveForward(db, change.request.requestId, change.approver, now, false);
      ApproveEffect(change, db, now);
      SeedUnmoved(boot, db, db');
      ApprovedIsThere(change, db');
      ProposeStays(change, db, db');
    case _ =>
      ApplyForward(cat, db, change.request.requestId, now, false);
      SeedSurvivesApply(cat, boot, change, db, now);
      ApplyEffect(cat, change, db, now);
      ProposeStays(change, db, db');
      ApproveStays(change, db, db');
  }

  lemma ApprovedIsThere(change: Declared, db: Db)
    requires ApproveDone(change, db)
    ensures change.request.requestId in db.requests
  {
  }

  lemma SeedUnmoved(boot: Boot, db: Db, db': Db)
    requires SeedDone(boot, db) && Grows(db, db') && db'.versions == db.versions
    ensures SeedDone(boot, db')
  {
    hide Grows, AdrsPresent, RisksPresent;
    SeedStays(boot, db, db');
  }

  lemma DoneAt(cat: Catalogue, boot: Boot, change: Declared, k: nat, j: nat, db: Db)
    requires DoneBelow(cat, boot, change, k, db) && j < k <= 4
    ensures StepDone(cat, boot, change, j, db)
  {
  }

  /** Steps that are done are passed over without a write. */
  lemma {:induction false} DonePrefix(cat: Catalogue, boot: Boot, change: Declared, k: nat, db: Db, now: int)
    requires k <= 4 && DoneBelow(cat, boot, change, k, db)
    ensures StartPrefix(cat, boot, change, k, db, now) == (db, true)
    decreases k
  {
    hide StartStep, StepDone, SeedDone, ProposeDone, ApproveDone, ApplyDone;
    if k > 0 {
      DonePrefix(cat, boot, change, k - 1, db, now);
      DoneAt(cat, boot, change, k, k - 1, db);
      DoneIsQuiet(cat, boot, change, k - 1, db, now);
    }
  }

  lemma {:induction false} PrefixAdvances(cat: Catalogue, boot: Boot, change: Declared, k: nat, db: Db, now: int)
    requires k <= 4 && EvoInv(db, false) && Declares(boot, change) && StartPrefix(cat, boot, change, k, db, now).1
    ensures var db' := StartPrefix(cat, boot, change, k, db, now).0;
            EvoInv(db', false) && DoneBelow(cat, boot, change, k, db')
    decreases k
  {
    hide StartStep, EvoInv, DoneBelow, Declares;
    if k == 0 {
      NothingDone(cat, boot, change, db);
    } else {
      PrefixAdvances(cat, boot, change, k - 1, db, now);
      StepAdvances(cat, boot, change, k - 1, StartPrefix(cat, boot, change, k - 1, db, now).0, now);
    }
  }

  lemma NothingDone(cat: Catalogue, boot: Boot, change: Declared, db: Db)
    ensures DoneBelow(cat, boot, change, 0, db)
  {
  }

  /** Once a start-up has completed, a further one writes nothing at all. */
  lemma RestartWritesNothing(cat: Catalogue, boot: Boot, change: Declared, db: Db, now: int, later: int)
    requires EvoInv(db, false) && Declares(boot, change) && StartPrefix(cat, boot, change, 4, db, now).1
    ensures var done := StartPrefix(cat, boot, change, 4, db, now).0;
            StartPrefix(cat, boot, change, 4, done, later) == (done, true)
  {
    hide StartPrefix, EvoInv, DoneBelow, Declares;
    PrefixAdvances(cat, boot, change, 4, db, now);
    DonePrefix(cat, boot, change, 4, StartPrefix(cat, boot, change, 4, db, now).0, later);
  }
}
