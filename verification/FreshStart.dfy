/** A well-formed catalogue starts an empty store: the hypotheses of the start-up theorems are met. */
module FreshStart {
  import opened Basics
  import opened Store
  import opened Connections
  import opened Realization
  import opened Adrs
  import opened AdrHistory
  import opened Versions
  import opened VersionChain
  import opened Requests
  import opened Bootstraps
  import opened EvolutionRuns
  import opened StartUp
  import opened Convergence

  predicate NamedAdr(spec: AdrSpec) {
    !Blank(spec.id) && !Blank(spec.text.title)
  }

  /** Named records, and no id with two texts. */
  predicate DeclarableAdrs(specs: seq<AdrSpec>) {
    && (forall i :: 0 <= i < |specs| ==> NamedAdr(specs[i]))
    && (forall i, j :: 0 <= i < j < |specs| ==> specs[i].id == specs[j].id ==> specs[i] == specs[j])
  }

  lemma OneText(specs: seq<AdrSpec>, i: nat, j: nat)
    requires DeclarableAdrs(specs) && i < |specs| && j < |specs| && specs[i].id == specs[j].id
    ensures specs[i] == specs[j] && NamedAdr(specs[i])
  {
    if i < j {
      assert specs[i] == specs[j];
    } else if j < i {
      assert specs[j] == specs[i];
    }
  }

  predicate ValidRisk(spec: RiskSpec) {
    !Blank(spec.id) && !Blank(spec.text.description) && 0.0 <= spec.text.probability <= 1.0
  }

  predicate DeclarableRisks(specs: seq<RiskSpec>) {
    && (forall i :: 0 <= i < |specs| ==> ValidRisk(specs[i]))
    && (forall i, j :: 0 <= i < j < |specs| ==> specs[i].id == specs[j].id ==> specs[i] == specs[j])
  }

  lemma OneRisk(specs: seq<RiskSpec>, i: nat, j: nat)
    requires DeclarableRisks(specs) && i < |specs| && j < |specs| && specs[i].id == specs[j].id
    ensures specs[i] == specs[j] && ValidRisk(specs[i])
  {
    if i < j {
      assert specs[i] == specs[j];
    } else if j < i {
      assert specs[j] == specs[i];
    }
  }

  /** What the store holds of these records it holds as declared. */
  predicate AdrFits(db: Db, spec: AdrSpec) {
    spec.id in db.adrs ==> db.adrs[spec.id].id == spec.id && AdrMatches(db.adrs[spec.id], spec)
  }

  predicate AdrsFit(db: Db, specs: seq<AdrSpec>) {
    forall i :: 0 <= i < |specs| ==> AdrFits(db, specs[i])
  }

  /** The same, apart from one record. */
  predicate OthersFit(db: Db, specs: seq<AdrSpec>, id: string) {
    forall i :: 0 <= i < |specs| ==> specs[i].id == id || AdrFits(db, specs[i])
  }

  predicate RiskFits(db: Db, spec: RiskSpec) {
    spec.id in db.risks ==> RiskMatches(db.risks[spec.id], spec)
  }

  predicate RisksFit(db: Db, specs: seq<RiskSpec>) {
    forall i :: 0 <= i < |specs| ==> RiskFits(db, specs[i])
  }

  predicate OnlyAdrsMove(db: Db, db': Db) {
    db'.projects == db.projects && db'.versions == db.versions && db'.requests == db.requests && db'.risks == db.risks
  }

  predicate OnlyRisksMove(db: Db, db': Db) {
    db'.projects == db.projects && db'.versions == db.versions && db'.requests == db.requests && db'.adrs == db.adrs
  }

  lemma NewAdrEnsured(db: Db, spec: AdrSpec, now: int)
    requires spec.id !in db.adrs && NamedAdr(spec)
    ensures var r := AdrEnsured(db, spec, now);
            r.Ok? && OnlyAdrsMove(db, r.value)
            && r.value.adrs == db.adrs[spec.id := Adr(spec.id, spec.text, AdrAccepted, 1, None, now, now)]
  {
    hide Blank, PutAll;
    var row := Adr(spec.id, spec.text, AdrProposed, 1, None, now, now);
    OneRow(db.adrs, row);
    OneRow(db.adrs[row.id := row], row.(status := AdrAccepted));
    assert ProposeAdr(db, spec.id, spec.text, now) == Ok(Filed(db, [row], spec.id, AdrCreate, now));
  }

  /** A record accepted with its declared text fits, and disturbs none of the others. */
  lemma AcceptedFits(db: Db, db': Db, all: seq<AdrSpec>, i: nat, row: Adr)
    requires DeclarableAdrs(all) && i < |all|
    requires OthersFit(db, all, all[i].id)
    requires db'.adrs == db.adrs[all[i].id := row] && row.id == all[i].id && AdrMatches(row, all[i])
    ensures AdrsFit(db', all)
  {
    hide DeclarableAdrs, AdrMatches;
    forall j | 0 <= j < |all|
      ensures AdrFits(db', all[j])
    {
      if all[j].id == all[i].id { OneText(all, j, i); } else { assert AdrFits(db, all[j]); }
    }
  }

  lemma OneAdrFits(db: Db, all: seq<AdrSpec>, i: nat, now: int)
    requires DeclarableAdrs(all) && AdrsFit(db, all) && i < |all|
    ensures var r := AdrEnsured(db, all[i], now); r.Ok? && AdrsFit(r.value, all) && OnlyAdrsMove(db, r.value)
  {
    hide DeclarableAdrs, NamedAdr;
    assert AdrFits(db, all[i]);
    if all[i].id !in db.adrs {
      OneText(all, i, i);
      NewAdrEnsured(db, all[i], now);
      hide AdrEnsured;
      AcceptedFits(db, AdrEnsured(db, all[i], now).value, all, i, Adr(all[i].id, all[i].text, AdrAccepted, 1, None, now, now));
    }
  }

  /** Any part of a declarable list of records can be ensured. */
  lemma {:induction false} AdrsCanBeEnsured(db: Db, all: seq<AdrSpec>, a: nat, b: nat, now: int)
    requires DeclarableAdrs(all) && AdrsFit(db, all) && a <= b <= |all|
    ensures var r := AdrsEnsured(db, all[a..b], now); r.Ok? && AdrsFit(r.value, all) && OnlyAdrsMove(db, r.value)
    decreases b - a
  {
    hide AdrEnsured, AdrsFit, DeclarableAdrs;
    if a < b {
      AdrsCanBeEnsured(db, all, a, b - 1, now);
      assert all[a..b][..b - a - 1] == all[a..b - 1];
      OneAdrFits(AdrsEnsured(db, all[a..b - 1], now).value, all, b - 1, now);
    }
  }

  lemma OneRiskFits(db: Db, all: seq<RiskSpec>, i: nat, now: int)
    requires DeclarableRisks(all) && RisksFit(db, all) && i < |all|
    ensures var r := RiskRegistered(db, all[i], now); r.Ok? && RisksFit(r.value, all) && OnlyRisksMove(db, r.value)
  {
    hide Blank, DeclarableRisks;
    assert RiskFits(db, all[i]);
    OneRisk(all, i, i);
    var db' := RiskRegistered(db, all[i], now).value;
    forall j | 0 <= j < |all|
      ensures RiskFits(db', all[j])
    {
      assert RiskFits(db, all[j]);
      if all[j].id == all[i].id { OneRisk(all, j, i); }
    }
  }

  lemma {:induction false} RisksCanBeRegistered(db: Db, all: seq<RiskSpec>, a: nat, b: nat, now: int)
    requires DeclarableRisks(all) && RisksFit(db, all) && a <= b <= |all|
    ensures var r := RisksRegistered(db, all[a..b], now); r.Ok? && RisksFit(r.value, all) && OnlyRisksMove(db, r.value)
    decreases b - a
  {
    hide RiskRegistered, RisksFit, DeclarableRisks;
    if a < b {
      RisksCanBeRegistered(db, all, a, b - 1, now);
      assert all[a..b][..b - a - 1] == all[a..b - 1];
      OneRiskFits(RisksRegistered(db, all[a..b - 1], now).value, all, b - 1, now);
    }
  }

  // -- the catalogue --------------------------------------------------------------------------

  function AllRisks(cat: Catalogue, boot: Boot, change: Declared): seq<RiskSpec> {
    boot.risks + DeclaredRisks(cat, change.request.requestId)
  }

  /** One declared change from the first baseline to a declared one, with consistent records and risks. */
  predicate WellDeclared(cat: Catalogue, boot: Boot, change: Declared) {
    var request := change.request;
    && DeclarableAdrs(AllAdrs(cat, boot, change)) && DeclarableRisks(AllRisks(cat, boot, change))
    && !Blank(request.requestId) && !Blank(change.approver)
    && request.status.RequestProposed? && request.approvedBy.None? && request.approvedAt.None? && request.appliedAt.None?
    && request.adrId == change.adr.id && request.sourceVersion == boot.version && request.targetVersion != boot.version
    && request.targetVersion in cat.canonical && cat.canonical[request.targetVersion].rules == request.ruleIds
  }

  /** A store in which nothing has been recorded yet. */
  predicate Unused(db: Db) {
    db.projects == map[] && db.versions == map[] && db.requests == map[] && db.adrs == map[] && db.risks == map[] && db.audit == []
  }

  predicate AllFits(db: Db, cat: Catalogue, boot: Boot, change: Declared) {
    AdrsFit(db, AllAdrs(cat, boot, change)) && RisksFit(db, AllRisks(cat, boot, change))
  }

  lemma SeedSucceeds(cat: Catalogue, boot: Boot, change: Declared, db: Db, now: int)
    requires WellDeclared(cat, boot, change) && Unused(db)
    ensures var r := Seeded(boot, db, now);
            r.Ok? && r.value.requests == map[] && r.value.versions == map[boot.version := FirstVersion(boot, now)]
            && AllFits(r.value, cat, boot, change)
  {
    hide AdrsEnsured, RisksRegistered, Blank;
    var adrs, risks := AllAdrs(cat, boot, change), AllRisks(cat, boot, change);
    var projected := ProjectReconciled(db, NewProject(boot, now)).value;
    assert CurrentVersions(projected.versions) == {};
    var versioned := VersionReconciled(projected, FirstVersion(boot, now)).value;
    assert adrs[0..|boot.adrs|] == boot.adrs && risks[0..|boot.risks|] == boot.risks;
    AdrsCanBeEnsured(versioned, adrs, 0, |boot.adrs|, now);
    RisksCanBeRegistered(AdrsEnsured(versioned, boot.adrs, now).value, risks, 0, |boot.risks|, now);
    SameAdrsFit(AdrsEnsured(versioned, boot.adrs, now).value, Seeded(boot, db, now).value, adrs);
  }

  lemma SameAdrsFit(a: Db, b: Db, specs: seq<AdrSpec>)
    requires AdrsFit(a, specs) && b.adrs == a.adrs
    ensures AdrsFit(b, specs)
  {
    forall i | 0 <= i < |specs| ensures AdrFits(b, specs[i]) { assert AdrFits(a, specs[i]); }
  }

  /** After proposing, the request is on record with its own record proposed, or already accepted. */
  predicate Proposed(cat: Catalogue, boot: Boot, change: Declared, db: Db, versions: map<string, Version>) {
    var id := change.request.requestId;
    && db.versions == versions && id in db.requests && db.requests[id].requestId == id
    && db.requests[id].status.RequestProposed? && RequestContentMatches(db.requests[id], change.request)
    && change.adr.id in db.adrs && db.adrs[change.adr.id].id == change.adr.id && db.adrs[change.adr.id].text == change.adr.text
    && (db.adrs[change.adr.id].status.AdrProposed? || db.adrs[change.adr.id].status.AdrAccepted?)
    && RisksFit(db, AllRisks(cat, boot, change)) && OthersFit(db, AllAdrs(cat, boot, change), change.adr.id)
  }

  lemma ProposeSucceeds(cat: Catalogue, boot: Boot, change: Declared, db: Db, now: int)
    requires WellDeclared(cat, boot, change) && AllFits(db, cat, boot, change) && db.requests == map[]
    ensures var r := ProposeRequest(db, NewRequest(change, now), change.adr, now);
            r.Ok? && Proposed(cat, boot, change, r.value, db.versions)
  {
    hide Blank, PutAll;
    var all := AllAdrs(cat, boot, change);
    assert all[|all| - 1] == change.adr;
    assert AdrFits(db, all[|all| - 1]);
    if change.adr.id !in db.adrs {
      OneRow(db.adrs, Adr(change.adr.id, change.adr.text, AdrProposed, 1, None, now, now));
    }
    var db' := ProposeRequest(db, NewRequest(change, now), change.adr, now).value;
    forall i | 0 <= i < |all|
      ensures all[i].id == change.adr.id || AdrFits(db', all[i])
    {
      assert AdrFits(db, all[i]);
    }
  }

  lemma ApproveSucceeds(cat: Catalogue, boot: Boot, change: Declared, db: Db, versions: map<string, Version>, now: int)
    requires WellDeclared(cat, boot, change) && Proposed(cat, boot, change, db, versions)
    ensures var r := ApproveRequest(db, change.request.requestId, change.approver, now);
            var id := change.request.requestId;
            && r.Ok? && r.value.versions == versions && AllFits(r.value, cat, boot, change) && change.adr.id in r.value.adrs
            && id in r.value.requests && r.value.requests[id].requestId == id && r.value.requests[id].status.RequestApproved?
            && RequestContentMatches(r.value.requests[id], change.request)
  {
    hide Blank, PutAll, DeclarableAdrs, DeclarableRisks, OthersFit, AdrFits, AdrsFit;
    var all := AllAdrs(cat, boot, change);
    assert all[|all| - 1] == change.adr;
    var accepted := db.adrs[change.adr.id].(status := AdrAccepted, updatedAt := now);
    OneRow(db.adrs, accepted);
    var db' := ApproveRequest(db, change.request.requestId, change.approver, now).value;
    var row := if db.adrs[change.adr.id].status.AdrProposed? then accepted else db.adrs[change.adr.id];
    assert db'.adrs == db.adrs[change.adr.id := row];
    AcceptedFits(db, db', all, |all| - 1, row);
  }

  lemma ApplySucceeds(cat: Catalogue, boot: Boot, change: Declared, db: Db, seededAt: int, now: int)
    requires WellDeclared(cat, boot, change) && AllFits(db, cat, boot, change) && change.adr.id in db.adrs
    requires db.versions == map[boot.version := FirstVersion(boot, seededAt)]
    requires var id := change.request.requestId;
             id in db.requests && db.requests[id].requestId == id && db.requests[id].status.RequestApproved?
             && RequestContentMatches(db.requests[id], change.request)
    ensures ApplyRequest(cat, db, change.request.requestId, now).Ok?
  {
    hide Blank, AdrsEnsured, RisksRegistered, AdrsFit, RisksFit, DeclarableAdrs, DeclarableRisks;
    var id := change.request.requestId;
    var request := db.requests[id];
    LastFits(cat, boot, change, db);
    var spec := TargetSpec(cat, request, now);
    assert CurrentVersions(db.versions) == {boot.version};
    var rolled := RolledOver(db, spec, Some(boot.version)).value;
    var adrs, risks := AllAdrs(cat, boot, change), AllRisks(cat, boot, change);
    assert adrs[|boot.adrs|..|boot.adrs| + |cat.adrSpecs|] == cat.adrSpecs;
    assert risks[|boot.risks|..|risks|] == DeclaredRisks(cat, id);
    SameAdrsFit(db, rolled, adrs);
    AdrsCanBeEnsured(rolled, adrs, |boot.adrs|, |boot.adrs| + |cat.adrSpecs|, now);
    var introduced := Introduced(cat.adrSpecs, db, spec, Some(boot.version), now).value;
    SameRisksFit(db, introduced, risks);
    RisksCanBeRegistered(introduced, risks, |boot.risks|, |risks|, now);
    assert CurrentVersions(rolled.versions) == {request.targetVersion};
  }

  lemma LastFits(cat: Catalogue, boot: Boot, change: Declared, db: Db)
    requires AdrsFit(db, AllAdrs(cat, boot, change)) && change.adr.id in db.adrs
    ensures db.adrs[change.adr.id].status.AdrAccepted?
  {
    var all := AllAdrs(cat, boot, change);
    assert all[|all| - 1] == change.adr && AdrFits(db, all[|all| - 1]);
  }

  lemma SameRisksFit(a: Db, b: Db, specs: seq<RiskSpec>)
    requires RisksFit(a, specs) && b.risks == a.risks
    ensures RisksFit(b, specs)
  {
  }

  lemma UnusedStarts(cat: Catalogue, boot: Boot, change: Declared, db: Db, now: int)
    requires WellDeclared(cat, boot, change) && Unused(db)
    ensures StartPrefix(cat, boot, change, 4, db, now).1
  {
    hide Seeded, ProposeRequest, ApproveRequest, ApplyRequest, AllFits, Proposed, WellDeclared;
    SeedSucceeds(cat, boot, change, db, now);
    var seeded := Seeded(boot, db, now).value;
    assert StartPrefix(cat, boot, change, 1, db, now) == (seeded, true);
    ProposeSucceeds(cat, boot, change, seeded, now);
    var proposed := ProposeRequest(seeded, NewRequest(change, now), change.adr, now).value;
    assert StartPrefix(cat, boot, change, 2, db, now) == (proposed, true);
    ApproveSucceeds(cat, boot, change, proposed, seeded.versions, now);
    var approved := ApproveRequest(proposed, change.request.requestId, change.approver, now).value;
    assert StartPrefix(cat, boot, change, 3, db, now) == (approved, true);
    ApplySucceeds(cat, boot, change, approved, now, now);
  }

  lemma UnusedIsUninterrupted(cat: Catalogue, boot: Boot, change: Declared, db: Db)
    requires WellDeclared(cat, boot, change) && Unused(db)
    ensures EvoInv(db, false) && Fresh(change) && Declares(boot, change) && Uninterrupted(cat, boot, change, db)
  {
    hide EvoInv, StartPrefix, DeclarableAdrs, DeclarableRisks;
    EmptyStore(db, false);
    assert Unused(Timeless(db));
    UnusedStarts(cat, boot, change, Timeless(db), 0);
  }

  /**
    A first start-up always gets there: with a well-declared catalogue, any number of processes that
    crash between any two of the transactions, and then one that does not, bring an unused store to
    the declared baseline, with the change APPLIED and a further start-up writing nothing.
   */
  lemma FirstStartUpCompletes(cat: Catalogue, boot: Boot, change: Declared, db: Db, attempts: seq<Attempt>, now: int, later: int)
    requires WellDeclared(cat, boot, change) && Unused(db)
    requires forall i :: 0 <= i < |attempts| ==> attempts[i].k <= 4
    ensures var (done, fine) := StartPrefix(cat, boot, change, 4, Attempts(cat, boot, change, db, attempts), now);
            && fine && Timeless(done) == Milestone(cat, boot, change, db, 4)
            && change.request.requestId in done.requests && done.requests[change.request.requestId].status.RequestApplied?
            && CurrentVersions(done.versions) == {change.request.targetVersion}
            && StartPrefix(cat, boot, change, 4, done, later) == (done, true)
  {
    hide StartPrefix, EvoInv, Timeless, Fresh, Declares, Uninterrupted, Milestone, Attempts, WellDeclared, Unused;
    UnusedIsUninterrupted(cat, boot, change, db);
    var j := AttemptsReach(cat, boot, change, db, attempts);
    var before := Attempts(cat, boot, change, db, attempts);
    AttemptReaches(cat, boot, change, db, before, j, 4, now);
    var done := StartPrefix(cat, boot, change, 4, before, now).0;
    DoneNames(cat, boot, change, done);
    DonePrefix(cat, boot, change, 4, done, later);
  }

  lemma DoneNames(cat: Catalogue, boot: Boot, change: Declared, db: Db)
    requires DoneBelow(cat, boot, change, 4, db)
    ensures change.request.requestId in db.requests && db.requests[change.request.requestId].status.RequestApplied?
    ensures CurrentVersions(db.versions) == {change.request.targetVersion}
  {
    hide SeedDone, Blank, AdrsPresent;
  }
}
