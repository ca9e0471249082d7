/** The converse of FreshStart: only a well-declared catalogue starts an unused store. */
module FirstStart {
  import opened Basics
  import opened Store
  import opened Realization
  import opened Adrs
  import opened Versions
  import opened Requests
  import opened Bootstraps
  import opened EvolutionRuns
  import opened StartUp
  import opened FreshStart

  // -- whatever the start-up records is named ------------------------------------------------

  predicate NamedRow(id: string, row: Adr) {
    !Blank(id) && !Blank(row.text.title)
  }

  predicate ValidRow(id: string, row: Risk) {
    !Blank(id) && !Blank(row.text.description) && 0.0 <= row.text.probability <= 1.0
  }

  predicate NamedAdrs(adrs: map<string, Adr>) {
    forall id <- adrs :: NamedRow(id, adrs[id])
  }

  predicate ValidRisks(risks: map<string, Risk>) {
    forall id <- risks :: ValidRow(id, risks[id])
  }

  predicate AllNamed(db: Db) {
    NamedAdrs(db.adrs) && ValidRisks(db.risks)
  }

  lemma MovedAdrNamed(db: Db, id: string, target: AdrStatus, action: AdrAction, now: int)
    requires AllNamed(db) && MoveAdr(db, id, target, action, now).Ok? && db.adrs[id].id == id
    ensures AllNamed(MoveAdr(db, id, target, action, now).value)
  {
    hide Blank, PutAll;
    OneRow(db.adrs, db.adrs[id].(status := target, updatedAt := now));
    assert NamedRow(id, db.adrs[id]);
  }

  lemma ProposedAdrNamed(db: Db, id: string, text: AdrText, now: int)
    requires AllNamed(db) && ProposeAdr(db, id, text, now).Ok?
    ensures var db' := ProposeAdr(db, id, text, now).value;
            AllNamed(db') && id in db'.adrs && db'.adrs[id].id == id
  {
    hide Blank, PutAll;
    OneRow(db.adrs, Adr(id, text, AdrProposed, 1, None, now, now));
  }

  lemma {:induction false} EnsuredAdrsNamed(db: Db, specs: seq<AdrSpec>, now: int)
    requires AllNamed(db) && AdrsEnsured(db, specs, now).Ok?
    ensures AllNamed(AdrsEnsured(db, specs, now).value)
    decreases |specs|
  {
    hide AllNamed, ProposeAdr, MoveAdr;
    if specs != [] {
      EnsuredAdrsNamed(db, specs[..|specs| - 1], now);
      var before, last := AdrsEnsured(db, specs[..|specs| - 1], now).value, specs[|specs| - 1];
      if last.id !in before.adrs {
        ProposedAdrNamed(before, last.id, last.text, now);
        MovedAdrNamed(ProposeAdr(before, last.id, last.text, now).value, last.id, AdrAccepted, AdrAccept, now);
      }
    }
  }

  lemma {:induction false} RegisteredRisksNamed(db: Db, specs: seq<RiskSpec>, now: int)
    requires AllNamed(db) && RisksRegistered(db, specs, now).Ok?
    ensures AllNamed(RisksRegistered(db, specs, now).value)
    decreases |specs|
  {
    hide Blank;
    if specs != [] { RegisteredRisksNamed(db, specs[..|specs| - 1], now); }
  }

  lemma SameRowsNamed(db: Db, db': Db)
    requires AllNamed(db) && db'.adrs == db.adrs && db'.risks == db.risks
    ensures AllNamed(db')
  {
  }

  // -- the four transactions on an unused store -------------------------------------------------

  lemma SeedFromUnused(boot: Boot, db: Db, now: int)
    requires Unused(db) && Seeded(boot, db, now).Ok?
    ensures var db' := Seeded(boot, db, now).value;
            AllNamed(db') && db'.requests == map[] && db'.versions == map[boot.version := FirstVersion(boot, now)]
  {
    hide AdrsEnsured, RisksRegistered, Blank, Grows, AdrsPresent, RisksPresent;
    var projected := ProjectReconciled(db, NewProject(boot, now)).value;
    var versioned := VersionReconciled(projected, FirstVersion(boot, now)).value;
    EnsuredAdrsNamed(versioned, boot.adrs, now);
    AdrsEnsuredGrows(versioned, boot.adrs, now);
    var recorded := AdrsEnsured(versioned, boot.adrs, now).value;
    RegisteredRisksNamed(recorded, boot.risks, now);
    RisksRegisteredGrows(recorded, boot.risks, now);
  }

  /** Every record carries its own id. */
  predicate Keyed(db: Db) {
    forall id <- db.adrs :: db.adrs[id].id == id
  }

  lemma ProposeFromSeeded(change: Declared, db: Db, now: int)
    requires AllNamed(db) && Keyed(db) && db.requests == map[] && ProposeRequest(db, NewRequest(change, now), change.adr, now).Ok?
    ensures var db' := ProposeRequest(db, NewRequest(change, now), change.adr, now).value;
            && AllNamed(db') && Keyed(db') && db'.versions == db.versions
            && db'.requests == map[change.request.requestId := NewRequest(change, now)]
  {
    hide AllNamed, Blank, PutAll;
    var noted := WithRequest(db, NewRequest(change, now), now);
    SameRowsNamed(db, noted);
    if change.adr.id !in db.adrs {
      ProposedAdrNamed(noted, change.adr.id, change.adr.text, now);
      OneRow(db.adrs, Adr(change.adr.id, change.adr.text, AdrProposed, 1, None, now, now));
    }
  }

  lemma ApproveFromProposed(change: Declared, db: Db, now: int)
    requires AllNamed(db) && Keyed(db) && db.requests == map[change.request.requestId := NewRequest(change, now)]
    requires change.request.status.RequestProposed?
    requires ApproveRequest(db, change.request.requestId, change.approver, now).Ok?
    ensures var db' := ApproveRequest(db, change.request.requestId, change.approver, now).value;
            && AllNamed(db') && db'.versions == db.versions
            && db'.requests == map[change.request.requestId := ApprovedRequest(NewRequest(change, now), change.approver, now)]
  {
    hide AllNamed, Blank, MoveAdr;
    var request := NewRequest(change, now);
    var put := PutRequestRow(db, ApprovedRequest(request, change.approver, now));
    SameRowsNamed(db, put);
    var linked := LinkedAdrAccepted(put, request.adrId, now).value;
    if db.adrs[request.adrId].status.AdrProposed? {
      MovedAdrNamed(put, request.adrId, AdrAccepted, AdrAccept, now);
      MovedKeeps(put, request.adrId, AdrAccepted, AdrAccept, now);
    }
    SameRowsNamed(linked, ApproveRequest(db, change.request.requestId, change.approver, now).value);
  }

  lemma MovedKeeps(db: Db, id: string, target: AdrStatus, action: AdrAction, now: int)
    requires MoveAdr(db, id, target, action, now).Ok?
    ensures var db' := MoveAdr(db, id, target, action, now).value;
            db'.versions == db.versions && db'.requests == db.requests
  {
  }

  lemma ApplyFromApproved(cat: Catalogue, boot: Boot, change: Declared, db: Db, now: int)
    requires AllNamed(db) && db.versions == map[boot.version := FirstVersion(boot, now)]
    requires db.requests == map[change.request.requestId := ApprovedRequest(NewRequest(change, now), change.approver, now)]
    requires ApplyRequest(cat, db, change.request.requestId, now).Ok?
    ensures var db' := ApplyRequest(cat, db, change.request.requestId, now).value;
            AllNamed(db') && RisksPresent(db', DeclaredRisks(cat, change.request.requestId))
    ensures change.request.sourceVersion == boot.version && change.request.targetVersion != boot.version
    ensures ApplyRequest(cat, db, change.request.requestId, now).value.versions.Keys == {boot.version, change.request.targetVersion}
  {
    hide AllNamed, Blank, AdrsEnsured, RisksRegistered, Grows, RisksPresent, AdrsPresent;
    var id := change.request.requestId;
    var request := db.requests[id];
    var spec := TargetSpec(cat, request, now);
    var rolled := RolledOver(db, spec, Some(request.sourceVersion)).value;
    SameRowsNamed(db, rolled);
    EnsuredAdrsNamed(rolled, cat.adrSpecs, now);
    AdrsEnsuredGrows(rolled, cat.adrSpecs, now);
    var introduced := Introduced(cat.adrSpecs, db, spec, Some(request.sourceVersion), now).value;
    RegisteredRisksNamed(introduced, DeclaredRisks(cat, id), now);
    RisksRegisteredGrows(introduced, DeclaredRisks(cat, id), now);
    var registered := RisksRegistered(introduced, DeclaredRisks(cat, id), now).value;
    var applied := ApplyRequest(cat, db, id, now).value;
    SameRowsNamed(registered, applied);
    SameRisksPresent(registered, applied, DeclaredRisks(cat, id));
  }

  lemma SameRisksPresent(db: Db, db': Db, specs: seq<RiskSpec>)
    requires RisksPresent(db, specs) && db'.risks == db.risks
    ensures RisksPresent(db', specs)
  {
  }

  // -- what a completed first start-up says about the catalogue ------------------------------------

  lemma PresentIsDeclarable(db: Db, specs: seq<AdrSpec>)
    requires AllNamed(db)
    requires forall i :: 0 <= i < |specs| ==> specs[i].id in db.adrs && db.adrs[specs[i].id].text == specs[i].text
    ensures DeclarableAdrs(specs)
  {
    hide Blank;
    forall i | 0 <= i < |specs|
      ensures NamedAdr(specs[i])
    {
      assert NamedRow(specs[i].id, db.adrs[specs[i].id]);
    }
  }

  lemma PresentRisksAreDeclarable(db: Db, specs: seq<RiskSpec>)
    requires AllNamed(db) && RisksPresent(db, specs)
    ensures DeclarableRisks(specs)
  {
    hide Blank;
    forall i | 0 <= i < |specs|
      ensures ValidRisk(specs[i])
    {
      assert ValidRow(specs[i].id, db.risks[specs[i].id]);
    }
  }

  lemma SeedKeyed(boot: Boot, db: Db, now: int)
    requires Unused(db) && Seeded(boot, db, now).Ok?
    ensures Keyed(Seeded(boot, db, now).value)
  {
    hide EvoInv, Seeded;
    EmptyStore(db, false);
    SeedForward(boot, db, now, false);
    forall id | id in Seeded(boot, db, now).value.adrs
      ensures Seeded(boot, db, now).value.adrs[id].id == id
    {
      Keys(Seeded(boot, db, now).value, id);
    }
  }

  /** What the four transactions of a completed first start-up leave on record. */
  lemma Trace(cat: Catalogue, boot: Boot, change: Declared, db: Db, now: int)
    requires Unused(db) && StartPrefix(cat, boot, change, 4, db, now).1
    ensures var done := StartPrefix(cat, boot, change, 4, db, now).0;
            && AllNamed(done) && RisksPresent(done, DeclaredRisks(cat, change.request.requestId))
            && done.versions.Keys == {boot.version, change.request.targetVersion}
    ensures change.request.status.RequestProposed?
    ensures change.request.sourceVersion == boot.version && change.request.targetVersion != boot.version
  {
    hide Seeded, ProposeRequest, ApproveRequest, ApplyRequest, AllNamed, Keyed, RisksPresent, Unused;
    assert StartPrefix(cat, boot, change, 3, db, now).1 && StartPrefix(cat, boot, change, 2, db, now).1
           && StartPrefix(cat, boot, change, 1, db, now).1;
    SeedFromUnused(boot, db, now);
    SeedKeyed(boot, db, now);
    var seeded := Seeded(boot, db, now).value;
    assert StartPrefix(cat, boot, change, 1, db, now) == (seeded, true);
    ProposeFromSeeded(change, seeded, now);
    ProposedFresh(change, seeded, now);
    var proposed := ProposeRequest(seeded, NewRequest(change, now), change.adr, now).value;
    assert StartPrefix(cat, boot, change, 2, db, now) == (proposed, true);
    ApproveFromProposed(change, proposed, now);
    var approved := ApproveRequest(proposed, change.request.requestId, change.approver, now).value;
    assert StartPrefix(cat, boot, change, 3, db, now) == (approved, true);
    ApplyFromApproved(cat, boot, change, approved, now);
  }

  lemma ProposedFresh(change: Declared, db: Db, now: int)
    requires ProposeRequest(db, NewRequest(change, now), change.adr, now).Ok?
    ensures change.request.status.RequestProposed?
  {
    hide Blank;
  }

  lemma DoneIsDeclared(cat: Catalogue, boot: Boot, change: Declared, db: Db)
    requires AllNamed(db) && DoneBelow(cat, boot, change, 4, db) && RisksPresent(db, DeclaredRisks(cat, change.request.requestId))
    requires Declares(boot, change) && change.request.targetVersion != boot.version
    ensures WellDeclared(cat, boot, change)
  {
    hide Blank, AllNamed, DeclarableAdrs, DeclarableRisks;
    PresentIsDeclarable(db, AllAdrs(cat, boot, change));
    PresentRisksAreDeclarable(db, AllRisks(cat, boot, change));
  }

  /**
    The exact condition for a first start-up: on an unused store it succeeds if and only if the
    catalogue is well declared. (A freshly built request carries no approval.)
   */
  lemma FirstStartUpIffDeclared(cat: Catalogue, boot: Boot, change: Declared, db: Db, now: int)
    requires Unused(db) && WellFormedCall(ProposeCall(change.request, change.adr))
    ensures StartPrefix(cat, boot, change, 4, db, now).1 <==> WellDeclared(cat, boot, change)
  {
    hide StartPrefix, EvoInv, AllNamed, DoneBelow, WellDeclared, RisksPresent, Unused;
    if WellDeclared(cat, boot, change) {
      UnusedStarts(cat, boot, change, db, now);
    }
    if StartPrefix(cat, boot, change, 4, db, now).1 {
      Trace(cat, boot, change, db, now);
      UnusedIsEmpty(db);
      PrefixAdvances(cat, boot, change, 4, db, now);
      DoneIsDeclared(cat, boot, change, StartPrefix(cat, boot, change, 4, db, now).0);
    }
  }

  lemma UnusedIsEmpty(db: Db)
    requires Unused(db)
    ensures EvoInv(db, false)
  {
    EmptyStore(db, false);
  }
}
