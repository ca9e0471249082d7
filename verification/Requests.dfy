/**
  The change-request lifecycle (application/architecture_evolution.py): propose, approve, reject and
  apply over the version chain, the decision records and the risk register, all in nested transactions.
 */
module Requests {
  import opened Basics
  import opened Store
  import opened Transactions
  import opened Connections
  import opened Realization
  import opened Adrs
  import opened Versions

  datatype RiskSpec = RiskSpec(id: string, text: RiskText)

  /** What the code side declares: its baselines, the risks of each change, and the records of a roll-over. */
  datatype Catalogue = Catalogue(
    canonical: map<string, Version>, declaredRisks: map<string, seq<RiskSpec>>, adrSpecs: seq<AdrSpec>)

  predicate RequestContentMatches(existing: Request, spec: Request) {
    && existing.requestId == spec.requestId && existing.title == spec.title && existing.rationale == spec.rationale
    && existing.sourceVersion == spec.sourceVersion && existing.targetVersion == spec.targetVersion
    && existing.ruleIds == spec.ruleIds && existing.adrId == spec.adrId && existing.roadmapImpact == spec.roadmapImpact
  }

  predicate RiskMatches(existing: Risk, spec: RiskSpec) {
    existing.text == spec.text && existing.open
  }

  // -- linked decision records -----------------------------------------------------------

  function LinkedAdrVerified(db: Db, id: string, spec: AdrSpec): Option<string> {
    if id !in db.adrs then Some("linked-adr-missing")
    else if db.adrs[id].text != spec.text then Some("linked-adr-differs")
    else if db.adrs[id].status.AdrRejected? || db.adrs[id].status.AdrSuperseded? then Some("linked-adr-closed")
    else None
  }

  function AdrProposedFor(db: Db, spec: AdrSpec, now: int): Result<Db, string> {
    if spec.id !in db.adrs then ProposeAdr(db, spec.id, spec.text, now)
    else
      match LinkedAdrVerified(db, spec.id, spec)
      case Some(e) => Err(e)
      case None => Ok(db)
  }

  function LinkedAdrAccepted(db: Db, id: string, now: int): Result<Db, string> {
    if id !in db.adrs then Err("linked-adr-missing")
    else if db.adrs[id].status.AdrProposed? then AcceptAdr(db, id, now)
    else if !db.adrs[id].status.AdrAccepted? then Err("linked-adr-not-acceptable")
    else Ok(db)
  }

  function LinkedAdrRejected(db: Db, id: string, now: int): Result<Db, string> {
    if id !in db.adrs then Err("linked-adr-missing")
    else if db.adrs[id].status.AdrRejected? then Ok(db)
    else if !db.adrs[id].status.AdrProposed? then Err("linked-adr-not-rejectable")
    else RejectAdr(db, id, now)
  }

  // -- risks --------------------------------------------------------------------------------

  function RiskRegistered(db: Db, spec: RiskSpec, now: int): Result<Db, string> {
    if spec.id in db.risks then (if RiskMatches(db.risks[spec.id], spec) then Ok(db) else Err("risk-differs"))
    else if Blank(spec.id) || Blank(spec.text.description) || !(0.0 <= spec.text.probability <= 1.0) then Err("risk-invalid")
    else Ok(db.(risks := db.risks[spec.id := Risk(spec.id, spec.text, true, now)], audit := db.audit + [RiskEntry(spec.id, now)]))
  }

  function RisksRegistered(db: Db, specs: seq<RiskSpec>, now: int): Result<Db, string> {
    if specs == [] then Ok(db)
    else
      match RisksRegistered(db, specs[..|specs| - 1], now)
      case Err(e) => Err(e)
      case Ok(before) => RiskRegistered(before, specs[|specs| - 1], now)
  }

  // -- the four lifecycle operations -----------------------------------------------------------

  function WithRequest(db: Db, request: Request, now: int): Db {
    db.(requests := db.requests[request.requestId := request], audit := db.audit + [RequestEntry(request.requestId, request.status, now)])
  }

  function ProposeRequest(db: Db, request: Request, adr: AdrSpec, now: int): Result<Db, string> {
    if !request.status.RequestProposed? then Err("request-not-fresh")
    else if request.adrId != adr.id then Err("request-links-other-adr")
    else if request.requestId in db.requests then
      if !RequestContentMatches(db.requests[request.requestId], request) then Err("request-differs")
      else
        match LinkedAdrVerified(db, adr.id, adr)
        case Some(e) => Err(e)
        case None => Ok(db)
    else AdrProposedFor(WithRequest(db, request, now), adr, now)
  }

  /** The request is written first, its record next, its entry last. */
  function Recorded(adrs: Result<Db, string>, request: Request, now: int): Result<Db, string> {
    match adrs
    case Err(e) => Err(e)
    case Ok(linked) => Ok(linked.(audit := linked.audit + [RequestEntry(request.requestId, request.status, now)]))
  }

  function PutRequestRow(db: Db, request: Request): Db {
    db.(requests := db.requests[request.requestId := request])
  }

  function ApprovedRequest(request: Request, approver: string, now: int): Request {
    request.(status := RequestApproved, approvedBy := Some(approver), approvedAt := Some(now))
  }

  function ApproveRequest(db: Db, id: string, approver: string, now: int): Result<Db, string> {
    if Blank(approver) then Err("approver-required")
    else if Blank(id) then Err("request-id-required")
    else if id !in db.requests then Err("request-not-found")
    else
      var request := db.requests[id];
      match request.status
      case RequestApplied => Ok(db)
      case RequestRejected => Err("request-rejected")
      case RequestApproved => if request.approvedBy == Some(approver) then Ok(db) else Err("request-approved-by-other")
      case RequestProposed =>
        var approved := ApprovedRequest(request, approver, now);
        Recorded(LinkedAdrAccepted(PutRequestRow(db, approved), request.adrId, now), approved, now)
  }

  function RejectRequest(db: Db, id: string, reason: string, now: int): Result<Db, string> {
    if Blank(reason) then Err("reason-required")
    else if Blank(id) then Err("request-id-required")
    else if id !in db.requests then Err("request-not-found")
    else
      var request := db.requests[id];
      match request.status
      case RequestRejected => Ok(db)
      case RequestProposed =>
        var rejected := request.(status := RequestRejected);
        Recorded(LinkedAdrRejected(PutRequestRow(db, rejected), request.adrId, now), rejected, now)
      case _ => Err("request-not-proposed")
  }

  /** The single current baseline is the expected one. */
  predicate SingleCurrent(db: Db, version: string) {
    CurrentVersions(db.versions) == {version}
  }

  function TargetSpec(cat: Catalogue, request: Request, now: int): Version
    requires request.targetVersion in cat.canonical
  {
    var canonical := cat.canonical[request.targetVersion];
    Version(request.targetVersion, canonical.baseline, canonical.rules, None, true, now)
  }

  /** Whether an apply may be attempted at all; read from the store before any transaction. */
  function ApplyRefused(cat: Catalogue, db: Db, id: string): Option<string> {
    if Blank(id) then Some("request-id-required")
    else if id !in db.requests then Some("request-not-found")
    else
      var request := db.requests[id];
      if !request.status.RequestApproved? && !request.status.RequestApplied? then Some("request-not-approved")
      else if request.targetVersion !in cat.canonical then Some("target-not-declared")
      else if request.ruleIds != cat.canonical[request.targetVersion].rules then Some("rules-differ")
      else if request.adrId !in db.adrs then Some("linked-adr-missing")
      else if !db.adrs[request.adrId].status.AdrAccepted? then Some("linked-adr-not-accepted")
      else None
  }

  function ApplyRequest(cat: Catalogue, db: Db, id: string, now: int): Result<Db, string> {
    match ApplyRefused(cat, db, id)
    case Some(e) => Err(e)
    case None =>
      var request := db.requests[id];
      var spec := TargetSpec(cat, request, now);
      if request.status.RequestApplied? then VerifyApplied(cat, db, request, spec, now)
      else ApplyApproved(cat, db, request, spec, now)
  }

  function AppliedRequest(request: Request, now: int): Request {
    request.(status := RequestApplied, appliedAt := Some(now))
  }

  /** The supersession, the declared risks, the request and its entry, with the postcondition re-read at the end. */
  function ApplyApproved(cat: Catalogue, db: Db, request: Request, spec: Version, now: int): Result<Db, string> {
    if |CurrentVersions(db.versions)| != 1 then Err("baseline-not-single")
    else
      match Introduced(cat.adrSpecs, db, spec, Some(request.sourceVersion), now)
      case Err(e) => Err(e)
      case Ok(introduced) =>
        match RisksRegistered(introduced, DeclaredRisks(cat, request.requestId), now)
        case Err(e) => Err(e)
        case Ok(registered) =>
          var applied := WithRequest(registered, AppliedRequest(request, now), now);
          if SingleCurrent(applied, request.targetVersion) then Ok(applied) else Err("postcondition-failed")
  }

  function DeclaredRisks(cat: Catalogue, id: string): seq<RiskSpec> {
    if id in cat.declaredRisks then cat.declaredRisks[id] else []
  }

  /** A repeated apply verifies that its change still heads the chain, and asks the roll-over again. */
  function VerifyApplied(cat: Catalogue, db: Db, request: Request, spec: Version, now: int): Result<Db, string> {
    if !SingleCurrent(db, request.targetVersion) then Err("target-not-current")
    else if request.sourceVersion !in db.versions
            || db.versions[request.sourceVersion].supersededBy != Some(request.targetVersion) then Err("source-not-superseded")
    else Introduced(cat.adrSpecs, db, spec, Some(request.sourceVersion), now)
  }

  lemma RisksSnoc(db: Db, specs: seq<RiskSpec>, i: nat, now: int)
    requires i < |specs| && RisksRegistered(db, specs[..i], now).Ok?
    ensures RisksRegistered(db, specs[..i + 1], now) == RiskRegistered(RisksRegistered(db, specs[..i], now).value, specs[i], now)
  {
    assert specs[..i + 1][..i] == specs[..i];
  }

  lemma {:induction false} RiskConflictStays(db: Db, specs: seq<RiskSpec>, i: nat, now: int)
    requires i <= |specs| && RisksRegistered(db, specs[..i], now).Err?
    ensures RisksRegistered(db, specs, now) == RisksRegistered(db, specs[..i], now)
    decreases |specs| - i
  {
    if i == |specs| {
      assert specs[..i] == specs;
    } else {
      assert specs[..i + 1][..i] == specs[..i];
      RiskConflictStays(db, specs, i + 1, now);
    }
  }

  /** One risk row and its audit entry, in one scope. */
  method Register(storage: Connection, risk: Risk, now: int)
    requires storage.Valid()
    modifies storage, storage.journal
    ensures Did(storage, Ok(old(storage.working).(risks := old(storage.working).risks[risk.id := risk],
                                                  audit := old(storage.working).audit + [RiskEntry(risk.id, now)])))
  {
    hide ExecDb, RowsKeyed;
    storage.Enter();
    storage.ExecuteWrite(PutRisk(risk));
    storage.ExecuteWrite(Append(RiskEntry(risk.id, now)));
    storage.Leave(false);
  }

  /** The risk register, as far as a declared risk needs it (application/risk_manager.py). */
  method EnsureRisk(storage: Connection, spec: RiskSpec, now: int) returns (r: Result<(), string>)
    requires storage.Valid() && storage.depth > 0
    modifies storage, storage.journal
    ensures var outcome := RiskRegistered(old(storage.working), spec, now);
            Did(storage, outcome) && SameOutcome(r, outcome)
  {
    var risks := storage.working.risks;
    if spec.id in risks {
      return if RiskMatches(risks[spec.id], spec) then Ok(()) else Err("risk-differs");
    }
    if Blank(spec.id) || Blank(spec.text.description) || !(0.0 <= spec.text.probability <= 1.0) { return Err("risk-invalid"); }
    Register(storage, Risk(spec.id, spec.text, true, now), now);
    r := Ok(());
  }

  method EnsureRisks(storage: Connection, specs: seq<RiskSpec>, now: int) returns (r: Result<(), string>)
    requires storage.Valid() && storage.depth > 0
    modifies storage, storage.journal
    ensures var outcome := RisksRegistered(old(storage.working), specs, now);
            Did(storage, outcome) && SameOutcome(r, outcome)
  {
    hide RiskRegistered, RowsKeyed, ExecDb;
    ghost var start := storage.working;
    for i := 0 to |specs|
      invariant storage.Valid() && storage.depth == old(storage.depth)
      invariant storage.committed == old(storage.committed) && storage.history == old(storage.history)
      invariant RisksRegistered(start, specs[..i], now) == Ok(storage.working)
    {
      RisksSnoc(start, specs, i, now);
      var ensured := EnsureRisk(storage, specs[i], now);
      if ensured.Err? {
        RiskConflictStays(start, specs, i + 1, now);
        return Err(ensured.error);
      }
    }
    assert specs[..|specs|] == specs;
    r := Ok(());
  }

  class ArchitectureEvolution {
    const storage: Connection
    const cat: Catalogue
    const versioning: ArchitectureVersioning
    const adrManager: ADRManager

    constructor (storage: Connection, cat: Catalogue, versioning: ArchitectureVersioning, adrManager: ADRManager)
      requires versioning.storage == storage && versioning.adrManager.storage == storage && versioning.adrSpecs == cat.adrSpecs
      requires adrManager.storage == storage
      ensures this.storage == storage && this.cat == cat && this.versioning == versioning && this.adrManager == adrManager
    {
      this.storage, this.cat, this.versioning, this.adrManager := storage, cat, versioning, adrManager;
    }

    ghost predicate Valid()
      reads this, storage
    {
      && storage.Valid() && adrManager.storage == storage
      && versioning.storage == storage && versioning.adrManager.storage == storage && versioning.adrSpecs == cat.adrSpecs
    }

    method Propose(request: Request, adr: AdrSpec, now: int) returns (r: Result<(), string>)
      requires Valid() && storage.depth == 0
      modifies storage, storage.journal
      ensures Valid()
      ensures var outcome := ProposeRequest(old(storage.working), request, adr, now);
              Did(storage, outcome) && SameOutcome(r, outcome)
    {
      hide ExecDb, RowsKeyed;
      if !request.status.RequestProposed? { return Err("request-not-fresh"); }
      if request.adrId != adr.id { return Err("request-links-other-adr"); }
      var requests := storage.working.requests;
      if request.requestId in requests {
        if !RequestContentMatches(requests[request.requestId], request) { return Err("request-differs"); }
        var refused := LinkedAdrVerified(storage.working, adr.id, adr);
        return if refused.Some? then Err(refused.value) else Ok(());
      }
      storage.Enter();
      storage.ExecuteWrite(PutRequest(request));
      storage.ExecuteWrite(Append(RequestEntry(request.requestId, request.status, now)));
      r := EnsureAdrProposed(adr, now);
      storage.Leave(r.Err?);
    }

    method EnsureAdrProposed(adr: AdrSpec, now: int) returns (r: Result<(), string>)
      requires Valid() && storage.depth > 0
      modifies storage, storage.journal
      ensures Valid()
      ensures var outcome := AdrProposedFor(old(storage.working), adr, now);
              Did(storage, outcome) && SameOutcome(r, outcome)
    {
      if adr.id !in storage.working.adrs {
        var proposed := adrManager.Propose(adr.id, adr.text, now);
        return if proposed.Ok? then Ok(()) else Err(proposed.error);
      }
      var refused := LinkedAdrVerified(storage.working, adr.id, adr);
      r := if refused.Some? then Err(refused.value) else Ok(());
    }

    /** The recorded human approval: the request APPROVED and its record ACCEPTED, together. */
    method Approve(id: string, approver: string, now: int) returns (r: Result<(), string>)
      requires Valid() && storage.depth == 0
      modifies storage, storage.journal
      ensures Valid()
      ensures var outcome := ApproveRequest(old(storage.working), id, approver, now);
              Did(storage, outcome) && SameOutcome(r, outcome)
    {
      hide ExecDb, RowsKeyed, Blank;
      if Blank(approver) { return Err("approver-required"); }
      if Blank(id) { return Err("request-id-required"); }
      if id !in storage.working.requests { return Err("request-not-found"); }
      var request := storage.working.requests[id];
      match request.status
      case RequestApplied => return Ok(());
      case RequestRejected => return Err("request-rejected");
      case RequestApproved =>
        return if request.approvedBy == Some(approver) then Ok(()) else Err("request-approved-by-other");
      case RequestProposed =>
        var approved := ApprovedRequest(request, approver, now);
        storage.Enter();
        storage.ExecuteWrite(PutRequest(approved));
        r := AcceptLinkedAdr(request.adrId, now);
        if r.Ok? {
          storage.ExecuteWrite(Append(RequestEntry(approved.requestId, approved.status, now)));
        }
        storage.Leave(r.Err?);
    }

    method AcceptLinkedAdr(id: string, now: int) returns (r: Result<(), string>)
      requires Valid() && storage.depth > 0
      modifies storage, storage.journal
      ensures Valid()
      ensures var outcome := LinkedAdrAccepted(old(storage.working), id, now);
              Did(storage, outcome) && SameOutcome(r, outcome)
    {
      var adrs := storage.working.adrs;
      if id !in adrs { return Err("linked-adr-missing"); }
      if adrs[id].status.AdrProposed? {
        var accepted := adrManager.Accept(id, now);
        return if accepted.Ok? then Ok(()) else Err(accepted.error);
      }
      r := if adrs[id].status.AdrAccepted? then Ok(()) else Err("linked-adr-not-acceptable");
    }

    /** The request REJECTED and its record REJECTED, together; the baseline is untouched. */
    method Reject(id: string, reason: string, now: int) returns (r: Result<(), string>)
      requires Valid() && storage.depth == 0
      modifies storage, storage.journal
      ensures Valid()
      ensures var outcome := RejectRequest(old(storage.working), id, reason, now);
              Did(storage, outcome) && SameOutcome(r, outcome)
    {
      hide ExecDb, RowsKeyed, Blank;
      if Blank(reason) { return Err("reason-required"); }
      if Blank(id) { return Err("request-id-required"); }
      if id !in storage.working.requests { return Err("request-not-found"); }
      var request := storage.working.requests[id];
      if request.status.RequestRejected? { return Ok(()); }
      if !request.status.RequestProposed? { return Err("request-not-proposed"); }
      var rejected := request.(status := RequestRejected);
      storage.Enter();
      storage.ExecuteWrite(PutRequest(rejected));
      r := RejectLinkedAdr(request.adrId, now);
      if r.Ok? {
        storage.ExecuteWrite(Append(RequestEntry(rejected.requestId, rejected.status, now)));
      }
      storage.Leave(r.Err?);
    }

    method RejectLinkedAdr(id: string, now: int) returns (r: Result<(), string>)
      requires Valid() && storage.depth > 0
      modifies storage, storage.journal
      ensures Valid()
      ensures var outcome := LinkedAdrRejected(old(storage.working), id, now);
              Did(storage, outcome) && SameOutcome(r, outcome)
    {
      var adrs := storage.working.adrs;
      if id !in adrs { return Err("linked-adr-missing"); }
      if adrs[id].status.AdrRejected? { return Ok(()); }
      if !adrs[id].status.AdrProposed? { return Err("linked-adr-not-rejectable"); }
      var rejected := adrManager.Reject(id, now);
      r := if rejected.Ok? then Ok(()) else Err(rejected.error);
    }

    /** Applies an approved change, or re-verifies an applied one. */
    method Apply(id: string, now: int) returns (r: Result<(), string>)
      requires Valid() && storage.depth == 0
      modifies storage, storage.journal
      ensures Valid()
      ensures var outcome := ApplyRequest(cat, old(storage.working), id, now);
              Did(storage, outcome) && SameOutcome(r, outcome)
    {
      hide ExecDb, RowsKeyed, Blank, Introduced, RisksRegistered;
      var refused := ApplyRefused(cat, storage.working, id);
      if refused.Some? { return Err(refused.value); }
      var request := storage.working.requests[id];
      var spec := TargetSpec(cat, request, now);
      if request.status.RequestApplied? {
        r := Verify(request, spec, now);
        return;
      }
      storage.Enter();
      r := ApplyInside(request, spec, now);
      storage.Leave(r.Err?);
    }

    /** The body of the applying transaction. */
    method ApplyInside(request: Request, spec: Version, now: int) returns (r: Result<(), string>)
      requires Valid() && storage.depth > 0
      modifies storage, storage.journal
      ensures Valid()
      ensures var outcome := ApplyApproved(cat, old(storage.working), request, spec, now);
              Did(storage, outcome) && SameOutcome(r, outcome)
    {
      hide ExecDb, RowsKeyed, Introduced, RisksRegistered, CurrentVersions, AppliedRequest, DeclaredRisks;
      if |CurrentVersions(storage.working.versions)| != 1 { return Err("baseline-not-single"); }
      r := versioning.Introduce(spec, Some(request.sourceVersion), now);
      if r.Err? { return; }
      r := EnsureRisks(storage, DeclaredRisks(cat, request.requestId), now);
      if r.Err? { return; }
      var applied := AppliedRequest(request, now);
      storage.ExecuteWrite(PutRequest(applied));
      storage.ExecuteWrite(Append(RequestEntry(applied.requestId, applied.status, now)));
      r := if SingleCurrent(storage.working, request.targetVersion) then Ok(()) else Err("postcondition-failed");
    }

    method Verify(request: Request, spec: Version, now: int) returns (r: Result<(), string>)
      requires Valid() && storage.depth == 0
      modifies storage, storage.journal
      ensures Valid()
      ensures var outcome := VerifyApplied(cat, old(storage.working), request, spec, now);
              Did(storage, outcome) && SameOutcome(r, outcome)
    {
      hide ExecDb, RowsKeyed, Introduced;
      if !SingleCurrent(storage.working, request.targetVersion) { return Err("target-not-current"); }
      var versions := storage.working.versions;
      if request.sourceVersion !in versions || versions[request.sourceVersion].supersededBy != Some(request.targetVersion) {
        return Err("source-not-superseded");
      }
      r := versioning.Introduce(spec, Some(request.sourceVersion), now);
    }
  }
}
