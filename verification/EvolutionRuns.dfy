/** Whole histories of baseline evolution: any sequence of calls, raising ones included. */
module EvolutionRuns {
  import opened Basics
  import opened Store
  import opened Connections
  import opened Adrs
  import opened AdrHistory
  import opened Versions
  import opened VersionChain
  import opened Requests
  import opened Bootstraps

  datatype EvoCall =
    | SeedCall(boot: Boot)
    | IntroduceCall(adrSpecs: seq<AdrSpec>, spec: Version, supersedes: Option<string>)
    | ProposeCall(request: Request, adr: AdrSpec)
    | ApproveCall(id: string, approver: string)
    | RejectCall(id: string, reason: string)
    | ApplyCall(cat: Catalogue, id: string)
    | AdrProposeCall(id: string, text: AdrText)
    | AdrAcceptCall(id: string)
    | AdrRejectCall(id: string)
    | AdrDeprecateCall(id: string)
    | AdrAmendCall(id: string, changes: AdrChanges)
    | AdrSupersedeCall(id: string, successorId: string)

  datatype Timed = Timed(call: EvoCall, now: int)

  /** What the records' constructors already guarantee of an argument. */
  predicate WellFormedCall(call: EvoCall) {
    match call
    case IntroduceCall(_, spec, _) => spec.supersededBy.Some? ==> !spec.isCurrent
    case ProposeCall(request, _) =>
      request.status.RequestProposed? ==>
        request.approvedBy.None? && request.approvedAt.None? && request.appliedAt.None?
    case _ => true
  }

  /** A call of the evolution engine, the versioning primitive or the bootstrap, or one that only adds to the records. */
  predicate EngineCall(call: EvoCall) {
    !call.AdrDeprecateCall? && !call.AdrSupersedeCall?
  }

  ghost function EvoOutcome(db: Db, t: Timed): Result<Db, string> {
    match t.call
    case SeedCall(boot) => Seeded(boot, db, t.now)
    case IntroduceCall(adrSpecs, spec, supersedes) => Introduced(adrSpecs, db, spec, supersedes, t.now)
    case ProposeCall(request, adr) => ProposeRequest(db, request, adr, t.now)
    case ApproveCall(id, approver) => ApproveRequest(db, id, approver, t.now)
    case RejectCall(id, reason) => RejectRequest(db, id, reason, t.now)
    case ApplyCall(cat, id) => ApplyRequest(cat, db, id, t.now)
    case AdrProposeCall(id, text) => ProposeAdr(db, id, text, t.now)
    case AdrAcceptCall(id) => AcceptAdr(db, id, t.now)
    case AdrRejectCall(id) => RejectAdr(db, id, t.now)
    case AdrDeprecateCall(id) => DeprecateAdr(db, id, t.now)
    case AdrAmendCall(id, changes) => AmendAdr(db, id, changes, t.now)
    case AdrSupersedeCall(id, successorId) => SupersedeAdr(db, id, successorId, t.now)
  }

  /** A raising call leaves the store as it was. */
  ghost function EvoRun(db: Db, calls: seq<Timed>): Db {
    if calls == [] then db
    else
      var before := EvoRun(db, calls[..|calls| - 1]);
      match EvoOutcome(before, calls[|calls| - 1])
      case Err(_) => before
      case Ok(after) => after
  }

  // -- coupling ----------------------------------------------------------------------------

  /** The record stands behind its request: accepted, or, when records are retired on their own, accepted once. */
  predicate InForce(status: AdrStatus, strict: bool) {
    status.AdrAccepted? || (!strict && (status.AdrDeprecated? || status.AdrSuperseded?))
  }

  /** Request, record and baseline agree. */
  ghost predicate RequestOk(db: Db, r: Request, strict: bool) {
    && r.adrId in db.adrs
    && (r.status.RequestApproved? || r.status.RequestApplied? ==> InForce(db.adrs[r.adrId].status, strict))
    && (r.status.RequestRejected? ==> db.adrs[r.adrId].status.AdrRejected?)
    && (r.approvedBy.Some? <==> (r.status.RequestApproved? || r.status.RequestApplied?))
    && (r.appliedAt.Some? <==> r.status.RequestApplied?)
    && (r.status.RequestApplied? ==>
          && r.sourceVersion in db.versions && r.targetVersion in db.versions
          && db.versions[r.sourceVersion].supersededBy == Some(r.targetVersion)
          && db.versions[r.targetVersion].rules == r.ruleIds)
  }

  ghost predicate Coupled(db: Db, strict: bool) {
    forall id <- db.requests :: db.requests[id].requestId == id && RequestOk(db, db.requests[id], strict)
  }

  ghost predicate EvoInv(db: Db, strict: bool) {
    LinearChain(db.versions) && AdrInv(db) && Coupled(db, strict)
  }

  /** No record is lost, none leaves force, none is revived. */
  ghost predicate RecordsKept(db: Db, db': Db, strict: bool) {
    forall id <- db.adrs ::
      && id in db'.adrs
      && (InForce(db.adrs[id].status, strict) ==> InForce(db'.adrs[id].status, strict))
      && (db.adrs[id].status.AdrRejected? ==> db'.adrs[id].status.AdrRejected?)
  }

  /** One step of history: the records and the versions only move forward, and stay well formed. */
  ghost predicate Forward(db: Db, db': Db, strict: bool) {
    RecordsKept(db, db', strict) && AdrInv(db') && Frozen(db.versions, db'.versions) && LinearChain(db'.versions)
  }

  lemma ForwardTransitive(a: Db, b: Db, c: Db, strict: bool)
    requires Forward(a, b, strict) && Forward(b, c, strict)
    ensures Forward(a, c, strict)
  {
    hide AdrInv, LinearChain, InForce;
    FrozenTransitive(a.versions, b.versions, c.versions);
  }

  lemma NothingMoves(db: Db, db': Db, strict: bool)
    requires EvoInv(db, strict) && db'.adrs == db.adrs && db'.versions == db.versions
    requires db'.audit == db.audit || exists e: Entry :: !e.AdrEntry? && db'.audit == db.audit + [e]
    ensures Forward(db, db', strict)
  {
    hide Rooted, Replayed;
    if db'.audit == db.audit {
      SameRecordsKeep(db, db');
    } else {
      var e: Entry :| !e.AdrEntry? && db'.audit == db.audit + [e];
      OtherEntryKeeps(db, db', e);
    }
  }

  /** Requests that were in order stay in order. */
  lemma RequestStays(db: Db, db': Db, r: Request, strict: bool)
    requires RequestOk(db, r, strict) && Forward(db, db', strict)
    ensures RequestOk(db', r, strict)
  {
    hide AdrInv, LinearChain;
  }

  lemma SameRequestsStay(db: Db, db': Db, strict: bool)
    requires EvoInv(db, strict) && Forward(db, db', strict) && db'.requests == db.requests
    ensures EvoInv(db', strict)
  {
    forall id | id in db'.requests
      ensures RequestOk(db', db'.requests[id], strict)
    {
      RequestStays(db, db', db.requests[id], strict);
    }
    hide AdrInv, LinearChain, Forward;
  }

  // -- single record calls -----------------------------------------------------------------------

  lemma RecordKey(db: Db, id: string)
    requires AdrInv(db) && id in db.adrs
    ensures db.adrs[id].id == id
  {
  }

  /** One record in a new state. */
  lemma RowForward(db: Db, db': Db, row: Adr, strict: bool)
    requires EvoInv(db, strict) && AdrInv(db') && db'.adrs == db.adrs[row.id := row] && db'.versions == db.versions
    requires row.id in db.adrs && InForce(db.adrs[row.id].status, strict) ==> InForce(row.status, strict)
    requires row.id in db.adrs && db.adrs[row.id].status.AdrRejected? ==> row.status.AdrRejected?
    ensures Forward(db, db', strict)
  {
    hide AdrInv, LinearChain, Coupled;
  }

  lemma AdrProposeForward(db: Db, id: string, text: AdrText, now: int, strict: bool)
    requires EvoInv(db, strict) && ProposeAdr(db, id, text, now).Ok?
    ensures var db' := ProposeAdr(db, id, text, now).value; Forward(db, db', strict) && db'.requests == db.requests
  {
    hide AdrInv, LinearChain, Coupled, Forward, PutAll, Blank;
    var row := Adr(id, text, AdrProposed, 1, None, now, now);
    ProposeKeeps(db, id, text, now);
    OneRow(db.adrs, row);
    RowForward(db, ProposeAdr(db, id, text, now).value, row, strict);
  }

  lemma AdrMoveForward(db: Db, id: string, target: AdrStatus, action: AdrAction, now: int, strict: bool)
    requires EvoInv(db, strict) && MoveAdr(db, id, target, action, now).Ok?
    requires (target, action) == (AdrAccepted, AdrAccept) || (target, action) == (AdrRejected, AdrReject)
             || (!strict && (target, action) == (AdrDeprecated, AdrDeprecate))
    ensures var db' := MoveAdr(db, id, target, action, now).value; Forward(db, db', strict) && db'.requests == db.requests
  {
    hide AdrInv, LinearChain, Coupled, Forward, PutAll;
    var row := db.adrs[id].(status := target, updatedAt := now);
    RecordKey(db, id);
    MoveKeeps(db, id, target, action, now);
    OneRow(db.adrs, row);
    RowForward(db, MoveAdr(db, id, target, action, now).value, row, strict);
  }

  lemma AdrAmendForward(db: Db, id: string, changes: AdrChanges, now: int, strict: bool)
    requires EvoInv(db, strict) && AmendAdr(db, id, changes, now).Ok?
    ensures var db' := AmendAdr(db, id, changes, now).value; Forward(db, db', strict) && db'.requests == db.requests
  {
    hide AdrInv, LinearChain, Coupled, Forward, PutAll, Blank, Amended;
    var adr := db.adrs[id];
    var row := adr.(text := Amended(adr.text, changes), version := adr.version + 1, updatedAt := now);
    RecordKey(db, id);
    AmendKeeps(db, id, changes, now);
    OneRow(db.adrs, row);
    RowForward(db, AmendAdr(db, id, changes, now).value, row, strict);
  }

  lemma AdrSupersedeForward(db: Db, id: string, successorId: string, now: int)
    requires EvoInv(db, false) && SupersedeAdr(db, id, successorId, now).Ok?
    ensures var db' := SupersedeAdr(db, id, successorId, now).value; Forward(db, db', false) && db'.requests == db.requests
  {
    hide AdrInv, LinearChain, Coupled, PutAll;
    SupersedeKeeps(db, id, successorId, now);
    SupersedeRows(db, id, successorId, now);
  }

  // -- records and risks that a change brings along -------------------------------------------------

  lemma AdrEnsuredForward(db: Db, spec: AdrSpec, now: int, strict: bool)
    requires EvoInv(db, strict) && AdrEnsured(db, spec, now).Ok?
    ensures var db' := AdrEnsured(db, spec, now).value;
            Forward(db, db', strict) && db'.requests == db.requests && db'.versions == db.versions
  {
    hide AdrInv, LinearChain, Coupled, Forward, PutAll;
    if spec.id !in db.adrs {
      AdrProposeForward(db, spec.id, spec.text, now, strict);
      var proposed := ProposeAdr(db, spec.id, spec.text, now).value;
      SameRequestsStay(db, proposed, strict);
      AdrMoveForward(proposed, spec.id, AdrAccepted, AdrAccept, now, strict);
      ForwardTransitive(db, proposed, AdrEnsured(db, spec, now).value, strict);
    } else {
      NothingMoves(db, db, strict);
    }
  }

  lemma {:induction false} AdrsEnsuredForward(db: Db, specs: seq<AdrSpec>, now: int, strict: bool)
    requires EvoInv(db, strict) && AdrsEnsured(db, specs, now).Ok?
    ensures var db' := AdrsEnsured(db, specs, now).value;
            Forward(db, db', strict) && db'.requests == db.requests && db'.versions == db.versions
    decreases |specs|
  {
    hide AdrInv, LinearChain, Coupled, Forward, AdrEnsured;
    if specs == [] {
      NothingMoves(db, db, strict);
    } else {
      var init, last := specs[..|specs| - 1], specs[|specs| - 1];
      AdrsEnsuredForward(db, init, now, strict);
      var before := AdrsEnsured(db, init, now).value;
      SameRequestsStay(db, before, strict);
      AdrEnsuredForward(before, last, now, strict);
      ForwardTransitive(db, before, AdrsEnsured(db, specs, now).value, strict);
    }
  }

  lemma RiskRegisteredForward(db: Db, spec: RiskSpec, now: int, strict: bool)
    requires EvoInv(db, strict) && RiskRegistered(db, spec, now).Ok?
    ensures var db' := RiskRegistered(db, spec, now).value;
            Forward(db, db', strict) && db'.requests == db.requests && db'.versions == db.versions && db'.adrs == db.adrs
  {
    hide AdrInv, LinearChain, Coupled, Forward, Blank;
    NothingMoves(db, RiskRegistered(db, spec, now).value, strict);
  }

  lemma {:induction false} RisksRegisteredForward(db: Db, specs: seq<RiskSpec>, now: int, strict: bool)
    requires EvoInv(db, strict) && RisksRegistered(db, specs, now).Ok?
    ensures var db' := RisksRegistered(db, specs, now).value;
            Forward(db, db', strict) && db'.requests == db.requests && db'.versions == db.versions && db'.adrs == db.adrs
    decreases |specs|
  {
    hide AdrInv, LinearChain, Coupled, Forward, RiskRegistered;
    if specs == [] {
      NothingMoves(db, db, strict);
    } else {
      var init, last := specs[..|specs| - 1], specs[|specs| - 1];
      RisksRegisteredForward(db, init, now, strict);
      var before := RisksRegistered(db, init, now).value;
      SameRequestsStay(db, before, strict);
      RiskRegisteredForward(before, last, now, strict);
      ForwardTransitive(db, before, RisksRegistered(db, specs, now).value, strict);
    }
  }

  // -- the baseline -----------------------------------------------------------------------------------

  lemma RollOverForward(db: Db, spec: Version, supersedes: Option<string>, strict: bool)
    requires EvoInv(db, strict) && spec.isCurrent && spec.supersededBy.None? && RolledOver(db, spec, supersedes).Ok?
    ensures var db' := RolledOver(db, spec, supersedes).value;
            Forward(db, db', strict) && db'.requests == db.requests && db'.adrs == db.adrs && db'.audit == db.audit
    ensures var db' := RolledOver(db, spec, supersedes).value;
            Placed(db', spec, supersedes)
  {
    hide AdrInv, ChainOf, Coupled;
    RollOverPlaces(db, spec, supersedes);
    hide RolledOver;
    var order :| ChainOf(order, db.versions);
    var order' := RollOverExtends(order, db, spec, supersedes);
    SameRecordsKeep(db, RolledOver(db, spec, supersedes).value);
  }

  lemma RollOverPlaces(db: Db, spec: Version, supersedes: Option<string>)
    requires RolledOver(db, spec, supersedes).Ok?
    ensures var db' := RolledOver(db, spec, supersedes).value;
            db' == db.(versions := db'.versions) && Placed(db', spec, supersedes)
  {
  }

  /** The version stands where an introduction puts it. */
  predicate Placed(db: Db, spec: Version, supersedes: Option<string>) {
    && spec.version in db.versions && db.versions[spec.version].rules == spec.rules
    && (supersedes.Some? ==> supersedes.value in db.versions && db.versions[supersedes.value].supersededBy == Some(spec.version))
  }

  lemma IntroducedForward(adrSpecs: seq<AdrSpec>, db: Db, spec: Version, supersedes: Option<string>, now: int, strict: bool)
    requires EvoInv(db, strict) && spec.supersededBy.None? && Introduced(adrSpecs, db, spec, supersedes, now).Ok?
    ensures var db' := Introduced(adrSpecs, db, spec, supersedes, now).value;
            Forward(db, db', strict) && db'.requests == db.requests && Placed(db', spec, supersedes)
  {
    hide AdrInv, LinearChain, Coupled, Forward, RolledOver, AdrsEnsured;
    RollOverForward(db, spec, supersedes, strict);
    var rolled := RolledOver(db, spec, supersedes).value;
    SameRequestsStay(db, rolled, strict);
    AdrsEnsuredForward(rolled, adrSpecs, now, strict);
    ForwardTransitive(db, rolled, Introduced(adrSpecs, db, spec, supersedes, now).value, strict);
  }

  // -- the lifecycle -----------------------------------------------------------------------------------

  /** The outcome with another request table. */
  function WithRequests(outcome: Result<Db, string>, requests: map<string, Request>): Result<Db, string> {
    match outcome
    case Err(e) => Err(e)
    case Ok(db) => Ok(db.(requests := requests))
  }

  /** Record calls neither read nor write requests. */
  lemma MoveIgnoresRequests(db: Db, requests: map<string, Request>, id: string, target: AdrStatus, action: AdrAction, now: int)
    ensures MoveAdr(db.(requests := requests), id, target, action, now) == WithRequests(MoveAdr(db, id, target, action, now), requests)
  {
    hide PutAll;
  }

  lemma AcceptIgnoresRequests(db: Db, requests: map<string, Request>, id: string, now: int)
    ensures LinkedAdrAccepted(db.(requests := requests), id, now) == WithRequests(LinkedAdrAccepted(db, id, now), requests)
  {
    hide MoveAdr;
    MoveIgnoresRequests(db, requests, id, AdrAccepted, AdrAccept, now);
  }

  lemma RejectIgnoresRequests(db: Db, requests: map<string, Request>, id: string, now: int)
    ensures LinkedAdrRejected(db.(requests := requests), id, now) == WithRequests(LinkedAdrRejected(db, id, now), requests)
  {
    hide MoveAdr;
    MoveIgnoresRequests(db, requests, id, AdrRejected, AdrReject, now);
  }

  lemma ProposeIgnoresRequests(db: Db, requests: map<string, Request>, spec: AdrSpec, now: int)
    ensures AdrProposedFor(db.(requests := requests), spec, now) == WithRequests(AdrProposedFor(db, spec, now), requests)
  {
    hide PutAll, Blank;
  }

  /** One request in a new state that the records and the baseline bear out. */
  lemma OneRequest(db: Db, mid: Db, r: Request, strict: bool)
    requires EvoInv(db, strict) && Forward(db, mid, strict) && mid.requests == db.requests && RequestOk(mid, r, strict)
    ensures EvoInv(mid.(requests := mid.requests[r.requestId := r]), strict)
    ensures Forward(db, mid.(requests := mid.requests[r.requestId := r]), strict)
  {
    hide AdrInv, LinearChain;
    var db' := mid.(requests := mid.requests[r.requestId := r]);
    SameRecordsKeep(mid, db') by { RecordsWellFormed(db, mid, strict); }
    forall id | id in db'.requests
      ensures db'.requests[id].requestId == id && RequestOk(db', db'.requests[id], strict)
    {
      if id != r.requestId { RequestStays(db, mid, db.requests[id], strict); }
    }
  }

  lemma RecordsWellFormed(db: Db, mid: Db, strict: bool)
    requires Forward(db, mid, strict)
    ensures AdrInv(mid)
  {
  }

  lemma EntryForward(db: Db, mid: Db, e: Entry, strict: bool)
    requires EvoInv(db, strict) && Forward(db, mid, strict) && mid.requests == db.requests && !e.AdrEntry?
    ensures Forward(db, mid.(audit := mid.audit + [e]), strict)
  {
    hide AdrInv, LinearChain, Coupled, Forward;
    SameRequestsStay(db, mid, strict);
    NothingMoves(mid, mid.(audit := mid.audit + [e]), strict);
    ForwardTransitive(db, mid, mid.(audit := mid.audit + [e]), strict);
  }

  lemma ApproveForward(db: Db, id: string, approver: string, now: int, strict: bool)
    requires EvoInv(db, strict) && ApproveRequest(db, id, approver, now).Ok?
    ensures var db' := ApproveRequest(db, id, approver, now).value; EvoInv(db', strict) && Forward(db, db', strict)
  {
    hide AdrInv, LinearChain, Forward, Blank, PutAll;
    var request := db.requests[id];
    assert RequestOk(db, request, strict) && request.requestId == id;
    if request.status.RequestProposed? {
      var approved := ApprovedRequest(request, approver, now);
      AcceptIgnoresRequests(db, db.requests[id := approved], request.adrId, now);
      var linked := LinkedAdrAccepted(db, request.adrId, now).value;
      LinkedAcceptForward(db, request.adrId, now, strict);
      var mid := linked.(audit := linked.audit + [RequestEntry(id, RequestApproved, now)]);
      EntryForward(db, linked, RequestEntry(id, RequestApproved, now), strict);
      OneRequest(db, mid, approved, strict);
      assert ApproveRequest(db, id, approver, now).value == mid.(requests := mid.requests[id := approved]);
    } else {
      NothingMoves(db, db, strict);
    }
  }

  lemma LinkedAcceptForward(db: Db, id: string, now: int, strict: bool)
    requires EvoInv(db, strict) && LinkedAdrAccepted(db, id, now).Ok?
    ensures var db' := LinkedAdrAccepted(db, id, now).value;
            Forward(db, db', strict) && db'.requests == db.requests && id in db'.adrs && db'.adrs[id].status.AdrAccepted?
  {
    hide AdrInv, LinearChain, Coupled, Forward, PutAll;
    RecordKey(db, id);
    if db.adrs[id].status.AdrProposed? {
      AdrMoveForward(db, id, AdrAccepted, AdrAccept, now, strict);
      OneRow(db.adrs, db.adrs[id].(status := AdrAccepted, updatedAt := now));
    } else {
      NothingMoves(db, db, strict);
    }
  }

  lemma LinkedRejectForward(db: Db, id: string, now: int, strict: bool)
    requires EvoInv(db, strict) && LinkedAdrRejected(db, id, now).Ok?
    ensures var db' := LinkedAdrRejected(db, id, now).value;
            Forward(db, db', strict) && db'.requests == db.requests && id in db'.adrs && db'.adrs[id].status.AdrRejected?
  {
    hide AdrInv, LinearChain, Coupled, Forward, PutAll;
    RecordKey(db, id);
    if db.adrs[id].status.AdrProposed? {
      AdrMoveForward(db, id, AdrRejected, AdrReject, now, strict);
      OneRow(db.adrs, db.adrs[id].(status := AdrRejected, updatedAt := now));
    } else {
      NothingMoves(db, db, strict);
    }
  }

  lemma RejectForward(db: Db, id: string, reason: string, now: int, strict: bool)
    requires EvoInv(db, strict) && RejectRequest(db, id, reason, now).Ok?
    ensures var db' := RejectRequest(db, id, reason, now).value; EvoInv(db', strict) && Forward(db, db', strict)
  {
    hide AdrInv, LinearChain, Forward, Blank, PutAll;
    var request := db.requests[id];
    assert RequestOk(db, request, strict) && request.requestId == id;
    if request.status.RequestProposed? {
      var rejected := request.(status := RequestRejected);
      RejectIgnoresRequests(db, db.requests[id := rejected], request.adrId, now);
      var linked := LinkedAdrRejected(db, request.adrId, now).value;
      LinkedRejectForward(db, request.adrId, now, strict);
      var mid := linked.(audit := linked.audit + [RequestEntry(id, RequestRejected, now)]);
      EntryForward(db, linked, RequestEntry(id, RequestRejected, now), strict);
      OneRequest(db, mid, rejected, strict);
      assert RejectRequest(db, id, reason, now).value == mid.(requests := mid.requests[id := rejected]);
    } else {
      NothingMoves(db, db, strict);
    }
  }

  lemma ProposedForForward(db: Db, spec: AdrSpec, now: int, strict: bool)
    requires EvoInv(db, strict) && AdrProposedFor(db, spec, now).Ok?
    ensures var db' := AdrProposedFor(db, spec, now).value;
            Forward(db, db', strict) && db'.requests == db.requests && spec.id in db'.adrs
  {
    hide AdrInv, LinearChain, Coupled, Forward, PutAll, Blank;
    if spec.id in db.adrs {
      NothingMoves(db, db, strict);
    } else {
      AdrProposeForward(db, spec.id, spec.text, now, strict);
      OneRow(db.adrs, Adr(spec.id, spec.text, AdrProposed, 1, None, now, now));
    }
  }

  lemma ProposeForward(db: Db, request: Request, adr: AdrSpec, now: int, strict: bool)
    requires EvoInv(db, strict) && WellFormedCall(ProposeCall(request, adr)) && ProposeRequest(db, request, adr, now).Ok?
    ensures var db' := ProposeRequest(db, request, adr, now).value; EvoInv(db', strict) && Forward(db, db', strict)
  {
    hide AdrInv, LinearChain, Forward, AdrProposedFor, Coupled, RequestContentMatches, LinkedAdrVerified;
    NothingMoves(db, db, strict);
    if request.requestId !in db.requests {
      var entry := RequestEntry(request.requestId, request.status, now);
      var noted := db.(audit := db.audit + [entry]);
      EntryForward(db, db, entry, strict);
      SameRequestsStay(db, noted, strict);
      var requests := db.requests[request.requestId := request];
      ProposeIgnoresRequests(noted, requests, adr, now);
      var mid := AdrProposedFor(noted, adr, now).value;
      ProposedForForward(noted, adr, now, strict);
      ForwardTransitive(db, noted, mid, strict);
      OneRequest(db, mid, request, strict);
    }
  }

  lemma ApplyForward(cat: Catalogue, db: Db, id: string, now: int, strict: bool)
    requires EvoInv(db, strict) && ApplyRequest(cat, db, id, now).Ok?
    ensures var db' := ApplyRequest(cat, db, id, now).value; EvoInv(db', strict) && Forward(db, db', strict)
  {
    hide AdrInv, LinearChain, Forward, Coupled, Blank, Introduced, ApplyApproved;
    var request := db.requests[id];
    var spec := TargetSpec(cat, request, now);
    if request.status.RequestApplied? {
      IntroducedForward(cat.adrSpecs, db, spec, Some(request.sourceVersion), now, strict);
      SameRequestsStay(db, ApplyRequest(cat, db, id, now).value, strict);
    } else {
      RequestInOrder(db, id, strict);
      ApplyApprovedForward(cat, db, request, spec, now, strict);
    }
  }

  lemma RequestInOrder(db: Db, id: string, strict: bool)
    requires EvoInv(db, strict) && id in db.requests
    ensures db.requests[id].requestId == id && RequestOk(db, db.requests[id], strict)
  {
  }

  lemma ApplyApprovedForward(cat: Catalogue, db: Db, request: Request, spec: Version, now: int, strict: bool)
    requires EvoInv(db, strict) && ApplyApproved(cat, db, request, spec, now).Ok?
    requires RequestOk(db, request, strict) && request.status.RequestApproved?
    requires spec.supersededBy.None? && spec.version == request.targetVersion && spec.rules == request.ruleIds
    ensures var db' := ApplyApproved(cat, db, request, spec, now).value; EvoInv(db', strict) && Forward(db, db', strict)
  {
    hide AdrInv, LinearChain, Forward, Coupled, Introduced, RisksRegistered;
    var introduced := Introduced(cat.adrSpecs, db, spec, Some(request.sourceVersion), now).value;
    IntroducedForward(cat.adrSpecs, db, spec, Some(request.sourceVersion), now, strict);
    SameRequestsStay(db, introduced, strict);
    var registered := RisksRegistered(introduced, DeclaredRisks(cat, request.requestId), now).value;
    RisksRegisteredForward(introduced, DeclaredRisks(cat, request.requestId), now, strict);
    ForwardTransitive(db, introduced, registered, strict);
    var applied := AppliedRequest(request, now);
    var entry := RequestEntry(request.requestId, RequestApplied, now);
    EntryForward(db, registered, entry, strict);
    var mid := registered.(audit := registered.audit + [entry]);
    RequestStays(db, mid, request, strict);
    OneRequest(db, mid, applied, strict);
  }

  // -- the bootstrap --------------------------------------------------------------------------------------

  lemma VersionReconciledForward(db: Db, spec: Version, strict: bool)
    requires EvoInv(db, strict) && spec.isCurrent && spec.supersededBy.None? && VersionReconciled(db, spec).Ok?
    ensures var db' := VersionReconciled(db, spec).value; EvoInv(db', strict) && Forward(db, db', strict)
  {
    hide AdrInv, Coupled, ChainOf, RolledOver;
    var db' := VersionReconciled(db, spec).value;
    NothingMoves(db, db, strict);
    if spec.version !in db.versions {
      FirstRollOver(db, spec);
      RollOverForward(db, spec, None, strict);
      SameRequestsStay(db, db', strict);
    }
  }

  /** A first baseline is a roll-over that supersedes nothing. */
  lemma FirstRollOver(db: Db, spec: Version)
    requires spec.version !in db.versions && CurrentVersions(db.versions) == {}
    ensures RolledOver(db, spec, None) == Ok(db.(versions := db.versions[spec.version := spec]))
  {
  }

  lemma SeedForward(boot: Boot, db: Db, now: int, strict: bool)
    requires EvoInv(db, strict) && Seeded(boot, db, now).Ok?
    ensures var db' := Seeded(boot, db, now).value; EvoInv(db', strict) && Forward(db, db', strict)
  {
    hide AdrInv, LinearChain, Forward, Coupled, VersionReconciled, AdrsEnsured, RisksRegistered;
    var projected := ProjectReconciled(db, NewProject(boot, now)).value;
    NothingMoves(db, projected, strict);
    SameRequestsStay(db, projected, strict);
    var versioned := VersionReconciled(projected, FirstVersion(boot, now)).value;
    VersionReconciledForward(projected, FirstVersion(boot, now), strict);
    ForwardTransitive(db, projected, versioned, strict);
    var recorded := AdrsEnsured(versioned, boot.adrs, now).value;
    AdrsEnsuredForward(versioned, boot.adrs, now, strict);
    SameRequestsStay(versioned, recorded, strict);
    ForwardTransitive(db, versioned, recorded, strict);
    var registered := RisksRegistered(recorded, boot.risks, now).value;
    RisksRegisteredForward(recorded, boot.risks, now, strict);
    SameRequestsStay(recorded, registered, strict);
    ForwardTransitive(db, recorded, registered, strict);
  }

  // -- whole histories ----------------------------------------------------------------------------------------

  lemma CallForward(db: Db, t: Timed, strict: bool)
    requires EvoInv(db, strict) && WellFormedCall(t.call) && (strict ==> EngineCall(t.call))
    requires EvoOutcome(db, t).Ok?
    ensures var db' := EvoOutcome(db, t).value; EvoInv(db', strict) && Forward(db, db', strict)
  {
    hide EvoInv, Forward, Seeded, Introduced, ProposeRequest, ApproveRequest, RejectRequest, ApplyRequest,
         ProposeAdr, MoveAdr, AmendAdr, SupersedeAdr;
    var db' := EvoOutcome(db, t).value;
    match t.call
    case SeedCall(boot) => SeedForward(boot, db, t.now, strict);
    case IntroduceCall(adrSpecs, spec, supersedes) =>
      IntroducedCurrent(adrSpecs, db, spec, supersedes, t.now);
      IntroducedForward(adrSpecs, db, spec, supersedes, t.now, strict);
      SameRequestsStay(db, db', strict);
    case ProposeCall(request, adr) => ProposeForward(db, request, adr, t.now, strict);
    case ApproveCall(id, approver) => ApproveForward(db, id, approver, t.now, strict);
    case RejectCall(id, reason) => RejectForward(db, id, reason, t.now, strict);
    case ApplyCall(cat, id) => ApplyForward(cat, db, id, t.now, strict);
    case AdrProposeCall(id, text) => AdrProposeForward(db, id, text, t.now, strict); SameRequestsStay(db, db', strict);
    case AdrAcceptCall(id) => AdrMoveForward(db, id, AdrAccepted, AdrAccept, t.now, strict); SameRequestsStay(db, db', strict);
    case AdrRejectCall(id) => AdrMoveForward(db, id, AdrRejected, AdrReject, t.now, strict); SameRequestsStay(db, db', strict);
    case AdrDeprecateCall(id) => AdrMoveForward(db, id, AdrDeprecated, AdrDeprecate, t.now, strict); SameRequestsStay(db, db', strict);
    case AdrAmendCall(id, changes) => AdrAmendForward(db, id, changes, t.now, strict); SameRequestsStay(db, db', strict);
    case AdrSupersedeCall(id, successorId) => AdrSupersedeForward(db, id, successorId, t.now); SameRequestsStay(db, db', strict);
  }

  lemma IntroducedCurrent(adrSpecs: seq<AdrSpec>, db: Db, spec: Version, supersedes: Option<string>, now: int)
    requires Introduced(adrSpecs, db, spec, supersedes, now).Ok?
    ensures spec.isCurrent
  {
    hide RolledOver, AdrsEnsured;
  }

  /**
    Over any history of bootstrap, introduce, propose, approve, reject, apply and record calls, raising
    ones included: the versions form one linear chain, requests, records and baseline agree, the records
    are a rooted forest that the audit trail rebuilds, and nothing on record is rewritten.
   */
  lemma {:induction false} HistoryKept(db: Db, calls: seq<Timed>, strict: bool)
    requires EvoInv(db, strict)
    requires forall i :: 0 <= i < |calls| ==> WellFormedCall(calls[i].call) && (strict ==> EngineCall(calls[i].call))
    ensures EvoInv(EvoRun(db, calls), strict) && Forward(db, EvoRun(db, calls), strict)
    decreases |calls|
  {
    hide EvoInv, Forward, EvoOutcome;
    if calls == [] {
      StartForward(db, strict);
    } else {
      var init, last := calls[..|calls| - 1], calls[|calls| - 1];
      HistoryKept(db, init, strict);
      var before := EvoRun(db, init);
      if EvoOutcome(before, last).Ok? {
        CallForward(before, last, strict);
        ForwardTransitive(db, before, EvoRun(db, calls), strict);
      }
    }
  }

  lemma StartForward(db: Db, strict: bool)
    requires EvoInv(db, strict)
    ensures Forward(db, db, strict)
  {
    hide AdrInv, LinearChain;
    NothingMoves(db, db, strict);
  }

  /** Every history may start from an empty database. */
  lemma EmptyStore(db: Db, strict: bool)
    requires db.versions == map[] && db.requests == map[] && db.adrs == map[] && db.audit == []
    ensures EvoInv(db, strict)
  {
    assert ChainOf([], db.versions);
  }
}
