/** Which evolution calls succeed, and the rows and entries each one leaves, on the fields of what they are given. */
module EvolutionTable {
  import opened Basics
  import opened Store
  import opened Realization
  import opened Adrs
  import opened Versions
  import opened Requests
  import opened Bootstraps
  import opened StartUp
  import opened FreshStart
  import opened RecordTable

  // -- requests ----------------------------------------------------------------------------------

  predicate Same(a: Request, b: Request) {
    && a.requestId == b.requestId && a.title == b.title && a.rationale == b.rationale && a.sourceVersion == b.sourceVersion
    && a.targetVersion == b.targetVersion && a.ruleIds == b.ruleIds && a.adrId == b.adrId && a.roadmapImpact == b.roadmapImpact
  }

  /** The record a request may rest on: these words, and not closed. */
  predicate OpenRecord(adrs: map<string, Adr>, adr: AdrSpec) {
    adr.id in adrs && adrs[adr.id].text == adr.text && !adrs[adr.id].status.AdrRejected? && !adrs[adr.id].status.AdrSuperseded?
  }

  /** A request is new and fresh and rests on a new or an open record; or it is on record unchanged, and nothing is written. */
  lemma ProposalTable(db: Db, request: Request, adr: AdrSpec, now: int)
    ensures var r := ProposeRequest(db, request, adr, now);
            && (r.Ok? <==>
                  request.status.RequestProposed? && request.adrId == adr.id
                  && if request.requestId in db.requests then
                       Same(db.requests[request.requestId], request) && OpenRecord(db.adrs, adr)
                     else if adr.id in db.adrs then OpenRecord(db.adrs, adr)
                     else !Blank(adr.id) && !Blank(adr.text.title))
            && (r.Ok? && request.requestId in db.requests ==> r.value == db)
            && (r.Ok? && request.requestId !in db.requests ==>
                  r.value == db.(
                    requests := db.requests[request.requestId := request],
                    adrs := if adr.id in db.adrs then db.adrs
                            else db.adrs[adr.id := Adr(adr.id, adr.text, AdrProposed, 1, None, now, now)],
                    audit := db.audit + [RequestEntry(request.requestId, RequestProposed, now)]
                    + (if adr.id in db.adrs then [] else [AdrEntry(adr.id, AdrCreate, now)])))
  {
    var noted := WithRequest(db, request, now);
    ProposeTable(noted, adr.id, adr.text, now);
    hide Blank, ProposeAdr;
  }

  predicate KeyedAt(db: Db, id: string) {
    id in db.requests ==>
      db.requests[id].requestId == id
      && (db.requests[id].adrId in db.adrs ==> db.adrs[db.requests[id].adrId].id == db.requests[id].adrId)
  }

  /** A request and its record after a human decision: both rows, the record's entry when it moved, and the request's last. */
  predicate Decided(db: Db, db': Db, id: string, row: Request, status: AdrStatus, action: AdrAction, now: int)
    requires id in db.requests && db.requests[id].adrId in db.adrs
  {
    var adrId := db.requests[id].adrId;
    var moved := db.adrs[adrId].status != status;
    db' == db.(
      requests := db.requests[id := row],
      adrs := if moved then db.adrs[adrId := db.adrs[adrId].(status := status, updatedAt := now)] else db.adrs,
      audit := db.audit + (if moved then [AdrEntry(adrId, action, now)] else []) + [RequestEntry(id, row.status, now)])
  }

  /**
    A rejection succeeds if and only if it is explained and the request is REJECTED already, or is
    PROPOSED on a record that is PROPOSED or REJECTED; then both are REJECTED, and the baseline stands.
   */
  lemma RejectionTable(db: Db, id: string, reason: string, now: int)
    requires KeyedAt(db, id)
    ensures var r := RejectRequest(db, id, reason, now);
            && (r.Ok? <==>
                  !Blank(reason) && !Blank(id) && id in db.requests
                  && var request := db.requests[id];
                     || request.status.RequestRejected?
                     || (request.status.RequestProposed? && request.adrId in db.adrs
                         && (db.adrs[request.adrId].status.AdrProposed? || db.adrs[request.adrId].status.AdrRejected?)))
            && (r.Ok? && db.requests[id].status.RequestRejected? ==> r.value == db)
            && (r.Ok? && db.requests[id].status.RequestProposed? ==>
                  Decided(db, r.value, id, db.requests[id].(status := RequestRejected), AdrRejected, AdrReject, now))
  {
    if id in db.requests {
      var put := PutRequestRow(db, db.requests[id].(status := RequestRejected));
      StatusTable(put, db.requests[id].adrId, now);
    }
    hide Blank, RejectAdr;
  }

  /**
    An approval succeeds if and only if it is signed and the request is APPLIED, or APPROVED by the same
    human, or PROPOSED on a record that is PROPOSED or ACCEPTED; then the request is APPROVED under that
    name and the record ACCEPTED.
   */
  lemma ApprovalTable(db: Db, id: string, approver: string, now: int)
    requires KeyedAt(db, id)
    ensures var r := ApproveRequest(db, id, approver, now);
            && (r.Ok? <==>
                  !Blank(approver) && !Blank(id) && id in db.requests
                  && var request := db.requests[id];
                     || request.status.RequestApplied?
                     || (request.status.RequestApproved? && request.approvedBy == Some(approver))
                     || (request.status.RequestProposed? && request.adrId in db.adrs
                         && (db.adrs[request.adrId].status.AdrProposed? || db.adrs[request.adrId].status.AdrAccepted?)))
            && (r.Ok? && !db.requests[id].status.RequestProposed? ==> r.value == db)
            && (r.Ok? && db.requests[id].status.RequestProposed? ==>
                  Decided(db, r.value, id,
                          db.requests[id].(status := RequestApproved, approvedBy := Some(approver), approvedAt := Some(now)),
                          AdrAccepted, AdrAccept, now))
  {
    if id in db.requests {
      var put := PutRequestRow(db, ApprovedRequest(db.requests[id], approver, now));
      StatusTable(put, db.requests[id].adrId, now);
    }
    hide Blank, AcceptAdr;
  }

  // -- records and risks that a roll-over or a start-up needs ---------------------------------------

  /** The i-th record can be ensured: on record accepted in these words, or new, named and not declared otherwise before. */
  predicate CanEnsure(db: Db, specs: seq<AdrSpec>, i: nat)
    requires i < |specs|
  {
    if specs[i].id in db.adrs then
      db.adrs[specs[i].id].status.AdrAccepted? && db.adrs[specs[i].id].text == specs[i].text
    else
      !Blank(specs[i].id) && !Blank(specs[i].text.title) && SameBefore(specs[..i], specs[i])
  }

  /** No earlier record has this id and other words. */
  predicate SameBefore(before: seq<AdrSpec>, spec: AdrSpec) {
    forall j :: 0 <= j < |before| ==> (before[j].id == spec.id ==> before[j].text == spec.text)
  }

  predicate CanEnsureAll(db: Db, specs: seq<AdrSpec>) {
    forall i: nat :: i < |specs| ==> CanEnsure(db, specs, i)
  }

  predicate Listed(specs: seq<AdrSpec>, id: string) {
    exists i :: 0 <= i < |specs| && specs[i].id == id
  }

  /** What was on record stands; the missing ones are there, accepted at version 1; and no others. */
  ghost predicate Ensured(db: Db, specs: seq<AdrSpec>, now: int, adrs: map<string, Adr>) {
    && (forall id :: id in adrs <==> id in db.adrs || Listed(specs, id))
    && (forall id <- db.adrs :: id in adrs && adrs[id] == db.adrs[id])
    && (forall i :: 0 <= i < |specs| ==>
          specs[i].id in db.adrs
          || (specs[i].id in adrs && adrs[specs[i].id] == Adr(specs[i].id, specs[i].text, AdrAccepted, 1, None, now, now)))
  }

  lemma ListedSnoc(specs: seq<AdrSpec>, last: AdrSpec, id: string)
    ensures Listed(specs + [last], id) <==> Listed(specs, id) || last.id == id
  {
    if Listed(specs, id) {
      var i :| 0 <= i < |specs| && specs[i].id == id;
      assert (specs + [last])[i].id == id;
    }
    assert (specs + [last])[|specs|] == last;
  }

  lemma CanEnsureSnoc(db: Db, specs: seq<AdrSpec>, last: AdrSpec)
    ensures CanEnsureAll(db, specs + [last]) <==> CanEnsureAll(db, specs) && CanEnsure(db, specs + [last], |specs|)
  {
    var all := specs + [last];
    forall i: nat | i < |specs|
      ensures CanEnsure(db, all, i) <==> CanEnsure(db, specs, i)
    {
      assert all[i] == specs[i] && all[..i] == specs[..i];
    }
  }

  /** One more record, that is new, repeated among those before it, or on record. */
  lemma EnsureNew(db: Db, init: seq<AdrSpec>, last: AdrSpec, before: Db, now: int)
    requires Ensured(db, init, now, before.adrs) && last.id !in before.adrs
    ensures AdrEnsured(before, last, now).Ok? <==> CanEnsure(db, init + [last], |init|)
    ensures var r := AdrEnsured(before, last, now);
            r.Ok? ==> Ensured(db, init + [last], now, r.value.adrs) && OnlyAdrsMove(before, r.value)
  {
    hide Blank, AdrEnsured;
    var all := init + [last];
    assert all[..|init|] == init;
    assert SameBefore(init, last) by {
      forall j | 0 <= j < |init| ensures init[j].id != last.id { assert Listed(init, init[j].id); }
    }
    forall id { ListedSnoc(init, last, id); }
    if NamedAdr(last) { NewAdrEnsured(before, last, now); } else { UnnamedRefused(before, last, now); }
  }

  lemma EnsureRepeated(db: Db, init: seq<AdrSpec>, last: AdrSpec, before: Db, now: int)
    requires Ensured(db, init, now, before.adrs) && CanEnsureAll(db, init) && last.id in before.adrs && last.id !in db.adrs
    ensures AdrEnsured(before, last, now).Ok? <==> CanEnsure(db, init + [last], |init|)
  {
    hide Blank, ProposeAdr, AcceptAdr;
    var all := init + [last];
    assert all[..|init|] == init;
    var j :| 0 <= j < |init| && init[j].id == last.id;
    assert CanEnsure(db, init, j);
    assert before.adrs[last.id].text == init[j].text;
  }

  lemma EnsureLast(db: Db, init: seq<AdrSpec>, last: AdrSpec, before: Db, now: int)
    requires Ensured(db, init, now, before.adrs) && CanEnsureAll(db, init)
    ensures AdrEnsured(before, last, now).Ok? <==> CanEnsure(db, init + [last], |init|)
    ensures var r := AdrEnsured(before, last, now);
            r.Ok? ==> Ensured(db, init + [last], now, r.value.adrs) && OnlyAdrsMove(before, r.value)
  {
    if last.id !in before.adrs {
      hide *;
      EnsureNew(db, init, last, before, now);
    } else {
      hide Blank, ProposeAdr, AcceptAdr, CanEnsureAll;
      if last.id !in db.adrs { EnsureRepeated(db, init, last, before, now); }
      if AdrEnsured(before, last, now).Ok? { EnsuredAgain(db, init, last, before, now); }
    }
  }

  lemma EnsuredAgain(db: Db, init: seq<AdrSpec>, last: AdrSpec, before: Db, now: int)
    requires Ensured(db, init, now, before.adrs) && last.id in before.adrs && AdrMatches(before.adrs[last.id], last)
    ensures Ensured(db, init + [last], now, before.adrs)
  {
    forall id { ListedSnoc(init, last, id); }
    if last.id !in db.adrs {
      var j :| 0 <= j < |init| && init[j].id == last.id;
    }
  }

  lemma UnnamedRefused(db: Db, spec: AdrSpec, now: int)
    requires spec.id !in db.adrs && !NamedAdr(spec)
    ensures AdrEnsured(db, spec, now).Err?
  {
  }

  /** A list of records can be ensured exactly when each of them can, and leaves exactly them beside what was there. */
  lemma {:induction false} EnsureTable(db: Db, specs: seq<AdrSpec>, now: int)
    ensures var r := AdrsEnsured(db, specs, now);
            && (r.Ok? <==> CanEnsureAll(db, specs))
            && (r.Ok? ==> Ensured(db, specs, now, r.value.adrs) && OnlyAdrsMove(db, r.value))
    decreases |specs|
  {
    hide AdrEnsured, CanEnsure, CanEnsureAll, Ensured;
    if specs == [] {
      NothingEnsured(db, now);
    } else {
      var init, last := specs[..|specs| - 1], specs[|specs| - 1];
      assert specs == init + [last];
      EnsureTable(db, init, now);
      CanEnsureSnoc(db, init, last);
      if AdrsEnsured(db, init, now).Ok? {
        EnsureLast(db, init, last, AdrsEnsured(db, init, now).value, now);
      }
    }
  }

  lemma NothingEnsured(db: Db, now: int)
    ensures CanEnsureAll(db, []) && Ensured(db, [], now, db.adrs)
  {
  }

  // -- risks -------------------------------------------------------------------------------------------

  predicate SameRiskBefore(before: seq<RiskSpec>, spec: RiskSpec) {
    forall j :: 0 <= j < |before| ==> (before[j].id == spec.id ==> before[j].text == spec.text)
  }

  /** The i-th risk can be registered: on record, open and unchanged, or new, well formed and not declared otherwise before. */
  predicate CanRegister(db: Db, specs: seq<RiskSpec>, i: nat)
    requires i < |specs|
  {
    var spec := specs[i];
    if spec.id in db.risks then db.risks[spec.id].open && db.risks[spec.id].text == spec.text
    else
      !Blank(spec.id) && !Blank(spec.text.description) && 0.0 <= spec.text.probability <= 1.0 && SameRiskBefore(specs[..i], spec)
  }

  predicate CanRegisterAll(db: Db, specs: seq<RiskSpec>) {
    forall i: nat :: i < |specs| ==> CanRegister(db, specs, i)
  }

  predicate ListedRisk(specs: seq<RiskSpec>, id: string) {
    exists i :: 0 <= i < |specs| && specs[i].id == id
  }

  /** What was on record stands; the missing ones are there, open; and no others. */
  ghost predicate Registered(db: Db, specs: seq<RiskSpec>, now: int, risks: map<string, Risk>) {
    && (forall id :: id in risks <==> id in db.risks || ListedRisk(specs, id))
    && (forall id <- db.risks :: id in risks && risks[id] == db.risks[id])
    && (forall i :: 0 <= i < |specs| ==>
          specs[i].id in db.risks
          || (specs[i].id in risks && risks[specs[i].id] == Risk(specs[i].id, specs[i].text, true, now)))
  }

  lemma ListedRiskSnoc(specs: seq<RiskSpec>, last: RiskSpec, id: string)
    ensures ListedRisk(specs + [last], id) <==> ListedRisk(specs, id) || last.id == id
  {
    if ListedRisk(specs, id) {
      var i :| 0 <= i < |specs| && specs[i].id == id;
      assert (specs + [last])[i].id == id;
    }
    assert (specs + [last])[|specs|] == last;
  }

  lemma CanRegisterSnoc(db: Db, specs: seq<RiskSpec>, last: RiskSpec)
    ensures CanRegisterAll(db, specs + [last]) <==> CanRegisterAll(db, specs) && CanRegister(db, specs + [last], |specs|)
  {
    var all := specs + [last];
    forall i: nat | i < |specs|
      ensures CanRegister(db, all, i) <==> CanRegister(db, specs, i)
    {
      assert all[i] == specs[i] && all[..i] == specs[..i];
    }
  }

  lemma RegisterNew(db: Db, init: seq<RiskSpec>, last: RiskSpec, before: Db, now: int)
    requires Registered(db, init, now, before.risks) && last.id !in before.risks
    ensures RiskRegistered(before, last, now).Ok? <==> CanRegister(db, init + [last], |init|)
    ensures var r := RiskRegistered(before, last, now);
            r.Ok? ==> Registered(db, init + [last], now, r.value.risks) && OnlyRisksMove(before, r.value)
  {
    hide Blank;
    var all := init + [last];
    assert all[..|init|] == init;
    assert SameRiskBefore(init, last) by {
      forall j | 0 <= j < |init| ensures init[j].id != last.id { assert ListedRisk(init, init[j].id); }
    }
    forall id { ListedRiskSnoc(init, last, id); }
  }

  lemma RegisterRepeated(db: Db, init: seq<RiskSpec>, last: RiskSpec, before: Db, now: int)
    requires Registered(db, init, now, before.risks) && CanRegisterAll(db, init) && last.id in before.risks && last.id !in db.risks
    ensures RiskRegistered(before, last, now).Ok? <==> CanRegister(db, init + [last], |init|)
  {
    hide Blank;
    var all := init + [last];
    assert all[..|init|] == init;
    var j :| 0 <= j < |init| && init[j].id == last.id;
    assert CanRegister(db, init, j);
    assert before.risks[last.id].text == init[j].text;
  }

  lemma RegisteredAgain(db: Db, init: seq<RiskSpec>, last: RiskSpec, before: Db, now: int)
    requires Registered(db, init, now, before.risks) && last.id in before.risks && RiskMatches(before.risks[last.id], last)
    ensures Registered(db, init + [last], now, before.risks)
  {
    forall id { ListedRiskSnoc(init, last, id); }
    if last.id !in db.risks {
      var j :| 0 <= j < |init| && init[j].id == last.id;
    }
  }

  lemma RegisterLast(db: Db, init: seq<RiskSpec>, last: RiskSpec, before: Db, now: int)
    requires Registered(db, init, now, before.risks) && CanRegisterAll(db, init)
    ensures RiskRegistered(before, last, now).Ok? <==> CanRegister(db, init + [last], |init|)
    ensures var r := RiskRegistered(before, last, now);
            r.Ok? ==> Registered(db, init + [last], now, r.value.risks) && OnlyRisksMove(before, r.value)
  {
    if last.id !in before.risks {
      hide *;
      RegisterNew(db, init, last, before, now);
    } else {
      hide Blank, CanRegisterAll;
      if last.id !in db.risks { RegisterRepeated(db, init, last, before, now); }
      if RiskRegistered(before, last, now).Ok? { RegisteredAgain(db, init, last, before, now); }
    }
  }

  /** A list of risks can be registered exactly when each of them can, and leaves exactly them beside what was there. */
  lemma {:induction false} RegisterTable(db: Db, specs: seq<RiskSpec>, now: int)
    ensures var r := RisksRegistered(db, specs, now);
            && (r.Ok? <==> CanRegisterAll(db, specs))
            && (r.Ok? ==> Registered(db, specs, now, r.value.risks) && OnlyRisksMove(db, r.value))
    decreases |specs|
  {
    hide RiskRegistered, CanRegister, CanRegisterAll, Registered;
    if specs == [] {
      NothingRegistered(db, now);
    } else {
      var init, last := specs[..|specs| - 1], specs[|specs| - 1];
      assert specs == init + [last];
      RegisterTable(db, init, now);
      CanRegisterSnoc(db, init, last);
      if RisksRegistered(db, init, now).Ok? {
        RegisterLast(db, init, last, RisksRegistered(db, init, now).value, now);
      }
    }
  }

  lemma NothingRegistered(db: Db, now: int)
    ensures CanRegisterAll(db, []) && Registered(db, [], now, db.risks)
  {
  }

  // -- versions ----------------------------------------------------------------------------------------

  /** The stored version is the one asked for: content, place and standing. */
  predicate Stands(v: Version, spec: Version) {
    v.version == spec.version && v.baseline == spec.baseline && v.rules == spec.rules
    && v.supersededBy == spec.supersededBy && v.isCurrent == spec.isCurrent
  }

  /** A roll-over from a named predecessor: found in place, or from a current version that nothing has superseded. */
  predicate CanRollOver(versions: map<string, Version>, spec: Version, source: string) {
    && source in versions
    && if spec.version in versions then
         Stands(versions[spec.version], spec)
         && versions[source].supersededBy == Some(spec.version) && !versions[source].isCurrent
       else versions[source].isCurrent && versions[source].supersededBy.None?
  }

  /** The predecessor is retired in favour of the new version, and nothing else of it changes. */
  predicate Superseded(versions: map<string, Version>, spec: Version, source: string, after: map<string, Version>)
    requires source in versions
  {
    after == if spec.version in versions then versions
             else versions[source := versions[source].(isCurrent := false, supersededBy := Some(spec.version))][spec.version := spec]
  }

  lemma RollOverTable(db: Db, spec: Version, source: string)
    ensures var r := RolledOver(db, spec, Some(source));
            && (r.Ok? <==> CanRollOver(db.versions, spec, source))
            && (r.Ok? ==> Superseded(db.versions, spec, source, r.value.versions) && r.value == db.(versions := r.value.versions))
  {
  }

  /** The first version of a chain needs an empty one. */
  lemma FirstVersionTable(db: Db, spec: Version)
    ensures var r := RolledOver(db, spec, None);
            && (r.Ok? <==>
                  if spec.version in db.versions then Stands(db.versions[spec.version], spec)
                  else forall v <- db.versions :: !db.versions[v].isCurrent)
            && (r.Ok? ==>
                  r.value == if spec.version in db.versions then db else db.(versions := db.versions[spec.version := spec]))
  {
    if spec.version !in db.versions {
      assert CurrentVersions(db.versions) == {} <==> forall v <- db.versions :: !db.versions[v].isCurrent by {
        if v :| v in db.versions && db.versions[v].isCurrent { assert v in CurrentVersions(db.versions); }
      }
    }
  }

  lemma SameEnsurable(db: Db, db': Db, specs: seq<AdrSpec>, now: int, adrs: map<string, Adr>)
    requires db'.adrs == db.adrs
    ensures CanEnsureAll(db', specs) <==> CanEnsureAll(db, specs)
    ensures Ensured(db', specs, now, adrs) <==> Ensured(db, specs, now, adrs)
  {
    forall i: nat | i < |specs|
      ensures CanEnsure(db', specs, i) <==> CanEnsure(db, specs, i)
    {
    }
  }

  lemma SameRegistrable(db: Db, db': Db, specs: seq<RiskSpec>, now: int, risks: map<string, Risk>)
    requires db'.risks == db.risks
    ensures CanRegisterAll(db', specs) <==> CanRegisterAll(db, specs)
    ensures Registered(db', specs, now, risks) <==> Registered(db, specs, now, risks)
  {
    forall i: nat | i < |specs|
      ensures CanRegister(db', specs, i) <==> CanRegister(db, specs, i)
    {
    }
  }

  /** An introduction is the roll-over and its records, from another version to a current one. */
  lemma IntroductionTable(adrSpecs: seq<AdrSpec>, db: Db, spec: Version, source: string, now: int)
    ensures var r := Introduced(adrSpecs, db, spec, Some(source), now);
            && (r.Ok? <==>
                  spec.isCurrent && source != spec.version && CanRollOver(db.versions, spec, source) && CanEnsureAll(db, adrSpecs))
            && (r.Ok? ==>
                  Superseded(db.versions, spec, source, r.value.versions) && Ensured(db, adrSpecs, now, r.value.adrs)
                  && r.value.projects == db.projects && r.value.requests == db.requests && r.value.risks == db.risks)
  {
    hide RolledOver, AdrsEnsured, CanRollOver, CanEnsureAll, Ensured, Superseded;
    RollOverTable(db, spec, source);
    if RolledOver(db, spec, Some(source)).Ok? {
      var rolled := RolledOver(db, spec, Some(source)).value;
      EnsureTable(rolled, adrSpecs, now);
      if AdrsEnsured(rolled, adrSpecs, now).Ok? {
        SameEnsurable(db, rolled, adrSpecs, now, AdrsEnsured(rolled, adrSpecs, now).value.adrs);
      }
      SameEnsurable(db, rolled, adrSpecs, now, map[]);
    }
  }

  // -- applying a request ------------------------------------------------------------------------------

  /** The version a request introduces: the code side's own baseline and rules, current, superseded by none. */
  function Target(cat: Catalogue, request: Request, now: int): Version
    requires request.targetVersion in cat.canonical
  {
    Version(request.targetVersion, cat.canonical[request.targetVersion].baseline, cat.canonical[request.targetVersion].rules,
            None, true, now)
  }

  /** What the request itself has to show before its baseline is looked at. */
  predicate Authorised(cat: Catalogue, db: Db, id: string) {
    && !Blank(id) && id in db.requests
    && var request := db.requests[id];
       && (request.status.RequestApproved? || request.status.RequestApplied?)
       && request.targetVersion in cat.canonical && request.ruleIds == cat.canonical[request.targetVersion].rules
       && request.adrId in db.adrs && db.adrs[request.adrId].status.AdrAccepted?
  }

  /** The chain and the catalogue allow the introduction. */
  predicate CanIntroduce(cat: Catalogue, db: Db, request: Request, now: int)
    requires request.targetVersion in cat.canonical
  {
    && request.sourceVersion != request.targetVersion && CanRollOver(db.versions, Target(cat, request, now), request.sourceVersion)
    && CanEnsureAll(db, cat.adrSpecs)
  }

  lemma AuthorisedIsNotRefused(cat: Catalogue, db: Db, id: string, now: int)
    ensures ApplyRefused(cat, db, id).None? <==> Authorised(cat, db, id)
    ensures Authorised(cat, db, id) ==> TargetSpec(cat, db.requests[id], now) == Target(cat, db.requests[id], now)
  {
    hide Blank;
  }

  /** From a single current baseline the introduction leads to its target as the single current one. */
  lemma OneCurrentAfter(versions: map<string, Version>, spec: Version, source: string, after: map<string, Version>)
    requires |CurrentVersions(versions)| == 1 && spec.isCurrent && source != spec.version
    requires CanRollOver(versions, spec, source) && Superseded(versions, spec, source, after)
    ensures CurrentVersions(after) == {spec.version}
  {
    var now := if spec.version in versions then spec.version else source;
    assert now in CurrentVersions(versions);
    OneElement(CurrentVersions(versions), now);
    if spec.version !in versions {
      forall v | v in CurrentVersions(after)
        ensures v == spec.version
      {
        assert v == spec.version || v in CurrentVersions(versions);
      }
      assert spec.version in CurrentVersions(after);
    }
  }

  lemma ApprovedTable(cat: Catalogue, db: Db, request: Request, now: int)
    requires request.targetVersion in cat.canonical
    ensures var r := ApplyApproved(cat, db, request, Target(cat, request, now), now);
            && (r.Ok? <==>
                  |CurrentVersions(db.versions)| == 1 && CanIntroduce(cat, db, request, now)
                  && CanRegisterAll(db, DeclaredRisks(cat, request.requestId)))
            && (r.Ok? ==>
                  && Superseded(db.versions, Target(cat, request, now), request.sourceVersion, r.value.versions)
                  && Ensured(db, cat.adrSpecs, now, r.value.adrs)
                  && Registered(db, DeclaredRisks(cat, request.requestId), now, r.value.risks)
                  && r.value.projects == db.projects
                  && r.value.requests == db.requests[request.requestId := request.(status := RequestApplied, appliedAt := Some(now))]
                  && r.value.audit != []
                  && r.value.audit[|r.value.audit| - 1] == RequestEntry(request.requestId, RequestApplied, now))
  {
    hide Introduced, RisksRegistered, CanRollOver, CanEnsureAll, Ensured, Superseded, Registered, CanRegisterAll, CurrentVersions;
    var spec, risks := Target(cat, request, now), DeclaredRisks(cat, request.requestId);
    IntroductionTable(cat.adrSpecs, db, spec, request.sourceVersion, now);
    if Introduced(cat.adrSpecs, db, spec, Some(request.sourceVersion), now).Ok? {
      var introduced := Introduced(cat.adrSpecs, db, spec, Some(request.sourceVersion), now).value;
      RegisterTable(introduced, risks, now);
      SameRegistrable(db, introduced, risks, now, map[]);
      if RisksRegistered(introduced, risks, now).Ok? {
        SameRegistrable(db, introduced, risks, now, RisksRegistered(introduced, risks, now).value.risks);
      }
      if |CurrentVersions(db.versions)| == 1 {
        OneCurrentAfter(db.versions, spec, request.sourceVersion, introduced.versions);
      }
    }
  }

  /**
    An application succeeds if and only if the request is APPROVED on an ACCEPTED record for a declared
    target with its declared rules, its source is the one current baseline, and records and risks fit;
    or it is APPLIED already and its target, superseding its source, is the one current baseline still.
    Then the source is superseded by the target, records and risks are complete, and the request APPLIED.
   */
  lemma ApplicationTable(cat: Catalogue, db: Db, id: string, now: int)
    requires KeyedAt(db, id)
    ensures var r := ApplyRequest(cat, db, id, now);
            && (r.Ok? <==>
                  Authorised(cat, db, id)
                  && var request := db.requests[id];
                     && CanIntroduce(cat, db, request, now)
                     && (request.status.RequestApproved? ==>
                           |CurrentVersions(db.versions)| == 1 && CanRegisterAll(db, DeclaredRisks(cat, id)))
                     && (request.status.RequestApplied? ==>
                           CurrentVersions(db.versions) == {request.targetVersion}
                           && db.versions[request.sourceVersion].supersededBy == Some(request.targetVersion)))
            && (r.Ok? ==>
                  var request := db.requests[id];
                  && Superseded(db.versions, Target(cat, request, now), request.sourceVersion, r.value.versions)
                  && Ensured(db, cat.adrSpecs, now, r.value.adrs) && r.value.projects == db.projects
                  && (request.status.RequestApplied? ==> r.value.requests == db.requests && r.value.risks == db.risks)
                  && (request.status.RequestApproved? ==>
                        && Registered(db, DeclaredRisks(cat, id), now, r.value.risks)
                        && r.value.requests == db.requests[id := request.(status := RequestApplied, appliedAt := Some(now))]
                        && r.value.audit != [] && r.value.audit[|r.value.audit| - 1] == RequestEntry(id, RequestApplied, now)))
  {
    hide ApplyApproved, Introduced, Blank, CanEnsureAll, Ensured, Superseded, Registered, CanRegisterAll, CurrentVersions,
         ApplyRefused, TargetSpec;
    AuthorisedIsNotRefused(cat, db, id, now);
    if Authorised(cat, db, id) {
      var request := db.requests[id];
      ApprovedTable(cat, db, request, now);
      IntroductionTable(cat.adrSpecs, db, Target(cat, request, now), request.sourceVersion, now);
    }
  }

  // -- seeding -------------------------------------------------------------------------------------------

  /** An unseeded project table, or the one project of this name. */
  ghost predicate CanSeedProject(db: Db, name: string) {
    db.projects == map[] || (SingleProject(db).Some? && SingleProject(db).value.name == name)
  }

  /** The first baseline is new and nothing is current, or it is on record with this content at, or right before, the head. */
  predicate CanSeedVersion(versions: map<string, Version>, boot: Boot) {
    if boot.version !in versions then forall v <- versions :: !versions[v].isCurrent
    else
      var v := versions[boot.version];
      && v.version == boot.version && v.baseline == boot.baseline && v.rules == boot.rules
      && if v.isCurrent then forall other <- versions :: versions[other].isCurrent ==> other == boot.version
         else v.supersededBy.Some? && v.supersededBy.value in versions && versions[v.supersededBy.value].isCurrent
  }

  lemma NoneCurrent(versions: map<string, Version>, except: string)
    ensures CurrentVersions(versions) == {} <==> forall v <- versions :: !versions[v].isCurrent
    ensures CurrentVersions(versions) - {except} == {} <==> forall v <- versions :: versions[v].isCurrent ==> v == except
  {
    if v :| v in versions && versions[v].isCurrent { assert v in CurrentVersions(versions); }
    if v :| v in versions && versions[v].isCurrent && v != except { assert v in CurrentVersions(versions) - {except}; }
  }

  /** The baseline as specified, unless one of its name is on record. */
  function VersionsSeeded(versions: map<string, Version>, boot: Boot, now: int): map<string, Version> {
    if boot.version in versions then versions
    else versions[boot.version := Version(boot.version, boot.baseline, boot.rules, None, true, now)]
  }

  /** The project as specified, stamped, unless there is one. */
  function ProjectsSeeded(projects: map<string, Project>, boot: Boot, now: int): map<string, Project> {
    if projects != map[] then projects
    else map[boot.project.name := Project(boot.project.name, boot.project.mode, boot.project.paused, now)]
  }

  lemma SeedVersionTable(db: Db, boot: Boot, now: int)
    ensures var r := VersionReconciled(db, FirstVersion(boot, now));
            && (r.Ok? <==> CanSeedVersion(db.versions, boot))
            && (r.Ok? ==> r.value == db.(versions := VersionsSeeded(db.versions, boot, now)))
  {
    NoneCurrent(db.versions, boot.version);
    hide CurrentVersions;
  }

  lemma SeedProjectTable(db: Db, boot: Boot, now: int)
    ensures var r := ProjectReconciled(db, NewProject(boot, now));
            && (r.Ok? <==> CanSeedProject(db, boot.project.name))
            && (r.Ok? ==> r.value == db.(projects := ProjectsSeeded(db.projects, boot, now)))
  {
  }

  /** The records and the risks of a seeding. */
  function Filled(boot: Boot, db: Db, now: int): Result<Db, string> {
    match AdrsEnsured(db, boot.adrs, now)
    case Err(e) => Err(e)
    case Ok(recorded) => RisksRegistered(recorded, boot.risks, now)
  }

  /** On a store that differs from db in neither records nor risks. */
  lemma FillTable(boot: Boot, db: Db, versioned: Db, now: int)
    requires versioned.adrs == db.adrs && versioned.risks == db.risks
    ensures var r := Filled(boot, versioned, now);
            && (r.Ok? <==> CanEnsureAll(db, boot.adrs) && CanRegisterAll(db, boot.risks))
            && (r.Ok? ==>
                  Ensured(db, boot.adrs, now, r.value.adrs) && Registered(db, boot.risks, now, r.value.risks)
                  && r.value.projects == versioned.projects && r.value.versions == versioned.versions
                  && r.value.requests == versioned.requests)
  {
    hide AdrsEnsured, RisksRegistered, CanEnsureAll, CanRegisterAll, Ensured, Registered;
    EnsureTable(versioned, boot.adrs, now);
    SameEnsurable(db, versioned, boot.adrs, now, map[]);
    if AdrsEnsured(versioned, boot.adrs, now).Ok? {
      var recorded := AdrsEnsured(versioned, boot.adrs, now).value;
      SameEnsurable(db, versioned, boot.adrs, now, recorded.adrs);
      RegisterTable(recorded, boot.risks, now);
      SameRegistrable(db, recorded, boot.risks, now, map[]);
      if RisksRegistered(recorded, boot.risks, now).Ok? {
        SameRegistrable(db, recorded, boot.risks, now, RisksRegistered(recorded, boot.risks, now).value.risks);
      }
    }
  }

  /** Seeding: the project, then the baseline, then the rest; the first that raises ends it. */
  lemma SeededInParts(boot: Boot, db: Db, now: int)
    ensures var projected := ProjectReconciled(db, NewProject(boot, now));
            if projected.Err? then Seeded(boot, db, now).Err?
            else
              var versioned := VersionReconciled(projected.value, FirstVersion(boot, now));
              if versioned.Err? then Seeded(boot, db, now).Err? else Seeded(boot, db, now) == Filled(boot, versioned.value, now)
  {
    hide ProjectReconciled, VersionReconciled, AdrsEnsured, RisksRegistered;
  }

  /** What seeding leaves: the project and the baseline created or as they were, records and risks complete. */
  ghost predicate SeedLeaves(boot: Boot, db: Db, after: Db, now: int) {
    && after.projects == ProjectsSeeded(db.projects, boot, now) && after.versions == VersionsSeeded(db.versions, boot, now)
    && Ensured(db, boot.adrs, now, after.adrs) && Registered(db, boot.risks, now, after.risks)
    && after.requests == db.requests
  }

  /**
    Seeding succeeds if and only if project, baseline, records and risks can each be created or are
    already as specified; a live project and a recorded version are never rewritten.
   */
  lemma SeedTable(boot: Boot, db: Db, now: int)
    ensures var r := Seeded(boot, db, now);
            && (r.Ok? <==>
                  CanSeedProject(db, boot.project.name) && CanSeedVersion(db.versions, boot)
                  && CanEnsureAll(db, boot.adrs) && CanRegisterAll(db, boot.risks))
            && (r.Ok? ==> SeedLeaves(boot, db, r.value, now))
  {
    hide Seeded, ProjectReconciled, VersionReconciled, Filled, CanSeedProject, CanSeedVersion, CanEnsureAll, CanRegisterAll,
         Ensured, Registered, FirstVersion, NewProject, VersionsSeeded, ProjectsSeeded;
    SeededInParts(boot, db, now);
    SeedProjectTable(db, boot, now);
    if ProjectReconciled(db, NewProject(boot, now)).Ok? {
      var projected := ProjectReconciled(db, NewProject(boot, now)).value;
      SeedVersionTable(projected, boot, now);
      if VersionReconciled(projected, FirstVersion(boot, now)).Ok? {
        FillTable(boot, db, VersionReconciled(projected, FirstVersion(boot, now)).value, now);
      }
    }
  }
}
