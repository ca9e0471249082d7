/**
  When is a restart a no-op? The catalogue's documentation says always; the code says: exactly while
  everything declared is on record as declared and nothing has superseded the declared version. A
  further version ends that, and so does amending or retiring one of the declared records.
 */
module Restart {
  import opened Basics
  import opened Store
  import opened Adrs
  import opened AdrHistory
  import opened Versions
  import opened VersionChain
  import opened Requests
  import opened Bootstraps
  import opened EvolutionRuns
  import opened StartUp

  /** Everything a start-up looks for is on record, wherever the head of the version chain has moved since. */
  ghost predicate OnRecord(cat: Catalogue, boot: Boot, change: Declared, db: Db) {
    && ProjectPresent(db, boot.project.name) && ContentPresent(db, boot.version, boot.baseline, boot.rules)
    && AdrsPresent(db, boot.adrs) && RisksPresent(db, boot.risks)
    && ProposeDone(change, db) && ApproveDone(change, db) && AppliedOnRecord(cat, change, db)
  }

  /** With two versions after it, the first baseline is no longer next to the head, and the start-up raises. */
  lemma LongChainRaises(cat: Catalogue, boot: Boot, change: Declared, order: seq<string>, i: nat, db: Db, now: int)
    requires ChainOf(order, db.versions) && i + 2 < |order| && order[i] == boot.version
    ensures StartPrefix(cat, boot, change, 4, db, now) == (db, false)
  {
    hide AdrsEnsured, RisksRegistered, ProposeRequest, ApproveRequest, ApplyRequest;
    assert LinkAt(order, db.versions, i) && LinkAt(order, db.versions, i + 1);
    assert Seeded(boot, db, now).Err?;
    assert StartPrefix(cat, boot, change, 1, db, now) == (db, false);
    assert StartPrefix(cat, boot, change, 2, db, now) == (db, false);
    assert StartPrefix(cat, boot, change, 3, db, now) == (db, false);
  }

  /** Done is: on record, with the declared version at the head of the chain. */
  lemma DoneIffOnRecordAtHead(cat: Catalogue, boot: Boot, change: Declared, order: seq<string>, db: Db)
    requires Declares(boot, change) && ChainOf(order, db.versions)
    ensures DoneBelow(cat, boot, change, 4, db) <==> OnRecord(cat, boot, change, db) && HeadIs(order, change.request.targetVersion)
  {
    hide ApproveDone, ApplyRefused, AdrsPresent, RisksPresent, LinkedAdrVerified, WellFormedCall;
    CurrentIsLast(order, db.versions);
    assert order != [] ==> LinkAt(order, db.versions, |order| - 1);
  }

  predicate HeadIs(order: seq<string>, version: string) {
    order != [] && order[|order| - 1] == version
  }

  /** A start-up leaves a store alone exactly when its four transactions have nothing left to do there. */
  lemma RestartIffDone(cat: Catalogue, boot: Boot, change: Declared, db: Db, now: int)
    requires EvoInv(db, false) && Declares(boot, change)
    ensures StartPrefix(cat, boot, change, 4, db, now) == (db, true) <==> DoneBelow(cat, boot, change, 4, db)
  {
    hide StartPrefix, EvoInv, DoneBelow, Declares;
    if StartPrefix(cat, boot, change, 4, db, now) == (db, true) {
      PrefixAdvances(cat, boot, change, 4, db, now);
    }
    if DoneBelow(cat, boot, change, 4, db) {
      DonePrefix(cat, boot, change, 4, db, now);
    }
  }

  /**
    The exact restart condition. A start-up succeeds without writing anything if and only if everything
    declared is on record as declared and the declared version is the last of the chain.
   */
  lemma RestartIffAtHead(cat: Catalogue, boot: Boot, change: Declared, order: seq<string>, db: Db, now: int)
    requires EvoInv(db, false) && Declares(boot, change) && ChainOf(order, db.versions)
    ensures StartPrefix(cat, boot, change, 4, db, now) == (db, true) <==>
            OnRecord(cat, boot, change, db) && HeadIs(order, change.request.targetVersion)
  {
    hide StartPrefix, EvoInv, DoneBelow, Declares, OnRecord, HeadIs, ChainOf;
    RestartIffDone(cat, boot, change, db, now);
    DoneIffOnRecordAtHead(cat, boot, change, order, db);
  }

  /** On a chain that begins with the declared change, that is: all on record, and at most two versions. */
  lemma RestartIffShortChain(cat: Catalogue, boot: Boot, change: Declared, order: seq<string>, db: Db, now: int)
    requires EvoInv(db, false) && Declares(boot, change) && ChainOf(order, db.versions)
    requires |order| >= 2 && order[0] == boot.version && order[1] == change.request.targetVersion
    ensures StartPrefix(cat, boot, change, 4, db, now) == (db, true) <==> OnRecord(cat, boot, change, db) && |order| <= 2
  {
    hide StartPrefix, EvoInv, Declares, OnRecord;
    RestartIffAtHead(cat, boot, change, order, db, now);
  }

  /** Any further change that is applied ends the restartability. */
  lemma FurtherChangeEndsRestarts(
    cat: Catalogue, boot: Boot, change: Declared, order: seq<string>, db: Db, id: string, now: int, later: int)
    requires EvoInv(db, false) && ChainOf(order, db.versions) && |order| >= 2 && order[0] == boot.version
    requires ApplyRequest(cat, db, id, now).Ok? && db.requests[id].targetVersion !in db.versions
    ensures var db' := ApplyRequest(cat, db, id, now).value; StartPrefix(cat, boot, change, 4, db', later) == (db', false)
  {
    hide StartPrefix, EvoInv, ApplyApproved, VerifyApplied, RolledOver, ApplyDone, Grows, ChainOf;
    var request := db.requests[id];
    Keys(db, id);
    ApplyEffect(cat, Declared(request, AdrSpec("", AdrText("", "", "", [], [])), ""), db, now);
    var order' := RollOverExtends(order, db, TargetSpec(cat, request, now), Some(request.sourceVersion));
    LongChainRaises(cat, boot, change, order', 0, ApplyRequest(cat, db, id, now).value, later);
  }

  // -- records that change after the start-up --------------------------------------------------

  /** Only decision records differ, and none is gone. */
  predicate OnlyRecordsChanged(db: Db, db': Db) {
    db' == db.(adrs := db'.adrs, audit := db'.audit) && forall id <- db.adrs :: id in db'.adrs
  }

  lemma {:induction false} ChangedAdrsConflict(db: Db, specs: seq<AdrSpec>, now: int)
    requires forall i :: 0 <= i < |specs| ==> specs[i].id in db.adrs
    ensures AdrsEnsured(db, specs, now) == if AdrsPresent(db, specs) then Ok(db) else Err("adr-differs")
    decreases |specs|
  {
    if specs != [] {
      var init := specs[..|specs| - 1];
      ChangedAdrsConflict(db, init, now);
      assert specs == init + [specs[|specs| - 1]];
      assert AdrsPresent(db, specs) <==> AdrsPresent(db, init) && AdrsPresent(db, [specs[|specs| - 1]]);
    }
  }

  /** The first step that raises leaves what the steps before it left. */
  lemma {:induction false} RaisesAfterDone(cat: Catalogue, boot: Boot, change: Declared, j: nat, k: nat, db: Db, now: int)
    requires j < k <= 4 && DoneBelow(cat, boot, change, j, db) && StartStep(cat, boot, change, j, db, now).Err?
    ensures StartPrefix(cat, boot, change, k, db, now) == (db, false)
    decreases k
  {
    hide StartStep, DoneBelow;
    if j + 1 < k {
      RaisesAfterDone(cat, boot, change, j, k - 1, db, now);
    } else {
      DonePrefix(cat, boot, change, j, db, now);
    }
  }

  lemma SeedAfterChange(boot: Boot, db: Db, db': Db, now: int)
    requires SeedDone(boot, db) && OnlyRecordsChanged(db, db')
    ensures if AdrsPresent(db', boot.adrs) then SeedDone(boot, db') else Seeded(boot, db', now).Err?
  {
    hide AdrsEnsured, RisksRegistered;
    ChangedAdrsConflict(db', boot.adrs, now);
    SameProjects(db, db', boot.project.name);
    if !AdrsPresent(db', boot.adrs) {
      var name :| db.projects.Keys == {name};
      assert name in db.projects;
    }
  }

  lemma ApplyAfterChange(cat: Catalogue, change: Declared, db: Db, db': Db, now: int)
    requires ApplyDone(cat, change, db) && ProposeDone(change, db) && OnlyRecordsChanged(db, db')
    ensures if AdrsPresent(db', cat.adrSpecs) && change.adr.id in db'.adrs && db'.adrs[change.adr.id].status.AdrAccepted?
            then ApplyDone(cat, change, db') else ApplyRequest(cat, db', change.request.requestId, now).Err?
  {
    hide AdrsEnsured, Blank, LinkedAdrVerified;
    ChangedAdrsConflict(db', cat.adrSpecs, now);
  }

  /**
    After a completed start-up, whatever happens to the decision records alone, a restart writes nothing,
    and it succeeds if and only if every declared record is still accepted, in its declared words.
   */
  lemma RestartIffRecordsStand(cat: Catalogue, boot: Boot, change: Declared, db: Db, db': Db, now: int)
    requires DoneBelow(cat, boot, change, 4, db) && OnlyRecordsChanged(db, db')
    ensures StartPrefix(cat, boot, change, 4, db', now) == (db', AdrsPresent(db', AllAdrs(cat, boot, change)))
  {
    hide StartPrefix, SeedDone, ApplyDone, ApproveDone, AdrsPresent, Seeded, ApplyRequest;
    SplitAdrs(db', cat, boot, change);
    SeedAfterChange(boot, db, db', now);
    ApproveDoneStays(change, db, db');
    ApplyAfterChange(cat, change, db, db', now);
    if !AdrsPresent(db', boot.adrs) {
      RaisesAfterDone(cat, boot, change, 0, 4, db', now);
    } else if db'.adrs[change.adr.id].text != change.adr.text || LinkedAdrVerified(db', change.adr.id, change.adr).Some? {
      RaisesAfterDone(cat, boot, change, 1, 4, db', now);
    } else if !AdrsPresent(db', cat.adrSpecs) || !db'.adrs[change.adr.id].status.AdrAccepted? {
      RaisesAfterDone(cat, boot, change, 3, 4, db', now);
    } else {
      DonePrefix(cat, boot, change, 4, db', now);
    }
  }

  lemma ApproveDoneStays(change: Declared, db: Db, db': Db)
    requires ApproveDone(change, db) && db'.requests == db.requests
    ensures ApproveDone(change, db')
  {
  }

  lemma SplitAdrs(db: Db, cat: Catalogue, boot: Boot, change: Declared)
    ensures AdrsPresent(db, AllAdrs(cat, boot, change)) <==>
            AdrsPresent(db, boot.adrs) && AdrsPresent(db, cat.adrSpecs)
            && change.adr.id in db.adrs && AdrMatches(db.adrs[change.adr.id], change.adr)
  {
    var all := AllAdrs(cat, boot, change);
    assert all[|all| - 1] == change.adr;
    assert forall i :: 0 <= i < |boot.adrs| ==> boot.adrs[i] == all[i];
    assert forall i :: 0 <= i < |cat.adrSpecs| ==> cat.adrSpecs[i] == all[|boot.adrs| + i];
  }

  lemma DoneIsPresent(cat: Catalogue, boot: Boot, change: Declared, db: Db)
    requires DoneBelow(cat, boot, change, 4, db)
    ensures AdrsPresent(db, AllAdrs(cat, boot, change))
  {
    hide AdrsPresent, ApproveDone, Blank;
    SplitAdrs(db, cat, boot, change);
  }

  predicate DeclaredRecord(cat: Catalogue, boot: Boot, change: Declared, id: string) {
    exists i :: 0 <= i < |AllAdrs(cat, boot, change)| && AllAdrs(cat, boot, change)[i].id == id
  }

  /** One accepted record is rewritten: the declared ones stand unless it is one of them and no longer matches. */
  lemma OneRecordRewritten(all: seq<AdrSpec>, db: Db, db': Db, id: string)
    requires AdrsPresent(db, all) && id in db.adrs && id in db'.adrs
    requires forall other <- db.adrs :: other != id && db.adrs[other].status.AdrAccepted? ==>
               other in db'.adrs && db'.adrs[other] == db.adrs[other]
    ensures AdrsPresent(db', all) <==>
            (forall i :: 0 <= i < |all| ==> all[i].id != id) || (db'.adrs[id].status.AdrAccepted? && db'.adrs[id].text == db.adrs[id].text)
  {
    if i :| 0 <= i < |all| && all[i].id == id {
      assert AdrMatches(db.adrs[id], all[i]);
      assert AdrsPresent(db', all) ==> AdrMatches(db'.adrs[id], all[i]);
    }
  }

  /** An amendment leaves restarts alone exactly when it amends no declared record, or changes no word of it. */
  lemma RestartAfterAmendment(
    cat: Catalogue, boot: Boot, change: Declared, db: Db, id: string, changes: AdrChanges, now: int, later: int)
    requires EvoInv(db, false) && DoneBelow(cat, boot, change, 4, db) && AmendAdr(db, id, changes, now).Ok?
    ensures var db' := AmendAdr(db, id, changes, now).value;
            StartPrefix(cat, boot, change, 4, db', later) ==
            (db', !DeclaredRecord(cat, boot, change, id) || Amended(db.adrs[id].text, changes) == db.adrs[id].text)
  {
    hide StartPrefix, EvoInv, DoneBelow, AllAdrs, AdrsPresent, Blank, PutAll, Amended;
    var db' := AmendAdr(db, id, changes, now).value;
    var row := db.adrs[id].(text := Amended(db.adrs[id].text, changes), version := db.adrs[id].version + 1, updatedAt := now);
    Keys(db, id);
    OneRow(db.adrs, row);
    DoneIsPresent(cat, boot, change, db);
    RestartIffRecordsStand(cat, boot, change, db, db', later);
    OneRecordRewritten(AllAdrs(cat, boot, change), db, db', id);
    if i :| 0 <= i < |AllAdrs(cat, boot, change)| && AllAdrs(cat, boot, change)[i].id == id {
      PresentAt(AllAdrs(cat, boot, change), db, i);
    }
  }

  lemma PresentAt(all: seq<AdrSpec>, db: Db, i: nat)
    requires AdrsPresent(db, all) && i < |all|
    ensures all[i].id in db.adrs && AdrMatches(db.adrs[all[i].id], all[i])
  {
  }

  function Retirement(db: Db, id: string, successor: Option<string>, now: int): Result<Db, string> {
    match successor
    case None => DeprecateAdr(db, id, now)
    case Some(s) => SupersedeAdr(db, id, s, now)
  }

  /** Deprecating or superseding a record ends restarts exactly when it is a declared one. */
  lemma RestartAfterRetirement(
    cat: Catalogue, boot: Boot, change: Declared, db: Db, id: string, successor: Option<string>, now: int, later: int)
    requires EvoInv(db, false) && DoneBelow(cat, boot, change, 4, db) && Retirement(db, id, successor, now).Ok?
    ensures var db' := Retirement(db, id, successor, now).value;
            StartPrefix(cat, boot, change, 4, db', later) == (db', !DeclaredRecord(cat, boot, change, id))
  {
    hide StartPrefix, EvoInv, DoneBelow, AllAdrs, AdrsPresent, PutAll;
    var db' := Retirement(db, id, successor, now).value;
    Keys(db, id);
    if successor.Some? {
      Keys(db, successor.value);
      var adr, next := db.adrs[id], db.adrs[successor.value];
      TwoRows(db.adrs, adr.(status := AdrSuperseded, supersededBy := successor, updatedAt := now),
              if next.status.AdrProposed? then next.(status := AdrAccepted, updatedAt := now) else next);
    } else {
      OneRow(db.adrs, db.adrs[id].(status := AdrDeprecated, updatedAt := now));
    }
    DoneIsPresent(cat, boot, change, db);
    RestartIffRecordsStand(cat, boot, change, db, db', later);
    OneRecordRewritten(AllAdrs(cat, boot, change), db, db', id);
  }
}
