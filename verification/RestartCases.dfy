/**
  A completed start-up, and three calls each of which makes the next start-up raise, against the
  documentation (see Restart): a third version, an amended record, and a deprecated one.
 */
module RestartCases {
  import opened Basics
  import opened Store
  import opened Adrs
  import opened AdrHistory
  import opened Versions
  import opened VersionChain
  import opened Requests
  import opened Bootstraps
  import opened EvolutionRuns
  import opened StartUp
  import opened Restart
  import opened Convergence
  import opened FreshStart
  import opened FirstStart

  const WORDS := AdrText("title", "context", "decision", [], [])

  /** A first baseline with one record. */
  const BOOT := Boot(Project("project", Auto, false, 0), "1.0", "layers", ["rule"], [AdrSpec("ADR-001", WORDS)], [])

  /** One declared change, from it to the next baseline. */
  const CHANGE := Declared(
    Request("ACR-001", "title", "rationale", "1.0", "1.1", ["rule", "more"], "ADR-002", [], RequestProposed, 0, None, None, None),
    AdrSpec("ADR-002", WORDS), "owner")

  const CATALOGUE := Catalogue(map["1.1" := Version("1.1", "more layers", ["rule", "more"], None, true, 0)], map[], [])

  const EMPTY := Db(map[], map[], map[], {}, map[], map[], map[], map[], map[], [])

  /** The store after the first start-up. */
  ghost function Started(now: int): Db {
    StartPrefix(CATALOGUE, BOOT, CHANGE, 4, EMPTY, now).0
  }

  lemma Declarable()
    ensures WellDeclared(CATALOGUE, BOOT, CHANGE) && Unused(EMPTY) && Declares(BOOT, CHANGE)
  {
    assert !Blank("ADR-001") by { assert !IsSpace("ADR-001"[0]); }
    assert !Blank("ADR-002") by { assert !IsSpace("ADR-002"[0]); }
    assert !Blank("ACR-001") by { assert !IsSpace("ACR-001"[0]); }
    assert !Blank("title") by { assert !IsSpace("title"[0]); }
    assert !Blank("owner") by { assert !IsSpace("owner"[0]); }
    assert "ADR-001"[6] != "ADR-002"[6];
    assert "1.0"[2] != "1.1"[2];
    assert AllAdrs(CATALOGUE, BOOT, CHANGE) == [AdrSpec("ADR-001", WORDS), AdrSpec("ADR-002", WORDS)];
    assert AllRisks(CATALOGUE, BOOT, CHANGE) == [];
    hide Blank;
  }

  /** The first start-up completes, and at once a second one writes nothing. */
  lemma StartsAndRestarts(now: int, later: int)
    ensures StartPrefix(CATALOGUE, BOOT, CHANGE, 4, EMPTY, now) == (Started(now), true)
    ensures StartPrefix(CATALOGUE, BOOT, CHANGE, 4, Started(now), later) == (Started(now), true)
    ensures EvoInv(Started(now), false) && DoneBelow(CATALOGUE, BOOT, CHANGE, 4, Started(now))
  {
    hide *;
    Declarable();
    UnusedStarts(CATALOGUE, BOOT, CHANGE, EMPTY, now);
    UnusedIsUninterrupted(CATALOGUE, BOOT, CHANGE, EMPTY);
    CompletedIs(now);
    PrefixAdvances(CATALOGUE, BOOT, CHANGE, 4, EMPTY, now);
    DonePrefix(CATALOGUE, BOOT, CHANGE, 4, Started(now), later);
  }

  lemma CompletedIs(now: int)
    ensures Started(now) == StartPrefix(CATALOGUE, BOOT, CHANGE, 4, EMPTY, now).0
  {
  }

  const NEW_WORDS := AdrChanges(Some("new title"), None, None, None, None)

  lemma FirstRecord(now: int)
    ensures var db := Started(now); "ADR-001" in db.adrs && AdrMatches(db.adrs["ADR-001"], BOOT.adrs[0])
    ensures DeclaredRecord(CATALOGUE, BOOT, CHANGE, "ADR-001")
  {
    hide EvoInv, Started;
    StartsAndRestarts(now, now);
    assert AllAdrs(CATALOGUE, BOOT, CHANGE)[0] == BOOT.adrs[0];
  }

  /** One amendment after the start-up, and every further start-up raises. */
  lemma AmendmentEndsRestarts(now: int, later: int)
    ensures var r := AmendAdr(Started(now), "ADR-001", NEW_WORDS, now);
            r.Ok? && StartPrefix(CATALOGUE, BOOT, CHANGE, 4, r.value, later) == (r.value, false)
  {
    assert !Blank("new title") by { assert !IsSpace("new title"[0]); }
    hide StartPrefix, EvoInv, DoneBelow, Started, DeclaredRecord, PutAll, Blank;
    assert "new title"[0] != "title"[0];
    StartsAndRestarts(now, later);
    FirstRecord(now);
    RestartAfterAmendment(CATALOGUE, BOOT, CHANGE, Started(now), "ADR-001", NEW_WORDS, now, later);
  }

  /** So does deprecating that record. */
  lemma DeprecationEndsRestarts(now: int, later: int)
    ensures var r := DeprecateAdr(Started(now), "ADR-001", now);
            r.Ok? && StartPrefix(CATALOGUE, BOOT, CHANGE, 4, r.value, later) == (r.value, false)
  {
    hide StartPrefix, EvoInv, DoneBelow, Started, DeclaredRecord, PutAll;
    StartsAndRestarts(now, later);
    FirstRecord(now);
    RestartAfterRetirement(CATALOGUE, BOOT, CHANGE, Started(now), "ADR-001", None, now, later);
  }

  const NEXT := Version("1.2", "even more layers", ["rule"], None, true, 0)

  lemma Another(order: seq<string>, a: string, b: string)
    requires |order| >= 3 && order[0] != order[1] && order[0] != order[2] && order[1] != order[2]
    ensures exists i :: 0 <= i < |order| && order[i] != a && order[i] != b
  {
    var i := if order[0] != a && order[0] != b then 0 else if order[1] != a && order[1] != b then 1 else 2;
    assert order[i] != a && order[i] != b;
  }

  lemma TwoVersions(order: seq<string>, versions: map<string, Version>, a: string, b: string)
    requires ChainOf(order, versions) && versions.Keys == {a, b} && a != b && CurrentVersions(versions) == {b}
    ensures order == [a, b]
  {
    CurrentIsLast(order, versions);
    assert b in CurrentVersions(versions);
    assert a in versions && a in order;
    if |order| >= 3 {
      Another(order, a, b);
      assert false;
    }
  }

  lemma StartedVersions(now: int)
    ensures Started(now).versions.Keys == {"1.0", "1.1"} && CurrentVersions(Started(now).versions) == {"1.1"}
    ensures "1.0" != "1.1" && NEXT.version != "1.0" && NEXT.version != "1.1"
  {
    hide StartPrefix, EvoInv, DoneBelow, Unused, WellDeclared, AllNamed, RisksPresent;
    assert "1.0"[2] != "1.1"[2] && "1.2"[2] != "1.0"[2] && "1.2"[2] != "1.1"[2];
    Declarable();
    StartsAndRestarts(now, now);
    Trace(CATALOGUE, BOOT, CHANGE, EMPTY, now);
    DoneNames(CATALOGUE, BOOT, CHANGE, Started(now));
  }

  lemma NextRollsOver(order: seq<string>, db: Db)
    requires ChainOf(order, db.versions) && order == ["1.0", "1.1"] && NEXT.version !in db.versions
    ensures RolledOver(db, NEXT, Some("1.1")).Ok?
  {
    assert LinkAt(order, db.versions, 1);
  }

  lemma NextIntroduced(db: Db, now: int)
    requires RolledOver(db, NEXT, Some("1.1")).Ok? && NEXT.version != "1.1"
    ensures var r := Introduced([], db, NEXT, Some("1.1"), now);
            r.Ok? && r.value.versions == RolledOver(db, NEXT, Some("1.1")).value.versions
  {
    hide RolledOver;
  }

  /** So does one more version. */
  lemma ThirdVersionEndsRestarts(now: int, later: int)
    ensures var r := Introduced([], Started(now), NEXT, Some("1.1"), now);
            r.Ok? && StartPrefix(CATALOGUE, BOOT, CHANGE, 4, r.value, later) == (r.value, false)
  {
    hide StartPrefix, DoneBelow, Started, ChainOf, AdrInv, Coupled, AdrsPresent, RolledOver, Introduced;
    StartsAndRestarts(now, later);
    var db := Started(now);
    var order :| ChainOf(order, db.versions);
    StartedVersions(now);
    TwoVersions(order, db.versions, "1.0", "1.1");
    NextRollsOver(order, db);
    NextIntroduced(db, now);
    var order' := RollOverExtends(order, db, NEXT, Some("1.1"));
    LongChainRaises(CATALOGUE, BOOT, CHANGE, order', 0, Introduced([], db, NEXT, Some("1.1"), now).value, later);
  }
}
