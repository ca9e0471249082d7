/** The mandatory architecture gate of a review (application/realization_control.py). */
module Realization {
  import opened Basics
  import opened Store
  import opened Transactions
  import opened Protocol
  import opened ProtocolScripts
  import opened Connections

  lemma OneElement<T>(s: set<T>, x: T)
    requires |s| == 1 && x in s
    ensures s == {x}
  {
    assert |s - {x}| == 0;
  }

  lemma FindingsGrow(findings: seq<Finding>, i: nat)
    requires i < |findings|
    ensures FindingWrites(findings[..i + 1]) == FindingWrites(findings[..i]) + [Do(PutFinding(findings[i]))]
    ensures FindingSet(findings[..i + 1]) == FindingSet(findings[..i]) + {findings[i]}
  {
    assert findings[..i + 1] == findings[..i] + [findings[i]];
  }

  class RealizationControl {
    const cfg: Config
    const storage: Connection

    constructor (cfg: Config, storage: Connection)
      ensures this.cfg == cfg && this.storage == storage
    {
      this.cfg, this.storage := cfg, storage;
    }

    /** The single current baseline, when it is the canonical one. */
    method RequireAuthoritativeBaseline() returns (r: Result<Version, string>)
      requires storage.Valid()
      ensures var current := CurrentVersions(storage.working.versions);
              r.Ok? <==>
              exists v :: current == {v} && storage.working.versions[v].version == cfg.canonicalVersion
                          && storage.working.versions[v].rules == cfg.canonicalRules
      ensures forall v :: CurrentVersions(storage.working.versions) == {v} ==>
                (r.Ok? ==> r.value == storage.working.versions[v])
                && (r.Err? ==> r.error == if storage.working.versions[v].version != cfg.canonicalVersion
                                          then "baseline-version" else "baseline-rules")
      ensures (forall v :: CurrentVersions(storage.working.versions) != {v}) ==> r == Err("baseline-not-single")
    {
      var versions := storage.working.versions;
      var current := CurrentVersions(versions);
      if |current| != 1 { return Err("baseline-not-single"); }
      var name :| name in current;
      OneElement(current, name);
      if versions[name].version != cfg.canonicalVersion { return Err("baseline-version"); }
      if versions[name].rules != cfg.canonicalRules { return Err("baseline-rules"); }
      return Ok(versions[name]);
    }

    /** One upsert per finding, inside the scope of the caller. */
    method RecordFindings(findings: seq<Finding>)
      requires storage.Valid() && storage.depth > 0
      modifies storage, storage.journal
      ensures Performed(storage, FindingWrites(findings),
                        old(storage.working).(findings := old(storage.working).findings + FindingSet(findings)))
    {
      hide RowsKeyed;
      ghost var started := storage.working;
      assert started.findings + FindingSet([]) == started.findings;
      for i := 0 to |findings|
        invariant Performed(storage, FindingWrites(findings[..i]),
                            started.(findings := started.findings + FindingSet(findings[..i])))
      {
        FindingsGrow(findings, i);
        storage.ExecuteWrite(PutFinding(findings[i]));
      }
      assert findings[..|findings|] == findings;
    }

    /** The findings, then the decision, in one scope. */
    method RecordEvidence(e: Evidence)
      requires storage.Valid()
      modifies storage, storage.journal
      ensures Performed(storage, [Enter] + EvidenceWrites(e) + [Exit], WithEvidence(old(storage.working), e))
    {
      hide RowsKeyed;
      storage.Enter();
      RecordFindings(e.findings);
      storage.ExecuteWrite(PutDecision(e.decision));
      storage.Leave(false);
    }

    /** The verdict of one attempt, with its findings and its decision recorded in one scope. */
    method Gate(key: Key, env: Env) returns (r: Result<Evidence, string>)
      requires storage.Valid()
      modifies storage, storage.journal
      ensures r == Protocol.Gate(cfg, old(storage.working), key, env)
      ensures r.Err? ==> Untouched(storage)
      ensures r.Ok? ==> Performed(storage, [Enter] + EvidenceWrites(r.value) + [Exit], WithEvidence(old(storage.working), r.value))
    {
      hide RowsKeyed;
      var version := RequireAuthoritativeBaseline();
      if version.Err? { return Err(version.error); }
      if env.scan.None? { return Err("scan"); }
      if env.scanBaseline != version.value.version { return Err("check-baseline"); }
      var findings := FindingsOf(key, env.scan.value);
      var decision := Decision(key, if env.scan.value == [] then Accepted else Rejected, env.scanBaseline, findings);
      RecordEvidence(Evidence(findings, decision));
      r := Ok(Evidence(findings, decision));
    }
  }
}
