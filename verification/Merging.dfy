/** The merge itself: one pass over the observations, one over the related findings, one over the anchors. */
module Merging {
  import opened Basics
  import opened Texts
  import opened Merger
  import opened MergerLaws

  /** The dictionaries of the pass agree with the first arrivals. */
  ghost predicate Tracks(
    findings: seq<Finding>, identity: map<string, Identity>, effective: map<string, Relation>, targets: map<string, string>,
    firsts: seq<Observation>, anchors: set<string>)
    requires forall i :: 0 <= i < |firsts| ==> firsts[i].Found?
  {
    && findings == FindingsOf(firsts)
    && identity.Keys == ToSet(Ids(findings)) && effective.Keys == identity.Keys && targets.Keys <= identity.Keys
    && (forall k :: 0 <= k < |firsts| ==> TrackedAt(identity, effective, targets, firsts[k], anchors))
  }

  predicate TrackedAt(identity: map<string, Identity>, effective: map<string, Relation>, targets: map<string, string>,
                      o: Observation, anchors: set<string>)
    requires o.Found?
  {
    var id := o.finding.id;
    && id in identity && identity[id] == o.finding.identity
    && id in effective && effective[id] == Effective(o, anchors)
    && (id in targets <==> !Effective(o, anchors).Unresolved?)
    && (id in targets ==> Some(targets[id]) == o.target)
  }

  /** So far nobody has contradicted a first arrival. */
  predicate Consistent(observations: seq<Observation>, identity: map<string, Identity>) {
    forall i :: 0 <= i < |observations| && observations[i].Found? ==>
      observations[i].finding.id in identity && identity[observations[i].finding.id] == observations[i].finding.identity
  }

  lemma TracksSnoc(
    findings: seq<Finding>, identity: map<string, Identity>, effective: map<string, Relation>, targets: map<string, string>,
    firsts: seq<Observation>, anchors: set<string>, o: Observation)
    requires forall i :: 0 <= i < |firsts| ==> firsts[i].Found?
    requires Tracks(findings, identity, effective, targets, firsts, anchors) && o.Found? && o.finding.id !in identity
    requires !Effective(o, anchors).Unresolved? ==> o.target.Some?
    ensures Tracks(findings + [o.finding], identity[o.finding.id := o.finding.identity],
                   effective[o.finding.id := Effective(o, anchors)],
                   if Effective(o, anchors).Unresolved? then targets else targets[o.finding.id := o.target.value],
                   firsts + [o], anchors)
  {
    var id := o.finding.id;
    assert Ids(findings + [o.finding]) == Ids(findings) + [id];
    assert ToSet(Ids(findings) + [id]) == ToSet(Ids(findings)) + {id};
    forall k | 0 <= k < |firsts|
      ensures firsts[k].finding.id != id
    {
      assert TrackedAt(identity, effective, targets, firsts[k], anchors);
    }
    forall k | 0 <= k < |firsts|
      ensures TrackedAt(identity[id := o.finding.identity], effective[id := Effective(o, anchors)],
                        if Effective(o, anchors).Unresolved? then targets else targets[id := o.target.value], firsts[k], anchors)
    {
      assert TrackedAt(identity, effective, targets, firsts[k], anchors);
    }
  }

  /** An id is in the dictionary exactly when one of the first arrivals has it. */
  lemma KnownIds(
    findings: seq<Finding>, identity: map<string, Identity>, effective: map<string, Relation>, targets: map<string, string>,
    firsts: seq<Observation>, anchors: set<string>, id: string)
    requires forall i :: 0 <= i < |firsts| ==> firsts[i].Found?
    requires Tracks(findings, identity, effective, targets, firsts, anchors)
    ensures id !in identity <==> NewId(firsts, id)
  {
    var ids := Ids(findings);
    if id in identity {
      assert id in ids;
      var k :| 0 <= k < |ids| && ids[k] == id;
      assert firsts[k].finding.id == id;
    } else {
      forall k | 0 <= k < |firsts|
        ensures firsts[k].finding.id != id
      {
        assert TrackedAt(identity, effective, targets, firsts[k], anchors);
      }
    }
  }

  lemma TakeOne(observations: seq<Observation>, i: nat)
    requires i < |observations|
    ensures observations[..i + 1] == observations[..i] + [observations[i]]
    ensures var firsts, o := Firsts(observations[..i]), observations[i];
            Firsts(observations[..i + 1]) == if o.Found? && NewId(firsts, o.finding.id) then firsts + [o] else firsts
    ensures forall failed :: Outcomes(observations[..i + 1], failed) ==
              Outcomes(observations[..i], failed)
              + (if failed && observations[i].Failed? then [Outcome(observations[i].source, observations[i].reason)]
                 else if !failed && observations[i].Abstained? then [Outcome(observations[i].source, observations[i].reason)]
                 else [])
  {
    assert observations[..i + 1][..i] == observations[..i];
  }

  lemma CollisionFound(observations: seq<Observation>, i: nat, identity: map<string, Identity>)
    requires i < |observations| && observations[i].Found?
    requires observations[i].finding.id in identity && identity[observations[i].finding.id] != observations[i].finding.identity
    requires exists j :: 0 <= j < i && observations[j].Found? && observations[j].finding.id == observations[i].finding.id
                         && observations[j].finding.identity == identity[observations[i].finding.id]
    ensures Collides(observations)
  {
  }

  lemma ArrivedBefore(
    observations: seq<Observation>, i: nat, findings: seq<Finding>, identity: map<string, Identity>,
    effective: map<string, Relation>, targets: map<string, string>, anchors: set<string>)
    requires i < |observations| && observations[i].Found? && observations[i].finding.id in identity
    requires Tracks(findings, identity, effective, targets, Firsts(observations[..i]), anchors)
    ensures exists j :: 0 <= j < i && observations[j].Found? && observations[j].finding.id == observations[i].finding.id
                        && observations[j].finding.identity == identity[observations[i].finding.id]
  {
    var firsts, id := Firsts(observations[..i]), observations[i].finding.id;
    KnownIds(findings, identity, effective, targets, firsts, anchors, id);
    var k :| 0 <= k < |firsts| && firsts[k].finding.id == id;
    assert TrackedAt(identity, effective, targets, firsts[k], anchors);
    var j := FirstsComeFrom(observations[..i], k);
    assert observations[j] == firsts[k];
  }

  lemma ConsistentDoesNotCollide(observations: seq<Observation>, identity: map<string, Identity>)
    requires Consistent(observations, identity)
    ensures !Collides(observations)
  {
  }

  // -- the passes ----------------------------------------------------------------------------------

  datatype Pass = Pass(
    findings: seq<Finding>, identity: map<string, Identity>, effective: map<string, Relation>, targets: map<string, string>,
    abstained: seq<Outcome>, errors: seq<Outcome>)

  ghost predicate Passed(p: Pass, observations: seq<Observation>, anchors: set<string>) {
    && Tracks(p.findings, p.identity, p.effective, p.targets, Firsts(observations), anchors)
    && p.abstained == Outcomes(observations, false) && p.errors == Outcomes(observations, true)
    && Consistent(observations, p.identity)
  }

  lemma PassNext(p: Pass, observations: seq<Observation>, i: nat, anchors: set<string>, p': Pass)
    requires i < |observations| && Passed(p, observations[..i], anchors)
    requires var o := observations[i];
             match o
             case Abstained(source, reason) => p' == p.(abstained := p.abstained + [Outcome(source, reason)])
             case Failed(source, reason) => p' == p.(errors := p.errors + [Outcome(source, reason)])
             case Found(f, relation, target) =>
               if f.id in p.identity then p.identity[f.id] == f.identity && p' == p
               else
                 (!Effective(o, anchors).Unresolved? ==> target.Some?)
                 && p' == p.(findings := p.findings + [f], identity := p.identity[f.id := f.identity],
                             effective := p.effective[f.id := Effective(o, anchors)],
                             targets := if Effective(o, anchors).Unresolved? then p.targets else p.targets[f.id := target.value])
    ensures Passed(p', observations[..i + 1], anchors)
  {
    hide FirstAt;
    var o := observations[i];
    TakeOne(observations, i);
    if o.Found? {
      KnownIds(p.findings, p.identity, p.effective, p.targets, Firsts(observations[..i]), anchors, o.finding.id);
      if o.finding.id !in p.identity {
        TracksSnoc(p.findings, p.identity, p.effective, p.targets, Firsts(observations[..i]), anchors, o);
      }
    }
  }

  /** One pass over the observations; a forged or corrupted id stops it. */
  method Collect(observations: seq<Observation>, anchors: set<string>) returns (r: Result<Pass, string>)
    ensures r.Err? ==> r.error == "identity-collision" && Collides(observations)
    ensures r.Ok? ==> Passed(r.value, observations, anchors) && !Collides(observations)
  {
    hide Passed, Collides, Effective;
    var findings: seq<Finding>, abstained: seq<Outcome>, errors: seq<Outcome> := [], [], [];
    var identity: map<string, Identity>, effective: map<string, Relation>, targets: map<string, string> := map[], map[], map[];
    NothingPassed(observations, anchors);
    for i := 0 to |observations|
      invariant Passed(Pass(findings, identity, effective, targets, abstained, errors), observations[..i], anchors)
    {
      ghost var before := Pass(findings, identity, effective, targets, abstained, errors);
      match observations[i] {
        case Abstained(source, reason) => abstained := abstained + [Outcome(source, reason)];
        case Failed(source, reason) => errors := errors + [Outcome(source, reason)];
        case Found(finding, relation, target) =>
          if finding.id in identity {
            if identity[finding.id] != finding.identity {
              Forged(before, observations, i, anchors);
              return Err("identity-collision");
            }
          } else {
            identity := identity[finding.id := finding.identity];
            findings := findings + [finding];
            EffectiveIs(observations[i], anchors);
            if relation.Unresolved? || target.None? || target.value !in anchors {
              effective := effective[finding.id := Unresolved];
            } else {
              effective := effective[finding.id := relation];
              targets := targets[finding.id := target.value];
            }
          }
      }
      PassNext(before, observations, i, anchors, Pass(findings, identity, effective, targets, abstained, errors));
    }
    assert observations[..|observations|] == observations;
    PassConsistent(Pass(findings, identity, effective, targets, abstained, errors), observations, anchors);
    r := Ok(Pass(findings, identity, effective, targets, abstained, errors));
  }

  lemma NothingPassed(observations: seq<Observation>, anchors: set<string>)
    ensures Passed(Pass([], map[], map[], map[], [], []), observations[..0], anchors)
  {
    assert Ids([]) == [] && ToSet([]) == {};
    assert FindingsOf([]) == [];
  }

  lemma EffectiveIs(o: Observation, anchors: set<string>)
    requires o.Found?
    ensures Effective(o, anchors) ==
            if o.relation.Unresolved? || o.target.None? || o.target.value !in anchors then Unresolved else o.relation
  {
  }

  lemma PassConsistent(p: Pass, observations: seq<Observation>, anchors: set<string>)
    requires Passed(p, observations, anchors)
    ensures !Collides(observations)
  {
    ConsistentDoesNotCollide(observations, p.identity);
  }

  lemma Forged(p: Pass, observations: seq<Observation>, i: nat, anchors: set<string>)
    requires i < |observations| && Passed(p, observations[..i], anchors) && observations[i].Found?
    requires observations[i].finding.id in p.identity && p.identity[observations[i].finding.id] != observations[i].finding.identity
    ensures Collides(observations)
  {
    ArrivedBefore(observations, i, p.findings, p.identity, p.effective, p.targets, anchors);
    CollisionFound(observations, i, p.identity);
  }

  /** The findings whose recorded relation is this one, in order. */
  function Classified(findings: seq<Finding>, effective: map<string, Relation>, relation: Relation): seq<string>
    requires forall i :: 0 <= i < |findings| ==> findings[i].id in effective
  {
    if findings == [] then []
    else
      var last := findings[|findings| - 1];
      Classified(findings[..|findings| - 1], effective, relation) + (if effective[last.id] == relation then [last.id] else [])
  }

  lemma {:induction false} ClassifiedIsIdsWith(
    firsts: seq<Observation>, effective: map<string, Relation>, anchors: set<string>, relation: Relation)
    requires forall i :: 0 <= i < |firsts| ==> firsts[i].Found?
    requires forall i :: 0 <= i < |firsts| ==> firsts[i].finding.id in effective && effective[firsts[i].finding.id] == Effective(firsts[i], anchors)
    ensures Classified(FindingsOf(firsts), effective, relation) == IdsWith(firsts, anchors, relation)
    decreases |firsts|
  {
    if firsts != [] {
      var init := firsts[..|firsts| - 1];
      assert FindingsOf(firsts)[..|firsts| - 1] == FindingsOf(init);
      ClassifiedIsIdsWith(init, effective, anchors, relation);
    }
  }

  datatype Bucket = Bucket(supporting: seq<string>, contradicting: seq<string>)

  /** Each anchor somebody relates to, with both sides in order. */
  ghost predicate Groups(grouped: map<string, Bucket>, firsts: seq<Observation>, anchors: set<string>)
    requires forall i :: 0 <= i < |firsts| ==> firsts[i].Found?
  {
    forall a :: BucketAt(grouped, a) == Bucket(IdsAt(firsts, anchors, Supporting, a), IdsAt(firsts, anchors, Contradicting, a))
  }

  function BucketAt(grouped: map<string, Bucket>, a: string): Bucket {
    if a in grouped then grouped[a] else Bucket([], [])
  }

  function Placed(b: Bucket, relation: Relation, id: string): Bucket {
    if relation.Supporting? then b.(supporting := b.supporting + [id])
    else if relation.Contradicting? then b.(contradicting := b.contradicting + [id])
    else b
  }

  lemma GroupNext(grouped: map<string, Bucket>, firsts: seq<Observation>, k: nat, anchors: set<string>, grouped': map<string, Bucket>)
    requires forall i :: 0 <= i < |firsts| ==> firsts[i].Found?
    requires k < |firsts| && Groups(grouped, firsts[..k], anchors)
    requires var o := firsts[k];
             if Effective(o, anchors).Unresolved? then grouped' == grouped
             else o.target.Some? && grouped' == grouped[o.target.value := Placed(BucketAt(grouped, o.target.value), Effective(o, anchors), o.finding.id)]
    ensures Groups(grouped', firsts[..k + 1], anchors)
  {
    assert firsts[..k + 1][..k] == firsts[..k];
    forall a
      ensures BucketAt(grouped', a) ==
              Bucket(IdsAt(firsts[..k + 1], anchors, Supporting, a), IdsAt(firsts[..k + 1], anchors, Contradicting, a))
    {
      assert BucketAt(grouped, a) == Bucket(IdsAt(firsts[..k], anchors, Supporting, a), IdsAt(firsts[..k], anchors, Contradicting, a));
    }
  }

  /** The related findings under their anchors. */
  method Group(p: Pass, ghost firsts: seq<Observation>, ghost anchors: set<string>) returns (grouped: map<string, Bucket>)
    requires forall i :: 0 <= i < |firsts| ==> firsts[i].Found?
    requires Tracks(p.findings, p.identity, p.effective, p.targets, firsts, anchors)
    ensures Groups(grouped, firsts, anchors)
  {
    hide Groups, Effective, Tracks;
    grouped := map[];
    NothingGrouped(firsts, anchors);
    TracksFindings(p, firsts, anchors);
    for k := 0 to |p.findings|
      invariant Groups(grouped, firsts[..k], anchors)
    {
      TrackedHere(p, firsts, anchors, k);
      ghost var before := grouped;
      var id := p.findings[k].id;
      if id in p.targets {
        var anchor := p.targets[id];
        var bucket := if anchor in grouped then grouped[anchor] else Bucket([], []);
        grouped := grouped[anchor := Placed(bucket, p.effective[id], id)];
      }
      GroupNext(before, firsts, k, anchors, grouped);
    }
    assert firsts[..|firsts|] == firsts;
  }

  lemma NothingGrouped(firsts: seq<Observation>, anchors: set<string>)
    requires forall i :: 0 <= i < |firsts| ==> firsts[i].Found?
    ensures Groups(map[], firsts[..0], anchors)
  {
  }

  lemma TracksFindings(p: Pass, firsts: seq<Observation>, anchors: set<string>)
    requires forall i :: 0 <= i < |firsts| ==> firsts[i].Found?
    requires Tracks(p.findings, p.identity, p.effective, p.targets, firsts, anchors)
    ensures |p.findings| == |firsts|
    ensures forall k :: 0 <= k < |firsts| ==>
              p.findings[k] == firsts[k].finding && firsts[k].finding.id in p.effective
              && p.effective[firsts[k].finding.id] == Effective(firsts[k], anchors)
  {
    forall k | 0 <= k < |firsts|
      ensures firsts[k].finding.id in p.effective && p.effective[firsts[k].finding.id] == Effective(firsts[k], anchors)
    {
      assert TrackedAt(p.identity, p.effective, p.targets, firsts[k], anchors);
    }
  }

  lemma TrackedHere(p: Pass, firsts: seq<Observation>, anchors: set<string>, k: nat)
    requires forall i :: 0 <= i < |firsts| ==> firsts[i].Found?
    requires Tracks(p.findings, p.identity, p.effective, p.targets, firsts, anchors) && k < |firsts|
    ensures var id := firsts[k].finding.id;
            id in p.effective && p.effective[id] == Effective(firsts[k], anchors)
            && (id in p.targets <==> !Effective(firsts[k], anchors).Unresolved?)
            && (id in p.targets ==> Some(p.targets[id]) == firsts[k].target)
  {
    assert TrackedAt(p.identity, p.effective, p.targets, firsts[k], anchors);
  }

  /** The conflicts of the anchors listed so far. */
  ghost predicate ConflictsAmong(conflicts: seq<Conflict>, keys: seq<string>, firsts: seq<Observation>, anchors: set<string>)
    requires forall i :: 0 <= i < |firsts| ==> firsts[i].Found?
  {
    && (forall i :: 0 <= i < |conflicts| ==>
          conflicts[i].target in keys && Opposed(firsts, anchors, conflicts[i].target)
          && conflicts[i] == ConflictAt(firsts, anchors, conflicts[i].target))
    && (forall i, j :: 0 <= i < j < |conflicts| ==> Below(conflicts[i].target, conflicts[j].target))
    && (forall a <- keys :: Opposed(firsts, anchors, a) ==> exists i :: 0 <= i < |conflicts| && conflicts[i].target == a)
  }

  lemma ConflictNext(conflicts: seq<Conflict>, keys: seq<string>, k: nat, firsts: seq<Observation>, anchors: set<string>)
    requires forall i :: 0 <= i < |firsts| ==> firsts[i].Found?
    requires k < |keys| && Ascending(keys) && ConflictsAmong(conflicts, keys[..k], firsts, anchors)
    ensures ConflictsAmong(if Opposed(firsts, anchors, keys[k]) then conflicts + [ConflictAt(firsts, anchors, keys[k])] else conflicts,
                           keys[..k + 1], firsts, anchors)
  {
    hide Opposed, ConflictAt, ConflictsAmong, Ascending;
    assert keys[..k + 1] == keys[..k] + [keys[k]];
    if Opposed(firsts, anchors, keys[k]) {
      TargetOfConflict(firsts, anchors, keys[k]);
      EarlierTargets(conflicts, keys, k, firsts, anchors);
      ConflictAppended(conflicts, keys[..k], keys[k], ConflictAt(firsts, anchors, keys[k]), firsts, anchors);
    } else {
      ConflictSkipped(conflicts, keys[..k], keys[k], firsts, anchors);
    }
  }

  lemma EarlierTargets(conflicts: seq<Conflict>, keys: seq<string>, k: nat, firsts: seq<Observation>, anchors: set<string>)
    requires forall i :: 0 <= i < |firsts| ==> firsts[i].Found?
    requires k < |keys| && Ascending(keys) && ConflictsAmong(conflicts, keys[..k], firsts, anchors)
    ensures forall i :: 0 <= i < |conflicts| ==> Below(conflicts[i].target, keys[k])
  {
    hide Opposed, ConflictAt, Below;
    forall i | 0 <= i < |conflicts|
      ensures Below(conflicts[i].target, keys[k])
    {
      var j :| 0 <= j < k && keys[j] == conflicts[i].target;
    }
  }

  lemma ConflictSkipped(conflicts: seq<Conflict>, keys: seq<string>, key: string, firsts: seq<Observation>, anchors: set<string>)
    requires forall i :: 0 <= i < |firsts| ==> firsts[i].Found?
    requires ConflictsAmong(conflicts, keys, firsts, anchors) && !Opposed(firsts, anchors, key)
    ensures ConflictsAmong(conflicts, keys + [key], firsts, anchors)
  {
    hide Opposed, ConflictAt, Below;
  }

  lemma ConflictAppended(conflicts: seq<Conflict>, keys: seq<string>, key: string, c: Conflict, firsts: seq<Observation>, anchors: set<string>)
    requires forall i :: 0 <= i < |firsts| ==> firsts[i].Found?
    requires ConflictsAmong(conflicts, keys, firsts, anchors) && Opposed(firsts, anchors, key)
    requires c == ConflictAt(firsts, anchors, key) && c.target == key
    requires forall i :: 0 <= i < |conflicts| ==> Below(conflicts[i].target, key)
    ensures ConflictsAmong(conflicts + [c], keys + [key], firsts, anchors)
  {
    hide Opposed, ConflictAt, Below;
    var next := conflicts + [c];
    forall a | a in keys + [key] && Opposed(firsts, anchors, a)
      ensures exists i :: 0 <= i < |next| && next[i].target == a
    {
      if a in keys {
        var i :| 0 <= i < |conflicts| && conflicts[i].target == a;
        assert next[i].target == a;
      } else {
        assert next[|conflicts|].target == a;
      }
    }
  }

  lemma TargetOfConflict(firsts: seq<Observation>, anchors: set<string>, a: string)
    requires forall i :: 0 <= i < |firsts| ==> firsts[i].Found?
    ensures ConflictAt(firsts, anchors, a).target == a
  {
  }

  /** One conflict per anchor with two sides, in anchor order. */
  method Oppose(grouped: map<string, Bucket>, ghost firsts: seq<Observation>, ghost anchors: set<string>) returns (conflicts: seq<Conflict>)
    requires forall i :: 0 <= i < |firsts| ==> firsts[i].Found?
    requires Groups(grouped, firsts, anchors)
    ensures ConflictsExact(conflicts, firsts, anchors)
  {
    hide IdsAt;
    var keys := Sorted(grouped.Keys);
    conflicts := [];
    for k := 0 to |keys|
      invariant ConflictsAmong(conflicts, keys[..k], firsts, anchors)
    {
      ConflictNext(conflicts, keys, k, firsts, anchors);
      assert keys[k] in keys;
      var bucket := grouped[keys[k]];
      assert bucket == BucketAt(grouped, keys[k]);
      if bucket.supporting != [] && bucket.contradicting != [] {
        conflicts := conflicts + [Conflict(keys[k], bucket.supporting, bucket.contradicting)];
      }
    }
    assert keys[..|keys|] == keys;
    AllOpposedListed(grouped, keys, firsts, anchors);
  }

  lemma AllOpposedListed(grouped: map<string, Bucket>, keys: seq<string>, firsts: seq<Observation>, anchors: set<string>)
    requires forall i :: 0 <= i < |firsts| ==> firsts[i].Found?
    requires Groups(grouped, firsts, anchors) && Sorts(keys, grouped.Keys)
    ensures forall a :: Opposed(firsts, anchors, a) ==> a in keys
  {
    hide IdsAt;
    forall a | Opposed(firsts, anchors, a)
      ensures a in keys
    {
      assert BucketAt(grouped, a).supporting != [];
    }
  }

  /** merge_evidence: exactly the specified view, or the first reason there is none. */
  method MergeEvidence(observations: seq<Observation>, gate: Option<Gate>) returns (r: Result<View, string>)
    requires forall i :: 0 <= i < |observations| ==> WellFormed(observations[i])
    ensures r == Err("gate-not-settled") <==> !Settled(gate)
    ensures r == Err("identity-collision") <==> Settled(gate) && Collides(observations)
    ensures r == Err("view-rejected") <==> Settled(gate) && !Collides(observations) && !AnchorsNamed(gate)
    ensures r.Ok? <==> Settled(gate) && !Collides(observations) && AnchorsNamed(gate)
    ensures r.Ok? ==> Merges(r.value, observations, gate) && ViewAccepted(r.value)
  {
    hide Collides, ConflictsExact, Firsts, IdsWith, Tracks, Consistent, Groups, AnchorsNamed, ViewAccepted, Sorts, WellFormed;
    if !Settled(gate) { return Err("gate-not-settled"); }
    var anchors := Anchors(gate);
    var collected := Collect(observations, anchors);
    if collected.Err? { return Err(collected.error); }
    var p := collected.value;
    ghost var firsts := Firsts(observations);
    var grouped := Group(p, firsts, anchors);
    var conflicts := Oppose(grouped, firsts, anchors);
    var listed := Sorted(anchors);
    TracksFindings(p, firsts, anchors);
    ClassifiedIsIdsWith(firsts, p.effective, anchors, Supporting);
    ClassifiedIsIdsWith(firsts, p.effective, anchors, Contradicting);
    ClassifiedIsIdsWith(firsts, p.effective, anchors, Unresolved);
    assert p.findings == FindingsOf(firsts);
    var view := View(p.findings, Classified(p.findings, p.effective, Supporting), Classified(p.findings, p.effective, Contradicting),
                     Classified(p.findings, p.effective, Unresolved), p.abstained, p.errors, conflicts, Questions(conflicts),
                     if gate.Some? then Some(gate.value.status) else None, listed);
    ViewAcceptedIffAnchorsNamed(view, observations, gate);
    if !ViewAccepted(view) { return Err("view-rejected"); }
    r := Ok(view);
  }
}
