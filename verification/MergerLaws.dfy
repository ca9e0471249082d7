/** What a merged view means: nothing lost, nothing invented, repeats immaterial, and never refused downstream. */
module MergerLaws {
  import opened Basics
  import opened Texts
  import opened Merger

  // -- first arrivals ---------------------------------------------------------------------

  /** Nobody delivered this finding before. */
  predicate FirstAt(observations: seq<Observation>, i: nat)
    requires i < |observations|
  {
    observations[i].Found? && forall j :: 0 <= j < i ==> !DeliversId(observations[j], observations[i].finding.id)
  }

  lemma {:induction false} FirstsCover(observations: seq<Observation>, i: nat)
    requires i < |observations| && observations[i].Found?
    ensures exists k :: 0 <= k < |Firsts(observations)| && Firsts(observations)[k].finding.id == observations[i].finding.id
    decreases |observations|
  {
    var init := observations[..|observations| - 1];
    if i < |init| {
      FirstsCover(init, i);
      var k :| 0 <= k < |Firsts(init)| && Firsts(init)[k].finding.id == observations[i].finding.id;
      assert Firsts(observations)[k] == Firsts(init)[k];
    } else if NewId(Firsts(init), observations[i].finding.id) {
      assert Firsts(observations)[|Firsts(init)|] == observations[i];
    } else {
      var k :| 0 <= k < |Firsts(init)| && Firsts(init)[k].finding.id == observations[i].finding.id;
      assert Firsts(observations)[k] == Firsts(init)[k];
    }
  }

  lemma {:induction false} FirstsComeFrom(observations: seq<Observation>, k: nat) returns (i: nat)
    requires k < |Firsts(observations)|
    ensures i < |observations| && observations[i] == Firsts(observations)[k]
    decreases |observations|
  {
    var init := observations[..|observations| - 1];
    if k < |Firsts(init)| {
      i := FirstsComeFrom(init, k);
    } else {
      i := |observations| - 1;
    }
  }

  /** Reading one more observation adds it exactly when it is a first arrival: the order of arrival is kept. */
  lemma FirstsStep(observations: seq<Observation>, i: nat)
    requires i < |observations|
    ensures Firsts(observations[..i + 1]) == Firsts(observations[..i]) + (if FirstAt(observations, i) then [observations[i]] else [])
  {
    var before := observations[..i];
    assert observations[..i + 1][..i] == before;
    if observations[i].Found? {
      var id := observations[i].finding.id;
      if j :| 0 <= j < i && DeliversId(observations[j], id) {
        FirstsCover(before, j);
      } else {
        forall k | 0 <= k < |Firsts(before)|
          ensures Firsts(before)[k].finding.id != id
        {
          var j := FirstsComeFrom(before, k);
          assert !DeliversId(observations[j], id);
        }
      }
    }
  }

  predicate DistinctIds(firsts: seq<Observation>)
    requires forall i :: 0 <= i < |firsts| ==> firsts[i].Found?
  {
    forall i, j :: 0 <= i < j < |firsts| ==> firsts[i].finding.id != firsts[j].finding.id
  }

  lemma {:induction false} FirstsDistinct(observations: seq<Observation>)
    ensures DistinctIds(Firsts(observations))
    decreases |observations|
  {
    if observations != [] {
      var init, last := observations[..|observations| - 1], observations[|observations| - 1];
      FirstsDistinct(init);
      if last.Found? && NewId(Firsts(init), last.finding.id) {
        DistinctSnoc(Firsts(init), last);
      }
    }
  }

  lemma DistinctSnoc(firsts: seq<Observation>, last: Observation)
    requires forall i :: 0 <= i < |firsts| ==> firsts[i].Found?
    requires last.Found? && DistinctIds(firsts) && NewId(firsts, last.finding.id)
    ensures DistinctIds(firsts + [last])
  {
  }

  // -- membership in the id lists --------------------------------------------------------------

  lemma {:induction false} IdsWithMember(firsts: seq<Observation>, anchors: set<string>, relation: Relation, x: string)
    requires forall i :: 0 <= i < |firsts| ==> firsts[i].Found?
    ensures x in IdsWith(firsts, anchors, relation) <==>
            exists k :: 0 <= k < |firsts| && firsts[k].finding.id == x && Effective(firsts[k], anchors) == relation
    decreases |firsts|
  {
    if firsts != [] {
      var init, last := firsts[..|firsts| - 1], firsts[|firsts| - 1];
      IdsWithMember(init, anchors, relation, x);
      if x in IdsWith(init, anchors, relation) {
        var k :| 0 <= k < |init| && init[k].finding.id == x && Effective(init[k], anchors) == relation;
        assert firsts[k] == init[k];
      }
    }
  }

  lemma {:induction false} IdsAtMember(firsts: seq<Observation>, anchors: set<string>, relation: Relation, anchor: string, x: string)
    requires forall i :: 0 <= i < |firsts| ==> firsts[i].Found?
    ensures x in IdsAt(firsts, anchors, relation, anchor) <==>
            exists k :: 0 <= k < |firsts| && firsts[k].finding.id == x && Effective(firsts[k], anchors) == relation
                        && firsts[k].target == Some(anchor)
    decreases |firsts|
  {
    if firsts != [] {
      var init, last := firsts[..|firsts| - 1], firsts[|firsts| - 1];
      IdsAtMember(init, anchors, relation, anchor, x);
      if x in IdsAt(init, anchors, relation, anchor) {
        var k :| 0 <= k < |init| && init[k].finding.id == x && Effective(init[k], anchors) == relation && init[k].target == Some(anchor);
        assert firsts[k] == init[k];
      }
    }
  }

  /** One finding, one relation. */
  lemma OneRelation(observations: seq<Observation>, anchors: set<string>, a: Relation, b: Relation, x: string)
    requires x in IdsWith(Firsts(observations), anchors, a) && x in IdsWith(Firsts(observations), anchors, b)
    ensures a == b
  {
    FirstsDistinct(observations);
    IdsWithMember(Firsts(observations), anchors, a, x);
    IdsWithMember(Firsts(observations), anchors, b, x);
  }

  /** The three id lists have together as many entries as there are findings. */
  lemma {:induction false} IdsAddUp(firsts: seq<Observation>, anchors: set<string>)
    requires forall i :: 0 <= i < |firsts| ==> firsts[i].Found?
    ensures |IdsWith(firsts, anchors, Supporting)| + |IdsWith(firsts, anchors, Contradicting)|
            + |IdsWith(firsts, anchors, Unresolved)| == |firsts|
    decreases |firsts|
  {
    if firsts != [] { IdsAddUp(firsts[..|firsts| - 1], anchors); }
  }

  // -- losslessness ---------------------------------------------------------------------------------

  /** Somebody declared this relation to this anchor when a finding first arrived. */
  ghost predicate Declared(observations: seq<Observation>, relation: Relation, anchor: string) {
    exists i: nat :: i < |observations| && FirstAt(observations, i)
                     && observations[i].relation == relation && observations[i].target == Some(anchor)
  }

  lemma FirstsAreFirst(observations: seq<Observation>, k: nat) returns (i: nat)
    requires k < |Firsts(observations)|
    ensures i < |observations| && observations[i] == Firsts(observations)[k] && FirstAt(observations, i)
  {
    assert observations[..|observations|] == observations;
    i := FirstIndex(observations, |observations|, k);
  }

  lemma {:induction false} FirstIndex(observations: seq<Observation>, n: nat, k: nat) returns (i: nat)
    requires n <= |observations| && k < |Firsts(observations[..n])|
    ensures i < n && observations[i] == Firsts(observations[..n])[k] && FirstAt(observations, i)
    ensures |Firsts(observations[..i])| == k
    decreases n
  {
    FirstsStep(observations, n - 1);
    if k < |Firsts(observations[..n - 1])| {
      i := FirstIndex(observations, n - 1, k);
    } else {
      i := n - 1;
    }
  }

  lemma {:induction false} FirstIsListed(observations: seq<Observation>, n: nat, i: nat) returns (k: nat)
    requires i < n <= |observations| && FirstAt(observations, i)
    ensures k < |Firsts(observations[..n])| && Firsts(observations[..n])[k] == observations[i]
    decreases n
  {
    FirstsStep(observations, n - 1);
    if i < n - 1 {
      k := FirstIsListed(observations, n - 1, i);
    } else {
      k := |Firsts(observations[..n - 1])|;
    }
  }

  /** The gate applied this rule, or refers to this evidence. */
  predicate OnGate(gate: Option<Gate>, anchor: string) {
    gate.Some? && (anchor in gate.value.rulesApplied || anchor in gate.value.evidenceRefs)
  }

  /** The anchors of a view are the gate's rules and its evidence references, each once, in order. */
  lemma AnchorsAreTheGates(view: View, observations: seq<Observation>, gate: Option<Gate>, x: string)
    requires Merges(view, observations, gate)
    ensures x in view.gateAnchors <==>
            gate.Some? && (x in gate.value.rulesApplied || x in gate.value.evidenceRefs)
    ensures Ascending(view.gateAnchors)
    ensures x in Anchors(gate) <==> OnGate(gate, x)
  {
    hide Firsts, IdsWith, Outcomes, ConflictsExact;
  }

  /** A conflict is recorded for an anchor exactly when both opposing relations were declared to it and the gate names it. */
  lemma ConflictIffOpposed(view: View, observations: seq<Observation>, gate: Option<Gate>, anchor: string)
    requires Merges(view, observations, gate)
    ensures (exists i :: 0 <= i < |view.conflicts| && view.conflicts[i].target == anchor) <==>
            && gate.Some? && (anchor in gate.value.rulesApplied || anchor in gate.value.evidenceRefs)
            && Declared(observations, Supporting, anchor) && Declared(observations, Contradicting, anchor)
  {
    AnchorsAreTheGates(view, observations, gate, anchor);
    var firsts, anchors := Firsts(observations), Anchors(gate);
    DeclaredMeansListed(observations, anchors, Supporting, anchor);
    DeclaredMeansListed(observations, anchors, Contradicting, anchor);
    hide FirstAt, Declared, IdsAt;
    if i :| 0 <= i < |view.conflicts| && view.conflicts[i].target == anchor {
      assert Opposed(firsts, anchors, view.conflicts[i].target);
    }
    assert Opposed(firsts, anchors, anchor) <==>
      anchor in anchors && Declared(observations, Supporting, anchor) && Declared(observations, Contradicting, anchor);
  }

  lemma DeclaredMeansListed(observations: seq<Observation>, anchors: set<string>, relation: Relation, anchor: string)
    requires !relation.Unresolved?
    ensures IdsAt(Firsts(observations), anchors, relation, anchor) != [] <==>
            anchor in anchors && Declared(observations, relation, anchor)
  {
    var firsts := Firsts(observations);
    var ids := IdsAt(firsts, anchors, relation, anchor);
    if ids != [] {
      IdsAtMember(firsts, anchors, relation, anchor, ids[0]);
      var k :| 0 <= k < |firsts| && firsts[k].finding.id == ids[0] && Effective(firsts[k], anchors) == relation && firsts[k].target == Some(anchor);
      var i := FirstsAreFirst(observations, k);
    }
    if anchor in anchors && Declared(observations, relation, anchor) {
      var i: nat :| i < |observations| && FirstAt(observations, i) && observations[i].relation == relation && observations[i].target == Some(anchor);
      assert observations[..|observations|] == observations;
      var k := FirstIsListed(observations, |observations|, i);
      IdsAtMember(firsts, anchors, relation, anchor, firsts[k].finding.id);
    }
  }

  /** Every delivered finding is in the view, under its own identity. */
  lemma NothingLost(view: View, observations: seq<Observation>, gate: Option<Gate>, i: nat)
    requires Merges(view, observations, gate) && !Collides(observations)
    requires i < |observations| && observations[i].Found?
    ensures exists k :: 0 <= k < |view.findings| && view.findings[k].id == observations[i].finding.id
                        && view.findings[k].identity == observations[i].finding.identity
  {
    FirstsCover(observations, i);
    var k :| 0 <= k < |Firsts(observations)| && Firsts(observations)[k].finding.id == observations[i].finding.id;
    var j := FirstsComeFrom(observations, k);
    assert view.findings[k] == observations[j].finding;
  }

  /** The findings are exactly the first arrivals, in order, and each has exactly one relation. */
  lemma FindingsPartitioned(view: View, observations: seq<Observation>, gate: Option<Gate>)
    requires Merges(view, observations, gate)
    ensures forall i, j :: 0 <= i < j < |view.findings| ==> view.findings[i].id != view.findings[j].id
    ensures ToSet(view.supportingIds) + ToSet(view.conflictingIds) + ToSet(view.unresolvedIds) == ToSet(Ids(view.findings))
    ensures ToSet(view.supportingIds) * ToSet(view.conflictingIds) == {}
    ensures ToSet(view.supportingIds) * ToSet(view.unresolvedIds) == {}
    ensures ToSet(view.conflictingIds) * ToSet(view.unresolvedIds) == {}
    ensures |view.supportingIds| + |view.conflictingIds| + |view.unresolvedIds| == |view.findings|
  {
    var firsts, anchors := Firsts(observations), Anchors(gate);
    FirstsDistinct(observations);
    IdsAddUp(firsts, anchors);
    Disjoint(observations, anchors, Supporting, Contradicting);
    Disjoint(observations, anchors, Supporting, Unresolved);
    Disjoint(observations, anchors, Contradicting, Unresolved);
    Complete(observations, anchors);
    assert Ids(view.findings) == Ids(FindingsOf(firsts));
  }

  lemma Disjoint(observations: seq<Observation>, anchors: set<string>, a: Relation, b: Relation)
    requires a != b
    ensures ToSet(IdsWith(Firsts(observations), anchors, a)) * ToSet(IdsWith(Firsts(observations), anchors, b)) == {}
  {
    forall x
      ensures !(x in IdsWith(Firsts(observations), anchors, a) && x in IdsWith(Firsts(observations), anchors, b))
    {
      if x in IdsWith(Firsts(observations), anchors, a) && x in IdsWith(Firsts(observations), anchors, b) {
        OneRelation(observations, anchors, a, b, x);
      }
    }
  }

  lemma Complete(observations: seq<Observation>, anchors: set<string>)
    ensures var firsts := Firsts(observations);
            ToSet(IdsWith(firsts, anchors, Supporting)) + ToSet(IdsWith(firsts, anchors, Contradicting))
            + ToSet(IdsWith(firsts, anchors, Unresolved)) == ToSet(Ids(FindingsOf(firsts)))
  {
    var firsts := Firsts(observations);
    var ids := Ids(FindingsOf(firsts));
    forall x
      ensures x in ids <==>
              x in IdsWith(firsts, anchors, Supporting) || x in IdsWith(firsts, anchors, Contradicting)
              || x in IdsWith(firsts, anchors, Unresolved)
    {
      IdsWithMember(firsts, anchors, Supporting, x);
      IdsWithMember(firsts, anchors, Contradicting, x);
      IdsWithMember(firsts, anchors, Unresolved, x);
      if x in ids {
        var k :| 0 <= k < |ids| && ids[k] == x;
        assert firsts[k].finding.id == x && Effective(firsts[k], anchors) == Effective(firsts[k], anchors);
      }
      if k :| 0 <= k < |firsts| && firsts[k].finding.id == x {
        assert ids[k] == x;
      }
    }
  }

  // -- repeats do not matter -------------------------------------------------------------------------

  /** The observations without repeated deliveries. */
  function WithoutRepeats(observations: seq<Observation>): seq<Observation> {
    if observations == [] then []
    else
      var last := observations[|observations| - 1];
      WithoutRepeats(observations[..|observations| - 1])
      + (if last.Found? && !NewId(Firsts(observations[..|observations| - 1]), last.finding.id) then [] else [last])
  }

  lemma {:induction false} RepeatsChangeNothing(observations: seq<Observation>)
    ensures Firsts(WithoutRepeats(observations)) == Firsts(observations)
    ensures forall failed :: Outcomes(WithoutRepeats(observations), failed) == Outcomes(observations, failed)
    decreases |observations|
  {
    if observations != [] {
      var init, last := observations[..|observations| - 1], observations[|observations| - 1];
      RepeatsChangeNothing(init);
      var kept := WithoutRepeats(init);
      if last.Found? && !NewId(Firsts(init), last.finding.id) {
        assert WithoutRepeats(observations) == kept;
        assert forall failed :: Outcomes(observations, failed) == Outcomes(init, failed);
      } else {
        var all := kept + [last];
        assert WithoutRepeats(observations) == all;
        assert all[..|all| - 1] == kept && all[|all| - 1] == last;
        assert forall failed :: Outcomes(all, failed) == Outcomes(observations, failed);
      }
    }
  }

  /** A view merges the observations exactly when it merges them without their repeats. */
  lemma MergeIgnoresRepeats(view: View, observations: seq<Observation>, gate: Option<Gate>)
    ensures Merges(view, WithoutRepeats(observations), gate) <==> Merges(view, observations, gate)
  {
    hide Firsts, Outcomes, WithoutRepeats, ConflictsExact;
    RepeatsChangeNothing(observations);
  }

  // -- there is one view -------------------------------------------------------------------------------

  function Targets(conflicts: seq<Conflict>): seq<string> {
    seq(|conflicts|, i requires 0 <= i < |conflicts| => conflicts[i].target)
  }

  lemma ConflictsUnique(a: seq<Conflict>, b: seq<Conflict>, firsts: seq<Observation>, anchors: set<string>)
    requires forall i :: 0 <= i < |firsts| ==> firsts[i].Found?
    requires ConflictsExact(a, firsts, anchors) && ConflictsExact(b, firsts, anchors)
    ensures a == b
  {
    hide Opposed, ConflictAt;
    var opposed := ToSet(Targets(a));
    ExactTargets(a, b, firsts, anchors);
    ExactTargets(b, a, firsts, anchors);
    SortsUnique(Targets(a), Targets(b), opposed);
    forall i | 0 <= i < |a|
      ensures a[i] == b[i]
    {
      assert Targets(a)[i] == Targets(b)[i];
    }
    assert |a| == |Targets(a)| && |b| == |Targets(b)|;
  }

  lemma ExactTargets(a: seq<Conflict>, b: seq<Conflict>, firsts: seq<Observation>, anchors: set<string>)
    requires forall i :: 0 <= i < |firsts| ==> firsts[i].Found?
    requires ConflictsExact(a, firsts, anchors) && ConflictsExact(b, firsts, anchors)
    ensures Sorts(Targets(a), ToSet(Targets(a))) && ToSet(Targets(a)) <= ToSet(Targets(b))
  {
    hide Opposed, ConflictAt;
    forall x | x in Targets(a)
      ensures x in Targets(b)
    {
      var i :| 0 <= i < |Targets(a)| && Targets(a)[i] == x;
      assert Opposed(firsts, anchors, a[i].target);
      var j :| 0 <= j < |b| && b[j].target == x;
      assert Targets(b)[j] == x;
    }
  }

  /** The observations and the gate determine the view. */
  lemma OneView(a: View, b: View, observations: seq<Observation>, gate: Option<Gate>)
    requires Merges(a, observations, gate) && Merges(b, observations, gate)
    ensures a == b
  {
    hide Firsts, Outcomes, IdsWith, ConflictsExact, Sorts, Questions;
    ConflictsUnique(a.conflicts, b.conflicts, Firsts(observations), Anchors(gate));
    SortsUnique(a.gateAnchors, b.gateAnchors, Anchors(gate));
  }

  // -- nobody downstream refuses a merged view ------------------------------------------------------------

  ghost predicate AnchorsNamed(gate: Option<Gate>) {
    forall a <- Anchors(gate) :: !Blank(a)
  }

  lemma FirstsWellFormed(observations: seq<Observation>, k: nat)
    requires k < |Firsts(observations)| && forall i :: 0 <= i < |observations| ==> WellFormed(observations[i])
    ensures WellFormed(Firsts(observations)[k])
  {
    var i := FirstsComeFrom(observations, k);
  }

  lemma NamedIds(observations: seq<Observation>, anchors: set<string>, relation: Relation)
    requires forall i :: 0 <= i < |observations| ==> WellFormed(observations[i])
    ensures AllNamed(IdsWith(Firsts(observations), anchors, relation))
  {
    var firsts := Firsts(observations);
    var ids := IdsWith(firsts, anchors, relation);
    forall i | 0 <= i < |ids|
      ensures !Blank(ids[i])
    {
      IdsWithMember(firsts, anchors, relation, ids[i]);
      var k :| 0 <= k < |firsts| && firsts[k].finding.id == ids[i] && Effective(firsts[k], anchors) == relation;
      FirstsWellFormed(observations, k);
    }
  }

  lemma AtWithin(firsts: seq<Observation>, anchors: set<string>, relation: Relation, anchor: string, x: string)
    requires forall i :: 0 <= i < |firsts| ==> firsts[i].Found?
    requires x in IdsAt(firsts, anchors, relation, anchor)
    ensures x in IdsWith(firsts, anchors, relation)
  {
    IdsAtMember(firsts, anchors, relation, anchor, x);
    IdsWithMember(firsts, anchors, relation, x);
  }

  lemma ConflictsAccepted(observations: seq<Observation>, gate: Option<Gate>, conflicts: seq<Conflict>, i: nat)
    requires forall k :: 0 <= k < |observations| ==> WellFormed(observations[k])
    requires ConflictsExact(conflicts, Firsts(observations), Anchors(gate)) && i < |conflicts| && AnchorsNamed(gate)
    ensures ConflictAccepted(conflicts[i])
  {
    var firsts, anchors, c := Firsts(observations), Anchors(gate), conflicts[i];
    assert Opposed(firsts, anchors, c.target);
    DeclaredMeansListed(observations, anchors, Supporting, c.target);
    NamedIds(observations, anchors, Supporting);
    NamedIds(observations, anchors, Contradicting);
    forall x | x in c.supportingIds
      ensures x in IdsWith(firsts, anchors, Supporting)
    {
      AtWithin(firsts, anchors, Supporting, c.target, x);
    }
    forall x | x in c.contradictingIds
      ensures x in IdsWith(firsts, anchors, Contradicting)
    {
      AtWithin(firsts, anchors, Contradicting, c.target, x);
    }
    NamedWithin(c.supportingIds, IdsWith(firsts, anchors, Supporting));
    NamedWithin(c.contradictingIds, IdsWith(firsts, anchors, Contradicting));
    Disjoint(observations, anchors, Supporting, Contradicting);
    StillDisjoint(c.supportingIds, c.contradictingIds, IdsWith(firsts, anchors, Supporting), IdsWith(firsts, anchors, Contradicting));
  }

  lemma NamedWithin(a: seq<string>, b: seq<string>)
    requires AllNamed(b) && forall x :: x in a ==> x in b
    ensures AllNamed(a)
  {
    forall i | 0 <= i < |a|
      ensures !Blank(a[i])
    {
      assert a[i] in a;
    }
  }

  lemma StillDisjoint(a: seq<string>, b: seq<string>, c: seq<string>, d: seq<string>)
    requires (forall x :: x in a ==> x in c) && (forall x :: x in b ==> x in d) && ToSet(c) * ToSet(d) == {}
    ensures ToSet(a) * ToSet(b) == {}
  {
    forall x | x in ToSet(a) * ToSet(b)
      ensures x in ToSet(c) * ToSet(d)
    {
    }
  }

  lemma QuestionsNamed(conflicts: seq<Conflict>)
    ensures AllNamed(Questions(conflicts))
  {
    forall i | 0 <= i < |conflicts|
      ensures !Blank(Questions(conflicts)[i])
    {
      assert Questions(conflicts)[i][0] == 'U' && !IsSpace('U');
    }
  }

  /** With named anchors the view's own constructor accepts the merge; with a blank anchor it never does. */
  lemma ViewAcceptedIffAnchorsNamed(view: View, observations: seq<Observation>, gate: Option<Gate>)
    requires Merges(view, observations, gate) && forall i :: 0 <= i < |observations| ==> WellFormed(observations[i])
    ensures ViewAccepted(view) <==> AnchorsNamed(gate)
  {
    if AnchorsNamed(gate) {
      FindingsPartitioned(view, observations, gate);
      NamedIds(observations, Anchors(gate), Supporting);
      NamedIds(observations, Anchors(gate), Contradicting);
      NamedIds(observations, Anchors(gate), Unresolved);
      QuestionsNamed(view.conflicts);
      NamedAnchors(view.gateAnchors, gate);
      forall i | 0 <= i < |view.conflicts|
        ensures ConflictAccepted(view.conflicts[i])
      {
        ConflictsAccepted(observations, gate, view.conflicts, i);
      }
      hide IdsWith, Firsts, Outcomes, ConflictsExact, ConflictAccepted, AllNamed;
    } else {
      var a :| a in Anchors(gate) && Blank(a);
      assert a in view.gateAnchors;
    }
  }

  lemma NamedAnchors(texts: seq<string>, gate: Option<Gate>)
    requires Sorts(texts, Anchors(gate)) && AnchorsNamed(gate)
    ensures AllNamed(texts)
  {
    forall i | 0 <= i < |texts|
      ensures !Blank(texts[i])
    {
      assert texts[i] in texts;
    }
  }
}
