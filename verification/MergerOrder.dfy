/** What each list of a merged view holds, and in which order, said on the deliveries and the gate's own fields. */
module MergerOrder {
  import opened Basics
  import opened Texts
  import opened Merger
  import opened MergerLaws

  predicate Increasing(at: seq<nat>, n: nat) {
    && (forall k :: 0 <= k < |at| ==> at[k] < n)
    && (forall j, k :: 0 <= j < k < |at| ==> at[j] < at[k])
  }

  lemma IncreasingSnoc(at: seq<nat>, n: nat)
    requires Increasing(at, n)
    ensures Increasing(at, n + 1) && Increasing(at + [n], n + 1)
  {
  }

  /** This delivery declared the relation, and named something the gate decided on. */
  predicate Counts(gate: Option<Gate>, o: Observation, relation: Relation) {
    && o.Found? && o.relation == relation && o.target.Some?
    && gate.Some? && (o.target.value in gate.value.rulesApplied || o.target.value in gate.value.evidenceRefs)
  }

  /** The effective relation of a delivery, in those terms. */
  lemma EffectiveIs(gate: Option<Gate>, o: Observation)
    requires o.Found?
    ensures Effective(o, Anchors(gate)).Supporting? <==> Counts(gate, o, Supporting)
    ensures Effective(o, Anchors(gate)).Contradicting? <==> Counts(gate, o, Contradicting)
    ensures Effective(o, Anchors(gate)).Unresolved? <==> !Counts(gate, o, Supporting) && !Counts(gate, o, Contradicting)
  {
  }

  lemma {:induction false} IdsWithAt(firsts: seq<Observation>, anchors: set<string>, relation: Relation) returns (at: seq<nat>)
    requires forall i :: 0 <= i < |firsts| ==> firsts[i].Found?
    ensures var ids := IdsWith(firsts, anchors, relation);
            && Increasing(at, |firsts|) && |at| == |ids|
            && (forall k :: 0 <= k < |at| ==> ids[k] == firsts[at[k]].finding.id)
            && (forall i: nat :: i < |firsts| ==> (i in at <==> Effective(firsts[i], anchors) == relation))
    decreases |firsts|
  {
    at := [];
    if firsts != [] {
      var n := |firsts| - 1;
      at := IdsWithAt(firsts[..n], anchors, relation);
      IncreasingSnoc(at, n);
      forall i: nat | i < n
        ensures i in at <==> Effective(firsts[i], anchors) == relation
      {
        assert firsts[..n][i] == firsts[i];
      }
      if Effective(firsts[n], anchors) == relation { at := at + [n]; }
    }
  }

  lemma {:induction false} IdsAtAt(firsts: seq<Observation>, anchors: set<string>, relation: Relation, anchor: string) returns (at: seq<nat>)
    requires forall i :: 0 <= i < |firsts| ==> firsts[i].Found?
    ensures var ids := IdsAt(firsts, anchors, relation, anchor);
            && Increasing(at, |firsts|) && |at| == |ids|
            && (forall k :: 0 <= k < |at| ==> ids[k] == firsts[at[k]].finding.id)
            && (forall i: nat :: i < |firsts| ==>
                  (i in at <==> Effective(firsts[i], anchors) == relation && firsts[i].target == Some(anchor)))
    decreases |firsts|
  {
    at := [];
    if firsts != [] {
      var n := |firsts| - 1;
      at := IdsAtAt(firsts[..n], anchors, relation, anchor);
      IncreasingSnoc(at, n);
      forall i: nat | i < n
        ensures i in at <==> Effective(firsts[i], anchors) == relation && firsts[i].target == Some(anchor)
      {
        assert firsts[..n][i] == firsts[i];
      }
      if Effective(firsts[n], anchors) == relation && firsts[n].target == Some(anchor) { at := at + [n]; }
    }
  }

  /** An id list of a view, as positions among its findings. */
  ghost predicate Picks(ids: seq<string>, findings: seq<Finding>, at: seq<nat>) {
    && Increasing(at, |findings|) && |at| == |ids|
    && forall k :: 0 <= k < |at| ==> ids[k] == findings[at[k]].id
  }

  /**
    The three lists. In order of arrival: a finding supports (or conflicts) exactly when its first
    delivery declared that and named a rule or an evidence reference of the gate; every other finding
    is unresolved.
   */
  lemma ListsFollowArrival(view: View, observations: seq<Observation>, gate: Option<Gate>)
    returns (supporting: seq<nat>, conflicting: seq<nat>, unresolved: seq<nat>)
    requires Merges(view, observations, gate)
    ensures |view.findings| == |Firsts(observations)|
    ensures Picks(view.supportingIds, view.findings, supporting)
    ensures Picks(view.conflictingIds, view.findings, conflicting)
    ensures Picks(view.unresolvedIds, view.findings, unresolved)
    ensures forall i: nat :: i < |view.findings| ==>
              && view.findings[i] == Firsts(observations)[i].finding
              && (i in supporting <==> Counts(gate, Firsts(observations)[i], Supporting))
              && (i in conflicting <==> Counts(gate, Firsts(observations)[i], Contradicting))
              && (i in unresolved <==> i !in supporting && i !in conflicting)
  {
    var firsts, anchors := Firsts(observations), Anchors(gate);
    supporting := IdsWithAt(firsts, anchors, Supporting);
    conflicting := IdsWithAt(firsts, anchors, Contradicting);
    unresolved := IdsWithAt(firsts, anchors, Unresolved);
    forall i: nat | i < |firsts|
      ensures i in supporting <==> Counts(gate, firsts[i], Supporting)
      ensures i in conflicting <==> Counts(gate, firsts[i], Contradicting)
      ensures i in unresolved <==> i !in supporting && i !in conflicting
    {
      EffectiveIs(gate, firsts[i]);
    }
    hide Firsts, IdsWith, Outcomes, ConflictsExact, Anchors, Effective, Sorts;
  }

  /** The two sides of a conflict: in order of arrival, exactly the findings that count for or against its target. */
  lemma SidesFollowArrival(view: View, observations: seq<Observation>, gate: Option<Gate>, c: nat)
    returns (supporting: seq<nat>, contradicting: seq<nat>)
    requires Merges(view, observations, gate) && c < |view.conflicts|
    ensures |view.findings| == |Firsts(observations)|
    ensures Picks(view.conflicts[c].supportingIds, view.findings, supporting)
    ensures Picks(view.conflicts[c].contradictingIds, view.findings, contradicting)
    ensures forall i: nat :: i < |view.findings| ==>
              var o := Firsts(observations)[i];
              && (i in supporting <==> Counts(gate, o, Supporting) && o.target == Some(view.conflicts[c].target))
              && (i in contradicting <==> Counts(gate, o, Contradicting) && o.target == Some(view.conflicts[c].target))
  {
    var firsts, anchors, target := Firsts(observations), Anchors(gate), view.conflicts[c].target;
    assert view.conflicts[c] == ConflictAt(firsts, anchors, target);
    supporting := IdsAtAt(firsts, anchors, Supporting, target);
    contradicting := IdsAtAt(firsts, anchors, Contradicting, target);
    forall i: nat | i < |firsts|
      ensures i in supporting <==> Counts(gate, firsts[i], Supporting) && firsts[i].target == Some(target)
      ensures i in contradicting <==> Counts(gate, firsts[i], Contradicting) && firsts[i].target == Some(target)
    {
      EffectiveIs(gate, firsts[i]);
    }
    hide Firsts, IdsWith, IdsAt, Outcomes, ConflictsExact, Anchors, Effective, Sorts;
  }

  /** Abstentions and failures are kept apart, each with its own source and reason, in order of arrival. */
  lemma {:induction false} OutcomesFollowArrival(observations: seq<Observation>, failed: bool) returns (at: seq<nat>)
    ensures var outcomes := Outcomes(observations, failed);
            && Increasing(at, |observations|) && |at| == |outcomes|
            && (forall k :: 0 <= k < |at| ==>
                  var o := observations[at[k]];
                  !o.Found? && outcomes[k].source == o.source && outcomes[k].reason == o.reason)
            && (forall i: nat :: i < |observations| ==>
                  (i in at <==> if failed then observations[i].Failed? else observations[i].Abstained?))
    decreases |observations|
  {
    at := [];
    if observations != [] {
      var n := |observations| - 1;
      at := OutcomesFollowArrival(observations[..n], failed);
      IncreasingSnoc(at, n);
      forall i: nat | i < n
        ensures i in at <==> if failed then observations[i].Failed? else observations[i].Abstained?
      {
        assert observations[..n][i] == observations[i];
      }
      if (if failed then observations[n].Failed? else observations[n].Abstained?) { at := at + [n]; }
    }
  }

  /** No anchor is blank exactly when no rule and no evidence reference of the gate is. */
  lemma AnchorsNamedIs(gate: Option<Gate>)
    ensures AnchorsNamed(gate) <==> (gate.Some? ==> AllNamed(gate.value.rulesApplied) && AllNamed(gate.value.evidenceRefs))
  {
    hide Blank;
    if gate.Some? {
      var g := gate.value;
      if AnchorsNamed(gate) {
        forall i | 0 <= i < |g.rulesApplied| ensures !Blank(g.rulesApplied[i]) { assert g.rulesApplied[i] in Anchors(gate); }
        forall i | 0 <= i < |g.evidenceRefs| ensures !Blank(g.evidenceRefs[i]) { assert g.evidenceRefs[i] in Anchors(gate); }
      }
    }
  }

  /** A question names its target and the supporting side first, the contradicting side last. */
  lemma QuestionNames(c: Conflict)
    ensures var head := "Unresolved evidence conflict on " + c.target + ": supporting " + Join(", ", c.supportingIds);
            var tail := " vs contradicting " + Join(", ", c.contradictingIds);
            |Question(c)| == |head| + |tail| && Question(c)[..|head|] == head && Question(c)[|head|..] == tail
  {
    hide Join;
    var head := "Unresolved evidence conflict on " + c.target + ": supporting " + Join(", ", c.supportingIds);
    assert Question(c) == head + (" vs contradicting " + Join(", ", c.contradictingIds));
  }
}
