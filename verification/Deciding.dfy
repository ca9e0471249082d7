/** What uses a merged view: the decision engine (application/decision_engine.py) and the judge (application/judge.py). */
module Deciding {
  import opened Basics
  import opened Texts
  import opened Merger
  import opened MergerLaws

  // -- the decision engine ------------------------------------------------------------------

  /** The gate must be settled and must be the one the view was merged against. */
  function EngineGate(gate: Option<Gate>, view: View): Result<Option<Gate>, string> {
    match gate
    case None => if view.gateStatus.Some? then Err("gate-missing") else Ok(None)
    case Some(g) =>
      if !g.status.Accepted? && !g.status.Rejected? then Err("gate-not-settled")
      else if view.gateStatus.None? then Err("merged-without-gate")
      else if view.gateStatus != Some(g.status) then Err("gate-mismatch")
      else Ok(gate)
  }

  /** The gate's status; without one, only whether every execution failed. */
  function EngineStatus(gate: Option<Gate>, view: View): Status {
    match gate
    case Some(g) => g.status
    case None => if view.errors != [] && view.findings == [] && view.abstained == [] then Error else Abstain
  }

  /** A merged view is accepted with a gate exactly when that gate has the status the view was merged under. */
  lemma EngineAcceptsMerge(view: View, observations: seq<Observation>, gate: Option<Gate>, other: Option<Gate>)
    requires Merges(view, observations, gate) && Settled(gate)
    ensures EngineGate(other, view).Ok? <==>
            match (gate, other) { case (None, None) => true case (Some(g), Some(h)) => g.status == h.status case _ => false }
    ensures EngineGate(gate, view) == Ok(gate)
  {
    hide Firsts, IdsWith, Outcomes, ConflictsExact, Sorts;
  }

  lemma {:induction false} NoFirsts(observations: seq<Observation>)
    ensures Firsts(observations) == [] <==> forall i :: 0 <= i < |observations| ==> !observations[i].Found?
    decreases |observations|
  {
    if i :| 0 <= i < |observations| && observations[i].Found? {
      FirstsCover(observations, i);
    } else if observations != [] {
      NoFirsts(observations[..|observations| - 1]);
    }
  }

  predicate Yields(o: Observation, failed: bool) {
    if failed then o.Failed? else o.Abstained?
  }

  lemma {:induction false} NoOutcomes(observations: seq<Observation>, failed: bool)
    ensures Outcomes(observations, failed) == [] <==> forall i :: 0 <= i < |observations| ==> !Yields(observations[i], failed)
    decreases |observations|
  {
    if observations != [] {
      var init, last := observations[..|observations| - 1], observations[|observations| - 1];
      NoOutcomes(init, failed);
      assert forall i :: 0 <= i < |init| ==> init[i] == observations[i];
      if Outcomes(init, failed) == [] && !Yields(last, failed) {
        forall i | 0 <= i < |observations|
          ensures !Yields(observations[i], failed)
        {
          if i < |init| { assert !Yields(init[i], failed); }
        }
      } else if Outcomes(init, failed) != [] {
        var i :| 0 <= i < |init| && Yields(init[i], failed);
        assert Yields(observations[i], failed);
      }
    }
  }

  /** Advisors never vote: with a gate the status is the gate's; without one it is ERROR exactly when all executions failed. */
  lemma StatusIgnoresAdvisors(view: View, observations: seq<Observation>, gate: Option<Gate>)
    requires Merges(view, observations, gate) && Settled(gate)
    ensures gate.Some? ==> EngineStatus(gate, view) == gate.value.status
    ensures gate.None? ==>
              (EngineStatus(gate, view) == Error <==>
               observations != [] && forall i :: 0 <= i < |observations| ==> observations[i].Failed?)
    ensures gate.None? ==> !EngineStatus(gate, view).Accepted? && !EngineStatus(gate, view).Rejected?
  {
    NoFirsts(observations);
    NoOutcomes(observations, true);
    NoOutcomes(observations, false);
    assert |view.findings| == |Firsts(observations)|;
    hide Firsts, IdsWith, Outcomes, ConflictsExact, Sorts;
    if observations != [] {
      assert Yields(observations[0], true) || Yields(observations[0], false) || observations[0].Found?;
    }
    if gate.None? && EngineStatus(gate, view) == Error {
      forall i | 0 <= i < |observations|
        ensures observations[i].Failed?
      {
        assert !Yields(observations[i], false);
      }
    }
  }

  /** Each entry at its first occurrence. */
  function Deduplicated(entries: seq<string>): seq<string> {
    if entries == [] then []
    else
      var before, last := Deduplicated(entries[..|entries| - 1]), entries[|entries| - 1];
      if last in before then before else before + [last]
  }

  lemma {:induction false} DeduplicatedIsExact(entries: seq<string>)
    ensures forall x :: x in Deduplicated(entries) <==> x in entries
    ensures forall i, j :: 0 <= i < j < |Deduplicated(entries)| ==> Deduplicated(entries)[i] != Deduplicated(entries)[j]
    decreases |entries|
  {
    if entries != [] {
      DeduplicatedIsExact(entries[..|entries| - 1]);
      assert entries == entries[..|entries| - 1] + [entries[|entries| - 1]];
    }
  }

  /** In order: each entry stands where it first occurs. */
  lemma {:induction false} DeduplicatedInOrder(entries: seq<string>) returns (at: seq<nat>)
    ensures |at| == |Deduplicated(entries)|
    ensures forall k :: 0 <= k < |at| ==>
              at[k] < |entries| && Deduplicated(entries)[k] == entries[at[k]] && entries[at[k]] !in entries[..at[k]]
    ensures forall j, k :: 0 <= j < k < |at| ==> at[j] < at[k]
    decreases |entries|
  {
    at := [];
    if entries != [] {
      var n := |entries| - 1;
      at := DeduplicatedInOrder(entries[..n]);
      DeduplicatedIsExact(entries[..n]);
      forall k | 0 <= k < |at|
        ensures at[k] < n && Deduplicated(entries[..n])[k] == entries[at[k]] && entries[at[k]] !in entries[..at[k]]
      {
        assert entries[..n][..at[k]] == entries[..at[k]];
      }
      if entries[n] !in entries[..n] { at := at + [n]; }
    }
  }

  /** The authoritative references first, then the validated supporting findings; unresolved ones never. */
  method EvidenceRefs(status: Status, gate: Option<Gate>, view: View) returns (refs: seq<string>)
    ensures gate.None? ==> refs == []
    ensures gate.Some? ==>
              refs == Deduplicated((if status.Rejected? then gate.value.evidenceRefs else []) + view.supportingIds)
  {
    if gate.None? { return []; }
    var ordered := (if status.Rejected? then gate.value.evidenceRefs else []) + view.supportingIds;
    var seen: set<string> := {};
    refs := [];
    for i := 0 to |ordered|
      invariant refs == Deduplicated(ordered[..i])
      invariant forall x :: x in seen <==> x in refs
    {
      assert ordered[..i + 1][..i] == ordered[..i];
      if ordered[i] !in seen {
        seen := seen + {ordered[i]};
        refs := refs + [ordered[i]];
      }
    }
    assert ordered[..|ordered|] == ordered;
  }

  // -- the judge --------------------------------------------------------------------------------

  datatype JudgeConflict = JudgeConflict(question: string, findings: seq<Finding>, target: string, gateStatus: Option<Status>)

  /** The positions of an id in the view. */
  function Matches(findings: seq<Finding>, id: string): seq<Finding> {
    if findings == [] then []
    else
      var last := findings[|findings| - 1];
      Matches(findings[..|findings| - 1], id) + (if last.id == id then [last] else [])
  }

  function Resolved(findings: seq<Finding>, ids: seq<string>): Result<seq<Finding>, string> {
    if ids == [] then Ok([])
    else
      match Resolved(findings, ids[..|ids| - 1])
      case Err(e) => Err(e)
      case Ok(before) =>
        var found := Matches(findings, ids[|ids| - 1]);
        if found == [] then Err("not-in-view") else if |found| > 1 then Err("ambiguous") else Ok(before + found)
  }

  predicate SameStep(findings: seq<Finding>) {
    forall i, j :: 0 <= i < |findings| && 0 <= j < |findings| ==> findings[i].identity.stepNo == findings[j].identity.stepNo
  }

  /** The structured conflict a judge receives: exactly the findings it names, of exactly one step. */
  function BuildJudgeConflict(c: Conflict, view: View): Result<JudgeConflict, string> {
    if c !in view.conflicts then Err("not-a-conflict")
    else if Blank(c.target) then Err("no-target")
    else if c.supportingIds == [] || c.contradictingIds == [] then Err("one-sided")
    else
      match (Resolved(view.findings, c.supportingIds), Resolved(view.findings, c.contradictingIds))
      case (Err(e), _) => Err(e)
      case (Ok(_), Err(e)) => Err(e)
      case (Ok(supporting), Ok(contradicting)) =>
        if !SameStep(supporting + contradicting) then Err("steps-differ")
        else Ok(JudgeConflict(Question(c), supporting + contradicting, c.target, view.gateStatus))
  }

  ghost predicate HasId(findings: seq<Finding>, id: string) {
    exists k :: 0 <= k < |findings| && findings[k].id == id
  }

  ghost predicate AllKnown(findings: seq<Finding>, ids: seq<string>) {
    forall i :: 0 <= i < |ids| ==> HasId(findings, ids[i])
  }

  lemma {:induction false} MatchesOnce(findings: seq<Finding>, id: string)
    requires forall i, j :: 0 <= i < j < |findings| ==> findings[i].id != findings[j].id
    ensures |Matches(findings, id)| <= 1
    ensures HasId(findings, id) ==> |Matches(findings, id)| == 1
    ensures forall k :: 0 <= k < |Matches(findings, id)| ==> Matches(findings, id)[k].id == id && Matches(findings, id)[k] in findings
    decreases |findings|
  {
    if findings != [] {
      var init, last := findings[..|findings| - 1], findings[|findings| - 1];
      MatchesOnce(init, id);
      if last.id == id {
        assert forall k :: 0 <= k < |init| ==> init[k] == findings[k];
        NoMatch(init, id);
      } else if HasId(findings, id) {
        var k :| 0 <= k < |findings| && findings[k].id == id;
        assert init[k].id == id;
      }
    }
  }

  lemma {:induction false} NoMatch(findings: seq<Finding>, id: string)
    requires forall k :: 0 <= k < |findings| ==> findings[k].id != id
    ensures Matches(findings, id) == []
    decreases |findings|
  {
    if findings != [] { NoMatch(findings[..|findings| - 1], id); }
  }

  /** In a view without duplicates, ids that are in the view all resolve, each to its own finding. */
  lemma {:induction false} KnownIdsResolve(findings: seq<Finding>, ids: seq<string>)
    requires forall i, j :: 0 <= i < j < |findings| ==> findings[i].id != findings[j].id
    requires AllKnown(findings, ids)
    ensures Resolved(findings, ids).Ok? && |Resolved(findings, ids).value| == |ids|
    ensures forall i :: 0 <= i < |ids| ==> Resolved(findings, ids).value[i].id == ids[i] && Resolved(findings, ids).value[i] in findings
    decreases |ids|
  {
    if ids != [] {
      var init := ids[..|ids| - 1];
      assert AllKnown(findings, init);
      KnownIdsResolve(findings, init);
      MatchesOnce(findings, ids[|ids| - 1]);
    }
  }

  lemma ListedIdsAreKnown(view: View, observations: seq<Observation>, gate: Option<Gate>, relation: Relation, anchor: string)
    requires Merges(view, observations, gate)
    ensures AllKnown(view.findings, IdsAt(Firsts(observations), Anchors(gate), relation, anchor))
  {
    var firsts, anchors := Firsts(observations), Anchors(gate);
    var ids := IdsAt(firsts, anchors, relation, anchor);
    forall i | 0 <= i < |ids|
      ensures HasId(view.findings, ids[i])
    {
      IdsAtMember(firsts, anchors, relation, anchor, ids[i]);
      var k :| 0 <= k < |firsts| && firsts[k].finding.id == ids[i] && Effective(firsts[k], anchors) == relation
               && firsts[k].target == Some(anchor);
      assert view.findings[k].id == ids[i];
    }
  }

  /** The findings a conflict names, supporting ones first. */
  ghost predicate Names(c: Conflict, view: View, findings: seq<Finding>) {
    && |findings| == |c.supportingIds| + |c.contradictingIds|
    && (forall i :: 0 <= i < |findings| ==> findings[i] in view.findings && findings[i].id == (c.supportingIds + c.contradictingIds)[i])
  }

  /** For every conflict of a merged view, the judge's input is built exactly when its findings belong to one step. */
  lemma JudgeFailsOnlyAcrossSteps(view: View, observations: seq<Observation>, gate: Option<Gate>, i: nat) returns (findings: seq<Finding>)
    requires Merges(view, observations, gate) && ViewAccepted(view) && i < |view.conflicts|
    ensures Names(view.conflicts[i], view, findings)
    ensures BuildJudgeConflict(view.conflicts[i], view) ==
            if SameStep(findings) then
              Ok(JudgeConflict(Question(view.conflicts[i]), findings, view.conflicts[i].target, view.gateStatus))
            else Err("steps-differ")
  {
    var c := view.conflicts[i];
    ConflictNamesItsSides(view, observations, gate, i);
    hide Merges, Question, Blank, Names;
    KnownIdsResolve(view.findings, c.supportingIds);
    KnownIdsResolve(view.findings, c.contradictingIds);
    var supporting, contradicting := Resolved(view.findings, c.supportingIds).value, Resolved(view.findings, c.contradictingIds).value;
    findings := supporting + contradicting;
    BothSides(c, view, supporting, contradicting);
  }

  lemma BothSides(c: Conflict, view: View, supporting: seq<Finding>, contradicting: seq<Finding>)
    requires |supporting| == |c.supportingIds| && |contradicting| == |c.contradictingIds|
    requires forall i :: 0 <= i < |supporting| ==> supporting[i].id == c.supportingIds[i] && supporting[i] in view.findings
    requires forall i :: 0 <= i < |contradicting| ==> contradicting[i].id == c.contradictingIds[i] && contradicting[i] in view.findings
    ensures Names(c, view, supporting + contradicting)
  {
  }

  lemma ConflictNamesItsSides(view: View, observations: seq<Observation>, gate: Option<Gate>, i: nat)
    requires Merges(view, observations, gate) && ViewAccepted(view) && i < |view.conflicts|
    ensures var c := view.conflicts[i];
            && c in view.conflicts && !Blank(c.target) && c.supportingIds != [] && c.contradictingIds != []
            && AllKnown(view.findings, c.supportingIds) && AllKnown(view.findings, c.contradictingIds)
    ensures forall a, b :: 0 <= a < b < |view.findings| ==> view.findings[a].id != view.findings[b].id
  {
    var c := view.conflicts[i];
    assert ConflictAccepted(c) && Opposed(Firsts(observations), Anchors(gate), c.target);
    ListedIdsAreKnown(view, observations, gate, Supporting, c.target);
    ListedIdsAreKnown(view, observations, gate, Contradicting, c.target);
    hide Firsts, IdsAt, IdsWith, Outcomes, Sorts, Question;
  }

  /** One judge call per conflict, in order; a conflict across steps stops the run before its judge is called. */
  method Resolve(view: View, judgeAvailable: bool) returns (r: Result<seq<JudgeConflict>, string>)
    ensures !judgeAvailable ==> r == Ok([])
    ensures judgeAvailable && r.Ok? ==>
              |r.value| == |view.conflicts|
              && forall i :: 0 <= i < |view.conflicts| ==> BuildJudgeConflict(view.conflicts[i], view) == Ok(r.value[i])
    ensures judgeAvailable && r.Err? ==>
              exists i :: 0 <= i < |view.conflicts| && BuildJudgeConflict(view.conflicts[i], view) == Err(r.error)
                          && forall j :: 0 <= j < i ==> BuildJudgeConflict(view.conflicts[j], view).Ok?
  {
    hide BuildJudgeConflict;
    if !judgeAvailable { return Ok([]); }
    var asked: seq<JudgeConflict> := [];
    for i := 0 to |view.conflicts|
      invariant |asked| == i && forall j :: 0 <= j < i ==> BuildJudgeConflict(view.conflicts[j], view) == Ok(asked[j])
    {
      var built := BuildJudgeConflict(view.conflicts[i], view);
      if built.Err? { return Err(built.error); }
      asked := asked + [built.value];
    }
    r := Ok(asked);
  }
}
