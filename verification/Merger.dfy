/**
  The evidence merger (application/evidence_merger.py): one conservative, lossless view over the
  advisors' observations, and the specification it is proved against.
 */
module Merger {
  import opened Basics
  import opened Texts

  datatype Relation = Unresolved | Supporting | Contradicting

  /** What a finding's id is derived from. */
  datatype Identity = Identity(source: string, claim: string, evidence: seq<string>, stepNo: Option<int>)

  /** The certainty is not part of the identity. */
  datatype Finding = Finding(id: string, identity: Identity, severity: string, confidence: real)

  /** A repeated delivery may differ in everything but the identity. */
  datatype Observation =
    | Found(finding: Finding, relation: Relation, target: Option<string>)
    | Abstained(source: string, reason: string)
    | Failed(source: string, reason: string)

  datatype Status = Accepted | Rejected | Pending | Abstain | Error

  datatype Gate = Gate(id: string, status: Status, rulesApplied: seq<string>, evidenceRefs: seq<string>)

  datatype Outcome = Outcome(source: string, reason: string)

  datatype Conflict = Conflict(target: string, supportingIds: seq<string>, contradictingIds: seq<string>)

  datatype View = View(
    findings: seq<Finding>, supportingIds: seq<string>, conflictingIds: seq<string>, unresolvedIds: seq<string>,
    abstained: seq<Outcome>, errors: seq<Outcome>, conflicts: seq<Conflict>, questions: seq<string>,
    gateStatus: Option<Status>, gateAnchors: seq<string>)

  /** What the observation's constructor guarantees. */
  predicate WellFormed(o: Observation) {
    match o
    case Found(f, relation, target) =>
      !Blank(f.id) && (target.Some? ==> !Blank(target.value)) && (!relation.Unresolved? ==> target.Some?)
    case Abstained(source, reason) => !Blank(source) && !Blank(reason)
    case Failed(source, reason) => !Blank(source) && !Blank(reason)
  }

  // -- the specification ------------------------------------------------------------------

  function Anchors(gate: Option<Gate>): set<string> {
    match gate
    case None => {}
    case Some(g) => (set r <- g.rulesApplied) + (set r <- g.evidenceRefs)
  }

  predicate Settled(gate: Option<Gate>) {
    gate.Some? ==> gate.value.status.Accepted? || gate.value.status.Rejected?
  }

  predicate DeliversId(o: Observation, id: string) {
    o.Found? && o.finding.id == id
  }

  predicate NewId(firsts: seq<Observation>, id: string)
    requires forall i :: 0 <= i < |firsts| ==> firsts[i].Found?
  {
    forall i :: 0 <= i < |firsts| ==> firsts[i].finding.id != id
  }

  /** The first delivery of each finding, in order of arrival. */
  function Firsts(observations: seq<Observation>): (firsts: seq<Observation>)
    ensures forall i :: 0 <= i < |firsts| ==> firsts[i].Found?
  {
    if observations == [] then []
    else
      var before, last := Firsts(observations[..|observations| - 1]), observations[|observations| - 1];
      if last.Found? && NewId(before, last.finding.id) then before + [last] else before
  }

  /** The same id with two different identities. */
  ghost predicate Collides(observations: seq<Observation>) {
    exists i, j :: 0 <= i < j < |observations| && observations[i].Found? && observations[j].Found?
                   && observations[i].finding.id == observations[j].finding.id
                   && observations[i].finding.identity != observations[j].finding.identity
  }

  /** A relation counts only when it was declared and names an anchor of the gate. */
  function Effective(o: Observation, anchors: set<string>): Relation
    requires o.Found?
  {
    if o.relation.Unresolved? || o.target.None? || o.target.value !in anchors then Unresolved else o.relation
  }

  function FindingsOf(firsts: seq<Observation>): seq<Finding>
    requires forall i :: 0 <= i < |firsts| ==> firsts[i].Found?
  {
    seq(|firsts|, i requires 0 <= i < |firsts| => firsts[i].finding)
  }

  /** The ids with one effective relation, in order. */
  function IdsWith(firsts: seq<Observation>, anchors: set<string>, relation: Relation): seq<string>
    requires forall i :: 0 <= i < |firsts| ==> firsts[i].Found?
  {
    if firsts == [] then []
    else
      var last := firsts[|firsts| - 1];
      IdsWith(firsts[..|firsts| - 1], anchors, relation) + (if Effective(last, anchors) == relation then [last.finding.id] else [])
  }

  /** Those of them that relate to one anchor. */
  function IdsAt(firsts: seq<Observation>, anchors: set<string>, relation: Relation, anchor: string): seq<string>
    requires forall i :: 0 <= i < |firsts| ==> firsts[i].Found?
  {
    if firsts == [] then []
    else
      var last := firsts[|firsts| - 1];
      IdsAt(firsts[..|firsts| - 1], anchors, relation, anchor)
      + (if Effective(last, anchors) == relation && last.target == Some(anchor) then [last.finding.id] else [])
  }

  function Outcomes(observations: seq<Observation>, failed: bool): seq<Outcome> {
    if observations == [] then []
    else
      var last := observations[|observations| - 1];
      Outcomes(observations[..|observations| - 1], failed)
      + (if failed && last.Failed? then [Outcome(last.source, last.reason)]
         else if !failed && last.Abstained? then [Outcome(last.source, last.reason)]
         else [])
  }

  /** Both sides were declared, and validated, against the same anchor. */
  predicate Opposed(firsts: seq<Observation>, anchors: set<string>, anchor: string)
    requires forall i :: 0 <= i < |firsts| ==> firsts[i].Found?
  {
    IdsAt(firsts, anchors, Supporting, anchor) != [] && IdsAt(firsts, anchors, Contradicting, anchor) != []
  }

  function ConflictAt(firsts: seq<Observation>, anchors: set<string>, anchor: string): Conflict
    requires forall i :: 0 <= i < |firsts| ==> firsts[i].Found?
  {
    Conflict(anchor, IdsAt(firsts, anchors, Supporting, anchor), IdsAt(firsts, anchors, Contradicting, anchor))
  }

  /** One conflict per opposed anchor, in anchor order, and no other. */
  ghost predicate ConflictsExact(conflicts: seq<Conflict>, firsts: seq<Observation>, anchors: set<string>)
    requires forall i :: 0 <= i < |firsts| ==> firsts[i].Found?
  {
    && (forall i :: 0 <= i < |conflicts| ==>
          Opposed(firsts, anchors, conflicts[i].target) && conflicts[i] == ConflictAt(firsts, anchors, conflicts[i].target))
    && (forall i, j :: 0 <= i < j < |conflicts| ==> Below(conflicts[i].target, conflicts[j].target))
    && (forall anchor :: Opposed(firsts, anchors, anchor) ==> exists i :: 0 <= i < |conflicts| && conflicts[i].target == anchor)
  }

  function Question(c: Conflict): string {
    "Unresolved evidence conflict on " + c.target + ": supporting " + Join(", ", c.supportingIds)
    + " vs contradicting " + Join(", ", c.contradictingIds)
  }

  function Questions(conflicts: seq<Conflict>): seq<string> {
    seq(|conflicts|, i requires 0 <= i < |conflicts| => Question(conflicts[i]))
  }

  /** The view these observations must yield against this gate. */
  ghost predicate Merges(view: View, observations: seq<Observation>, gate: Option<Gate>) {
    var firsts, anchors := Firsts(observations), Anchors(gate);
    && view.findings == FindingsOf(firsts)
    && view.supportingIds == IdsWith(firsts, anchors, Supporting)
    && view.conflictingIds == IdsWith(firsts, anchors, Contradicting)
    && view.unresolvedIds == IdsWith(firsts, anchors, Unresolved)
    && view.abstained == Outcomes(observations, false) && view.errors == Outcomes(observations, true)
    && ConflictsExact(view.conflicts, firsts, anchors) && view.questions == Questions(view.conflicts)
    && view.gateStatus == (if gate.Some? then Some(gate.value.status) else None)
    && Sorts(view.gateAnchors, anchors)
  }

  // -- the view's own constructor --------------------------------------------------------------

  predicate AllNamed(texts: seq<string>) {
    forall i :: 0 <= i < |texts| ==> !Blank(texts[i])
  }

  function ToSet(texts: seq<string>): set<string> {
    set x <- texts
  }

  function Ids(findings: seq<Finding>): seq<string> {
    seq(|findings|, i requires 0 <= i < |findings| => findings[i].id)
  }

  predicate ConflictAccepted(c: Conflict) {
    && !Blank(c.target) && AllNamed(c.supportingIds) && AllNamed(c.contradictingIds)
    && c.supportingIds != [] && c.contradictingIds != []
    && ToSet(c.supportingIds) * ToSet(c.contradictingIds) == {}
  }

  /** Every check of the constructor: unique findings, known ids, a disjoint and complete partition, named texts. */
  predicate ViewAccepted(v: View) {
    var known := ToSet(Ids(v.findings));
    && (forall i, j :: 0 <= i < j < |v.findings| ==> v.findings[i].id != v.findings[j].id)
    && AllNamed(v.supportingIds) && AllNamed(v.conflictingIds) && AllNamed(v.unresolvedIds)
    && ToSet(v.supportingIds) <= known && ToSet(v.conflictingIds) <= known && ToSet(v.unresolvedIds) <= known
    && ToSet(v.supportingIds) * ToSet(v.conflictingIds) == {}
    && ToSet(v.supportingIds) * ToSet(v.unresolvedIds) == {}
    && ToSet(v.conflictingIds) * ToSet(v.unresolvedIds) == {}
    && ToSet(v.supportingIds) + ToSet(v.conflictingIds) + ToSet(v.unresolvedIds) == known
    && (forall i :: 0 <= i < |v.conflicts| ==> ConflictAccepted(v.conflicts[i]))
    && AllNamed(v.questions) && AllNamed(v.gateAnchors)
  }
}
