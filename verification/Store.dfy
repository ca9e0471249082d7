/**
  The source of truth as tables keyed the way the repository adapters key them
  (infrastructure/repositories.py), and the writes those adapters perform:
  an upsert replaces the row of its key, the audit trail only grows.
 */
module Store {
  import opened Basics
  import opened Fsm

  datatype Mode = Manual | Supervised | Auto
  datatype RiskLevel = Low | Medium | High
  datatype ReportStatus = ReportDone | ReportRevise | ReportBlocked | ReportFailed

  datatype Project = Project(name: string, mode: Mode, paused: bool, updatedAt: int)

  datatype Step = Step(
    stepNo: int, title: string, risk: RiskLevel, requiresHuman: bool, maxAttempts: int,
    state: StepState, attempt: int,
    startedAt: Option<int>, finishedAt: Option<int>, verifiedAt: Option<int>, lastUpdateAt: Option<int>)

  /** Identity of a task row, of a channel file and of a realization decision. */
  datatype Key = Key(stepNo: int, attempt: int)

  datatype Task = Task(
    key: Key, title: string, risk: RiskLevel, maxAttempts: int,
    state: TaskState, reportStatus: Option<ReportStatus>, createdAt: int)

  datatype Violation = Violation(rule: string, sourceModule: string, target: string)

  /** A finding's id is its step, its attempt and the digest of its violation. */
  datatype Finding = Finding(key: Key, violation: Violation)

  datatype Verdict = Accepted | Rejected

  datatype Decision = Decision(key: Key, verdict: Verdict, baseline: string, findings: seq<Finding>)

  datatype Version = Version(
    version: string, baseline: string, rules: seq<string>,
    supersededBy: Option<string>, isCurrent: bool, createdAt: int)

  datatype RequestStatus = RequestProposed | RequestApproved | RequestRejected | RequestApplied

  datatype Request = Request(
    requestId: string, title: string, rationale: string,
    sourceVersion: string, targetVersion: string, ruleIds: seq<string>, adrId: string,
    roadmapImpact: seq<string>, status: RequestStatus, createdAt: int,
    approvedBy: Option<string>, approvedAt: Option<int>, appliedAt: Option<int>)

  datatype AdrStatus = AdrProposed | AdrAccepted | AdrRejected | AdrDeprecated | AdrSuperseded

  datatype AdrText = AdrText(
    title: string, context: string, decision: string, consequences: seq<string>, related: seq<string>)

  datatype Adr = Adr(
    id: string, text: AdrText, status: AdrStatus, version: nat, supersededBy: Option<string>,
    createdAt: int, updatedAt: int)

  datatype RiskText = RiskText(
    description: string, severity: string, probability: real, impact: string, owner: string, mitigation: string)

  datatype Risk = Risk(id: string, text: RiskText, open: bool, createdAt: int)

  /** Who wrote a step entry: the loop leaves no actor in the detail, a human command does. */
  datatype Author = Loop | Human(actor: string, operation: string)

  datatype AdrAction =
    | AdrCreate | AdrAccept | AdrReject | AdrDeprecate | AdrAmend(newVersion: nat) | AdrSupersede(successor: string)

  datatype Entry =
    | StepEntry(
        stepNo: int, event: StepEvent, from: StepState, to: StepState, attempt: int,
        author: Author, reason: string, at: int)
    | ProjectEntry(name: string, author: Author, reason: string, paused: bool, mode: Mode, at: int)
    | AdrEntry(adrId: string, action: AdrAction, at: int)
    | RequestEntry(requestId: string, status: RequestStatus, at: int)
    | RiskEntry(riskId: string, at: int)

  datatype Db = Db(
    projects: map<string, Project>,
    steps: map<int, Step>,
    tasks: map<Key, Task>,
    findings: set<Finding>,
    decisions: map<Key, Decision>,
    versions: map<string, Version>,
    requests: map<string, Request>,
    adrs: map<string, Adr>,
    risks: map<string, Risk>,
    audit: seq<Entry>)

  datatype Write =
    | PutProject(project: Project)
    | PutStep(step: Step)
    | PutTask(task: Task)
    | PutFinding(finding: Finding)
    | PutDecision(decision: Decision)
    | PutVersion(version: Version)
    | PutRequest(request: Request)
    | PutAdr(adr: Adr)
    | PutRisk(risk: Risk)
    | Append(entry: Entry)

  function Apply(w: Write, db: Db): Db {
    match w
    case PutProject(p) => db.(projects := db.projects[p.name := p])
    case PutStep(s) => db.(steps := db.steps[s.stepNo := s])
    case PutTask(t) => db.(tasks := db.tasks[t.key := t])
    case PutFinding(f) => db.(findings := db.findings + {f})
    case PutDecision(d) => db.(decisions := db.decisions[d.key := d])
    case PutVersion(v) => db.(versions := db.versions[v.version := v])
    case PutRequest(r) => db.(requests := db.requests[r.requestId := r])
    case PutAdr(a) => db.(adrs := db.adrs[a.id := a])
    case PutRisk(r) => db.(risks := db.risks[r.id := r])
    case Append(e) => db.(audit := db.audit + [e])
  }

  /** Several writes, in order. */
  function ApplyAll(ws: seq<Write>, db: Db): Db {
    if ws == [] then db else ApplyAll(ws[1..], Apply(ws[0], db))
  }

  lemma {:induction false} ApplyAllConcat(a: seq<Write>, b: seq<Write>, db: Db)
    ensures ApplyAll(a + b, db) == ApplyAll(b, ApplyAll(a, db))
    decreases |a|
  {
    if a == [] {
      assert a + b == b;
    } else {
      assert (a + b)[1..] == a[1..] + b;
      ApplyAllConcat(a[1..], b, Apply(a[0], db));
    }
  }

  /** The single project, when there is exactly one. */
  ghost function SingleProject(db: Db): (r: Option<Project>)
    ensures r.Some? ==> exists name :: db.projects.Keys == {name} && r.value == db.projects[name]
    ensures r.None? ==> forall name :: db.projects.Keys != {name}
  {
    if exists name :: db.projects.Keys == {name} then
      var name :| db.projects.Keys == {name};
      Some(db.projects[name])
    else None
  }

  /** The names of the versions flagged current. */
  function CurrentVersions(versions: map<string, Version>): set<string> {
    set v <- versions | versions[v].isCurrent
  }
}
