/** The two pure policies of the loop (application/loop_policy.py). */
module LoopPolicy {
  import opened Fsm
  import opened Store
  import opened Transactions

  /** Whether a step waits for a human before it may be dispatched. */
  predicate RequiresApproval(mode: Mode, risk: RiskLevel, requiresHuman: bool) {
    if requiresHuman then true
    else if mode.Manual? then true
    else if mode.Supervised? then !risk.Low?
    else risk.High?
  }

  datatype ReviewOutcome = ReviewOutcome(event: StepEvent, reason: string)

  /** The review event a received report maps to. */
  function DecideReview(report: WorkerResult, attempt: int, maxAttempts: int): ReviewOutcome {
    var retryable := attempt < maxAttempts;
    if report.questions != [] then ReviewOutcome(Block, "architecture-questions")
    else if report.issues != [] then ReviewOutcome(Block, "unresolved-issues")
    else
      match report.status
      case ReportDone => ReviewOutcome(Verify, "report-done")
      case ReportBlocked => ReviewOutcome(Block, "report-blocked")
      case ReportRevise =>
        if retryable then ReviewOutcome(RequestRevise, "report-revise")
        else ReviewOutcome(Block, "revise-attempts-exhausted")
      case ReportFailed =>
        if retryable then ReviewOutcome(RequestRevise, "report-failed-retry")
        else ReviewOutcome(Block, "failed-attempts-exhausted")
  }

  /**
    The review policy decides exactly: VERIFY only for an unqualified DONE, REVISE only with an attempt
    left, BLOCK otherwise; every outcome is legal in REVIEWING, and none raises a conflict.
   */
  lemma ReviewIsExact(report: WorkerResult, attempt: int, maxAttempts: int)
    ensures var clean := report.questions == [] && report.issues == [];
            var event := DecideReview(report, attempt, maxAttempts).event;
            && (event.Verify? <==> clean && report.status.ReportDone?)
            && (event.RequestRevise? <==>
                  clean && attempt < maxAttempts && (report.status.ReportRevise? || report.status.ReportFailed?))
            && (event.Block? <==> !event.Verify? && !event.RequestRevise?)
            && StepNext(Reviewing, event).Some?
  {
  }

  function Autonomy(mode: Mode): nat {
    match mode case Manual => 0 case Supervised => 1 case Auto => 2
  }

  function Severity(risk: RiskLevel): nat {
    match risk case Low => 0 case Medium => 1 case High => 2
  }

  /** More autonomy never adds an approval, more risk never removes one, and a step that asks for a human always gets one. */
  lemma ApprovalIsMonotone(mode: Mode, mode': Mode, risk: RiskLevel, risk': RiskLevel, requiresHuman: bool)
    requires Autonomy(mode') <= Autonomy(mode) && Severity(risk) <= Severity(risk')
    ensures RequiresApproval(mode, risk, requiresHuman) ==> RequiresApproval(mode', risk', requiresHuman)
    ensures RequiresApproval(mode, risk, true)
    ensures !RequiresApproval(mode, risk, false) <==> Severity(risk) < Autonomy(mode)
  {
  }
}
