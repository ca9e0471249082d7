/** The two transition tables of the workflow (domain/fsm.py) and their vocabulary. */
module Fsm {
  import opened Basics

  datatype StepState =
    | Pending | Ready | WaitingApproval | Dispatched | Working | ReportReceived | Reviewing
    | Revise | Blocked | Conflict | Failed | Verified | Aborted

  datatype StepEvent =
    | Prepare | RequestApproval | Approve | Reject | Dispatch | Start | ReceiveReport | Fail
    | Block | Abort | StartReview | Verify | RequestRevise | RaiseConflict | Retry | Unblock | Resolve

  datatype TaskState = TaskCreated | TaskDispatched | TaskReported | TaskFailed

  datatype TaskEvent = TaskDispatch | TaskReceiveReport | TaskFail

  /** The authoritative step table; None is an illegal event. */
  function StepNext(state: StepState, event: StepEvent): Option<StepState> {
    match (state, event)
    case (Pending, Prepare) => Some(Ready)
    case (Ready, RequestApproval) => Some(WaitingApproval)
    case (Ready, Dispatch) => Some(Dispatched)
    case (WaitingApproval, Reject) => Some(Ready)
    case (WaitingApproval, Approve) => Some(Dispatched)
    case (WaitingApproval, Block) => Some(Blocked)
    case (WaitingApproval, Abort) => Some(Aborted)
    case (Dispatched, Start) => Some(Working)
    case (Dispatched, ReceiveReport) => Some(ReportReceived)
    case (Dispatched, Fail) => Some(Failed)
    case (Dispatched, Block) => Some(Blocked)
    case (Working, ReceiveReport) => Some(ReportReceived)
    case (Working, Fail) => Some(Failed)
    case (Working, Block) => Some(Blocked)
    case (ReportReceived, StartReview) => Some(Reviewing)
    case (Reviewing, Verify) => Some(Verified)
    case (Reviewing, RequestRevise) => Some(Revise)
    case (Reviewing, Block) => Some(Blocked)
    case (Reviewing, RaiseConflict) => Some(Conflict)
    case (Revise, Retry) => Some(Ready)
    case (Blocked, Unblock) => Some(Ready)
    case (Blocked, Abort) => Some(Aborted)
    case (Conflict, Resolve) => Some(Ready)
    case (Conflict, Block) => Some(Blocked)
    case (Conflict, Abort) => Some(Aborted)
    case (Failed, Retry) => Some(Ready)
    case (Failed, Abort) => Some(Aborted)
    case _ => None
  }

  /** The subordinate dispatch marker's table. */
  function TaskNext(state: TaskState, event: TaskEvent): Option<TaskState> {
    match (state, event)
    case (TaskCreated, TaskDispatch) => Some(TaskDispatched)
    case (TaskDispatched, TaskReceiveReport) => Some(TaskReported)
    case (TaskDispatched, TaskFail) => Some(TaskFailed)
    case _ => None
  }

  /** The states no event leaves. */
  predicate Terminal(state: StepState) {
    state.Verified? || state.Aborted?
  }

  /** The step table as a relation: where each state can go, and by which event. */
  function Exits(state: StepState): set<(StepEvent, StepState)> {
    match state
    case Pending => {(Prepare, Ready)}
    case Ready => {(RequestApproval, WaitingApproval), (Dispatch, Dispatched)}
    case WaitingApproval => {(Approve, Dispatched), (Reject, Ready), (Block, Blocked), (Abort, Aborted)}
    case Dispatched => {(Start, Working), (ReceiveReport, ReportReceived), (Fail, Failed), (Block, Blocked)}
    case Working => {(ReceiveReport, ReportReceived), (Fail, Failed), (Block, Blocked)}
    case ReportReceived => {(StartReview, Reviewing)}
    case Reviewing => {(Verify, Verified), (RequestRevise, Revise), (Block, Blocked), (RaiseConflict, Conflict)}
    case Revise => {(Retry, Ready)}
    case Blocked => {(Unblock, Ready), (Abort, Aborted)}
    case Conflict => {(Resolve, Ready), (Block, Blocked), (Abort, Aborted)}
    case Failed => {(Retry, Ready), (Abort, Aborted)}
    case Verified => {}
    case Aborted => {}
  }

  /** An event is legal, and leads where it leads, exactly as the relation says. */
  lemma TableIsExact(state: StepState, event: StepEvent, to: StepState)
    ensures StepNext(state, event) == Some(to) <==> (event, to) in Exits(state)
  {
    match state
    case Pending =>
    case Ready =>
    case WaitingApproval =>
    case Dispatched =>
    case Working =>
    case ReportReceived =>
    case Reviewing =>
    case Revise =>
    case Blocked =>
    case Conflict =>
    case Failed =>
    case Verified =>
    case Aborted =>
  }

  /** A task is dispatched once, and then reported or failed. */
  lemma TaskTableIsExact(state: TaskState, event: TaskEvent, to: TaskState)
    ensures TaskNext(state, event) == Some(to) <==>
            (state, event, to) in {(TaskCreated, TaskDispatch, TaskDispatched), (TaskDispatched, TaskReceiveReport, TaskReported),
                                   (TaskDispatched, TaskFail, TaskFailed)}
  {
  }
}
