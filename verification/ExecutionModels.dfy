/**
 * Commands, results, the lifecycle automaton and the retry classification
 * (execution/models.py, execution/state_machine.py, execution/retry.py).
 */
module ExecutionModels {
  import opened Common

  datatype CommandState =
    | Created | Validated | Submitted | PartiallyFilled | Filled | Modifying
    | Closed | Rejected | Failed | Expired | Unknown

  datatype Event =
    | ValidateOk | ValidateFail | Submit | PartialFill | FullFill
    | Reject | Fail | Expire | SlAttaching | SlAttached
    | Close | GoUnknown | Reconcile

  datatype Status =
    | FilledStatus | PartialStatus | ClosedStatus | RejectedStatus
    | FailedStatus | ExpiredStatus | UnknownStatus

  datatype ErrorCode =
    | InvalidCommand | Authentication | NetworkTimeout | BrokerReject
    | InsufficientMargin | InvalidVolumeSl | MarketClosed | RequoteSlippage
    | DuplicateCommand | AmbiguousResponse | StaleFeed | PositionExists
    | CommandExpired | SlAttachFailed | CloseFailed | EmergencyCloseFailed
    | ReconciliationPending | GenericFailure | Unclassified

  datatype RetryClass = Safe | Unsafe | ReconcileFirst | Permanent | Emergency | Idempotent

  datatype Command = Command(id: string, trade: string, isBuy: bool, volume: real, sl: real)

  datatype ExecutionResult = ExecutionResult(
    status: Status, error: Option<ErrorCode>, filledVolume: real, fillPrice: real, slApplied: bool)

  /** Broker truth about one command, as the reconciliation boundary reports it. */
  datatype Truth = Truth(
    discovered: Option<CommandState>, ambiguous: bool, filledVolume: real, fillPrice: real)

  datatype Snapshot = Snapshot(pid: string, sl: Option<real>)

  /** Event names of audit lines: the lifecycle events and the audit-only ones. */
  datatype Tag =
    | Fsm(event: Event)
    | CommandCreated | ExecutorResult | ReconcileAfterTimeout | CancelRemainder
    | SlConfirmed | SlAttachResult | SlAttachBudgetSpent
    | EmergencyCloseRequested | EmergencyCloseResult | CloseResult
    | ReconciliationQuery | ReconciliationAmbiguous | SubmittedAfterReconcile

  datatype Config = Config(submitRetries: nat, slAttachRetries: nat, closeRetries: nat)

  predicate Terminal(s: CommandState) {
    s.Closed? || s.Rejected? || s.Failed? || s.Expired?
  }

  predicate Reconcilable(s: CommandState) {
    !s.Created? && !s.Validated? && !s.Unknown?
  }

  /** States that keep the entry gate shut: in flight or not yet submitted. */
  predicate BlocksEntry(s: CommandState) {
    s.Created? || s.Validated? || s.Submitted? || s.Unknown?
  }

  /** The lifecycle automaton; None is the source's ExecutionStateError. */
  function Transition(current: CommandState, event: Event, target: Option<CommandState>): Option<CommandState> {
    match event
    case Reconcile =>
      if target.Some? && current.Unknown? && Reconcilable(target.value) then target else None
    case ValidateOk => if current.Created? then Some(Validated) else None
    case ValidateFail => if current.Created? || current.Validated? then Some(Failed) else None
    case Submit => if current.Validated? then Some(Submitted) else None
    case PartialFill => if current.Submitted? then Some(PartiallyFilled) else None
    case FullFill => if current.Submitted? || current.PartiallyFilled? then Some(Filled) else None
    case Reject => if current.Submitted? then Some(Rejected) else None
    case Fail =>
      if current.Submitted? || current.PartiallyFilled? || current.Filled? || current.Modifying?
      then Some(Failed) else None
    case Expire =>
      if current.Created? || current.Validated? || current.Submitted? then Some(Expired) else None
    case SlAttaching => if current.Filled? then Some(Modifying) else None
    case SlAttached => if current.Modifying? then Some(Filled) else None
    case Close =>
      if current.PartiallyFilled? || current.Filled? || current.Modifying? then Some(Closed) else None
    case GoUnknown =>
      if current.Submitted? || current.PartiallyFilled? || current.Filled? || current.Modifying?
      then Some(Unknown) else None
  }

  /** Retry class of an error code; a missing or foreign code fails closed. */
  function Classify(code: Option<ErrorCode>): RetryClass {
    match code
    case None => ReconcileFirst
    case Some(e) =>
      match e
      case NetworkTimeout => Safe
      case CloseFailed => Safe
      case DuplicateCommand => Idempotent
      case AmbiguousResponse => ReconcileFirst
      case EmergencyCloseFailed => ReconcileFirst
      case ReconciliationPending => ReconcileFirst
      case Unclassified => ReconcileFirst
      case SlAttachFailed => Emergency
      case GenericFailure => Unsafe
      case _ => Permanent
  }

  /** Two stop-loss levels count as the same when closer than 1e-9. */
  predicate SameLevel(a: real, b: real) {
    -0.000000001 < a - b < 0.000000001
  }

  function Plain(status: Status, error: Option<ErrorCode>): ExecutionResult {
    ExecutionResult(status, error, 0.0, 0.0, status.ClosedStatus?)
  }

  function UnknownResult(error: ErrorCode): ExecutionResult {
    Plain(UnknownStatus, Some(error))
  }

  /** A fill promoted to the final FILLED result once the stop-loss is in place. */
  function Confirmed(fill: ExecutionResult): ExecutionResult {
    ExecutionResult(FilledStatus, None, fill.filledVolume, fill.fillPrice, true)
  }
}
