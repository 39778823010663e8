/** How the invocation runner turns an adapter outcome into a report to the ledger. */
module Runner {
  import opened Common
  import opened ExecutionTypes
  import opened RunRows

  datatype InvocationFailure =
    | PreparationFailure | SessionInitializationFailure | ToolCallFailure
    | UnsupportedResultContent | SensitiveResult | InvalidUpstreamOutput

  datatype AdapterOutcome =
    | FenceRejected
    | LocalError
    | OutcomeUnknown
    | InvocationFailed(failure: InvocationFailure, dispatched: bool)
    | Returned(acceptable: bool)

  datatype Report = Silent | Reported(status: RunStatus, code: Option<FailureCode>)

  function ReportOf(outcome: AdapterOutcome): Report {
    match outcome
    case FenceRejected => Silent
    case LocalError => Reported(Failed, Some(PreparationFailed))
    case OutcomeUnknown => Reported(Indeterminate, Some(UpstreamOutcomeUnknown))
    case InvocationFailed(failure, dispatched) =>
      Reported(Failed, Some(
        if failure == PreparationFailure then PreparationFailed
        else if !dispatched || failure == SessionInitializationFailure then SessionInitializationFailed
        else if failure == ToolCallFailure then ToolCallFailed
        else if failure == UnsupportedResultContent then UnsupportedToolResult
        else if failure == SensitiveResult then SensitiveToolResult
        else InvalidToolResult))
    case Returned(acceptable) =>
      if acceptable then Reported(Succeeded, None) else Reported(Failed, Some(InvalidToolResult))
  }

  /** What the adapter can end with while the run is at a given fence. */
  predicate Arises(outcome: AdapterOutcome, stage: RunStatus) {
    match outcome
    case FenceRejected => true
    case LocalError => stage == Preparing
    case OutcomeUnknown => stage == DispatchFenced
    case InvocationFailed(failure, dispatched) =>
      && dispatched == (stage == DispatchFenced)
      && (failure == PreparationFailure <==> stage == Preparing)
      && (dispatched ==> failure != SessionInitializationFailure)
    case Returned(_) => stage == DispatchFenced
  }

  /**
    What the reports tell: success exactly for an acceptable result, indeterminate exactly for an
    unknown outcome, nothing exactly after a lost fence, and otherwise a code that names the stage
    and the kind of the failure.
  */
  lemma ReportsTell(outcome: AdapterOutcome, stage: RunStatus)
    requires Arises(outcome, stage)
    ensures ReportOf(outcome) == Silent <==> outcome == FenceRejected
    ensures ReportOf(outcome) == Reported(Succeeded, None) <==> outcome == Returned(true)
    ensures ReportOf(outcome) == Reported(Indeterminate, Some(UpstreamOutcomeUnknown)) <==> outcome == OutcomeUnknown
    ensures ReportOf(outcome) == Reported(Failed, Some(PreparationFailed)) <==> stage == Preparing && outcome != FenceRejected
    ensures ReportOf(outcome) == Reported(Failed, Some(SessionInitializationFailed)) <==>
              outcome.InvocationFailed? && stage != Preparing && stage != DispatchFenced
    ensures stage == DispatchFenced ==>
      && (ReportOf(outcome) == Reported(Failed, Some(ToolCallFailed)) <==> outcome == InvocationFailed(ToolCallFailure, true))
      && (ReportOf(outcome) == Reported(Failed, Some(UnsupportedToolResult)) <==>
            outcome == InvocationFailed(UnsupportedResultContent, true))
      && (ReportOf(outcome) == Reported(Failed, Some(SensitiveToolResult)) <==> outcome == InvocationFailed(SensitiveResult, true))
      && (ReportOf(outcome) == Reported(Failed, Some(InvalidToolResult)) <==>
            outcome == InvocationFailed(InvalidUpstreamOutput, true) || outcome == Returned(false))
  {
  }

  /** Every report made at the stage where its outcome arises passes the ledger's check. */
  lemma ReportsAreAccepted(run: Run, attempt: Attempt, outcome: AdapterOutcome)
    requires run.status.Live() && attempt.status == run.status
    requires Arises(outcome, run.status)
    ensures ReportOf(outcome).Silent? <==> outcome.FenceRejected?
    ensures ReportOf(outcome).Reported? ==>
              ValidWorkerCompletion(run, attempt, ReportOf(outcome).status, ReportOf(outcome).code)
  {
  }
}
