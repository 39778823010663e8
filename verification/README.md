# A verified model of the Modall control plane

Modall lets workspace members run tools of remote MCP servers under strict rules: a run is
admitted against a capability version that an operator approved, a worker leases it, fences
itself before it talks to the server and again before it calls the tool, and the outcome is
final. This project models the parts of the system on which those rules rest and proves what
they promise, for every input, every run and every reachable state.

The project has five parts.

* **Execution.** `RunRows` holds what each transaction does to a run with its job, attempts and
  event log; `Ledger` and `Admission` lift that to the tables; `ExecutionService` is the service
  itself, a class whose rows are updated in place in a session in which queries see only flushed
  rows, every method proved to have exactly the effect specified in `Ledger` and `Admission`;
  `LedgerEffects` and `AdmissionEffects` say what those effects are in the fields of the rows:
  when an operation succeeds, which rows it changes, and what they hold then.
  `InvocationRunner` is a worker's pass over the service. `Protocol` lets creators, workers
  (which may stall or crash between any two transactions), cancellation, restore and retention
  act in any interleaving; `ProtocolInvariant` and `ProtocolAdmission` carry the invariant,
  `ProtocolTheorems` and `Projection` state what follows for every run, and `FenceEffects` says
  under which leases a worker gets through its fences and its report ends the run.
* **Registry.** `Registry` specifies connections, refresh jobs, publication and operator
  decisions; `RegistryService` is the imperative service, with its loops over tools, jobs and
  capabilities; `RegistryInvariant`, `RegistryPublication` and `RegistryProtocol` prove what
  holds over every run, `RegistryEffects` says what each transaction does in the fields of the
  rows, and `RegistryVersions` how versions are numbered.
* **Both together.** `PinnedAuthority` runs the two protocols side by side, each fence reading
  the registry of its moment; `ConnectionGate` says when a connection carries runs at all;
  `Walkthrough` is one complete history of the two.
* **Response screening.** `ByteMatcher`, `EscapeDecoder` and `ResponseScreen`.
* **Smaller algorithms.** `ScannerPermits`, `KeyHistory`, `ApiIdempotency`, `Cursors`,
  `Pagination` and `RateLimiter`.

Conventions of the model:

* Digests and MACs are free constructors: equal only for equal inputs, and a key version always
  stands for the same secret. Identifiers are natural numbers; a fresh one is one not used before.
* A transaction is one step, because the code takes row locks; creating a run is two steps, split
  at the workspace lock, so creators race. An error is a rollback. Which rows a
  `FOR UPDATE SKIP LOCKED` query skips, and every clock reading, is a parameter of the step.
* `ORDER BY` queries with a limit are `Queries.First` and `Queries.TakeFirst`.
* Times are integers in microseconds; the database clock does not run backwards.
* Two places where the source's behaviour is narrower than one might expect are stated exactly:
  sequence cursors round-trip for 1 <= n < 10^12 and no further (`Cursors.SequenceRoundTrip`),
  and API replay protection needs keyrings that never bring a dropped version back
  (`ApiIdempotency.WhenReplayProtectionFails` says exactly when it fails, and
  `ApiIdempotency.BringingAVersionBackBreaksReplay` shows that it can).

## Model

| member | source | states |
|---|---|---|
| ProtocolTheorems.AtMostOneCall | src/modall/execution/runner.py:88-214 | in every interleaving a run passes the dispatch fence at most once, its tool is called at most once, and each call follows the dispatch fence taken by the same worker |
| ProtocolTheorems.OutcomeIsFinal | src/modall/execution/service.py:1611-1641 | once a run is terminal, its status, code, job and attempts never change again in any later state and its log only grows |
| ProtocolTheorems.SupersededForEver | src/modall/execution/service.py:1490-1507 | once a later claim succeeded, no heartbeat, fence or completion under an earlier lease succeeds or changes anything, in any later state |
| FenceEffects.FencesNeedLiveLeases | src/modall/execution/service.py:1317-1423 | in every reachable state a worker gets through a fence exactly when it is at that point, its lease (after any renewal) and the job's deadline outlast the fence's clock reading, the run is at the stage before and not asked to stop, and its authority stands |
| FenceEffects.FencedRowsShowTheLease | src/modall/execution/service.py:1386-1416 | after a fence the row shows the unexpired lease it was passed under |
| FenceEffects.PassCallsUnderLiveLeases | src/modall/execution/runner.py:88-214 | a pass calls the tool exactly when the adapter gets that far and the lease is live at both fences |
| FenceEffects.SettleEffect | src/modall/execution/runner.py:121-175 | a report ends the run exactly when its renewals go through and it is in time and fits the stage, and then as reported or by time |
| LedgerEffects.FenceEffect | src/modall/execution/service.py:1317-1423 | a fence passes exactly for an unexpired current lease before the deadline, at the stage before, without a request to stop and under intact authority; it moves run and attempt one stage on and logs that |
| LedgerEffects.HeartbeatEffect | src/modall/execution/service.py:550-580 | succeeds exactly for an unexpired current lease outside quarantine and sets the expiry to the earlier of now plus duration and the deadline |
| LedgerEffects.CompleteEffect | src/modall/execution/service.py:582-649 | a report ends the run by time once the deadline has passed; before that it needs an unexpired lease and a status and code that fit the stage |
| LedgerEffects.CancelEffect | src/modall/execution/service.py:695-756 | cancels what was not dispatched with the code for that, only notes the wish after dispatch, ends by time what is past its deadline, leaves ended runs alone |
| Ledger.StaleLeaseIsInert | src/modall/execution/service.py:1307-1315 | a lease with a lower epoch than the job's cannot renew, fence or complete |
| ProtocolTheorems.StatusTellsDispatch | src/modall/execution/service.py:1707-1742 | in every reachable state the log holds a dispatch fence exactly when the status is dispatch-fenced, succeeded, indeterminate, or failed with one of the four post-dispatch codes |
| ProtocolTheorems.UndispatchedMeansNoCallEver | src/modall/execution/service.py:719-740 | a run that ended without admitting dispatch has had no call and never has one in any later state |
| ProtocolTheorems.ActiveRunsAreCurrent | src/modall/execution/service.py:758-818 | whenever dispatch is not quarantined, every active run's job carries the current execution epoch |
| ProtocolTheorems.QuarantineStopsWork | src/modall/execution/service.py:396-398 | while quarantined no step of a creator or worker adds or changes a run |
| ProtocolTheorems.QuarantineClears | src/modall/execution/service.py:770-818 | from any reachable quarantine the clear succeeds exactly when batches times batch size reaches the number of active runs |
| Ledger.ReconcileProgress | src/modall/execution/service.py:770-805 | one batch ends exactly min(batch, active) active runs |
| Ledger.ReconcileTerminates | src/modall/execution/service.py:770-818 | ceil(active / batch) batches are enough to clear and fewer are not |
| LedgerEffects.ReconcileEffect | src/modall/execution/service.py:770-805 | needs a quarantine and a batch of 1 to 1000; ends and counts one batch, the first created first |
| ProtocolTheorems.OneRunPerKey | src/modall/execution/service.py:221-260 | at most one retained run per workspace, actor and raw idempotency key, with racing creators and any sequence of keyrings |
| ProtocolTheorems.RepeatedKey | src/modall/execution/service.py:1114-1178 | repeating a key with the same canonical request returns that run, with a different one conflicts, and never creates a run |
| ProtocolTheorems.OneRunPerToken | src/modall/execution/service.py:343-353 | a confirmation token creates at most one run ever, also after retention deleted that run and the token's nonce |
| ProtocolTheorems.ActiveRunsBounded | src/modall/execution/service.py:286-296 | no workspace ever has more active runs than the limit, whoever races |
| ProtocolTheorems.ReachedFits | src/modall/execution/service.py:111-1743 | the protocol invariant holds in every state reachable from an empty service |
| Admission.TokenWindow | src/modall/execution/service.py:145-156 | floor and ceiling rounding of a token's times keeps its validity below one day |
| Admission.LookupIsExact | src/modall/execution/service.py:1091-1112 | with a complete history the lookup finds a record exactly when one exists for the raw key, and then that one |
| Admission.ReplayDecides | src/modall/execution/service.py:1114-1178 | what a replay answers, by comparing canonical requests and nonce ownership |
| AdmissionEffects.AdmitEffect | src/modall/execution/service.py:232-384 | a run is created exactly when all key versions are known, key and token are unused, token and deadline are good at both clock readings, the version may be invoked, the arguments are valid, dispatch is open and the workspace has room; and what its rows then hold |
| AdmissionEffects.AdmitRefusals | src/modall/execution/service.py:232-334 | which refusal answers which failing check, in their order |
| AdmissionEffects.UnknownKeysRefuse | src/modall/execution/service.py:1180-1201 | an unconfigured key version refuses every creation, confirmation versions first |
| AdmissionEffects.ProbeEffect | src/modall/execution/service.py:179-231 | creation asks for the lock exactly for a fitting token and an unused key under known key versions |
| Projection.ReplayProjection | src/modall/execution/service.py:905-916 | accepts exactly the non-empty logs numbered 1..n in some row order and returns the last status |
| Projection.LogReplaysToStatus | src/modall/execution/service.py:1643-1662 | in every reachable state a log read back in any order replays to the run's status, attempts are numbered by lease epoch with at most the last one live, and job and run end together |
| RunRows.FinishQuiet | src/modall/execution/service.py:1611-1641 | ending a run keeps run, job, attempts and log in lockstep without passing the dispatch fence |
| RunRows.FenceRowSound | src/modall/execution/service.py:1317-1423 | a fence keeps the lockstep, and logs dispatch exactly when it is the dispatch fence |
| RunRows.SweepRowQuiet | src/modall/execution/service.py:1538-1599 | every sweep ends its row in lockstep and invents no dispatch |
| ExecutionService.ExecutionService.ClaimJob | src/modall/execution/service.py:386-528 | sweeps, then leases the specified next job or closes it, with exactly the specified tables |
| LedgerEffects.ClaimEffect | src/modall/execution/service.py:386-528 | leases the waiting, unlocked run that was created first, while its deadline and authority last, and ends it otherwise; every other run is as before or ended because overdue or abandoned |
| LedgerEffects.ClaimLeavesLiveLeases | src/modall/execution/service.py:412-440 | a run in an unexpired lease before its deadline comes out of every claim exactly as it was |
| LedgerEffects.ClaimReturnsNothing | src/modall/execution/service.py:441-528 | no lease is returned exactly when no run waits or the oldest one is out of time or authority |
| LedgerEffects.ClaimSweeps | src/modall/execution/service.py:400-411 | every claim sweeps one bounded batch of overdue runs and one of abandoned dispatches first |
| LedgerEffects.SweepEffect | src/modall/execution/service.py:1538-1599 | a sweep ends at most a batch of due, unlocked runs, the soonest due first, and none stays when the batch suffices |
| ExecutionService.ExecutionService.TerminalizeExpiredJobs | src/modall/execution/service.py:1538-1566 | ends precisely the bounded batch of runs past their deadline |
| ExecutionService.ExecutionService.TerminalizeAbandonedDispatches | src/modall/execution/service.py:1568-1599 | ends precisely the bounded batch of dispatches whose lease expired, as indeterminate |
| ExecutionService.ExecutionService.HeartbeatLease | src/modall/execution/service.py:550-580 | extends the lease up to the deadline, or rejects and changes nothing |
| ExecutionService.ExecutionService.FenceAttempt | src/modall/execution/service.py:1317-1423 | passes the session or dispatch fence under all its conditions, or changes nothing |
| ExecutionService.ExecutionService.CompleteLease | src/modall/execution/service.py:582-649 | ends the run as reported, or by deadline, or rejects the report |
| ExecutionService.ExecutionService.CancelRun | src/modall/execution/service.py:695-756 | cancels before dispatch, only notes the request after it, leaves terminal runs alone |
| ExecutionService.ExecutionService.EnterRestoreQuarantine | src/modall/execution/service.py:758-768 | raises the epoch and quarantines |
| ExecutionService.ExecutionService.ReconcileRestoreQuarantine | src/modall/execution/service.py:770-805 | ends one bounded batch and reports its size |
| ExecutionService.ExecutionService.ClearRestoreQuarantine | src/modall/execution/service.py:807-818 | clears only a quarantine without active runs |
| ExecutionService.ExecutionService.ExpireRetainedContent | src/modall/execution/service.py:820-862 | drops the arguments of one bounded batch and ends what was still active |
| ExecutionService.ExecutionService.DeleteExpiredRunMetadata | src/modall/execution/service.py:864-884 | deletes one bounded batch of old terminal runs with their records and nonces |
| LedgerEffects.DeleteEffect | src/modall/execution/service.py:864-884 | removes only runs that ended at least the configured number of days ago, the longest ended first, and all of them when the batch suffices; every other run keeps its row, record and nonces |
| LedgerEffects.ExpireEffect | src/modall/execution/service.py:820-862 | drops the arguments whose retention has passed and ends by time what was still active |
| ExecutionService.ExecutionService.RequireKeyHistory | src/modall/execution/service.py:1180-1201 | three probe loops report exactly whether some retained key version is not configured |
| ExecutionService.ExecutionService.ReplayExistingRun | src/modall/execution/service.py:1114-1178 | replays, conflicts or rejects a spent token exactly as specified |
| ExecutionService.ExecutionService.ProbeRun | src/modall/execution/service.py:179-231 | creation up to the workspace lock |
| ExecutionService.ExecutionService.AdmitRun | src/modall/execution/service.py:232-384 | creation behind the workspace lock: every check in its order, then run, nonce and record together |
| ExecutionService.ExecutionService.AppendNextEvent | src/modall/execution/service.py:1643-1662 | numbers the event after the last flushed one |
| ExecutionService.ExecutionService.TerminalizeRun | src/modall/execution/service.py:1611-1641 | run, job, live attempt and log move together |
| KeyHistory.FindUnconfiguredKeyVersion | src/modall/execution/service.py:1203-1223 | reports nothing exactly when every retained version is configured and there are no more than the bound; with a bounded keyring the fall-through names an unconfigured version |
| KeyHistory.BoundedKeyringDecides | src/modall/execution/service.py:1748-1758 | with a keyring within the bound the probe loop decides inclusion exactly |
| KeyHistory.KeyHistoryComplete | src/modall/api/idempotency.py:126-144 | one probe more than there are configured versions decides inclusion exactly |
| Runner.ReportsAreAccepted | src/modall/execution/runner.py:121-175 | every outcome that can arise at a stage is mapped to a report the ledger accepts at that stage |
| Runner.ReportsTell | src/modall/execution/runner.py:121-175 | success exactly for an acceptable result, indeterminate exactly for an unknown outcome, otherwise a code of its own for each stage and failure |
| InvocationRunner.InvocationRunner.Run | src/modall/execution/runner.py:88-175 | a worker's pass has the specified effect, returns the resulting status, and counts one call exactly if both fences passed |
| InvocationRunner.InvocationRunner.FenceSession | src/modall/execution/runner.py:195-206 | heartbeat and session fence commit together or not at all |
| InvocationRunner.UndisturbedPassEndsTheRun | src/modall/execution/runner.py:88-244 | under a lease that lasts, an undisturbed pass ends the run with the status of what the adapter met |
| InvocationRunner.CalledExactlyWhenFenced | src/modall/mcp_adapter/client.py:321-324 | for any lease and any course of events the tool is called in exactly the passes that log the dispatch fence |
| RegistryProtocol.StatusAgreesWithSnapshot | src/modall/registry/discovery.py:335-401 | in every reachable state enabled and pending capabilities have their decision version in the current snapshot, unavailable ones have none there, the verified version is the snapshot's, and enabled versions are bound to it |
| RegistryProtocol.ApprovalIsNeverInherited | src/modall/registry/service.py:473-758 | enabled exactly when the last accepted decision approved the enabled version, nothing newer is pending and the snapshot holds it; disabled exactly when that decision was a refusal; never approved means no enabled version |
| RegistryProtocol.OtherStepsKeep | src/modall/registry/service.py:553-646 | no step other than an operator decision changes an enabled version, leaves or enters disabled, or changes a row without raising its status epoch |
| RegistryProtocol.OneOutstandingJob | src/modall/registry/discovery.py:53-90 | at most one queued or leased refresh per connection, one exactly when an allocation exists, with the connection's generation, epoch and target |
| RegistryProtocol.PublicationDecided | src/modall/registry/discovery.py:291-401 | in every reachable state a publication succeeds exactly when the first two checks pass: no later guard can refuse it |
| RegistryProtocol.StaleLeaseNeverActs | src/modall/registry/discovery.py:502-537 | a lease whose job or allocation is gone never contacts, renews or publishes again |
| RegistryProtocol.WhatMakesStale | src/modall/registry/discovery.py:53-90 | re-claiming, re-allocating, appending, disabling, publishing and failing all make earlier leases stale |
| RegistryProtocol.GenerationsIncrease | src/modall/registry/discovery.py:337-345 | of two publications for a connection in one run the later has the greater generation |
| RegistryProtocol.ReachedFits | src/modall/registry/service.py:53-817 | the registry invariant holds in every reachable state |
| RegistryPublication.ReconciledDecides | src/modall/registry/service.py:541-587 | whichever of the five cases applies, the observed version becomes the decision of a capability unless it is disabled with it pending, and the status says whether it is the approved one |
| RegistryPublication.RecordKeeps | src/modall/registry/service.py:473-646 | recording a tool succeeds, changes only that tool's capability and makes the observed version visible there |
| RegistryPublication.RecordAllKeeps | src/modall/registry/discovery.py:347-378 | recording a listing never fails and collects versions for exactly its identities |
| RegistryPublication.PublishKeeps | src/modall/registry/discovery.py:291-401 | once lease and connection are accepted the publication succeeds, keeps the invariant, and touches nothing of other connections |
| RegistryService.RegistryService.ObsoleteRefreshJobs | src/modall/registry/service.py:226-243 | obsoletes exactly the outstanding jobs of the connection |
| RegistryService.RegistryService.AppendServerVersion | src/modall/registry/service.py:118-161 | new pending version, raised control epoch, no allocation, no outstanding job |
| RegistryEffects.AppendEffect | src/modall/registry/service.py:118-161 | accepted exactly for a connection that is not retired; the new version is pending under the next control epoch, verification starts over, and all its outstanding refreshes are obsolete |
| RegistryService.RegistryService.DisableServer | src/modall/registry/service.py:200-224 | disabled, raised control epoch, no allocation, no outstanding job |
| RegistryEffects.DisableEffect | src/modall/registry/service.py:200-224 | accepted exactly for a connection that is not retired, which it retires under the next control epoch |
| RegistryService.RegistryService.EnableServer | src/modall/registry/service.py:245-262 | only a disabled connection, back to verifying under a raised control epoch |
| RegistryEffects.EnableEffect | src/modall/registry/service.py:245-262 | accepted exactly for a retired connection, which verifies again under the next control epoch |
| RegistryService.RegistryService.AllocateRefreshGeneration | src/modall/registry/service.py:264-289 | next generation for the pending, else verified, version |
| RegistryService.RegistryService.EnqueueRefresh | src/modall/registry/discovery.py:53-90 | allocation and the one queued job that carries it |
| RegistryEffects.RefreshEffect | src/modall/registry/discovery.py:53-90 | any connection that is not retired gets the next generation, allocated to its pending, else verified, version, and one queued job that carries it |
| RegistryService.RegistryService.ClaimRefreshJob | src/modall/registry/discovery.py:129-191 | leases a queued or expired job whose allocation still stands |
| RegistryEffects.ClaimRefreshEffect | src/modall/registry/discovery.py:129-191 | claimed exactly when queued or leased with an expired lease; the next lease epoch until now plus duration |
| RegistryService.RegistryService.RenewRefreshLease | src/modall/registry/discovery.py:193-230 | extends an unexpired lease and never shortens it |
| RegistryEffects.RenewEffect | src/modall/registry/discovery.py:193-230 | renewed exactly while the lease is current and unexpired, to the later of the old expiry and now plus duration |
| RegistryService.RegistryService.ValidateForContact | src/modall/registry/discovery.py:232-250 | decides exactly whether the endpoint may be contacted |
| RegistryService.RegistryService.MatchingCurrentVersion | src/modall/registry/service.py:760-817 | the enabled match, else the pending one, else the matching version with the highest sequence |
| RegistryEffects.MatchEffect | src/modall/registry/service.py:760-817 | of the versions that agree with the observation the enabled one, else the pending one, else one with the highest sequence |
| RegistryService.ChosenIsPreferred | src/modall/registry/service.py:785-817 | the first match of the candidate list is the version the preference order names |
| RegistryService.RegistryService.RecordVersion | src/modall/registry/service.py:473-646 | records one observed tool with exactly the specified effect |
| RegistryEffects.RecordReviews | src/modall/registry/service.py:473-646 | reuses the version that was observed before, if there is one, else adds one, and reviews the tool's capability under it |
| RegistryVersions.VersionsAreNumbered | src/modall/registry/service.py:590-646 | in every reachable state the versions of a capability are numbered from 1 without a gap and no two record the same observation |
| RegistryService.RegistryService.MarkMissingUnavailable | src/modall/registry/discovery.py:463-499 | marks exactly the connection's unobserved capabilities that are neither unavailable nor disabled |
| RegistryService.RegistryService.PromotePendingVersion | src/modall/registry/service.py:163-198 | promotes the allocated pending version |
| RegistryService.RegistryService.CompleteOrdinaryRefresh | src/modall/registry/service.py:291-329 | consumes the allocation of the verified version |
| RegistryService.RegistryService.PublishListing | src/modall/registry/discovery.py:291-401 | the whole publication, loop included, with exactly the specified effect |
| RegistryEffects.PublishEffect | src/modall/registry/discovery.py:291-401 | accepted exactly under an unexpired lease; verifies the allocated version, activates the connection, closes the job, and its new snapshot holds one version for each listed tool, recorded as observed |
| RegistryEffects.PublishReviews | src/modall/registry/discovery.py:291-401 | each listed tool's capability keeps its approval and stays enabled only for the approved version, a refusal stands, capabilities of unlisted tools become unavailable, and no other capability changes |
| RegistryService.RegistryService.PublishRefreshFailure | src/modall/registry/discovery.py:403-435 | degrades the connection and closes job and allocation |
| RegistryEffects.FailEffect | src/modall/registry/discovery.py:403-435 | accepted exactly under an unexpired lease; the connection is degraded without an allocation and keeps everything else, the job is failed and ownerless, and no other row changes |
| ConnectionGate.FailureClosesConnection | src/modall/registry/discovery.py:403-435 | once a refresh of a connection has failed, no run on it is admitted or leased and none passes a fence before a later publication for it is accepted |
| ConnectionGate.CarriedSincePublication | src/modall/execution/service.py:1386-1416 | whenever a run is admitted, leased or fenced, a publication for its connection was accepted and no new version, disabling, enabling or failed refresh since |
| ConnectionGate.ServingSincePublication | src/modall/registry/discovery.py:291-435 | in every reachable state a connection is active exactly since an accepted publication after which nothing closed it |
| RegistryService.RegistryService.Enable | src/modall/registry/service.py:648-728 | approves a version only while it is the decision version, observed, supported and bound to the active verified version |
| RegistryEffects.ApproveEffect | src/modall/registry/service.py:648-728 | accepted exactly for the decision version of a capability that is not enabled, supported, qualified, bound to the active verified version and in its current snapshot |
| RegistryService.RegistryService.Disable | src/modall/registry/service.py:730-758 | refuses only the decision version the operator saw |
| RegistryEffects.RefuseEffect | src/modall/registry/service.py:730-758 | accepted exactly for the decision version of a capability that is not disabled |
| PinnedAuthority.FencedRunsKeptTheirAuthority | src/modall/execution/service.py:1386-1416 | between a run's admission and any fence it passes, its capability row never changed, its connection stayed at one control epoch, and no decision on the capability and no version, disabling or enabling of the connection was accepted |
| PinnedAuthority.AdmissionPins | src/modall/execution/service.py:309-310 | admission pins the status and control epochs of that moment |
| PinnedAuthority.ReconfiguringRaises | src/modall/registry/service.py:153-157 | every accepted append, disable or enable strictly raises the control epoch |
| PinnedAuthority.RowStep | src/modall/registry/service.py:554-586 | a capability row changes only together with a strictly greater status epoch |
| Walkthrough.ARunCanBeCarriedOut | src/modall/execution/runner.py:88-214 | from two empty services a history exists in which a tool is discovered and approved, a run admitted, both fences passed and the tool called, so none of the statements about all histories is empty |
| ByteMatcher.PrefixTable | src/modall/mcp_adapter/policy.py:352-362 | every entry is the longest proper border of its prefix |
| ByteMatcher.IncrementalByteMatcher.Feed | src/modall/mcp_adapter/policy.py:364-375 | returns true first in exactly the call whose chunk completes the first occurrence of any pattern in everything fed |
| ByteMatcher.IncrementalByteMatcher.Advance | src/modall/mcp_adapter/policy.py:366-372 | falling back along the table yields the longest prefix that ends the stream, and no index leaves its range |
| ByteMatcher.FallBack | src/modall/mcp_adapter/policy.py:368-369 | skipping to the border loses no prefix that could be extended |
| EscapeDecoder.IncrementalJsonEscapeDecoder.Feed | src/modall/mcp_adapter/policy.py:395-425 | output and pending bytes depend only on all bytes fed, not on where they were cut |
| EscapeDecoder.IncrementalJsonEscapeDecoder.Finish | src/modall/mcp_adapter/policy.py:427-430 | all output together is the left-to-right decoding of the whole text |
| EscapeDecoder.ChunksDoNotMatter | src/modall/mcp_adapter/policy.py:395-425 | feeding a then b is feeding a + b |
| EscapeDecoder.DecodesWholeText | src/modall/mcp_adapter/policy.py:395-430 | the transducer agrees with an independent reading of the whole text |
| EscapeDecoder.EscapedValueAppears | src/modall/mcp_adapter/policy.py:378-425 | a value spelt by any mix of literals, short escapes and \u00XX from a point with nothing pending appears in the output with its last byte |
| ResponseScreen.LimitedByteStream.Screen | src/modall/mcp_adapter/policy.py:260-276 | after every chunk the body is flagged exactly if it, or its decoding, contains a forbidden value or the heuristics fired |
| ResponseScreen.LimitedByteStream.Finish | src/modall/mcp_adapter/policy.py:281-286 | at the end an unfinished escape is screened too |
| ResponseScreen.EscapedForbiddenValueIsFlagged | src/modall/mcp_adapter/policy.py:260-286 | however a forbidden value is escaped, a body that spells it out is flagged |
| ScannerPermits.ScannerProcessPermits.ReleasePermit | src/modall/registry/official.py:114-130 | the hand-over loop has exactly the specified effect |
| ScannerPermits.ScannerProcessPermits.BeginAcquire | src/modall/registry/official.py:91-99 | takes a free permit or joins the queue |
| ScannerPermits.ScannerProcessPermits.Interrupted | src/modall/registry/official.py:100-111 | an interrupted waiter owes its permit if it was granted one, else its entry is cancelled |
| ScannerPermits.ReleaseGrantsLongestWaiting | src/modall/registry/official.py:114-130 | a paired release never raises, grants to the longest-waiting scan still interested, and puts the permit back only when there is none |
| ScannerPermits.PermitsAreConserved | src/modall/registry/official.py:91-135 | free, held and travelling permits always add up to four; a free permit means an empty queue |
| ScannerPermits.GrantsFollowArrivals | src/modall/registry/official.py:117-127 | grants are made strictly in the order of arrival |
| ScannerPermits.NoPermitIsLost | src/modall/registry/official.py:1109-1171 | when every scan is done all four permits are free again, whatever was cancelled when |
| ScannerPermits.WaitersAreServed | src/modall/registry/official.py:91-111 | a scan that waits is either granted or queued with no permit free |
| ApiIdempotency.ApiIdempotencyStore.IdempotentMutation | src/modall/api/idempotency.py:28-115 | replays, conflicts, refuses or executes with exactly the specified effect |
| ApiIdempotency.ApiIdempotencyStore.PurgeExpired | src/modall/api/idempotency.py:147-169 | deletes one bounded batch of expired records, oldest first |
| ApiIdempotency.OperationRunsOnceAWeek | src/modall/api/idempotency.py:58-115 | with keyrings that bring no version back, two executions for one key are at least seven days apart |
| ApiIdempotency.RepeatIsReplayed | src/modall/api/idempotency.py:62-91 | for seven days after an operation ran, a repeat of its key gets that operation's response for the same body and conflicts for another |
| ApiIdempotency.FreshKeyRuns | src/modall/api/idempotency.py:58-115 | with a complete keyring the operation runs when none ran for the key in the last seven days |
| ApiIdempotency.PurgeEffect | src/modall/api/idempotency.py:147-169 | removes only expired records, the oldest first, and all when the batch suffices |
| ApiIdempotency.WhenReplayProtectionFails | src/modall/api/idempotency.py:65-88 | for any table and keyring, an operation can run again beside an unexpired record exactly when an expired record of the key is also configured and none other is under the active version |
| ApiIdempotency.BringingAVersionBackBreaksReplay | src/modall/api/idempotency.py:65-88 | a run in which a dropped key version returns and an operation executes twice in one moment |
| Cursors.AuditRoundTrip | src/modall/api/contracts.py:1213-1237 | every calendar instant and every identifier survives the 32-character cursor |
| Cursors.AuditDecodeIsFaithful | src/modall/api/contracts.py:1226-1237 | a cursor that decodes is the encoding of what it decodes to, up to the alternative symbols |
| Cursors.AuditCursorIsANumber | src/modall/api/contracts.py:1213-1225 | read as a number to the base 64, the cursor is the instant's microseconds modulo 2^64 times 2^128 plus the identifier |
| Cursors.SequenceRoundTrip | src/modall/api/contracts.py:1186-1200 | round-trips exactly for 1 <= n < 10^12 and is refused otherwise |
| Cursors.DecodeEncode | src/modall/api/contracts.py:1222-1231 | base64 of any byte string decodes to it |
| Cursors.InstantRoundTrip | src/modall/api/contracts.py:1213-1237 | every instant fits eight signed bytes and comes back |
| Pagination.CollectPages | apps/web/src/api/operations.ts:64-77 | the client's loop ends, returns every row once in order, and never meets a repeated or refused cursor |
| Pagination.StableRowsAreVisited | src/modall/api/contracts.py:982-1003 | if the table changes between pages, order is kept, no row comes twice, and a row that stays is returned once the walk is past it |
| Pagination.CursorMarksRow | src/modall/api/contracts.py:1025-1044 | a page's cursor stands for exactly its last row's position |
| RateLimiter.FixedWindowRateLimiter.AllowRequest | src/modall/ops/limits.py:27-36 | counts, evicts the longest unseen peers and never holds more than the bound |
| RateLimiter.StaysBounded | src/modall/ops/limits.py:34-35 | no trace leaves more than the bound remembered |
| RateLimiter.AllowsAtLeastAsMuch | src/modall/ops/limits.py:27-36 | on every trace it allows whatever the counter that never forgets allows |
| RateLimiter.AllowedWithinLimit | src/modall/ops/limits.py:27-36 | the counter that never forgets allows a call exactly while the peer has made fewer than the limit in its minute |
| RateLimiter.SameAnswers | src/modall/ops/limits.py:27-36 | a peer between whose calls fewer than the bound of others come gets the same answers as from the counter that never forgets |

## Left out

- Authorization, memberships, workspace scoping of registry rows and the system-authority check: booleans or sets passed to each step.
- Argument schemas, bounded-JSON checks, canonicalisation and secret-shaped-content heuristics: one boolean per use.
- JWT, HMAC and SHA-256: injective constructors; a key version always names the same secret.
- Endpoint validation, names, audit and status events, metrics and logging: simple guards or output.
- Run results and their retention (`expire_retained_results`): a second table with the same sweep.
- Discovery payload rows and their digest collision check: content-addressed storage beside the snapshot.
- Format checks of idempotency keys and request sizes: guards in front of the modelled code.
- Network, MCP sessions and process spawning: an adapter outcome, chosen freely.
- Server-sent event segmentation and per-event rejection in the response stream.
- Official-registry paging, search cache and import: easier than the permit protocol beside them.
- Audit listing and identifier-only cursors: the same keyset scheme on other columns.
- ScannerPermits.ScannerProcessPermits.ReleasePermit: does not model the branch for a waiter whose event loop is closed.
- ScannerPermits.ScannerProcessPermits: waiters are rows of a map keyed by scan, so sharing one waiter object between queue and caller is a lookup, not an alias.
- InvocationRunner.InvocationRunner.Run: one worker without interference; interference is the subject of `Protocol`, where the same phases are separate steps.
- Cursors.DecodeSequence: does not skip characters outside the alphabet, nor accept signs, spaces or underscores around digits, as the lenient library decoders do; the encodings themselves are exact.
- ProtocolTheorems.OneRunPerToken: is about creations; a token presented with an already used key returns that key's run and is recorded as spent by it.
- Protocol: one job per run, identified with it; jobs are created and deleted with their runs.
- Pagination.WalkPages: filters that compare with the current time (run duration) are part of what a table holds at each page.
- Cursors.Since: overflow of calendar arithmetic is the range check on the decoded instant.
