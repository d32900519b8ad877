# Verified model of the governed state machines

This project models five parts of the repository in Dafny and proves what they keep.

**Approval protocol** (`src/authorization`). An approval request is created by routing or by a
reissue, delivered with a one-time nonce, and then decided, expired, cancelled or superseded. The
services are asynchronous: every `await` is a point where other calls may move.

- `ApprovalDomain`, `ApprovalStores`: the values, and what the in-memory stores compute.
- `ApprovalProtocol`: the services as one transition system. A thread is a call in flight, standing
  between two awaits with the values it has read; `Next` is the code up to the following await.
  `NextDecide` is `decide`, `NextExpire` the expiry of one request, `NextFind` the search for a live
  replacement, `NextClaim` and `NextHeld` recovery and reissue up to and after `beginReissue`,
  `NextRoute` routing, `NextCreate` the creation shared by routing and reissue, `NextConsume` the
  outbox consumer. The transaction at the end of `decide` is one step.
- `ApprovalSafety`: a rely/guarantee invariant of every step. `ApprovalTheorems`: what follows for
  every run. `ApprovalReissue`: exclusion of concurrent replacements, under a discipline in two
  halves. `ApprovalReissueRuns`: for each half a run from empty stores that drops it, keeps the other
  and breaks exclusion. `ApprovalSerial`: calls that do not overlap.
- `ApprovalRepositories`, `ApprovalCalls`: the stores, the sweep, the supersession loop and `decide`
  as objects and methods that update their fields; `Decide` is proved equal to its thread run to the
  end, so the theorems about all schedules speak about that code.
- `HistoricalAuthority`: the auditor of a run's history, with its loops, proved exact.

**Causal evidence** (`src/causal`). `CausalGraph`: the recursive cycle search and the validator.
`CausalSynthesis`: the pairwise contradiction scan and the pooled mean, over exact reals.
`CausalLifecycle`, `CausalService`: a question from graph to promoted claim, as steps and as an
object. `CausalLedger`: compare-and-set budget reservations in two halves.

**Admission saga** (`src/admission`). `Admission`: interleaved admissions with compensation, one step
per port call and two for the acquisition of the lock, which awaits in between. `AdmissionService`:
one admission with its flags and its catch block over the ports.

**Assurance** (`src/assurance`). `Assurance`: control evaluation and assessment. `AssuranceRuns`:
recording, evaluating and certifying one run concurrently. `AssuranceRepositories`: the stores.

**Constitutional changes** (`src/constitutional`). `Constitutional`: the write-free projection of
mandates, really applying the operations, and the continuity check. `ConstitutionalPlans`: both as
folds over the mandates that the operations make. `ConstitutionalTheorems`: when the projection and
the check are true, and plans for which they are not. `ConstitutionalApply`: the application as an
object.

`JsonTrees` models the canonicalisation of JSON values, with a stable sort by a comparison that may
tie different keys, and the removal of sensitive keys.

Assumptions that several parts share: identifiers and digests are numbers or constructors, so hashes
are injective; freshly minted identifiers do not collide, except those of mandates, which are minted
from an institution and a clock reading and nothing else; clocks, randomness, authorisation verdicts,
readiness and delivery results are parameters that may take any value.

These properties turned out to need a condition. Each comes with a run or an input that breaks it:

- exclusion of replacements needs that no routing call overlaps another creation in its run
  (`RoutersBreakExclusion`) and that the audit append that follows `completeReissue` does not throw
  (`AuditThrowBreaksExclusion`);
- certified evidence passes when callers evaluate PLANNED runs only (`PlannedEvidencePasses`), and more
  generally while no two evaluations of a run collect at once (`CertifiedEvidencePasses`); it may fail
  when one is let in beside another (`OverlapCertifiesFailure`). No converse is stated: an evaluation
  that enters an EVALUATING run whose first evaluation has died, or that lists the same evidence,
  does no harm;
- a usage row must exist before it is first read (`FirstInsertsOverwrite`; `GrantsAccounted` says
  exactly how much is lost otherwise);
- the project lock excludes exactly in the runs in which it is never set over another
  (`LockExcludesExactly`, `OverlappingAcquires`);
- the projection misses a mandate exactly when two CREATE operations make one version, and the
  application loses one exactly when two operations on one institution read one time
  (`NothingLostExactly`); unless both happen the two agree exactly when neither does
  (`ProjectionTrueExactly`, `LimitsTrueExactly`), and when both happen they agree if the same
  operations collide, as in `BothCollideAgree`. `SameReadingLosesOne`, `SameReadingRefuses`,
  `RepeatedVersionPasses` and `ForeignScopeRefuses` are plans that are shown or judged wrongly;
- key order cannot change the canonical form of a value exactly when the comparison ties no keys in
  it (`OrderIndependentExactly`).

One consequence of the code was not documented: a run that admission created and then compensated
blocks its key for ever (`CompensatedKeyNeverAdmitted`).

`dafny verify dfyconfig.toml` checks the whole project.

## Model

| member | source | states |
|---|---|---|
| ApprovalRepositories.RequestRepository.Save | src/authorization/approval-request-repository.ts:62-75 | a fresh identifier is stored and appended to its run's order; an existing one is refused and nothing changes |
| ApprovalRepositories.RequestRepository.UpdateStatus | src/authorization/approval-request-repository.ts:131-222 | only the status (and the delivery-failure mark) of one request changes, a terminal status never does, and each refusal has its error |
| ApprovalRepositories.RequestRepository.ListByRun | src/authorization/approval-request-repository.ts:107-112 | the requests of the run in the order of their saving |
| ApprovalRepositories.RecordRepository.Append | src/authorization/authorization-record-repository.ts:28-48 | append-only: a reused identifier or a second record for a request is refused, and the three maps move together |
| ApprovalRepositories.RecordRepository.ListByRun | src/authorization/authorization-record-repository.ts:69-74 | the records of the run, oldest first |
| ApprovalRepositories.RunRepository.Transition | src/admission/run-transition.ts:9-25 | a legal edge, compared and set on the state and revision that the caller read |
| ApprovalRepositories.AuthorizationCoordinator.FindActiveByBinding | src/authorization/coordinator.ts:75-88 | found exactly when the entry names a PENDING request; a dead entry is dropped |
| ApprovalRepositories.AuthorizationCoordinator.RegisterPending | src/authorization/coordinator.ts:90-103 | refused exactly when another request holds the key |
| ApprovalRepositories.AuthorizationCoordinator.BeginDecision | src/authorization/coordinator.ts:105-162 | uninterrupted, succeeds exactly for an unlocked PENDING request with its own unused nonce, and then locks and burns it |
| ApprovalRepositories.AuthorizationCoordinator.CompleteDecision | src/authorization/coordinator.ts:164-171 | releases the lock and removes every index entry of the request, the nonce staying burnt |
| ApprovalRepositories.AuthorizationCoordinator.FailDecision | src/authorization/coordinator.ts:173-177 | releases the lock only |
| ApprovalRepositories.AuthorizationCoordinator.InvalidateNonce | src/authorization/coordinator.ts:186-194 | marks the nonce, releases the lock and removes every index entry of the request |
| ApprovalRepositories.AuthorizationCoordinator.GetReissueReplacementId | src/authorization/coordinator.ts:289-304 | answers only a PENDING replacement; a dead mapping is forgotten |
| ApprovalRepositories.AuthorizationCoordinator.BeginReissue | src/authorization/coordinator.ts:232-260 | PROCEED exactly when there is no live replacement and no claim in flight, and then the claim is held |
| ApprovalRepositories.AuthorizationCoordinator.CompleteReissue | src/authorization/coordinator.ts:262-275 | records the replacement and releases the claim |
| ApprovalRepositories.AuthorizationCoordinator.FailReissue | src/authorization/coordinator.ts:277-287 | releases the claim, whoever holds it |
| ApprovalCalls.SupersedePendingForRun | src/authorization/coordinator.ts:196-230 | exactly the PENDING requests of the run but the excepted one become SUPERSEDED, with their nonces and index entries, each returned once |
| ApprovalCalls.ExpireDueRequests | src/authorization/expiry.ts:26-80 | exactly the due PENDING requests expire, with their nonces and the waiting runs, in whatever order the sweep meets them |
| ApprovalCalls.AuthorizationService.Commit | src/authorization/service.ts:354-435 | record, status, run and completion together, or nothing |
| ApprovalCalls.AuthorizationService.Decide | src/authorization/service.ts:183-440 | uninterrupted, the method is its protocol thread run to the end, and it decides exactly when it writes a record |
| ApprovalSafety.HoldsStable | src/authorization/service.ts:281-294 | what a call has read stays true of the stores whatever another call does while it awaits |
| ApprovalSafety.DecidedOnce | src/authorization/approval-request-repository.ts:144-157 | a decision whose record and status are both accepted found the request PENDING |
| ApprovalSafety.DecisionWrite | src/authorization/service.ts:332-397 | committing a decision on a matched nonce keeps the invariant of the stores |
| ApprovalSafety.StatusWrite | src/authorization/approval-request-repository.ts:131-185 | expiring, cancelling or superseding keeps the invariant and fixes the status for good |
| ApprovalSafety.SaveWrite | src/authorization/approval-request-repository.ts:62-75 | saving a request whose parent is retired keeps the invariant, lineage included |
| ApprovalSafety.Listed | src/authorization/approval-request-repository.ts:107-112 | the listing of a run holds all its requests and nothing else |
| ApprovalSafety.DecideSafe | src/authorization/service.ts:183-440 | every step of `decide`, from out-of-date reads, keeps the invariant |
| ApprovalSafety.ExpireSafe | src/authorization/expiry.ts:45-66 | every step of an expiry keeps the invariant |
| ApprovalSafety.FindSafe | src/authorization/service.ts:945-966 | every step of the search for a live replacement keeps the invariant |
| ApprovalSafety.ClaimSafe | src/authorization/service.ts:846-893 | eligibility and the claim keep the invariant; a claimant's request can still be retired or is already |
| ApprovalSafety.HeldSafe | src/authorization/service.ts:556-652 | every step between claim and release keeps the invariant, and a replacement is drafted only for a retired request |
| ApprovalSafety.RouteSafe | src/authorization/routing.ts:120-319 | every step of routing keeps the invariant, and the parent it names is a retired request of the same plan |
| ApprovalSafety.SupersedeSafe | src/authorization/coordinator.ts:196-230 | every step of the supersession loop and the save that follows keep the invariant |
| ApprovalSafety.DeliverSafe | src/authorization/service.ts:1087-1228 | every step after the save of a new request keeps the invariant |
| ApprovalSafety.ConsumeSafe | src/authorization/outbox-consumer.ts:74-176 | every step of a delivery, repeated deliveries included, keeps the invariant |
| ApprovalSafety.NextSafe | src/authorization/service.ts:183-1228 | any step of any call only extends the history and keeps the invariant |
| ApprovalTheorems.RunSafe | src/authorization/service.ts:183-1228 | the invariant holds after every run, however the calls interleave |
| ApprovalTheorems.PrefixEvolves | src/authorization/approval-request-repository.ts:144-164 | over any run bindings never change, terminal statuses are final, records stay, nonces stay burnt |
| ApprovalTheorems.BeginsAtMostOnce | src/authorization/coordinator.ts:105-162 | in any run at most one `beginDecision` succeeds for a request |
| ApprovalTheorems.NeverAfterInvalidation | src/authorization/coordinator.ts:139-194 | no `beginDecision` succeeds after `invalidateNonce` for the request |
| ApprovalTheorems.RecordsAreOwn | src/authorization/service.ts:252-353 | each request has at most one record; it carries the request's own nonce hash and binding, was preceded by a successful `beginDecision`, and was decided and written before expiry |
| ApprovalTheorems.DecidedExactlyByRecord | src/authorization/service.ts:354-435 | a request is APPROVED (REJECTED, MODIFICATION_REQUESTED) exactly when it has the record of that decision on an equal binding |
| ApprovalTheorems.LineageForest | src/authorization/service.ts:1060-1085 | along any parent chain requests follow the run's order, keep the plan identity, and only the last may be PENDING or decided |
| ApprovalTheorems.ParentStaysRetired | src/authorization/routing.ts:301-348 | from its child's creation on a parent is CANCELLED or SUPERSEDED for good |
| ApprovalTheorems.AuditorTrustsProtocol | src/authorization/historical-authority.ts:55-134 | on a history the protocol wrote, four of the auditor's seven ambiguities are unreachable |
| ApprovalTheorems.ApprovedRunHasAuthority | src/authorization/historical-authority.ts:163-163 | a run standing APPROVED is never reported as having no authority |
| ApprovalTheorems.SplitDecisionStrandsRecord | src/authorization/service.ts:354-397 | without the transaction, an expiry between record and status leaves a record deciding an EXPIRED request |
| ApprovalReissue.StepClaims | src/authorization/coordinator.ts:232-287 | a step takes a claim only when it is free and drops only its own |
| ApprovalReissue.StepPending | src/authorization/approval-request-repository.ts:62-185 | a request becomes PENDING only by the save at the end of a creation |
| ApprovalReissue.NothingReplaces | src/authorization/service.ts:958-965 | an empty search of the run means that nothing anywhere replaces the request |
| ApprovalReissue.RunExclusive | src/authorization/service.ts:556-652 | claims have one holder, and between the re-check and the save no other replacement appears |
| ApprovalReissue.AtMostOneReplacement | src/authorization/service.ts:522-652 | for any interleaving of recoveries and reissues, a replaced request has at most one PENDING replacement |
| ApprovalReissue.PoisedBreaksExclusion | src/authorization/service.ts:627-651 | wherever three calls stand like that, a throwing audit append drops another call's claim and two replacements become PENDING |
| ApprovalReissueRuns.AuditThrowBreaksExclusion | src/authorization/service.ts:627-651 | from empty stores, a schedule without overlapping routing in which a throwing audit append leads to two PENDING replacements |
| ApprovalReissueRuns.RoutersBreakExclusion | src/authorization/routing.ts:291-319 | from empty stores, a schedule without a throwing audit append in which two routing calls replace one failed request |
| ApprovalSerial.StatusCloses | src/authorization/expiry.ts:52-57 | a status write leaves at most its own request's index entries dangling |
| ApprovalSerial.InvalidateCloses | src/authorization/coordinator.ts:186-194 | `invalidateNonce` removes those entries |
| ApprovalSerial.SaveLive | src/authorization/service.ts:1053-1085 | after superseding, a save makes the new request the only PENDING one of its run |
| ApprovalSerial.RegisterLive | src/authorization/coordinator.ts:90-103 | registering a PENDING request under its own key keeps the index faithful |
| ApprovalSerial.NextAlone | src/authorization/service.ts:183-1228 | every step of the one call in flight keeps one PENDING request per run and the index faithful |
| ApprovalSerial.SerialRuns | src/authorization/coordinator.ts:75-230 | when calls do not overlap, a run has at most one PENDING request at any moment and between calls every index entry names a PENDING request under its own key |
| HistoricalAuthority.HasForeign | src/authorization/historical-authority.ts:55-73 | true exactly when a record, request or plan belongs to another run |
| HistoricalAuthority.CollectPairs | src/authorization/historical-authority.ts:86-101 | pairs each APPROVE record with its one APPROVED request, or returns early exactly when one has none |
| HistoricalAuthority.AllRequestsPaired | src/authorization/historical-authority.ts:102-114 | true exactly when each APPROVED request has one record, an APPROVE |
| HistoricalAuthority.CheckPairs | src/authorization/historical-authority.ts:116-161 | the objection to the first pair that has one |
| HistoricalAuthority.Assess | src/authorization/historical-authority.ts:46-169 | the loops with their early returns compute the verdict |
| HistoricalAuthority.RecordPairedExactly | src/authorization/historical-authority.ts:89-92 | the pairing test says: exactly one request by that identifier, and it is APPROVED |
| HistoricalAuthority.RequestPairedExactly | src/authorization/historical-authority.ts:104-107 | the converse test says: exactly one record for the request, and it is an APPROVE |
| HistoricalAuthority.NoObjectionExactly | src/authorization/historical-authority.ts:121-160 | a pair passes exactly when bindings are equal and one plan matches, which is SUPERSEDED |
| HistoricalAuthority.NoneExactly | src/authorization/historical-authority.ts:163-163 | NONE exactly when nothing is foreign, no record is APPROVE and no request is APPROVED |
| HistoricalAuthority.HistoricalExactly | src/authorization/historical-authority.ts:46-168 | HISTORICAL_SUPERSEDED_APPROVE_ONLY exactly when the last record is no APPROVE and the non-empty APPROVE records are in bijection with the APPROVED requests, each on a unique matching SUPERSEDED plan |
| HistoricalAuthority.HistoricalNamesAll | src/authorization/historical-authority.ts:164-168 | that answer names every APPROVE record and every APPROVED request |
| CausalGraph.Adjacency | src/causal/graph-validator.ts:83-89 | the map holds, for known nodes only, exactly the targets of their edges |
| CausalGraph.Search.Dfs | src/causal/graph-validator.ts:92-102 | true only with a cycle; otherwise the two sets are restored and extended by a finishing order |
| CausalGraph.HasDirectedCycle | src/causal/graph-validator.ts:82-107 | terminates, and is true exactly when the edges leaving known nodes contain a directed cycle, unknown targets included |
| CausalGraph.FinishedAcyclic | src/causal/graph-validator.ts:99-106 | a finishing order of all nodes rules out every cycle |
| CausalGraph.NodeReasons | src/causal/graph-validator.ts:18-25 | a duplicate-node reason for exactly the repeated identifiers |
| CausalGraph.EdgeReasons | src/causal/graph-validator.ts:27-40 | unknown-endpoint, self-edge and duplicate-edge reasons for exactly the edges they fit |
| CausalGraph.RoleReasons | src/causal/graph-validator.ts:42-66 | missing-role and unit reasons exactly when they apply |
| CausalGraph.Validate | src/causal/graph-validator.ts:14-80 | throws exactly on a cycle, blocks with exactly the reasons that apply, and a PASS gives a topological order of the nodes |
| CausalSynthesis.DetectContradictions | src/causal/synthesis.ts:57-104 | the nested loops report each pair's conflict once, in order |
| CausalSynthesis.Synthesize | src/causal/synthesis.ts:110-247 | guard loop, status, lists and pooled mean as specified, INCOMPARABLE_EFFECTS included |
| CausalSynthesis.ContradictoryExactly | src/causal/synthesis.ts:75-89 | for every threshold, CONTRADICTORY exactly when the largest and the smallest estimate are both material and of opposite sign |
| CausalSynthesis.ConsistentExactly | src/causal/synthesis.ts:90-104 | for every threshold, CONSISTENT exactly when not CONTRADICTORY and the spread is within the bound |
| CausalSynthesis.PooledInRange | src/causal/synthesis.ts:202-217 | the pooled mean lies between the extremes and within the bound of every estimate |
| CausalSynthesis.IdsPartition | src/causal/synthesis.ts:181-200 | supporting and contradicting lists partition the identifiers, without repetition |
| CausalSynthesis.ContradictingExactly | src/causal/synthesis.ts:193-200 | when CONTRADICTORY, the contradicting estimates are exactly the non-zero ones of material size |
| CausalLifecycle.MovedTrace | src/causal/causal-state.ts:55-98 | a question anywhere in the chain came through all of the chain before it |
| CausalLifecycle.IdentifyValid | src/causal/service.ts:331-421 | `identify` leads to ESTIMATING only with an IDENTIFIED analysis |
| CausalLifecycle.SynthesisValid | src/causal/service.ts:525-553 | in VALIDATING the stored synthesis is that of the stored estimates, which are some |
| CausalLifecycle.ClaimValid | src/causal/service.ts:555-683 | in review the stored claim is the classification of that synthesis |
| CausalLifecycle.PromoteValid | src/causal/service.ts:885-961 | a promoted claim is founded on them and the guard does not fire |
| CausalLifecycle.StepValid | src/causal/service.ts:254-962 | every call, errors and outside moves included, keeps the above |
| CausalLifecycle.GuardNeverFires | src/causal/promotion.ts:111-126 | in no run does the promotion guard throw |
| CausalLifecycle.PromotedRestsOnSynthesis | src/causal/service.ts:885-961 | a promoted directional claim rests on a CONSISTENT synthesis of a non-empty estimate list, its effect is one of them, and its trace ends with the whole chain |
| CausalLifecycle.PromotedEffectUnopposed | src/causal/claim.ts:121-154 | with a positive threshold t, a promoted POSITIVE_EFFECT has no synthesised estimate at or below -t, and a NEGATIVE_EFFECT none at or above t |
| CausalService.Service.Transition | src/causal/memory-repositories.ts:78-122 | only edges of the table, leaving a trace |
| CausalService.Service.Propose | src/causal/service.ts:254-312 | in-place writes equal to the lifecycle step, a graph that is already proposed being returned |
| CausalService.Service.IdentifyEffect | src/causal/service.ts:331-421 | in-place writes equal to the lifecycle step |
| CausalService.Service.Estimate | src/causal/service.ts:423-523 | in-place writes equal to the lifecycle step |
| CausalService.Service.SynthesizeEvidence | src/causal/service.ts:525-553 | in-place writes equal to the lifecycle step |
| CausalService.Service.Validate | src/causal/service.ts:555-683 | in-place writes equal to the lifecycle step |
| CausalService.Service.RouteClaim | src/causal/service.ts:685-785 | in-place writes equal to the lifecycle step |
| CausalService.Service.Decide | src/causal/service.ts:787-962 | in-place writes equal to the lifecycle step, the request staying decided when a later check throws |
| CausalLedger.UsageLedger.Save | src/causal/memory-repositories.ts:467-487 | compare-and-set with a revision, overwrite without one |
| CausalLedger.UsageLedger.Ensure | src/causal/memory-repositories.ts:489-495 | creates an empty row only where there is none |
| CausalLedger.UsageLedger.Reserve | src/causal/budget-ledger.ts:19-66 | uninterrupted, the two halves of a reservation, and no other row moves |
| CausalLedger.StoredWithinBudget | src/causal/budget-ledger.ts:43-60 | in every interleaving the stored counters stay within the budget |
| CausalLedger.GrantsAccounted | src/causal/memory-repositories.ts:472-486 | in every interleaving grants equal the stored counters plus what blind first saves threw away |
| CausalLedger.GrantsWithinBudget | src/causal/memory-repositories.ts:489-495 | with the row ensured before any reader, the grants are the stored counters and together stay within the budget |
| CausalLedger.FirstInsertsOverwrite | src/causal/budget-ledger.ts:61-65 | without that, two first reservations are granted and only one is counted |
| Admission.MoverMirrored | src/admission/service.ts:235-455 | the flags of an admission always say exactly which key and run it has in the stores, and cover every lock that it has |
| Admission.OthersMirrored | src/admission/service.ts:235-455 | no step of one admission touches what another holds |
| Admission.StepOneRun | src/infrastructure/admission/in-memory-run-repository.ts:20-43 | a key never has two runs |
| Admission.QuietIsClean | src/admission/service.ts:434-578 | once no admission is in progress no lock and no RESERVED key is left, and a key is bound exactly to its one ADMITTED run |
| Admission.LockExcludesExactly | src/infrastructure/admission/in-memory-project-lock.ts:39-72 | a project has one lock holder throughout a run exactly when no lock is set over another |
| Admission.OverlappingAcquires | src/infrastructure/admission/in-memory-project-lock.ts:39-72 | two admissions that look before either sets both go on with the lock |
| Admission.AdmittedAtMostOnce | src/admission/service.ts:363-433 | in any run at most one admission of a key returns ADMITTED |
| Admission.CompensatedKeyNeverAdmitted | src/infrastructure/admission/in-memory-run-repository.ts:23-28 | a key whose run was created and compensated is never admitted again |
| AdmissionService.IdempotencyStore.Reserve | src/infrastructure/admission/in-memory-idempotency-store.ts:21-57 | reserves only a free key |
| AdmissionService.IdempotencyStore.Complete | src/infrastructure/admission/in-memory-idempotency-store.ts:59-70 | binds only a RESERVED key |
| AdmissionService.IdempotencyStore.Release | src/infrastructure/admission/in-memory-idempotency-store.ts:84-93 | drops only a RESERVED key |
| AdmissionService.ProjectLockService.Acquire | src/infrastructure/admission/in-memory-project-lock.ts:39-72 | refused exactly when another run holds the project |
| AdmissionService.ProjectLockService.Release | src/infrastructure/admission/in-memory-project-lock.ts:74-87 | frees only the caller's own lock |
| AdmissionService.RunRepository.Create | src/infrastructure/admission/in-memory-run-repository.ts:14-43 | refused exactly for a used run identifier or a used key |
| AdmissionService.Service.Attempt | src/admission/service.ts:242-433 | the flags at every exit of the try block, and the stores they stand for |
| AdmissionService.Service.Compensate | src/admission/service.ts:531-578 | undoes run, lock and key as the flags say, and nothing of a bound admission |
| AdmissionService.Service.Admit | src/admission/service.ts:160-455 | ADMITTED exactly when nothing throws and key and project are free; otherwise locks and keys end as they began and no new run is alive, unless the key was already bound |
| Assurance.EvaluateControl | src/assurance/evaluation.ts:37-119 | the branches compute a decision table over the admissible relevant evidence |
| Assurance.ResultByAdmissibleRelevant | src/assurance/evaluation.ts:44-60 | the result depends only on which admissible evidence is relevant, not on order or repetition |
| Assurance.FinalizeAssessment | src/assurance/assessment.ts:59-151 | the loop computes outcome and findings |
| Assurance.FindingsExactly | src/assurance/assessment.ts:78-123 | a finding for exactly the required controls that do not PASS, with its code and severity |
| Assurance.FindingsOnce | src/assurance/assessment.ts:78-123 | no control has two findings |
| Assurance.FailIsFinal | src/assurance/evaluation.ts:71-81 | once an admissible FAIL counts for a required control, no larger evidence leads to QUALIFIED |
| AssuranceRuns.SameFingerprint | src/assurance/evidence.ts:174-186 | immutable evidence keeps its fingerprint exactly while nothing is added |
| AssuranceRuns.MoverHolds | src/assurance/service.ts:265-417 | while it alone collects, an evaluation reads back results of exactly the evidence it listed |
| AssuranceRuns.CertifiedEvidencePasses | src/assurance/service.ts:419-476 | while no two evaluations collect at once, for every certificate, evaluating again on the evidence stored when it was decided gives PASS for every required control without a rule |
| AssuranceRuns.PlannedIsDisciplined | src/assurance/service.ts:271-287 | when every evaluation enters from PLANNED, the compare-and-set to EVALUATING lets one through, so no two collect at once |
| AssuranceRuns.PlannedEvidencePasses | src/assurance/service.ts:271-287 | when every evaluation enters from PLANNED, certified evidence passes |
| AssuranceRuns.OverlapCertifiesFailure | src/assurance/service.ts:271-287 | an evaluation entering while another collects can lead to a certificate on failing evidence |
| AssuranceRepositories.EvidenceRepository.Save | src/assurance/memory-repositories.ts:146-162 | evidence is immutable per identifier |
| AssuranceRepositories.RunRepository.Transition | src/assurance/memory-repositories.ts:89-122 | compare-and-set on status and revision |
| AssuranceRepositories.CertificateRepository.Save | src/assurance/memory-repositories.ts:250-292 | the three indexes agree, and a material and a run each have at most one certificate |
| Constitutional.ProjectMandatesAfterOperations | src/constitutional/mutation-plan.ts:78-213 | the loop computes the projection |
| Constitutional.AuthorizedMutations | src/constitutional/protected-mutations.ts:44-83 | the loop collects exactly the methods that some operation authorises |
| Constitutional.CountViableRoleHolders | src/constitutional/continuity.ts:30-42 | the number of distinct principals with a viable grant |
| Constitutional.ProjectInstitution | src/constitutional/mutation-plan.ts:263-277 | the last administration scope wins |
| Constitutional.AssertContinuity | src/constitutional/continuity.ts:44-115 | passes exactly when the projected state leaves no governance lockout |
| ConstitutionalPlans.PutAllShape | src/governance/memory-repositories.ts:130-137 | setting mandates one after the other loses none exactly when no two share a name |
| ConstitutionalPlans.PutAllAlike | src/governance/memory-repositories.ts:130-137 | lists in which the same pairs share a name end with the same versions and terms |
| ConstitutionalPlans.ProjectionEnds | src/constitutional/mutation-plan.ts:78-213 | the projection ends with the stored mandates and the fold of those that it shows |
| ConstitutionalPlans.Installs | src/governance/service.ts:940-1065 | creating and activating is one setting under the minted name, refused exactly with one of the two methods |
| ConstitutionalPlans.Swaps | src/governance/service.ts:1067-1111 | a new version goes in and the old one is superseded, refused exactly with one of the three methods |
| ConstitutionalPlans.ApplicationEnds | src/constitutional/apply-mutations.ts:37-190 | the application ends with the marked stored mandates and the fold of those that it makes, and goes through exactly when nothing refuses it |
| ConstitutionalPlans.SharedExactly | src/governance/mandate.ts:95-103 | made-up names are shared exactly by CREATE operations of one version, minted ones exactly by operations on one institution at one reading |
| ConstitutionalTheorems.PatchedIsRecreated | src/constitutional/apply-mutations.ts:206-263 | a change says the same in the projection and in the application |
| ConstitutionalTheorems.PassesExactly | src/constitutional/apply-mutations.ts:13-190 | a plan goes through exactly when no method it needs is refused, its institutions exist and its units exist or are created before |
| ConstitutionalTheorems.NothingLostExactly | src/governance/mandate.ts:95-103 | the projection misses a mandate exactly when a created version repeats, and the application loses one exactly when two operations on one institution read one time |
| ConstitutionalTheorems.ProjectionTrueExactly | src/constitutional/mutation-plan.ts:78-213 | projected and applied mandates agree, as lists and as multisets of versions and terms, whenever the same operations collide on both sides, and when no two collide on one side exactly when none do on the other |
| ConstitutionalTheorems.LimitsTrueExactly | src/constitutional/apply-mutations.ts:206-281 | risk scope, resource scope, maximum duration and effective dates agree exactly when, besides, no changed mandate had limits and every open date was filled in at one reading |
| ConstitutionalTheorems.CallsAreAuthorized | src/constitutional/apply-mutations.ts:13-190 | applying the operations calls no method that is not authorised and, when it goes through, every one that is |
| ConstitutionalTheorems.ContinuityIsTrue | src/constitutional/continuity.ts:57-87 | when the same operations collide on both sides, the check answers for the state that the operations really lead to |
| ConstitutionalTheorems.ContinuityIsSafe | src/constitutional/continuity.ts:57-87 | colliding clock readings never let a lockout through: with no repeated version, where the check passes there is none |
| ConstitutionalTheorems.SameReadingLosesOne | src/governance/mandate.ts:95-103 | two mandates created at one reading: the projection shows both, the second has replaced the first |
| ConstitutionalTheorems.SameReadingRefuses | src/constitutional/continuity.ts:90-115 | the check then reports a lockout that does not come |
| ConstitutionalTheorems.RepeatedVersionPasses | src/constitutional/mutation-plan.ts:131-168 | one version created twice: the check passes although there will be a lockout |
| ConstitutionalTheorems.BothCollideAgree | src/constitutional/mutation-plan.ts:131-168 | one version created twice at one reading is shown truly although a mandate is lost on both sides |
| ConstitutionalTheorems.ForeignScopeRefuses | src/constitutional/mutation-plan.ts:263-277 | a scope for another institution is taken for the own one, and the check reports a lockout that does not come |
| ConstitutionalApply.GovernanceService.CreateDraft | src/governance/service.ts:940-1019 | a draft under the name minted from the institution and the clock, over whatever had that name, limits reset, unless refused |
| ConstitutionalApply.GovernanceService.ActivateDraft | src/governance/service.ts:1021-1065 | only a draft or suspended mandate becomes active, unless refused |
| ConstitutionalApply.GovernanceService.SupersedeActive | src/governance/service.ts:1067-1111 | only an active mandate becomes superseded, unless refused |
| ConstitutionalApply.GovernanceService.Apply | src/constitutional/apply-mutations.ts:37-190 | one operation in place; on a throw the writes already made stay, such as the new version when its target is not active |
| ConstitutionalApply.GovernanceService.ApplyPlan | src/constitutional/apply-mutations.ts:13-35 | the operations in order, stopping at the first that throws, with what was written until then |
| JsonTrees.CanonicalizeJsonValue | src/assurance/evidence.ts:75-88 | the recursive method with its loop computes the canonical form |
| JsonTrees.SortStable | src/assurance/evidence.ts:81-81 | keys that the comparison ties keep the order in which they were inserted |
| JsonTrees.CanonicalExactly | src/assurance/evidence.ts:71-88 | equal canonical forms mean that values differ only by key order, at any depth, and conversely for a value without tied keys |
| JsonTrees.OrderIndependentExactly | src/assurance/evidence.ts:71-88 | key order cannot change the canonical form of a value exactly when the comparison ties no keys of any object in it |
| JsonTrees.CanonicalIdempotent | src/assurance/evidence.ts:75-88 | canonicalising twice is canonicalising once |
| JsonTrees.SanitizeNestedValue | src/control-tower/sanitizers.ts:16-28 | the recursive method with its loop computes the sanitised form |
| JsonTrees.SanitizedIsClean | src/control-tower/sanitizers.ts:16-28 | no sensitive key is left at any depth |
| JsonTrees.SanitizedMembers | src/control-tower/sanitizers.ts:22-27 | every other entry is kept, with its value sanitised |
| JsonTrees.CleanIsKept | src/control-tower/sanitizers.ts:16-28 | a clean value is left as it is |
| JsonTrees.SanitizedIdempotent | src/control-tower/sanitizers.ts:16-28 | sanitising twice is sanitising once |
| JsonTrees.SanitizeCommutes | src/control-tower/sanitizers.ts:16-28 | sanitising and canonicalising commute |

## Left out

- AtMostOneReplacement: asks that a routing call that is creating a request in a run is the only one creating there, and that the audit append does not throw; each is needed, as the two runs show; no converse is stated, since a schedule that drops one may still replace once.
- CertifiedEvidencePasses: evidence recorded between the fingerprint comparison and the certificate's save is not covered, since the comparison is where the certificate is decided.
- Recovery, reissue, routing and the outbox consumer are steps on store values only; of the approval services, `decide`, the supersession loop and the expiry sweep are also methods on objects.
- The run repository is shared: other services may move a run at any moment to any state but APPROVED, which only `decide` gives.
- The transaction that ends `decide` is atomic; the other transactions are modelled step by step, without rollback.
- The retry of an outbox message, its inbox record, its fence token and the batch loop of the dispatcher; a delivery may start at any time and any number of times.
- The identifiers that an ambiguous auditor answer carries, and error codes and messages beyond what separates one outcome from another.
- A request's failure reason code, notes, requested approvers and repository commit.
- The SHA-256 and nonce implementations, encryption of delivery secrets, schema parsing, HTTP, logging, observability and the Postgres adapters.
- Admission with a transaction manager: rollback does not reset the flags of the saga.
- Later phases that move an admitted run or complete its key.
- The wait of an ALREADY reissue ends with either answer at any time; that the other claimant ends it is not modelled.
- Variance, standard errors and floating-point rounding in the causal estimator; point estimates are inputs and arithmetic is exact.
- Evidence gaps, generalizability, materiality assessments, calibration candidates and expiry of causal reviews, whose verdict is a parameter.
- The plan compilation and proof validation of assurance, freshness of evidence, validity periods and revocation of certificates.
- The architecture rules: their verdicts are inputs.
- Organizational units in the constitutional projection, which the continuity check computes and discards; in the application only which units exist, not their parents and whether they are retired.
- ContinuityIsTrue: asks that administration scopes name the institution under change, which the projection takes for granted; ForeignScopeRefuses shows the need.
- PassesExactly: asks, as the theorems about plans do, that the operations replace distinct stored active mandates and that no stored mandate was minted at a reading of the plan; a plan whose target is missing or inactive is followed by Apply and ApplyPlan only.
- The projection is given the active mandates of the institution and the application the whole store; in the model both start from one list.
- Made-up mandate names are constructors, so a minted identifier never reads like one.
- The JavaScript rule that integer-like object keys come first: an object is its list of entries in insertion order throughout.
