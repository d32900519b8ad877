/**
 * Values of the approval protocol: requests, records and run states.
 *
 * Identifiers and timestamps are numbers. A digest is a constructor applied to what was
 * hashed, so hashes are injective by construction.
 */
module ApprovalDomain {
  import opened Wrappers

  type Id = nat
  type Time = int

  datatype NonceHash = Sha256(nonce: nat)

  datatype RequestStatus =
    | Pending | Approved | Rejected | ModificationRequested | Expired | Cancelled | Superseded

  /** What a record copies from the request that it decides. */
  datatype PlanBinding = PlanBinding(
    projectId: Id,
    objectiveId: Id, objectiveVersion: nat,
    planId: Id, planVersion: nat, planHash: Id,
    repositoryFingerprint: Id, policyBundleHash: Id,
    validationDecisionId: Id, decisionCardHash: Id, capabilitySetFingerprint: Id)

  datatype ApprovalRequest = ApprovalRequest(
    approvalRequestId: Id, runId: Id, binding: PlanBinding,
    createdAt: Time, expiresAt: Time, decisionNonceHash: NonceHash,
    parent: Option<Id>, status: RequestStatus, deliveryFailed: bool)

  datatype Decision = Approve | Reject | RequestModification

  datatype AuthorizationRecord = AuthorizationRecord(
    authorizationRecordId: Id, approvalRequestId: Id, runId: Id, binding: PlanBinding,
    approverId: Id, decision: Decision, decisionTimestamp: Time, nonceHash: NonceHash, createdAt: Time)

  datatype BindingKey = BindingKey(
    runId: Id, planId: Id, planVersion: nat, planHash: Id, validationDecisionId: Id, decisionCardHash: Id)

  function KeyOf(runId: Id, b: PlanBinding): BindingKey {
    BindingKey(runId, b.planId, b.planVersion, b.planHash, b.validationDecisionId, b.decisionCardHash)
  }

  /** The fields that no status update may touch. */
  predicate SameBinding(a: ApprovalRequest, b: ApprovalRequest) {
    && a.approvalRequestId == b.approvalRequestId && a.runId == b.runId && a.binding == b.binding
    && a.createdAt == b.createdAt && a.expiresAt == b.expiresAt
    && a.decisionNonceHash == b.decisionNonceHash && a.parent == b.parent
  }

  predicate SamePlan(a: PlanBinding, b: PlanBinding) {
    && a.planId == b.planId && a.planVersion == b.planVersion && a.planHash == b.planHash
    && a.validationDecisionId == b.validationDecisionId
  }

  predicate IsExpired(expiresAt: Time, now: Time) {
    now >= expiresAt
  }

  function StatusFor(d: Decision): RequestStatus {
    match d
    case Approve => Approved
    case Reject => Rejected
    case RequestModification => ModificationRequested
  }

  datatype RunState =
    | Received | Admitted | Ingesting | Planning | Validating | AwaitingApproval | RunApproved | Executing | Verifying
    | Completed | AdmissionRejected | Blocked | Revising | Escalated | RunRejected | RunExpired | RunSuperseded | RunFailed
    | Contained | RollbackRequired | RunCancelled

  function RunStateFor(d: Decision): RunState {
    match d
    case Approve => RunApproved
    case Reject => RunRejected
    case RequestModification => Escalated
  }

  datatype RunRecord = RunRecord(state: RunState, recordRevision: nat)

  /** The run graph; a state without a case is terminal. */
  predicate RunEdge(from: RunState, to: RunState) {
    match from
    case Received => to in {Admitted, AdmissionRejected, RunExpired, RunCancelled}
    case Admitted => to in {Ingesting, Blocked, RunExpired, RunCancelled, RunSuperseded}
    case Ingesting => to in {Planning, Blocked, RunFailed, RunExpired, RunCancelled, RunSuperseded}
    case Planning => to in {Validating, Blocked, RunFailed, RunExpired, RunCancelled, RunSuperseded}
    case Validating => to in {AwaitingApproval, Blocked, Revising, RunRejected, RunFailed, RunExpired, RunCancelled}
    case AwaitingApproval => to in {RunApproved, RunRejected, Revising, Escalated, RunExpired, RunCancelled, RunSuperseded}
    case RunApproved => to in {Executing, RunCancelled, RunExpired, RunSuperseded, Blocked}
    case Executing => to in {Verifying, RunFailed, Blocked, Contained, RollbackRequired, RunCancelled, Escalated}
    case Verifying => to in {Completed, RunFailed, RollbackRequired, Contained, Escalated, Blocked}
    case Blocked => to in {Revising, Escalated, RunRejected, RunCancelled, RunExpired, RunSuperseded}
    case Revising => to in {Planning, Validating, Blocked, RunRejected, RunCancelled, RunExpired, RunSuperseded}
    case Escalated => to in {AwaitingApproval, Revising, RunRejected, RunCancelled, RunExpired, RunSuperseded, Contained}
    case RunFailed => to in {RollbackRequired, Contained}
    case RollbackRequired => to in {RunFailed, Contained, RunCancelled, Escalated}
    case _ => false
  }
}
