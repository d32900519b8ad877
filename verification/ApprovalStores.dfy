/**
 * What the in-memory stores of the approval protocol compute, as functions on store values.
 * A result of `None` is a thrown error; it leaves the store as it was.
 */
module ApprovalStores {
  import opened Wrappers
  import opened ApprovalDomain

  datatype RequestStore = RequestStore(byId: map<Id, ApprovalRequest>, orderByRun: map<Id, seq<Id>>) {

    function Order(runId: Id): seq<Id> {
      if runId in orderByRun then orderByRun[runId] else []
    }

    function Get(id: Id): Option<ApprovalRequest> {
      if id in byId then Some(byId[id]) else None
    }

    predicate IsPending(id: Id) {
      id in byId && byId[id].status == Pending
    }

    function Save(r: ApprovalRequest): Option<RequestStore> {
      if r.approvalRequestId in byId then None
      else Some(RequestStore(byId[r.approvalRequestId := r],
                             orderByRun[r.runId := Order(r.runId) + [r.approvalRequestId]]))
    }

    /** `deliveryFailed` is the optional extra that a failed delivery adds. */
    function UpdateStatus(id: Id, status: RequestStatus, deliveryFailed: bool): Option<RequestStore> {
      if id !in byId then None
      else if byId[id].status != Pending && byId[id].status != status then None
      else Some(this.(byId := byId[id := byId[id].(
                        status := status, deliveryFailed := byId[id].deliveryFailed || deliveryFailed)]))
    }

    function ListByRun(runId: Id): seq<ApprovalRequest> {
      Rows(byId, Order(runId))
    }
  }

  /** The rows that a list of identifiers names, in order; unknown identifiers are dropped. */
  function Rows<V>(byId: map<Id, V>, ids: seq<Id>): (r: seq<V>)
    ensures (forall i :: 0 <= i < |ids| ==> ids[i] in byId) ==>
              |r| == |ids| && forall i :: 0 <= i < |ids| ==> r[i] == byId[ids[i]]
    ensures forall x :: x in r ==> exists id :: id in ids && id in byId && byId[id] == x
  {
    if ids == [] then []
    else if ids[0] in byId then [byId[ids[0]]] + Rows(byId, ids[1..])
    else Rows(byId, ids[1..])
  }

  datatype RecordStore = RecordStore(
    byId: map<Id, AuthorizationRecord>, byApproval: map<Id, Id>, orderByRun: map<Id, seq<Id>>) {

    function Order(runId: Id): seq<Id> {
      if runId in orderByRun then orderByRun[runId] else []
    }

    function Append(rec: AuthorizationRecord): Option<RecordStore> {
      if rec.authorizationRecordId in byId || rec.approvalRequestId in byApproval then None
      else Some(RecordStore(
                  byId[rec.authorizationRecordId := rec],
                  byApproval[rec.approvalRequestId := rec.authorizationRecordId],
                  orderByRun[rec.runId := Order(rec.runId) + [rec.authorizationRecordId]]))
    }

    function ListByRun(runId: Id): seq<AuthorizationRecord> {
      Rows(byId, Order(runId))
    }
  }

  datatype Coordinator = Coordinator(
    pendingByBinding: map<BindingKey, Id>, decisionLocks: set<Id>,
    consumedNonces: set<Id>, invalidatedNonces: set<Id>,
    reissueInFlight: set<Id>, reissueReplacementByReplaced: map<Id, Id>) {

    function Unindex(id: Id): map<BindingKey, Id> {
      map k | k in pendingByBinding && pendingByBinding[k] != id :: pendingByBinding[k]
    }

    function RegisterPending(id: Id, key: BindingKey): Option<Coordinator> {
      if key in pendingByBinding && pendingByBinding[key] != id then None
      else Some(this.(pendingByBinding := pendingByBinding[key := id]))
    }

    /** The await-free part of `beginDecision` after the request was read again as `seen`. */
    function BeginDecision(seen: ApprovalRequest, nonce: nat): Option<Coordinator> {
      var id := seen.approvalRequestId;
      if seen.status != Pending || id in invalidatedNonces || id in consumedNonces
         || Sha256(nonce) != seen.decisionNonceHash
      then None
      else Some(this.(decisionLocks := decisionLocks + {id}, consumedNonces := consumedNonces + {id}))
    }

    function CompleteDecision(id: Id): Coordinator {
      this.(decisionLocks := decisionLocks - {id}, pendingByBinding := Unindex(id))
    }

    function FailDecision(id: Id): Coordinator {
      this.(decisionLocks := decisionLocks - {id})
    }

    function InvalidateNonce(id: Id): Coordinator {
      this.(invalidatedNonces := invalidatedNonces + {id},
            decisionLocks := decisionLocks - {id}, pendingByBinding := Unindex(id))
    }

    function Claim(replaced: Id): Coordinator {
      this.(reissueInFlight := reissueInFlight + {replaced})
    }

    function CompleteReissue(replaced: Id, replacement: Id): Coordinator {
      this.(reissueInFlight := reissueInFlight - {replaced},
            reissueReplacementByReplaced := reissueReplacementByReplaced[replaced := replacement])
    }

    function FailReissue(replaced: Id): Coordinator {
      this.(reissueInFlight := reissueInFlight - {replaced})
    }

    function ForgetReplacement(replaced: Id): Coordinator {
      this.(reissueReplacementByReplaced := reissueReplacementByReplaced - {replaced})
    }
  }

  datatype Stores = Stores(
    requests: RequestStore, records: RecordStore, coord: Coordinator, runs: map<Id, RunRecord>) {

    function SetStatus(id: Id, status: RequestStatus, deliveryFailed: bool): Option<Stores> {
      var r := requests.UpdateStatus(id, status, deliveryFailed);
      if r.None? then None else Some(this.(requests := r.value))
    }

    predicate Awaiting(runId: Id) {
      runId in runs && runs[runId].state == AwaitingApproval
    }

    /** `commitRunTransition`: legal edge, then compare-and-set on state and revision. */
    function Transition(runId: Id, seen: RunRecord, next: RunState): Option<Stores> {
      if RunEdge(seen.state, next) && runId in runs && runs[runId] == seen
      then Some(this.(runs := runs[runId := RunRecord(next, seen.recordRevision + 1)]))
      else None
    }

    /** The transaction at the end of `decide`: all four writes, or none. */
    function CommitDecision(rec: AuthorizationRecord, seen: RunRecord): Option<Stores> {
      var appended := records.Append(rec);
      var updated := requests.UpdateStatus(rec.approvalRequestId, StatusFor(rec.decision), false);
      var moved := Transition(rec.runId, seen, RunStateFor(rec.decision));
      if appended.None? || updated.None? || moved.None? then None
      else Some(Stores(updated.value, appended.value,
                       coord.CompleteDecision(rec.approvalRequestId), moved.value.runs))
    }
  }
}
