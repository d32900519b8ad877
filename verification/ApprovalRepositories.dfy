/**
 * The in-memory stores of the approval protocol as objects updated in place.
 *
 * Each method is proved against the store values of `ApprovalStores`, which the protocol uses.
 */
module ApprovalRepositories {
  import opened Wrappers
  import opened ApprovalDomain
  import opened ApprovalStores

  datatype StoreError = AlreadyExists | NotFound | Immutable | AlreadyDecided | AlreadyPending | Conflict
  datatype Result<+T> = Ok(value: T) | Err(error: StoreError)

  class RequestRepository {
    var byId: map<Id, ApprovalRequest>
    var orderByRun: map<Id, seq<Id>>

    ghost function Value(): RequestStore
      reads this
    {
      RequestStore(byId, orderByRun)
    }

    constructor ()
      ensures Value() == RequestStore(map[], map[])
    {
      byId, orderByRun := map[], map[];
    }

    method Save(r: ApprovalRequest) returns (result: Result<ApprovalRequest>)
      modifies this
      ensures result.Ok? <==> old(Value()).Save(r).Some?
      ensures result.Ok? ==> Value() == old(Value()).Save(r).value && result.value == r
      ensures result.Err? ==> Value() == old(Value()) && result.error == AlreadyExists
    {
      if r.approvalRequestId in byId { return Err(AlreadyExists); }
      byId := byId[r.approvalRequestId := r];
      var order := if r.runId in orderByRun then orderByRun[r.runId] else [];
      orderByRun := orderByRun[r.runId := order + [r.approvalRequestId]];
      return Ok(r);
    }

    method UpdateStatus(id: Id, status: RequestStatus, deliveryFailed: bool) returns (result: Result<ApprovalRequest>)
      modifies this
      ensures result.Ok? <==> old(Value()).UpdateStatus(id, status, deliveryFailed).Some?
      ensures result.Ok? ==> Value() == old(Value()).UpdateStatus(id, status, deliveryFailed).value
                             && id in byId && result.value == byId[id] && SameBinding(old(byId[id]), byId[id])
      ensures result.Err? ==> Value() == old(Value()) && result.error == (if id in byId then Immutable else NotFound)
    {
      if id !in byId { return Err(NotFound); }
      var existing := byId[id];
      if existing.status != Pending && (status == Pending || status != existing.status) { return Err(Immutable); }
      var next := existing.(status := status, deliveryFailed := existing.deliveryFailed || deliveryFailed);
      if !SameBinding(existing, next) { return Err(Immutable); }
      byId := byId[id := next];
      return Ok(next);
    }

    method ListByRun(runId: Id) returns (list: seq<ApprovalRequest>)
      ensures list == Value().ListByRun(runId)
    {
      var order := if runId in orderByRun then orderByRun[runId] else [];
      list := CollectRows(byId, order);
    }
  }

  /** The map-then-filter of both listings. */
  method CollectRows<V>(byId: map<Id, V>, order: seq<Id>) returns (list: seq<V>)
    ensures list == Rows(byId, order)
  {
    list := [];
    for i := 0 to |order|
      invariant list + Rows(byId, order[i..]) == Rows(byId, order)
    {
      assert order[i..] == [order[i]] + order[i + 1..];
      if order[i] in byId { list := list + [byId[order[i]]]; }
    }
  }

  class RecordRepository {
    var byId: map<Id, AuthorizationRecord>
    var byApproval: map<Id, Id>
    var orderByRun: map<Id, seq<Id>>

    ghost function Value(): RecordStore
      reads this
    {
      RecordStore(byId, byApproval, orderByRun)
    }

    constructor ()
      ensures Value() == RecordStore(map[], map[], map[])
    {
      byId, byApproval, orderByRun := map[], map[], map[];
    }

    method Append(rec: AuthorizationRecord) returns (result: Result<AuthorizationRecord>)
      modifies this
      ensures result.Ok? <==> old(Value()).Append(rec).Some?
      ensures result.Ok? ==> Value() == old(Value()).Append(rec).value && result.value == rec
      ensures result.Err? ==> Value() == old(Value())
    {
      if rec.authorizationRecordId in byId { return Err(AlreadyExists); }
      if rec.approvalRequestId in byApproval { return Err(AlreadyDecided); }
      byId := byId[rec.authorizationRecordId := rec];
      byApproval := byApproval[rec.approvalRequestId := rec.authorizationRecordId];
      var order := if rec.runId in orderByRun then orderByRun[rec.runId] else [];
      orderByRun := orderByRun[rec.runId := order + [rec.authorizationRecordId]];
      return Ok(rec);
    }

    method ListByRun(runId: Id) returns (list: seq<AuthorizationRecord>)
      ensures list == Value().ListByRun(runId)
    {
      var order := if runId in orderByRun then orderByRun[runId] else [];
      list := CollectRows(byId, order);
    }
  }

  class RunRepository {
    var byId: map<Id, RunRecord>

    constructor ()
      ensures byId == map[]
    {
      byId := map[];
    }

    /** Compare-and-set on the state and revision that the caller read. */
    method Transition(runId: Id, seen: RunRecord, next: RunState) returns (result: Result<RunRecord>)
      modifies this
      ensures result.Ok? <==> RunEdge(seen.state, next) && runId in old(byId) && old(byId)[runId] == seen
      ensures result.Ok? ==> result.value == RunRecord(next, seen.recordRevision + 1)
                             && byId == old(byId)[runId := result.value]
      ensures result.Err? ==> byId == old(byId)
    {
      if !RunEdge(seen.state, next) { return Err(Conflict); }
      if runId !in byId { return Err(NotFound); }
      if byId[runId] != seen { return Err(Conflict); }
      var moved := RunRecord(next, seen.recordRevision + 1);
      byId := byId[runId := moved];
      return Ok(moved);
    }
  }

  class AuthorizationCoordinator {
    const requests: RequestRepository
    var pendingByBinding: map<BindingKey, Id>
    var decisionLocks: set<Id>
    var consumedNonces: set<Id>
    var invalidatedNonces: set<Id>
    var reissueInFlight: set<Id>
    var reissueReplacementByReplaced: map<Id, Id>

    ghost function Value(): Coordinator
      reads this
    {
      Coordinator(pendingByBinding, decisionLocks, consumedNonces, invalidatedNonces, reissueInFlight,
                  reissueReplacementByReplaced)
    }

    constructor (requests: RequestRepository)
      ensures this.requests == requests && Value() == Coordinator(map[], {}, {}, {}, {}, map[])
    {
      this.requests := requests;
      pendingByBinding, decisionLocks, consumedNonces, invalidatedNonces := map[], {}, {}, {};
      reissueInFlight, reissueReplacementByReplaced := {}, map[];
    }

    /** Also drops an entry whose request is gone or no longer PENDING. */
    method FindActiveByBinding(key: BindingKey) returns (found: Option<ApprovalRequest>)
      modifies this
      ensures found.Some? <==> key in old(pendingByBinding) && requests.Value().IsPending(old(pendingByBinding)[key])
      ensures found.Some? ==> found.value == requests.byId[old(pendingByBinding)[key]] && Value() == old(Value())
      ensures found.None? ==> Value() == old(Value()).(pendingByBinding := old(pendingByBinding) - {key})
    {
      if key !in pendingByBinding {
        assert pendingByBinding - {key} == pendingByBinding;
        return None;
      }
      var id := pendingByBinding[key];
      if id !in requests.byId || requests.byId[id].status != Pending {
        pendingByBinding := pendingByBinding - {key};
        return None;
      }
      return Some(requests.byId[id]);
    }

    method RegisterPending(id: Id, key: BindingKey) returns (result: Result<()>)
      modifies this
      ensures result.Ok? <==> old(Value()).RegisterPending(id, key).Some?
      ensures Value() == if result.Ok? then old(Value()).RegisterPending(id, key).value else old(Value())
    {
      if key in pendingByBinding && pendingByBinding[key] != id { return Err(AlreadyPending); }
      pendingByBinding := pendingByBinding[key := id];
      return Ok(());
    }

    /** Uninterrupted: the lock test, the read of the request and the nonce tests. */
    method BeginDecision(id: Id, nonce: nat) returns (ok: bool)
      modifies this
      ensures ok <==> id !in old(decisionLocks) && id in requests.byId && requests.byId[id].status == Pending
                      && id !in old(invalidatedNonces) && id !in old(consumedNonces)
                      && Sha256(nonce) == requests.byId[id].decisionNonceHash
      ensures Value() == if ok then old(Value()).(decisionLocks := old(decisionLocks) + {id},
                                                 consumedNonces := old(consumedNonces) + {id})
                         else old(Value())
    {
      if id in decisionLocks || id !in requests.byId { return false; }
      var request := requests.byId[id];
      if request.status != Pending { return false; }
      if id in invalidatedNonces || id in consumedNonces { return false; }
      if Sha256(nonce) != request.decisionNonceHash { return false; }
      decisionLocks := decisionLocks + {id};
      consumedNonces := consumedNonces + {id};
      return true;
    }

    /** The scan over the entries that deletes those naming `id`. */
    method DropEntriesOf(id: Id)
      modifies this`pendingByBinding
      ensures pendingByBinding == old(Value()).Unindex(id)
    {
      var keys := pendingByBinding.Keys;
      while keys != {}
        invariant keys <= old(pendingByBinding).Keys
        invariant pendingByBinding == map k | k in old(pendingByBinding) && (k in keys || old(pendingByBinding)[k] != id)
                                        :: old(pendingByBinding)[k]
        decreases keys
      {
        var key :| key in keys;
        if pendingByBinding[key] == id { pendingByBinding := pendingByBinding - {key}; }
        keys := keys - {key};
      }
    }

    method CompleteDecision(id: Id)
      modifies this
      ensures Value() == old(Value()).CompleteDecision(id)
    {
      decisionLocks := decisionLocks - {id};
      DropEntriesOf(id);
    }

    method FailDecision(id: Id)
      modifies this
      ensures Value() == old(Value()).FailDecision(id)
    {
      decisionLocks := decisionLocks - {id};
    }

    method InvalidateNonce(id: Id)
      modifies this
      ensures Value() == old(Value()).InvalidateNonce(id)
    {
      invalidatedNonces := invalidatedNonces + {id};
      decisionLocks := decisionLocks - {id};
      DropEntriesOf(id);
    }

    /** `getReissueReplacementId`: the live replacement; a dead entry is forgotten. */
    method GetReissueReplacementId(replaced: Id) returns (live: Option<Id>)
      modifies this
      ensures live.Some? <==> replaced in old(reissueReplacementByReplaced)
                              && requests.Value().IsPending(old(reissueReplacementByReplaced)[replaced])
      ensures live.Some? ==> live.value == old(reissueReplacementByReplaced)[replaced] && Value() == old(Value())
      ensures live.None? ==> Value() == old(Value()).ForgetReplacement(replaced)
    {
      if replaced !in reissueReplacementByReplaced {
        assert reissueReplacementByReplaced - {replaced} == reissueReplacementByReplaced;
        return None;
      }
      var mapped := reissueReplacementByReplaced[replaced];
      if mapped !in requests.byId || requests.byId[mapped].status != Pending {
        reissueReplacementByReplaced := reissueReplacementByReplaced - {replaced};
        return None;
      }
      return Some(mapped);
    }

    /** PROCEED when `proceed`; otherwise ALREADY, at once or after the claimant in flight ends. */
    method BeginReissue(replaced: Id) returns (proceed: bool)
      modifies this
      ensures proceed <==> replaced !in old(reissueInFlight)
                           && !(replaced in old(reissueReplacementByReplaced)
                                && requests.Value().IsPending(old(reissueReplacementByReplaced)[replaced]))
      ensures proceed ==> Value() == old(Value()).ForgetReplacement(replaced).Claim(replaced)
      ensures !proceed ==> Value() == if replaced in old(reissueReplacementByReplaced)
                                         && requests.Value().IsPending(old(reissueReplacementByReplaced)[replaced])
                                      then old(Value()) else old(Value()).ForgetReplacement(replaced)
    {
      var existing := GetReissueReplacementId(replaced);
      if existing.Some? { return false; }
      if replaced in reissueInFlight { return false; }
      reissueInFlight := reissueInFlight + {replaced};
      return true;
    }

    method CompleteReissue(replaced: Id, replacement: Id)
      modifies this
      ensures Value() == old(Value()).CompleteReissue(replaced, replacement)
    {
      reissueReplacementByReplaced := reissueReplacementByReplaced[replaced := replacement];
      reissueInFlight := reissueInFlight - {replaced};
    }

    method FailReissue(replaced: Id)
      modifies this
      ensures Value() == old(Value()).FailReissue(replaced)
    {
      reissueInFlight := reissueInFlight - {replaced};
    }
  }
}
