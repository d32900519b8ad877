/**
 * Calls of the approval services that nothing interrupts, as imperative code over the stores.
 *
 * `Decide` is proved equal to its thread of `ApprovalProtocol` run step by step, so what the
 * protocol keeps over all schedules speaks about this code. The two loops are proved to close
 * exactly the requests they should.
 */
module ApprovalCalls {
  import opened Wrappers
  import opened ApprovalDomain
  import opened ApprovalStores
  import opened ApprovalProtocol
  import opened ApprovalSafety
  import opened ApprovalRepositories

  // ----- closing a set of requests -----

  function Closed(rs: RequestStore, ids: set<Id>, status: RequestStatus): RequestStore {
    rs.(byId := map id | id in rs.byId :: if id in ids then rs.byId[id].(status := status) else rs.byId[id])
  }

  function Invalidated(c: Coordinator, ids: set<Id>): Coordinator {
    c.(invalidatedNonces := c.invalidatedNonces + ids, decisionLocks := c.decisionLocks - ids,
       pendingByBinding := map k | k in c.pendingByBinding && c.pendingByBinding[k] !in ids :: c.pendingByBinding[k])
  }

  ghost predicate Names(rs: RequestStore, ids: set<Id>, q: Id) {
    exists id :: id in ids && id in rs.byId && rs.byId[id].runId == q
  }

  /** The runs of `ids` that were awaiting approval expire with them. */
  ghost function RunsExpired(runs: map<Id, RunRecord>, rs: RequestStore, ids: set<Id>): map<Id, RunRecord> {
    map q | q in runs ::
      if runs[q].state == AwaitingApproval && Names(rs, ids, q)
      then RunRecord(RunExpired, runs[q].recordRevision + 1) else runs[q]
  }

  function PendingOf(rs: RequestStore, runId: Id, except: Option<Id>): set<Id> {
    set id | id in rs.byId && rs.byId[id].status == Pending && rs.byId[id].runId == runId && except != Some(id)
  }

  function Due(rs: RequestStore, now: Time): set<Id> {
    set id | id in rs.byId && rs.byId[id].status == Pending && IsExpired(rs.byId[id].expiresAt, now)
  }

  lemma CloseOneMore(rs: RequestStore, ids: set<Id>, id: Id, status: RequestStatus)
    requires rs.IsPending(id) && id !in ids && status != Pending
    ensures Closed(rs, ids, status).UpdateStatus(id, status, false) == Some(Closed(rs, ids + {id}, status))
  {
    var a, b := Closed(rs, ids, status), Closed(rs, ids + {id}, status);
    assert a.byId[id := a.byId[id].(status := status)] == b.byId;
  }

  lemma InvalidateOneMore(c: Coordinator, ids: set<Id>, id: Id)
    ensures Invalidated(c, ids).InvalidateNonce(id) == Invalidated(c, ids + {id})
  {
    assert c.decisionLocks - ids - {id} == c.decisionLocks - (ids + {id});
  }

  lemma ClosedNone(rs: RequestStore, c: Coordinator, runs: map<Id, RunRecord>, status: RequestStatus)
    ensures Closed(rs, {}, status) == rs && Invalidated(c, {}) == c && RunsExpired(runs, rs, {}) == runs
  {
    assert Closed(rs, {}, status).byId == rs.byId;
    assert Invalidated(c, {}).pendingByBinding == c.pendingByBinding;
    assert c.decisionLocks - {} == c.decisionLocks;
  }

  function Ids(list: seq<ApprovalRequest>): set<Id> {
    set r | r in list :: r.approvalRequestId
  }

  /** The status write and the nonce invalidation of one request, with what the loops have done before. */
  method Close(coordinator: AuthorizationCoordinator, id: Id, status: RequestStatus,
               ghost rs: RequestStore, ghost c: Coordinator, ghost done: set<Id>)
    returns (updated: ApprovalRequest)
    requires rs.IsPending(id) && rs.byId[id].approvalRequestId == id && id !in done && status != Pending
    requires coordinator.requests.Value() == Closed(rs, done, status) && coordinator.Value() == Invalidated(c, done)
    modifies coordinator, coordinator.requests
    ensures coordinator.requests.Value() == Closed(rs, done + {id}, status)
    ensures coordinator.Value() == Invalidated(c, done + {id})
    ensures updated.approvalRequestId == id && updated.runId == rs.byId[id].runId
  {
    CloseOneMore(rs, done, id, status);
    InvalidateOneMore(c, done, id);
    var result := coordinator.requests.UpdateStatus(id, status, false);
    updated := result.value;
    coordinator.InvalidateNonce(id);
  }

  lemma OneMoreId(list: seq<ApprovalRequest>, r: ApprovalRequest)
    requires r.approvalRequestId !in Ids(list) && |list| == |Ids(list)|
    ensures Ids(list + [r]) == Ids(list) + {r.approvalRequestId} && |list + [r]| == |Ids(list + [r])|
  {}

  predicate Matches(r: ApprovalRequest, except: Option<Id>) {
    r.status == Pending && except != Some(r.approvalRequestId)
  }

  /** The PENDING requests among the first `i` of the list, but for `except`. */
  function Matching(list: seq<ApprovalRequest>, i: nat, except: Option<Id>): set<Id>
    requires i <= |list|
  {
    if i == 0 then {}
    else Matching(list, i - 1, except) + if Matches(list[i - 1], except) then {list[i - 1].approvalRequestId} else {}
  }

  lemma {:induction false} MatchingMember(list: seq<ApprovalRequest>, i: nat, except: Option<Id>, id: Id)
    requires i <= |list|
    ensures id in Matching(list, i, except) <==>
              exists j :: 0 <= j < i && Matches(list[j], except) && list[j].approvalRequestId == id
  {
    if i > 0 { MatchingMember(list, i - 1, except, id); }
  }

  lemma MatchingStep(rs: RequestStore, runId: Id, i: nat, except: Option<Id>)
    requires OrderValid(rs) && i < |rs.ListByRun(runId)|
    ensures var list := rs.ListByRun(runId);
            var r := list[i];
            && r.runId == runId && r.approvalRequestId in rs.byId && rs.byId[r.approvalRequestId] == r
            && r.approvalRequestId !in Matching(list, i, except)
            && Matching(list, i + 1, except) ==
               if Matches(r, except) then Matching(list, i, except) + {r.approvalRequestId} else Matching(list, i, except)
  {
    ListIsOrder(rs, runId);
    hide RequestStore.ListByRun, RequestStore.Order, OrderValid;
    MatchingMember(rs.ListByRun(runId), i, except, rs.ListByRun(runId)[i].approvalRequestId);
  }

  lemma MatchingAll(rs: RequestStore, runId: Id, except: Option<Id>)
    requires OrderValid(rs)
    ensures Matching(rs.ListByRun(runId), |rs.ListByRun(runId)|, except) == PendingOf(rs, runId, except)
  {
    var order, list := rs.Order(runId), rs.ListByRun(runId);
    ListIsOrder(rs, runId);
    forall id ensures id in Matching(list, |list|, except) <==> id in PendingOf(rs, runId, except) {
      MatchingMember(list, |list|, except, id);
      if id in PendingOf(rs, runId, except) {
        var j :| 0 <= j < |order| && order[j] == id;
        assert list[j].approvalRequestId == id;
      }
    }
  }

  /** `supersedePendingForRun`: exactly the PENDING requests of the run, but for one, are superseded. */
  method SupersedePendingForRun(coordinator: AuthorizationCoordinator, runId: Id, except: Option<Id>)
    returns (superseded: seq<ApprovalRequest>)
    requires OrderValid(coordinator.requests.Value())
    modifies coordinator, coordinator.requests
    ensures var rs, ids := old(coordinator.requests.Value()), PendingOf(old(coordinator.requests.Value()), runId, except);
            && coordinator.requests.Value() == Closed(rs, ids, Superseded)
            && coordinator.Value() == Invalidated(old(coordinator.Value()), ids)
            && Ids(superseded) == ids && |superseded| == |ids|
  {
    ghost var rs, c := coordinator.requests.Value(), coordinator.Value();
    var list := coordinator.requests.ListByRun(runId);
    superseded := [];
    ClosedNone(rs, c, map[], Superseded);
    MatchingAll(rs, runId, except);
    for i := 0 to |list|
      invariant coordinator.requests.Value() == Closed(rs, Matching(list, i, except), Superseded)
      invariant coordinator.Value() == Invalidated(c, Matching(list, i, except))
      invariant Ids(superseded) == Matching(list, i, except) && |superseded| == |Matching(list, i, except)|
    {
      hide Closed, Invalidated, Matching, OrderValid, RequestStore.ListByRun, Ids;
      var request := list[i];
      var id := request.approvalRequestId;
      MatchingStep(rs, runId, i, except);
      if Matches(request, except) {
        var updated := Close(coordinator, id, Superseded, rs, c, Matching(list, i, except));
        OneMoreId(superseded, updated);
        superseded := superseded + [updated];
      }
    }
  }

  lemma ListIsOrder(rs: RequestStore, runId: Id)
    requires OrderValid(rs)
    ensures var order, list := rs.Order(runId), rs.ListByRun(runId);
            |list| == |order| && Distinct(order) && forall j :: 0 <= j < |list| ==>
              order[j] in rs.byId && list[j] == rs.byId[order[j]] && list[j].approvalRequestId == order[j] && list[j].runId == runId
  {
    var order := rs.Order(runId);
    assert forall j :: 0 <= j < |order| ==> order[j] in order;
  }

  // ----- the sweep -----

  function WithRunExpired(runs: map<Id, RunRecord>, q: Id): map<Id, RunRecord> {
    if q in runs && runs[q].state == AwaitingApproval
    then runs[q := RunRecord(RunExpired, runs[q].recordRevision + 1)] else runs
  }

  /** The waiting run of an expired request expires. */
  method ExpireRunOf(runs: RunRepository, q: Id)
    modifies runs
    ensures runs.byId == WithRunExpired(old(runs.byId), q)
  {
    if q in runs.byId && runs.byId[q].state == AwaitingApproval {
      var _ := runs.Transition(q, runs.byId[q], RunExpired);
    }
  }

  /** The three writes of one iteration, with what the iterations before have done. */
  method ExpireOne(coordinator: AuthorizationCoordinator, runs: RunRepository, id: Id,
                   ghost rs: RequestStore, ghost c: Coordinator, ghost before: map<Id, RunRecord>, ghost done: set<Id>)
    returns (updated: ApprovalRequest)
    requires rs.IsPending(id) && rs.byId[id].approvalRequestId == id && id !in done
    requires coordinator.requests.Value() == Closed(rs, done, Expired) && coordinator.Value() == Invalidated(c, done)
    requires runs.byId == RunsExpired(before, rs, done)
    modifies coordinator, coordinator.requests, runs
    ensures coordinator.requests.Value() == Closed(rs, done + {id}, Expired)
    ensures coordinator.Value() == Invalidated(c, done + {id})
    ensures runs.byId == RunsExpired(before, rs, done + {id})
    ensures updated.approvalRequestId == id
  {
    hide Closed, Invalidated, RunsExpired, WithRunExpired;
    updated := Close(coordinator, id, Expired, rs, c, done);
    ExpireOneMore(before, rs, done, id);
    ExpireRunOf(runs, updated.runId);
  }

  /** `expireDueRequests`: every due PENDING request expires with its nonce and its waiting run; nothing else moves. */
  method ExpireDueRequests(coordinator: AuthorizationCoordinator, runs: RunRepository, now: Time)
    returns (expired: seq<ApprovalRequest>)
    requires OrderValid(coordinator.requests.Value())
    modifies coordinator, coordinator.requests, runs
    ensures var rs, ids := old(coordinator.requests.Value()), Due(old(coordinator.requests.Value()), now);
            && coordinator.requests.Value() == Closed(rs, ids, Expired)
            && coordinator.Value() == Invalidated(old(coordinator.Value()), ids)
            && runs.byId == RunsExpired(old(runs.byId), rs, ids)
            && Ids(expired) == ids && |expired| == |ids|
  {
    ghost var rs, c, before := coordinator.requests.Value(), coordinator.Value(), runs.byId;
    var all := coordinator.requests.byId;
    var left := all.Keys;
    expired := [];
    ClosedNone(rs, c, before, Expired);
    assert DueBut(rs, now, left) == {};
    while left != {}
      invariant left <= all.Keys
      invariant coordinator.requests.Value() == Closed(rs, DueBut(rs, now, left), Expired)
      invariant coordinator.Value() == Invalidated(c, DueBut(rs, now, left))
      invariant runs.byId == RunsExpired(before, rs, DueBut(rs, now, left))
      invariant Ids(expired) == DueBut(rs, now, left) && |expired| == |DueBut(rs, now, left)|
      decreases left
    {
      hide Closed, Invalidated, RunsExpired, WithRunExpired, OrderValid, Ids, DueBut, RequestStore.IsPending;
      var id :| id in left;
      var request := all[id];
      KeysMatch(rs, id);
      DueStep(rs, now, left, id);
      if request.status == Pending && IsExpired(request.expiresAt, now) {
        var updated := ExpireOne(coordinator, runs, id, rs, c, before, DueBut(rs, now, left));
        OneMoreId(expired, updated);
        expired := expired + [updated];
      }
      left := left - {id};
    }
    assert DueBut(rs, now, {}) == Due(rs, now);
  }

  lemma KeysMatch(rs: RequestStore, id: Id)
    requires OrderValid(rs) && id in rs.byId
    ensures rs.byId[id].approvalRequestId == id && (rs.byId[id].status == Pending <==> rs.IsPending(id))
  {}

  function DueBut(rs: RequestStore, now: Time, left: set<Id>): set<Id> {
    set id | id in Due(rs, now) && id !in left
  }

  lemma DueStep(rs: RequestStore, now: Time, left: set<Id>, id: Id)
    requires id in left && id in rs.byId
    ensures id !in DueBut(rs, now, left)
    ensures DueBut(rs, now, left - {id}) ==
            if rs.byId[id].status == Pending && IsExpired(rs.byId[id].expiresAt, now)
            then DueBut(rs, now, left) + {id} else DueBut(rs, now, left)
  {}

  lemma NamesOneMore(rs: RequestStore, ids: set<Id>, id: Id, q: Id)
    requires id in rs.byId
    ensures Names(rs, ids + {id}, q) <==> Names(rs, ids, q) || rs.byId[id].runId == q
  {
    if x :| x in ids && x in rs.byId && rs.byId[x].runId == q { assert x in ids + {id}; }
    if rs.byId[id].runId == q { assert id in ids + {id}; }
  }

  lemma ExpireOneMore(runs: map<Id, RunRecord>, rs: RequestStore, ids: set<Id>, id: Id)
    requires id in rs.byId
    ensures var a, b, q := RunsExpired(runs, rs, ids), RunsExpired(runs, rs, ids + {id}), rs.byId[id].runId;
            b == WithRunExpired(a, q)
  {
    hide Names;
    forall p ensures Names(rs, ids + {id}, p) <==> Names(rs, ids, p) || rs.byId[id].runId == p { NamesOneMore(rs, ids, id, p); }
  }

  // ----- decide -----

  lemma {:induction false} OneMoreStep(st: Stores, th: Thread, chs: seq<Choice>, k: nat)
    requires k < |chs|
    ensures var o := Uninterrupted(st, th, chs[..k]); Uninterrupted(st, th, chs[..k + 1]) == Next(o.st, o.th, chs[k])
    decreases k
  {
    if k == 0 {
      assert chs[..1] == [chs[0]] && chs[..1][1..] == [];
      assert Uninterrupted(Next(st, th, chs[0]).st, Next(st, th, chs[0]).th, []) == Next(st, th, chs[0]);
    } else {
      var o := Next(st, th, chs[0]);
      assert chs[..k + 1][1..] == chs[1..][..k] && chs[..k][1..] == chs[1..][..k - 1];
      OneMoreStep(o.st, o.th, chs[1..], k - 1);
    }
  }

  /** A finished call stays finished. */
  lemma {:induction false} StaysDone(st: Stores, th: Thread, chs: seq<Choice>, k: nat, now: Stores)
    requires k <= |chs| && Uninterrupted(st, th, chs[..k]) == Outcome(now, Done)
    ensures Uninterrupted(st, th, chs) == Outcome(now, Done)
    decreases |chs| - k
  {
    if k == |chs| {
      assert chs[..k] == chs;
    } else {
      OneMoreStep(st, th, chs, k);
      StaysDone(st, th, chs, k + 1, now);
    }
  }

  /** What the decision learns: for an approval whether it is eligible before the nonce is burnt, then whether it is authorized and saved. */
  datatype DecisionEnv = DecisionEnv(now: Time, eligible: bool, authorized: bool, saved: bool, recordId: Id) {
    function Choose(ok: bool): Choice {
      Choice(ok, false, now, 0, recordId, 0, 0, 0, 0, 0, PlanBinding(0, 0, 0, 0, 0, 0, 0, 0, 0, 0, 0))
    }

    function Choices(decision: Decision): seq<Choice> {
      [Choose(true), Choose(true), Choose(true)] + (if decision == Approve then [Choose(eligible)] else [])
      + [Choose(true), Choose(authorized), Choose(saved), Choose(true)]
    }
  }

  /** The step of the thread that burns the nonce. */
  function BeginAt(decision: Decision): nat {
    if decision == Approve then 4 else 3
  }

  lemma ChoicesAt(env: DecisionEnv, decision: Decision)
    ensures var chs, b := env.Choices(decision), BeginAt(decision);
            && |chs| == b + 4 && chs[0] == chs[1] == chs[2] == env.Choose(true) && (decision == Approve ==> chs[3] == env.Choose(env.eligible))
            && chs[b] == env.Choose(true) && chs[b + 1] == env.Choose(env.authorized) && chs[b + 2] == env.Choose(env.saved)
            && chs[b + 3] == env.Choose(true)
  {}

  class AuthorizationService {
    const requests: RequestRepository
    const records: RecordRepository
    const runs: RunRepository
    const coordinator: AuthorizationCoordinator

    constructor (requests: RequestRepository, records: RecordRepository, runs: RunRepository, coordinator: AuthorizationCoordinator)
      ensures this.requests == requests && this.records == records && this.runs == runs && this.coordinator == coordinator
    {
      this.requests, this.records, this.runs, this.coordinator := requests, records, runs, coordinator;
    }

    ghost function Value(): Stores
      reads requests, records, runs, coordinator
    {
      Stores(requests.Value(), records.Value(), coordinator.Value(), runs.byId)
    }

    /** The transaction that ends `decide`; a throw inside it undoes what it wrote. */
    method Commit(rec: AuthorizationRecord, seen: RunRecord, saved: bool) returns (ok: bool)
      modifies requests, records, runs, coordinator
      ensures ok <==> saved && old(Value()).CommitDecision(rec, seen).Some?
      ensures Value() == if ok then old(Value()).CommitDecision(rec, seen).value else old(Value())
    {
      if !saved { return false; }
      var byId, byApproval, order, statuses := records.byId, records.byApproval, records.orderByRun, requests.byId;
      var appended := records.Append(rec);
      if appended.Err? { return false; }
      var updated := requests.UpdateStatus(rec.approvalRequestId, StatusFor(rec.decision), false);
      if updated.Ok? {
        var moved := runs.Transition(rec.runId, seen, RunStateFor(rec.decision));
        if moved.Ok? {
          coordinator.CompleteDecision(rec.approvalRequestId);
          return true;
        }
        requests.byId := statuses;
      }
      records.byId, records.byApproval, records.orderByRun := byId, byApproval, order;
      return false;
    }

    /** `decide`, uninterrupted: its thread run to the end. */
    method Decide(id: Id, d: DecisionCall, env: DecisionEnv) returns (decided: bool)
      requires coordinator.requests == requests && OrderValid(requests.Value())
      modifies requests, records, runs, coordinator
      ensures Uninterrupted(old(Value()), InDecide(DecideLoad(id, d)), env.Choices(d.decision)) == Outcome(Value(), Done)
      ensures decided <==> records.Value() != old(records.Value())
    {
      ghost var was, start, chs := Value(), InDecide(DecideLoad(id, d)), env.Choices(d.decision);
      OneMoreStep(was, start, chs, 0);
      if id !in requests.byId { StaysDone(was, start, chs, 1, was); return false; }
      var request := requests.byId[id];
      OneMoreStep(was, start, chs, 1);
      if id in records.byApproval { StaysDone(was, start, chs, 2, was); return false; }
      OneMoreStep(was, start, chs, 2);
      if request.status != Pending { StaysDone(was, start, chs, 3, was); return false; }
      decided := Answer(request, d, env, was);
    }

    /** `decide` from its expiry test on. */
    method Answer(request: ApprovalRequest, d: DecisionCall, env: DecisionEnv, ghost was: Stores) returns (decided: bool)
      requires coordinator.requests == requests && OrderValid(requests.Value()) && was == Value()
      requires requests.Value().Get(request.approvalRequestId) == Some(request) && request.status == Pending
      requires request.approvalRequestId !in records.byApproval
      requires Uninterrupted(was, InDecide(DecideLoad(request.approvalRequestId, d)), env.Choices(d.decision)[..2])
               == Outcome(was, InDecide(DecideGate(request, d)))
      modifies requests, records, runs, coordinator
      ensures Uninterrupted(was, InDecide(DecideLoad(request.approvalRequestId, d)), env.Choices(d.decision)) == Outcome(Value(), Done)
      ensures decided <==> records.Value() != old(records.Value())
    {
      ChoicesAt(env, d.decision);
      hide RunEdge, DecisionEnv.Choices;
      var id := request.approvalRequestId;
      ghost var start, chs, b := InDecide(DecideLoad(id, d)), env.Choices(d.decision), BeginAt(d.decision);
      OneMoreStep(was, start, chs, 2);
      if IsExpired(request.expiresAt, d.submittedAt) || IsExpired(request.expiresAt, env.now) {
        var _ := requests.UpdateStatus(id, Expired, false);
        ExpireAnswered(request, was, start, chs);
        return false;
      }
      if d.decision == Approve {
        OneMoreStep(was, start, chs, 3);
        if !env.eligible { StaysDone(was, start, chs, 4, was); return false; }
      }
      if id in coordinator.decisionLocks { StaysDone(was, start, chs, b, was); return false; }
      OneMoreStep(was, start, chs, b);
      var begun := coordinator.BeginDecision(id, d.nonce);
      if !begun { StaysDone(was, start, chs, b + 1, was); return false; }
      decided := AnswerBurnt(request, d, env, was);
    }

    /** The rest of the expiry branch: the nonce, then the run. */
    method ExpireAnswered(request: ApprovalRequest, ghost was: Stores, ghost start: Thread, ghost chs: seq<Choice>)
      requires |chs| >= 7 && Uninterrupted(was, start, chs[..3]) == Outcome(Value(), InExpiry(ExpireNonce(request)))
      modifies runs, coordinator
      ensures Uninterrupted(was, start, chs) == Outcome(Value(), Done)
    {
      hide Uninterrupted;
      OneMoreStep(was, start, chs, 3);
      OneMoreStep(was, start, chs, 4);
      OneMoreStep(was, start, chs, 5);
      coordinator.InvalidateNonce(request.approvalRequestId);
      ghost var mid := Value();
      ExpireRunOf(runs, request.runId);
      if mid.Awaiting(request.runId) { StaysDone(was, start, chs, 6, Value()); }
      else { StaysDone(was, start, chs, 5, Value()); }
    }

    /** `decide` once the nonce is burnt. */
    method AnswerBurnt(request: ApprovalRequest, d: DecisionCall, env: DecisionEnv, ghost was: Stores) returns (decided: bool)
      requires request.approvalRequestId !in records.byApproval
      requires Uninterrupted(was, InDecide(DecideLoad(request.approvalRequestId, d)), env.Choices(d.decision)[..BeginAt(d.decision) + 1])
               == Outcome(Value(), InDecide(DecideRun(request, d, env.now)))
      modifies requests, records, runs, coordinator
      ensures Uninterrupted(was, InDecide(DecideLoad(request.approvalRequestId, d)), env.Choices(d.decision)) == Outcome(Value(), Done)
      ensures decided <==> records.Value() != old(records.Value())
    {
      ChoicesAt(env, d.decision);
      hide Uninterrupted, RunEdge, RunStateFor, DecisionEnv.Choices;
      var id := request.approvalRequestId;
      ghost var start, chs, b := InDecide(DecideLoad(id, d)), env.Choices(d.decision), BeginAt(d.decision);
      OneMoreStep(was, start, chs, b + 1);
      OneMoreStep(was, start, chs, b + 2);
      OneMoreStep(was, start, chs, b + 3);
      assert chs[..b + 4] == chs;
      if !env.authorized || request.runId !in runs.byId || runs.byId[request.runId].state != AwaitingApproval {
        coordinator.FailDecision(id);
        StaysDone(was, start, chs, b + 3, Value());
        return false;
      }
      decided := Commit(RecordFor(request, d, env.now, env.recordId), runs.byId[request.runId], env.saved);
      if !decided { coordinator.FailDecision(id); }
    }
  }
}
