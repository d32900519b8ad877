/**
 * `assessHistoricalExecutionAuthority`: the auditor of a run's approval history.
 *
 * `Assess` is the loop form, `Verdict` what it computes, and the lemmas say exactly when the
 * two answers that let a caller go on are given.
 */
module HistoricalAuthority {
  import opened Wrappers
  import opened ApprovalDomain

  datatype StoredPlan = StoredPlan(
    planId: Id, runId: Id, planVersion: nat, planHash: Id, contentHash: Id, superseded: bool)

  datatype Ambiguity =
    | ForeignRunHistory
    | ApproveWithoutApprovedRequest
    | ApprovedRequestWithoutApproveRecord
    | ApprovalBindingInconsistent
    | ApprovedPlanMissing
    | ApprovedPlanDuplicate
    | ApprovedPlanBindingInconsistent

  datatype Currency = LatestAuthorizationApprove | ApproveBoundToNonSupersededPlan

  datatype Authority =
    | NoAuthority
    | HistoricalSupersededApproveOnly(recordIds: seq<Id>, requestIds: seq<Id>)
    | CurrentApprove(currency: Currency, recordId: Id, requestId: Id)
    | Ambiguous(ambiguity: Ambiguity)

  datatype Pair = Pair(record: AuthorizationRecord, request: ApprovalRequest)

  datatype History = History(
    runId: Id, records: seq<AuthorizationRecord>, requests: seq<ApprovalRequest>, plans: seq<StoredPlan>)

  predicate SameApproval(q: ApprovalRequest, r: AuthorizationRecord) {
    && SamePlan(q.binding, r.binding)
    && q.binding.objectiveId == r.binding.objectiveId && q.binding.objectiveVersion == r.binding.objectiveVersion
  }

  function RequestsOf(h: History, r: AuthorizationRecord): seq<ApprovalRequest> {
    Filter(h.requests, (q: ApprovalRequest) => q.approvalRequestId == r.approvalRequestId)
  }

  function RecordsOf(h: History, q: ApprovalRequest): seq<AuthorizationRecord> {
    Filter(h.records, (r: AuthorizationRecord) => r.approvalRequestId == q.approvalRequestId)
  }

  function PlansOf(h: History, r: AuthorizationRecord): seq<StoredPlan> {
    Filter(h.plans, (p: StoredPlan) => p.planId == r.binding.planId)
  }

  predicate Foreign(h: History) {
    || (exists r :: r in h.records && r.runId != h.runId)
    || (exists q :: q in h.requests && q.runId != h.runId)
    || (exists p :: p in h.plans && p.runId != h.runId)
  }

  predicate LatestApproves(h: History) {
    h.records != [] && h.records[|h.records| - 1].decision == Approve
  }

  predicate RecordPaired(h: History, r: AuthorizationRecord) {
    |RequestsOf(h, r)| == 1 && RequestsOf(h, r)[0].status == Approved
  }

  predicate RequestPaired(h: History, q: ApprovalRequest) {
    |RecordsOf(h, q)| == 1 && RecordsOf(h, q)[0].decision == Approve
  }

  /** The pairs of the APPROVE records in `rs`, each with its request. */
  function Pairs(h: History, rs: seq<AuthorizationRecord>): seq<Pair>
    requires forall r :: r in rs && r.decision == Approve ==> RecordPaired(h, r)
  {
    if rs == [] then []
    else
      assert rs[0] in rs && (rs[0].decision == Approve ==> RecordPaired(h, rs[0]));
      (if rs[0].decision == Approve then [Pair(rs[0], RequestsOf(h, rs[0])[0])] else []) + Pairs(h, rs[1..])
  }

  /** What is wrong with one pair, if anything is. */
  function Objection(h: History, p: Pair): Option<Authority> {
    var plans := PlansOf(h, p.record);
    if !SameApproval(p.request, p.record) then Some(Ambiguous(ApprovalBindingInconsistent))
    else if |plans| == 0 then Some(Ambiguous(ApprovedPlanMissing))
    else if |plans| > 1 then Some(Ambiguous(ApprovedPlanDuplicate))
    else if plans[0].planVersion != p.record.binding.planVersion || plans[0].planHash != p.record.binding.planHash
            || plans[0].contentHash != p.record.binding.planHash
    then Some(Ambiguous(ApprovedPlanBindingInconsistent))
    else if !plans[0].superseded
    then Some(CurrentApprove(ApproveBoundToNonSupersededPlan, p.record.authorizationRecordId, p.request.approvalRequestId))
    else None
  }

  function FirstObjection(h: History, pairs: seq<Pair>): Option<Authority> {
    if pairs == [] then None
    else if Objection(h, pairs[0]).Some? then Objection(h, pairs[0])
    else FirstObjection(h, pairs[1..])
  }

  function RecordIds(pairs: seq<Pair>): seq<Id> {
    seq(|pairs|, i requires 0 <= i < |pairs| => pairs[i].record.authorizationRecordId)
  }

  function RequestIds(pairs: seq<Pair>): seq<Id> {
    seq(|pairs|, i requires 0 <= i < |pairs| => pairs[i].request.approvalRequestId)
  }

  function Verdict(h: History): Authority {
    if Foreign(h) then Ambiguous(ForeignRunHistory)
    else if LatestApproves(h) then
      var last := h.records[|h.records| - 1];
      CurrentApprove(LatestAuthorizationApprove, last.authorizationRecordId, last.approvalRequestId)
    else if exists r :: r in h.records && r.decision == Approve && !RecordPaired(h, r)
    then Ambiguous(ApproveWithoutApprovedRequest)
    else if exists q :: q in h.requests && q.status == Approved && !RequestPaired(h, q)
    then Ambiguous(ApprovedRequestWithoutApproveRecord)
    else
      var pairs := Pairs(h, h.records);
      if FirstObjection(h, pairs).Some? then FirstObjection(h, pairs).value
      else if pairs == [] then NoAuthority
      else HistoricalSupersededApproveOnly(RecordIds(pairs), RequestIds(pairs))
  }

  lemma PairsSnoc(h: History, rs: seq<AuthorizationRecord>, r: AuthorizationRecord)
    requires forall x :: x in rs + [r] && x.decision == Approve ==> RecordPaired(h, x)
    ensures Pairs(h, rs + [r]) ==
            Pairs(h, rs) + if r.decision == Approve then [Pair(r, RequestsOf(h, r)[0])] else []
  {
    if rs != [] {
      assert (rs + [r])[1..] == rs[1..] + [r];
      PairsSnoc(h, rs[1..], r);
    }
  }

  lemma ObjectionSplit(h: History, a: seq<Pair>, b: seq<Pair>)
    requires FirstObjection(h, a).None?
    ensures FirstObjection(h, a + b) == FirstObjection(h, b)
  {
    if a == [] {
      assert a + b == b;
    } else {
      assert (a + b)[1..] == a[1..] + b;
    }
  }

  method HasForeign(h: History) returns (foreign: bool)
    ensures foreign == Foreign(h)
  {
    for i := 0 to |h.records|
      invariant forall r :: r in h.records[..i] ==> r.runId == h.runId
    {
      if h.records[i].runId != h.runId { return true; }
    }
    for i := 0 to |h.requests|
      invariant forall q :: q in h.requests[..i] ==> q.runId == h.runId
    {
      if h.requests[i].runId != h.runId { return true; }
    }
    for i := 0 to |h.plans|
      invariant forall p :: p in h.plans[..i] ==> p.runId == h.runId
    {
      if h.plans[i].runId != h.runId { return true; }
    }
    return false;
  }

  /** The loop that pushes a pair per APPROVE record; `None` is its early return. */
  method CollectPairs(h: History) returns (result: Option<seq<Pair>>)
    ensures result.None? <==> exists r :: r in h.records && r.decision == Approve && !RecordPaired(h, r)
    ensures result.Some? ==> result.value == Pairs(h, h.records)
  {
    var pairs: seq<Pair> := [];
    for i := 0 to |h.records|
      invariant forall r :: r in h.records[..i] && r.decision == Approve ==> RecordPaired(h, r)
      invariant pairs == Pairs(h, h.records[..i])
    {
      var record := h.records[i];
      assert h.records[..i + 1] == h.records[..i] + [record];
      if record.decision == Approve {
        var matches := RequestsOf(h, record);
        if |matches| != 1 || matches[0].status != Approved {
          assert record in h.records && !RecordPaired(h, record);
          return None;
        }
        pairs := pairs + [Pair(record, matches[0])];
      }
      PairsSnoc(h, h.records[..i], record);
    }
    assert h.records[..|h.records|] == h.records;
    return Some(pairs);
  }

  method AllRequestsPaired(h: History) returns (paired: bool)
    ensures paired <==> forall q :: q in h.requests && q.status == Approved ==> RequestPaired(h, q)
  {
    for i := 0 to |h.requests|
      invariant forall q :: q in h.requests[..i] && q.status == Approved ==> RequestPaired(h, q)
    {
      var request := h.requests[i];
      if request.status == Approved {
        var matches := RecordsOf(h, request);
        if |matches| != 1 || matches[0].decision != Approve {
          assert request in h.requests && !RequestPaired(h, request);
          return false;
        }
      }
    }
    return true;
  }

  method CheckPairs(h: History, pairs: seq<Pair>) returns (objection: Option<Authority>)
    ensures objection == FirstObjection(h, pairs)
  {
    for i := 0 to |pairs|
      invariant FirstObjection(h, pairs[..i]).None?
    {
      assert pairs == pairs[..i] + pairs[i..];
      ObjectionSplit(h, pairs[..i], pairs[i..]);
      objection := Objection(h, pairs[i]);
      if objection.Some? { return; }
      assert pairs[..i + 1] == pairs[..i] + [pairs[i]];
      ObjectionSplit(h, pairs[..i], [pairs[i]]);
    }
    assert pairs[..|pairs|] == pairs;
    return None;
  }

  /** The loops of the source in their order, with its early returns. */
  method Assess(h: History) returns (v: Authority)
    ensures v == Verdict(h)
  {
    hide RecordPaired, RequestPaired, Pairs;
    var foreign := HasForeign(h);
    if foreign { return Ambiguous(ForeignRunHistory); }
    if h.records != [] && h.records[|h.records| - 1].decision == Approve {
      var last := h.records[|h.records| - 1];
      return CurrentApprove(LatestAuthorizationApprove, last.authorizationRecordId, last.approvalRequestId);
    }
    var pairs := CollectPairs(h);
    if pairs.None? { return Ambiguous(ApproveWithoutApprovedRequest); }
    var paired := AllRequestsPaired(h);
    if !paired { return Ambiguous(ApprovedRequestWithoutApproveRecord); }
    var objection := CheckPairs(h, pairs.value);
    if objection.Some? { return objection.value; }
    if pairs.value == [] { return NoAuthority; }
    return HistoricalSupersededApproveOnly(RecordIds(pairs.value), RequestIds(pairs.value));
  }

  // ----- exactness -----

  ghost predicate OnlyAt<T(!new)>(s: seq<T>, p: T -> bool, i: int) {
    0 <= i < |s| && p(s[i]) && forall j :: 0 <= j < |s| && p(s[j]) ==> j == i
  }

  /** Exactly one position of `s` satisfies `p`. */
  ghost predicate ExactlyOne<T(!new)>(s: seq<T>, p: T -> bool) {
    exists i :: OnlyAt(s, p, i)
  }

  lemma FilterOne<T(!new)>(s: seq<T>, p: T -> bool)
    ensures |Filter(s, p)| == 0 <==> forall i :: 0 <= i < |s| ==> !p(s[i])
    ensures |Filter(s, p)| == 1 <==> ExactlyOne(s, p)
  {
    if s != [] {
      FilterOne(s[1..], p);
      assert forall i :: 0 < i < |s| ==> s[i] == s[1..][i - 1];
      if p(s[0]) { FirstIsOnly(s, p); } else { ShiftOne(s, p); }
    }
  }

  lemma FirstIsOnly<T(!new)>(s: seq<T>, p: T -> bool)
    requires s != [] && p(s[0])
    ensures ExactlyOne(s, p) <==> forall i :: 0 <= i < |s[1..]| ==> !p(s[1..][i])
  {
    var t := s[1..];
    if ExactlyOne(s, p) {
      var i :| OnlyAt(s, p, i);
      forall j | 0 <= j < |t| ensures !p(t[j]) { assert t[j] == s[j + 1]; }
    }
    if forall i :: 0 <= i < |t| ==> !p(t[i]) {
      forall j | 0 < j < |s| ensures !p(s[j]) { assert s[j] == t[j - 1]; }
      assert OnlyAt(s, p, 0);
    }
  }

  lemma ShiftOne<T(!new)>(s: seq<T>, p: T -> bool)
    requires s != [] && !p(s[0])
    ensures ExactlyOne(s, p) <==> ExactlyOne(s[1..], p)
  {
    forall i | OnlyAt(s, p, i) ensures OnlyAt(s[1..], p, i - 1) { ShiftDown(s, p, i); }
    forall i | OnlyAt(s[1..], p, i) ensures OnlyAt(s, p, i + 1) { ShiftUp(s, p, i); }
  }

  lemma ShiftDown<T(!new)>(s: seq<T>, p: T -> bool, i: int)
    requires s != [] && !p(s[0]) && OnlyAt(s, p, i)
    ensures OnlyAt(s[1..], p, i - 1)
  {
    var t := s[1..];
    forall j | 0 <= j < |t| && p(t[j]) ensures j == i - 1 { assert t[j] == s[j + 1]; }
  }

  lemma ShiftUp<T(!new)>(s: seq<T>, p: T -> bool, i: int)
    requires s != [] && !p(s[0]) && OnlyAt(s[1..], p, i)
    ensures OnlyAt(s, p, i + 1)
  {
    var t := s[1..];
    forall j | 0 <= j < |s| && p(s[j]) ensures j == i + 1 { if j > 0 { assert s[j] == t[j - 1]; } }
  }

  /** `r` has one request, approved and with the same binding, and one plan, superseded and matching. */
  ghost predicate SettledRecord(h: History, r: AuthorizationRecord) {
    && ExactlyOne(h.requests, (q: ApprovalRequest) => q.approvalRequestId == r.approvalRequestId)
    && (forall q :: q in h.requests && q.approvalRequestId == r.approvalRequestId ==>
          q.status == Approved && SameApproval(q, r))
    && ExactlyOne(h.plans, (p: StoredPlan) => p.planId == r.binding.planId)
    && (forall p :: p in h.plans && p.planId == r.binding.planId ==> MatchingPlan(p, r))
  }

  ghost predicate SettledRequest(h: History, q: ApprovalRequest) {
    && ExactlyOne(h.records, (r: AuthorizationRecord) => r.approvalRequestId == q.approvalRequestId)
    && (forall r :: r in h.records && r.approvalRequestId == q.approvalRequestId ==> r.decision == Approve)
  }

  lemma RecordPairedExactly(h: History, r: AuthorizationRecord)
    ensures RecordPaired(h, r) <==>
              ExactlyOne(h.requests, (q: ApprovalRequest) => q.approvalRequestId == r.approvalRequestId)
              && forall q :: q in h.requests && q.approvalRequestId == r.approvalRequestId ==> q.status == Approved
  {
    FilterOne(h.requests, (q: ApprovalRequest) => q.approvalRequestId == r.approvalRequestId);
    var m := RequestsOf(h, r);
    if |m| == 1 {
      assert m[0] in m;
      assert forall q :: q in m ==> q == m[0];
    }
  }

  lemma RequestPairedExactly(h: History, q: ApprovalRequest)
    ensures RequestPaired(h, q) <==> SettledRequest(h, q)
  {
    FilterOne(h.records, (r: AuthorizationRecord) => r.approvalRequestId == q.approvalRequestId);
    var m := RecordsOf(h, q);
    if |m| == 1 {
      assert m[0] in m;
      assert forall r :: r in m ==> r == m[0];
    }
  }

  lemma NoObjectionExactly(h: History, r: AuthorizationRecord)
    requires RecordPaired(h, r)
    ensures Objection(h, Pair(r, RequestsOf(h, r)[0])).None? <==> SettledRecord(h, r)
  {
    RecordPairedExactly(h, r);
    var q := RequestsOf(h, r)[0];
    assert forall x :: x in h.requests && x.approvalRequestId == r.approvalRequestId <==> x == q by {
      assert q in RequestsOf(h, r) && forall x :: x in RequestsOf(h, r) ==> x == q;
    }
    PlanAccepted(h, r);
  }

  predicate MatchingPlan(p: StoredPlan, r: AuthorizationRecord) {
    p.superseded && p.planVersion == r.binding.planVersion && p.planHash == r.binding.planHash && p.contentHash == r.binding.planHash
  }

  lemma PlanAccepted(h: History, r: AuthorizationRecord)
    ensures (|PlansOf(h, r)| == 1 && MatchingPlan(PlansOf(h, r)[0], r)) <==>
              ExactlyOne(h.plans, (p: StoredPlan) => p.planId == r.binding.planId)
              && forall p :: p in h.plans && p.planId == r.binding.planId ==> MatchingPlan(p, r)
  {
    FilterOne(h.plans, (p: StoredPlan) => p.planId == r.binding.planId);
    var plans := PlansOf(h, r);
    if |plans| == 1 {
      assert plans[0] in plans && forall p :: p in plans ==> p == plans[0];
    }
  }

  lemma PairsObjection(h: History, rs: seq<AuthorizationRecord>)
    requires forall r :: r in rs && r.decision == Approve ==> RecordPaired(h, r)
    ensures FirstObjection(h, Pairs(h, rs)).None? <==> forall r :: r in rs && r.decision == Approve ==> SettledRecord(h, r)
    ensures Pairs(h, rs) == [] <==> forall r :: r in rs ==> r.decision != Approve
  {
    if rs != [] {
      PairsObjection(h, rs[1..]);
      assert forall r :: r in rs <==> r == rs[0] || r in rs[1..];
      if rs[0].decision == Approve {
        NoObjectionExactly(h, rs[0]);
        var first := [Pair(rs[0], RequestsOf(h, rs[0])[0])];
        assert Pairs(h, rs) == first + Pairs(h, rs[1..]);
        assert Pairs(h, rs)[1..] == Pairs(h, rs[1..]);
      } else {
        assert Pairs(h, rs) == Pairs(h, rs[1..]);
      }
    }
  }

  ghost predicate Settled(h: History) {
    && (forall r :: r in h.records && r.decision == Approve ==> SettledRecord(h, r))
    && (forall q :: q in h.requests && q.status == Approved ==> SettledRequest(h, q))
  }

  lemma AllPaired(h: History)
    requires Settled(h)
    ensures forall r :: r in h.records && r.decision == Approve ==> RecordPaired(h, r)
    ensures forall q :: q in h.requests && q.status == Approved ==> RequestPaired(h, q)
  {
    forall r | r in h.records && r.decision == Approve ensures RecordPaired(h, r) { RecordPairedExactly(h, r); }
    forall q | q in h.requests && q.status == Approved ensures RequestPaired(h, q) { RequestPairedExactly(h, q); }
  }

  lemma PairedHasRecord(h: History, q: ApprovalRequest)
    requires RequestPaired(h, q)
    ensures RecordsOf(h, q)[0] in h.records && RecordsOf(h, q)[0].decision == Approve
    ensures RecordsOf(h, q)[0].approvalRequestId == q.approvalRequestId
  {
    assert RecordsOf(h, q)[0] in RecordsOf(h, q);
  }

  /** NONE is answered exactly when the history holds no approval at all. */
  lemma NoneExactly(h: History)
    ensures Verdict(h).NoAuthority? <==>
              !Foreign(h)
              && (forall r :: r in h.records ==> r.decision != Approve)
              && (forall q :: q in h.requests ==> q.status != Approved)
  {
    hide RecordPaired, RequestPaired, Objection, FirstObjection, Pairs, Foreign, SettledRecord;
    var allPaired := forall r :: r in h.records && r.decision == Approve ==> RecordPaired(h, r);
    if allPaired {
      PairsObjection(h, h.records);
      ObjectionsAreRefusals(h, Pairs(h, h.records));
    }
    if exists q :: q in h.requests && q.status == Approved && RequestPaired(h, q) {
      var q :| q in h.requests && q.status == Approved && RequestPaired(h, q);
      PairedHasRecord(h, q);
    }
  }

  lemma ObjectionsAreRefusals(h: History, pairs: seq<Pair>)
    ensures FirstObjection(h, pairs).Some? ==>
              FirstObjection(h, pairs).value.Ambiguous? || FirstObjection(h, pairs).value.CurrentApprove?
  {}

  /**
   * HISTORICAL_SUPERSEDED_APPROVE_ONLY is answered exactly when a later decision exists and the
   * non-empty set of APPROVE records is in bijection with the APPROVED requests, binding for
   * binding, each bound to one plan, which is superseded.
   */
  lemma HistoricalExactly(h: History)
    ensures Verdict(h).HistoricalSupersededApproveOnly? <==>
              !Foreign(h) && !LatestApproves(h) && Settled(h)
              && exists r :: r in h.records && r.decision == Approve
  {
    if Verdict(h).HistoricalSupersededApproveOnly? { HistoricalMeans(h); }
    if !Foreign(h) && !LatestApproves(h) && Settled(h) && exists r :: r in h.records && r.decision == Approve {
      MeansHistorical(h);
    }
  }

  lemma HistoricalMeans(h: History)
    requires Verdict(h).HistoricalSupersededApproveOnly?
    ensures !Foreign(h) && !LatestApproves(h) && Settled(h)
    ensures exists r :: r in h.records && r.decision == Approve
  {
    hide Foreign, RecordPaired, RequestPaired, Objection, SettledRecord, SettledRequest;
    ObjectionsAreRefusals(h, Pairs(h, h.records));
    PairsObjection(h, h.records);
    hide Pairs, FirstObjection;
    forall q | q in h.requests && q.status == Approved ensures SettledRequest(h, q) { RequestPairedExactly(h, q); }
  }

  lemma MeansHistorical(h: History)
    requires !Foreign(h) && !LatestApproves(h) && Settled(h)
    requires exists r :: r in h.records && r.decision == Approve
    ensures Verdict(h).HistoricalSupersededApproveOnly?
  {
    AllPaired(h);
    PairsObjection(h, h.records);
    hide Foreign, RecordPaired, RequestPaired, Objection, SettledRecord, SettledRequest, Pairs, FirstObjection;
  }

  lemma PairsMembers(h: History, rs: seq<AuthorizationRecord>)
    requires forall r :: r in rs && r.decision == Approve ==> RecordPaired(h, r)
    ensures forall p :: p in Pairs(h, rs) <==>
              p.record in rs && p.record.decision == Approve && p == Pair(p.record, RequestsOf(h, p.record)[0])
  {
    if rs != [] { PairsMembers(h, rs[1..]); }
  }

  lemma PairedNames(h: History)
    requires forall r :: r in h.records && r.decision == Approve ==> RecordPaired(h, r)
    requires forall q :: q in h.requests && q.status == Approved ==> RequestPaired(h, q)
    ensures forall r :: r in h.records && r.decision == Approve ==> r.authorizationRecordId in RecordIds(Pairs(h, h.records))
    ensures forall q :: q in h.requests && q.status == Approved ==> q.approvalRequestId in RequestIds(Pairs(h, h.records))
  {
    var pairs := Pairs(h, h.records);
    PairsMembers(h, h.records);
    hide Pairs, RecordIds, RequestIds;
    forall r | r in h.records && r.decision == Approve ensures r.authorizationRecordId in RecordIds(pairs) {
      NamedPair(pairs, Pair(r, RequestsOf(h, r)[0]));
    }
    forall q | q in h.requests && q.status == Approved ensures q.approvalRequestId in RequestIds(pairs) {
      PairedHasRecord(h, q);
      var r := RecordsOf(h, q)[0];
      assert RequestsOf(h, r)[0] in RequestsOf(h, r);
      NamedPair(pairs, Pair(r, RequestsOf(h, r)[0]));
    }
  }

  /** The historical answer names every APPROVE record and every APPROVED request. */
  lemma HistoricalNamesAll(h: History)
    requires Verdict(h).HistoricalSupersededApproveOnly?
    ensures forall r :: r in h.records && r.decision == Approve ==> r.authorizationRecordId in Verdict(h).recordIds
    ensures forall q :: q in h.requests && q.status == Approved ==> q.approvalRequestId in Verdict(h).requestIds
  {
    HistoricalExactly(h);
    AllPaired(h);
    PairedNames(h);
    ObjectionsAreRefusals(h, Pairs(h, h.records));
    hide Settled, RecordPaired, RequestPaired, Pairs, RecordIds, RequestIds, Objection;
  }

  lemma NamedPair(pairs: seq<Pair>, p: Pair)
    requires p in pairs
    ensures p.record.authorizationRecordId in RecordIds(pairs) && p.request.approvalRequestId in RequestIds(pairs)
  {
    var i :| 0 <= i < |pairs| && pairs[i] == p;
    assert RecordIds(pairs)[i] == p.record.authorizationRecordId && RequestIds(pairs)[i] == p.request.approvalRequestId;
  }
}
