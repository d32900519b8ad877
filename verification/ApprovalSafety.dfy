/**
 * What every interleaving of the approval services keeps.
 *
 * The argument is rely/guarantee. `StoresValid` is the invariant of the stores, `Holds` is what a
 * thread knows between two awaits, and `Evolves` is all that any step may do to the stores.
 */
module ApprovalSafety {
  import opened Wrappers
  import opened ApprovalDomain
  import opened ApprovalStores
  import opened ApprovalProtocol

  // ----- the rely relation -----

  predicate Decided(s: RequestStatus) {
    s == Approved || s == Rejected || s == ModificationRequested
  }

  predicate Retired(s: RequestStatus) {
    s == Cancelled || s == Superseded
  }

  /** A later version of the same request: binding fixed, terminal statuses final. */
  predicate Later(a: ApprovalRequest, b: ApprovalRequest) {
    SameBinding(a, b) && (a.status != Pending ==> b.status == a.status)
  }

  ghost predicate RequestsEvolve(a: RequestStore, b: RequestStore) {
    && (forall id :: id in a.byId ==> id in b.byId && Later(a.byId[id], b.byId[id]))
    && (forall run :: a.Order(run) <= b.Order(run))
  }

  ghost predicate Evolves(a: Stores, b: Stores) {
    && RequestsEvolve(a.requests, b.requests)
    && (forall id :: id in a.records.byId ==> id in b.records.byId && b.records.byId[id] == a.records.byId[id])
    && a.coord.consumedNonces <= b.coord.consumedNonces
    && a.coord.invalidatedNonces <= b.coord.invalidatedNonces
  }

  // ----- the invariant of the stores -----

  ghost predicate OrderValid(rs: RequestStore) {
    && (forall id :: id in rs.byId ==> rs.byId[id].approvalRequestId == id && id in rs.Order(rs.byId[id].runId))
    && (forall run, id :: id in rs.Order(run) ==> id in rs.byId && rs.byId[id].runId == run)
    && (forall run :: Distinct(rs.Order(run)))
  }

  /** `child` replaces `parent`: same run and plan, created later, parent retired for good. */
  ghost predicate ReplacesValid(rs: RequestStore, child: ApprovalRequest, parent: Id) {
    && parent in rs.byId
    && rs.byId[parent].runId == child.runId
    && SamePlan(rs.byId[parent].binding, child.binding)
    && Retired(rs.byId[parent].status)
  }

  /** Parents stand before their children in the order of the run. */
  ghost predicate ParentsFirst(rs: RequestStore, order: seq<Id>) {
    forall i :: 0 <= i < |order| && order[i] in rs.byId && rs.byId[order[i]].parent.Some? ==>
      rs.byId[order[i]].parent.value in order[..i]
  }

  ghost predicate LineageValid(rs: RequestStore) {
    && (forall id :: id in rs.byId && rs.byId[id].parent.Some? ==>
          ReplacesValid(rs, rs.byId[id], rs.byId[id].parent.value))
    && (forall run :: ParentsFirst(rs, rs.Order(run)))
  }

  /** A record decides its own request: same binding and nonce, decided and written before expiry. */
  predicate RecordMatches(rec: AuthorizationRecord, r: ApprovalRequest) {
    && rec.approvalRequestId == r.approvalRequestId
    && rec.runId == r.runId
    && rec.binding == r.binding
    && rec.nonceHash == r.decisionNonceHash
    && rec.decisionTimestamp < r.expiresAt
    && rec.createdAt < r.expiresAt
    && r.status == StatusFor(rec.decision)
  }

  /** The three maps of the record store agree. */
  ghost predicate RecordMapsValid(rec: RecordStore) {
    && (forall id :: id in rec.byId ==>
          rec.byId[id].authorizationRecordId == id
          && rec.byId[id].approvalRequestId in rec.byApproval
          && rec.byApproval[rec.byId[id].approvalRequestId] == id)
    && (forall a :: a in rec.byApproval ==>
          rec.byApproval[a] in rec.byId && rec.byId[rec.byApproval[a]].approvalRequestId == a)
  }

  ghost predicate RecordOrderValid(rec: RecordStore) {
    && (forall id :: id in rec.byId ==> id in rec.Order(rec.byId[id].runId))
    && (forall run, id :: id in rec.Order(run) ==> id in rec.byId && rec.byId[id].runId == run)
    && (forall run :: Distinct(rec.Order(run)))
  }

  ghost predicate RecordIndexValid(rec: RecordStore) {
    RecordMapsValid(rec) && RecordOrderValid(rec)
  }

  ghost predicate RecordsValid(rs: RequestStore, rec: RecordStore) {
    && (forall id :: id in rec.byId ==>
          rec.byId[id].approvalRequestId in rs.byId
          && RecordMatches(rec.byId[id], rs.byId[rec.byId[id].approvalRequestId]))
    && (forall a :: a in rs.byId && Decided(rs.byId[a].status) ==> a in rec.byApproval)
  }

  /** An approved run has an approved request of its own. */
  ghost predicate RunsValid(st: Stores) {
    forall run :: run in st.runs && st.runs[run].state == RunApproved ==>
      exists id :: id in st.requests.byId && st.requests.byId[id].runId == run && st.requests.byId[id].status == Approved
  }

  ghost predicate StoresValid(st: Stores) {
    && OrderValid(st.requests)
    && LineageValid(st.requests)
    && RecordIndexValid(st.records)
    && RecordsValid(st.requests, st.records)
    && RunsValid(st)
  }

  // ----- what a thread knows -----

  /** `r` was read from the store at some earlier moment. */
  ghost predicate Seen(rs: RequestStore, r: ApprovalRequest) {
    r.approvalRequestId in rs.byId && Later(r, rs.byId[r.approvalRequestId])
  }

  predicate InTime(r: ApprovalRequest, d: DecisionCall, now: Time) {
    d.submittedAt < r.expiresAt && now < r.expiresAt
  }

  /** The nonce was matched and burnt on behalf of this thread. */
  ghost predicate Began(st: Stores, r: ApprovalRequest, d: DecisionCall, now: Time) {
    && Seen(st.requests, r) && InTime(r, d, now)
    && Sha256(d.nonce) == r.decisionNonceHash
    && r.approvalRequestId in st.coord.consumedNonces
  }

  /** The replaced request can never be decided again. */
  ghost predicate Retiring(rs: RequestStore, call: ReissueCall) {
    && Seen(rs, call.original)
    && Retired(rs.byId[call.Replaced()].status)
  }

  ghost predicate CreationKnown(rs: RequestStore, k: Creation) {
    && (k.draft.parent.Some? ==>
          ReplacesValid(rs, RequestFor(k.draft, 0, 0), k.draft.parent.value))
    && (k.creator.Reissuing? ==>
          Seen(rs, k.creator.call.original) && k.draft.runId == k.creator.call.original.runId
          && k.draft.parent == Some(k.creator.call.Replaced()))
  }

  ghost predicate QueueKnown(rs: RequestStore, queue: seq<ApprovalRequest>) {
    forall x :: x in queue ==> Seen(rs, x)
  }

  predicate MayClaim(call: ReissueCall) {
    call.original.status == Pending || Retired(call.original.status)
  }

  ghost predicate DecideHolds(st: Stores, step: DecideStep) {
    match step
    case DecideLoad(_, _) => true
    case DecideLookup(r, _) => Seen(st.requests, r)
    case DecideGate(r, _) => Seen(st.requests, r)
    case DecideEligible(r, d, now) => Seen(st.requests, r) && InTime(r, d, now)
    case DecideBegin(r, d, seen, now) =>
      Seen(st.requests, r) && InTime(r, d, now) && seen.approvalRequestId == r.approvalRequestId && Seen(st.requests, seen)
    case DecideRun(r, d, now) => Began(st, r, d, now)
    case DecideCommit(r, d, now, _) => Began(st, r, d, now)
    case DecideFail(r) => Seen(st.requests, r)
  }

  ghost predicate FindHolds(rs: RequestStore, step: FindStep) {
    match step
    case ReissueRunCheck(_, _) => true
    case ReissueLoad(_, _, _) => true
    case FindMap(call, phase) => FindKnown(rs, call, phase)
    case FindMapped(call, phase, _, _) => FindKnown(rs, call, phase)
    case FindList(call, phase) => FindKnown(rs, call, phase)
  }

  ghost predicate HeldHolds(rs: RequestStore, step: HeldStep) {
    match step
    case HeldRun(call) => Seen(rs, call.original) && MayClaim(call)
    case HeldCancelNonce(call) => Retiring(rs, call)
    case HeldLive(call) => Retiring(rs, call)
    case HeldDraft(call) => Retiring(rs, call)
    case _ => Seen(rs, step.call.original)
  }

  ghost predicate CreateHolds(rs: RequestStore, step: CreateStep) {
    && CreationKnown(rs, step.creation)
    && (if step.SupersedeList? then true
        else if step.SupersedeLoop? || step.SupersedeNonce? then QueueKnown(rs, step.queue)
        else Seen(rs, step.created))
  }

  ghost predicate Holds(st: Stores, th: Thread) {
    match th
    case InDecide(step) => DecideHolds(st, step)
    case InExpiry(step) => step.ExpireLoad? || Seen(st.requests, step.request)
    case InFind(step) => FindHolds(st.requests, step)
    case InClaim(step) => Seen(st.requests, step.call.original) && (step.Eligible? || step.Waiting? || MayClaim(step.call))
    case InHeld(step) => HeldHolds(st.requests, step)
    case InCreation(step) => CreateHolds(st.requests, step)
    case InConsumer(step) => step.ConsumeLoad? || Seen(st.requests, step.request)
    case _ => true
  }

  ghost predicate FindKnown(rs: RequestStore, call: ReissueCall, phase: Phase) {
    if phase == UnderClaim then Retiring(rs, call) else Seen(rs, call.original)
  }

  ghost predicate Safe(s: System) {
    StoresValid(s.st) && forall t :: t in s.threads ==> Holds(s.st, s.threads[t])
  }

  // ----- stability: what a thread knows survives any other thread's step -----

  lemma LaterTransitive(a: ApprovalRequest, b: ApprovalRequest, c: ApprovalRequest)
    requires Later(a, b) && Later(b, c)
    ensures Later(a, c)
  {}

  lemma SeenStable(a: RequestStore, b: RequestStore, r: ApprovalRequest)
    requires RequestsEvolve(a, b) && Seen(a, r)
    ensures Seen(b, r)
  {
    LaterTransitive(r, a.byId[r.approvalRequestId], b.byId[r.approvalRequestId]);
  }

  lemma CreationStable(a: RequestStore, b: RequestStore, k: Creation)
    requires RequestsEvolve(a, b) && CreationKnown(a, k)
    ensures CreationKnown(b, k)
  {
    if k.creator.Reissuing? { SeenStable(a, b, k.creator.call.original); }
    if k.draft.parent.Some? { assert Later(a.byId[k.draft.parent.value], b.byId[k.draft.parent.value]); }
  }

  lemma HoldsStable(a: Stores, b: Stores, th: Thread)
    requires Evolves(a, b) && Holds(a, th)
    ensures Holds(b, th)
  {
    if th.InCreation? {
      var step := th.create;
      CreationStable(a.requests, b.requests, step.creation);
      if step.SupersedeLoop? || step.SupersedeNonce? {
        forall x | x in step.queue ensures Seen(b.requests, x) { SeenStable(a.requests, b.requests, x); }
      } else if !step.SupersedeList? {
        SeenStable(a.requests, b.requests, step.created);
      }
    } else if th.InDecide? && th.decide.DecideBegin? {
      SeenStable(a.requests, b.requests, th.decide.seen);
    }
  }

  // ----- the writes -----

  function Rewrite(rs: RequestStore, id: Id, r: ApprovalRequest): RequestStore {
    rs.(byId := rs.byId[id := r])
  }

  lemma RewriteOrder(rs: RequestStore, id: Id, r: ApprovalRequest)
    requires OrderValid(rs) && id in rs.byId && Later(rs.byId[id], r)
    ensures OrderValid(Rewrite(rs, id, r)) && RequestsEvolve(rs, Rewrite(rs, id, r))
  {
    var b := Rewrite(rs, id, r);
    assert forall run :: b.Order(run) == rs.Order(run);
  }

  lemma RewriteLineage(rs: RequestStore, id: Id, r: ApprovalRequest)
    requires OrderValid(rs) && LineageValid(rs) && id in rs.byId && Later(rs.byId[id], r)
    ensures LineageValid(Rewrite(rs, id, r))
  {
    var b := Rewrite(rs, id, r);
    forall a | a in b.byId && b.byId[a].parent.Some?
      ensures ReplacesValid(b, b.byId[a], b.byId[a].parent.value)
    {
      assert ReplacesValid(rs, rs.byId[a], rs.byId[a].parent.value);
    }
    forall run ensures ParentsFirst(b, b.Order(run)) {
      assert b.Order(run) == rs.Order(run) && ParentsFirst(rs, rs.Order(run));
    }
  }

  lemma MatchesLater(rec: AuthorizationRecord, a: ApprovalRequest, b: ApprovalRequest)
    requires RecordMatches(rec, a) && Later(a, b)
    ensures RecordMatches(rec, b)
  {}

  lemma RewriteRecords(rs: RequestStore, rec: RecordStore, id: Id, r: ApprovalRequest)
    requires RecordsValid(rs, rec) && id in rs.byId && Later(rs.byId[id], r) && !Decided(r.status)
    ensures RecordsValid(Rewrite(rs, id, r), rec)
  {
    forall x | x in rec.byId && rec.byId[x].approvalRequestId == id ensures RecordMatches(rec.byId[x], r) {
      MatchesLater(rec.byId[x], rs.byId[id], r);
    }
  }

  lemma RunsStay(a: Stores, b: Stores)
    requires RunsValid(a) && RequestsEvolve(a.requests, b.requests)
    requires forall q :: q in b.runs && b.runs[q].state == RunApproved ==> q in a.runs && a.runs[q].state == RunApproved
    ensures RunsValid(b)
  {
    forall q | q in b.runs && b.runs[q].state == RunApproved
      ensures exists x :: x in b.requests.byId && b.requests.byId[x].runId == q && b.requests.byId[x].status == Approved
    {
      var x :| x in a.requests.byId && a.requests.byId[x].runId == q && a.requests.byId[x].status == Approved;
      assert x in b.requests.byId && Later(a.requests.byId[x], b.requests.byId[x]);
    }
  }

  lemma StatusWrite(st: Stores, id: Id, status: RequestStatus, deliveryFailed: bool)
    requires StoresValid(st) && status != Pending && !Decided(status)
    requires st.SetStatus(id, status, deliveryFailed).Some?
    ensures var b := st.SetStatus(id, status, deliveryFailed).value;
            Evolves(st, b) && StoresValid(b) && id in b.requests.byId && b.requests.byId[id].status == status
  {
    hide OrderValid, LineageValid, RecordIndexValid, RecordsValid, RunsValid;
    var old_ := st.requests.byId[id];
    var r := old_.(status := status, deliveryFailed := old_.deliveryFailed || deliveryFailed);
    var b := st.(requests := Rewrite(st.requests, id, r));
    assert b == st.SetStatus(id, status, deliveryFailed).value;
    RewriteOrder(st.requests, id, r);
    RewriteLineage(st.requests, id, r);
    RewriteRecords(st.requests, st.records, id, r);
    RunsStay(st, b);
  }

  lemma SaveOrders(rs: RequestStore, r: ApprovalRequest, q: Id)
    requires rs.Save(r).Some?
    ensures rs.Save(r).value.Order(q) == if q == r.runId then rs.Order(q) + [r.approvalRequestId] else rs.Order(q)
  {}

  lemma SaveEvolves(rs: RequestStore, r: ApprovalRequest)
    requires rs.Save(r).Some?
    ensures RequestsEvolve(rs, rs.Save(r).value)
  {
    forall q ensures rs.Order(q) <= rs.Save(r).value.Order(q) { SaveOrders(rs, r, q); }
  }

  lemma SaveOrder(rs: RequestStore, r: ApprovalRequest)
    requires OrderValid(rs) && rs.Save(r).Some?
    ensures OrderValid(rs.Save(r).value)
  {
    var b := rs.Save(r).value;
    var id, run := r.approvalRequestId, r.runId;
    assert id !in rs.Order(run);
    forall q ensures Distinct(b.Order(q)) {
      SaveOrders(rs, r, q);
      assert Distinct(rs.Order(q));
    }
    forall q, x | x in b.Order(q) ensures x in b.byId && b.byId[x].runId == q { SaveOrders(rs, r, q); }
    forall x | x in b.byId ensures b.byId[x].approvalRequestId == x && x in b.Order(b.byId[x].runId) {
      SaveOrders(rs, r, b.byId[x].runId);
    }
  }

  lemma SaveParentsFirst(rs: RequestStore, r: ApprovalRequest, q: Id)
    requires OrderValid(rs) && ParentsFirst(rs, rs.Order(q)) && rs.Save(r).Some?
    requires r.parent.Some? ==> r.parent.value in rs.Order(r.runId)
    ensures ParentsFirst(rs.Save(r).value, rs.Save(r).value.Order(q))
  {
    var b := rs.Save(r).value;
    var before, order := rs.Order(q), b.Order(q);
    SaveOrders(rs, r, q);
    forall i | 0 <= i < |order| && order[i] in b.byId && b.byId[order[i]].parent.Some?
      ensures b.byId[order[i]].parent.value in order[..i]
    {
      if i < |before| {
        assert order[..i] == before[..i] && order[i] == before[i] && order[i] in before;
      } else {
        assert order[..i] == before;
      }
    }
  }

  lemma SaveLineage(rs: RequestStore, r: ApprovalRequest)
    requires OrderValid(rs) && LineageValid(rs) && rs.Save(r).Some?
    requires r.parent.Some? ==> ReplacesValid(rs, r, r.parent.value)
    ensures LineageValid(rs.Save(r).value)
  {
    var b := rs.Save(r).value;
    forall a | a in b.byId && b.byId[a].parent.Some?
      ensures ReplacesValid(b, b.byId[a], b.byId[a].parent.value)
    {
      assert a != r.approvalRequestId ==> ReplacesValid(rs, rs.byId[a], rs.byId[a].parent.value);
    }
    hide RequestStore.Save;
    forall q ensures ParentsFirst(b, b.Order(q)) { SaveParentsFirst(rs, r, q); }
  }

  lemma SaveRecords(rs: RequestStore, rec: RecordStore, r: ApprovalRequest)
    requires RecordsValid(rs, rec) && rs.Save(r).Some? && r.status == Pending
    ensures RecordsValid(rs.Save(r).value, rec)
  {}

  lemma SaveWrite(st: Stores, r: ApprovalRequest)
    requires StoresValid(st) && r.status == Pending
    requires r.parent.Some? ==> ReplacesValid(st.requests, r, r.parent.value)
    requires st.requests.Save(r).Some?
    ensures var b := st.(requests := st.requests.Save(r).value);
            Evolves(st, b) && StoresValid(b) && Seen(b.requests, r)
  {
    hide OrderValid, LineageValid, RecordIndexValid, RecordsValid, RunsValid;
    SaveOrder(st.requests, r);
    SaveEvolves(st.requests, r);
    SaveLineage(st.requests, r);
    SaveRecords(st.requests, st.records, r);
    RunsStay(st, st.(requests := st.requests.Save(r).value));
  }

  lemma RunWrite(st: Stores, run: Id, next: RunRecord)
    requires StoresValid(st) && next.state != RunApproved
    ensures var b := st.(runs := st.runs[run := next]); Evolves(st, b) && StoresValid(b)
  {
    hide OrderValid, LineageValid, RecordIndexValid, RecordsValid, RunsValid;
    RunsStay(st, st.(runs := st.runs[run := next]));
  }

  lemma AppendOrder(rec: RecordStore, a: AuthorizationRecord, q: Id)
    requires rec.Append(a).Some?
    ensures rec.Append(a).value.Order(q) == if q == a.runId then rec.Order(q) + [a.authorizationRecordId] else rec.Order(q)
  {}

  lemma AppendFresh(order: seq<Id>, id: Id)
    requires Distinct(order) && id !in order
    ensures Distinct(order + [id])
  {}

  lemma AppendMaps(rec: RecordStore, a: AuthorizationRecord)
    requires RecordMapsValid(rec) && rec.Append(a).Some?
    ensures RecordMapsValid(rec.Append(a).value)
  {
    var b := rec.Append(a).value;
    forall id | id in b.byId
      ensures b.byId[id].approvalRequestId in b.byApproval && b.byApproval[b.byId[id].approvalRequestId] == id
    {
      if id != a.authorizationRecordId { assert rec.byId[id].approvalRequestId in rec.byApproval; }
    }
  }

  lemma AppendOrders(rec: RecordStore, a: AuthorizationRecord, q: Id)
    requires RecordOrderValid(rec) && rec.Append(a).Some?
    ensures var b := rec.Append(a).value;
            Distinct(b.Order(q)) && forall id :: id in b.Order(q) ==> id in b.byId && b.byId[id].runId == q
  {
    AppendOrder(rec, a, q);
    assert Distinct(rec.Order(q)) && a.authorizationRecordId !in rec.Order(q);
    AppendFresh(rec.Order(q), a.authorizationRecordId);
  }

  lemma AppendIndex(rec: RecordStore, a: AuthorizationRecord)
    requires RecordIndexValid(rec) && rec.Append(a).Some?
    ensures RecordIndexValid(rec.Append(a).value)
  {
    AppendMaps(rec, a);
    hide RecordMapsValid, Distinct;
    var b := rec.Append(a).value;
    forall id | id in b.byId ensures id in b.Order(b.byId[id].runId) { AppendOrder(rec, a, b.byId[id].runId); }
    forall q ensures Distinct(b.Order(q)) && forall id :: id in b.Order(q) ==> id in b.byId && b.byId[id].runId == q {
      AppendOrders(rec, a, q);
    }
  }

  lemma AppendRecords(rs: RequestStore, rec: RecordStore, r: ApprovalRequest, a: AuthorizationRecord)
    requires RecordsValid(rs, rec) && RecordIndexValid(rec)
    requires rec.Append(a).Some? && a.approvalRequestId in rs.byId && RecordMatches(a, r)
    ensures RecordsValid(Rewrite(rs, a.approvalRequestId, r), rec.Append(a).value)
  {
    var b := rec.Append(a).value;
    forall x | x in b.byId
      ensures b.byId[x].approvalRequestId in rs.byId
              && (b.byId[x].approvalRequestId == a.approvalRequestId ==> b.byId[x] == a)
    {
      if x != a.authorizationRecordId { assert rec.byId[x].approvalRequestId in rec.byApproval; }
    }
  }

  /** A decision that commits finds its request PENDING. */
  lemma DecidedOnce(st: Stores, rec: AuthorizationRecord)
    requires RecordsValid(st.requests, st.records)
    requires st.records.Append(rec).Some?
    requires st.requests.UpdateStatus(rec.approvalRequestId, StatusFor(rec.decision), false).Some?
    ensures st.requests.byId[rec.approvalRequestId].status == Pending
  {}

  /** Approving a request of a run supports the run being approved. */
  lemma RunApprovedByRequest(st: Stores, run: Id, next: RunRecord, a: Id)
    requires RunsValid(st)
    requires next.state == RunApproved ==>
               a in st.requests.byId && st.requests.byId[a].runId == run && st.requests.byId[a].status == Approved
    ensures RunsValid(st.(runs := st.runs[run := next]))
  {}

  lemma CommitShape(st: Stores, rec: AuthorizationRecord, seen: RunRecord)
    requires st.CommitDecision(rec, seen).Some? && st.requests.IsPending(rec.approvalRequestId)
    ensures var b := st.CommitDecision(rec, seen).value;
            var a := rec.approvalRequestId;
            && st.records.Append(rec).Some? && b.records == st.records.Append(rec).value
            && b.requests == Rewrite(st.requests, a, st.requests.byId[a].(status := StatusFor(rec.decision)))
            && b.runs == st.runs[rec.runId := RunRecord(RunStateFor(rec.decision), seen.recordRevision + 1)]
            && b.coord == st.coord.CompleteDecision(a)
  {}

  lemma RecordForMatches(r: ApprovalRequest, d: DecisionCall, now: Time, id: Id, decided: ApprovalRequest)
    requires SameBinding(r, decided) && InTime(r, d, now) && Sha256(d.nonce) == r.decisionNonceHash
    requires decided.status == StatusFor(d.decision)
    ensures RecordMatches(RecordFor(r, d, now, id), decided)
  {}

  lemma DecisionWrite(st: Stores, r: ApprovalRequest, d: DecisionCall, now: Time, id: Id, run: RunRecord)
    requires StoresValid(st) && Began(st, r, d, now)
    requires st.CommitDecision(RecordFor(r, d, now, id), run).Some?
    ensures var b := st.CommitDecision(RecordFor(r, d, now, id), run).value; Evolves(st, b) && StoresValid(b)
  {
    hide OrderValid, LineageValid, RecordIndexValid, RecordsValid, RunsValid, RequestsEvolve;
    var rec := RecordFor(r, d, now, id);
    var b := st.CommitDecision(rec, run).value;
    var a := r.approvalRequestId;
    DecidedOnce(st, rec);
    CommitShape(st, rec, run);
    hide Stores.CommitDecision;
    var decided := st.requests.byId[a].(status := StatusFor(d.decision));
    RewriteOrder(st.requests, a, decided);
    RewriteLineage(st.requests, a, decided);
    AppendIndex(st.records, rec);
    RecordForMatches(r, d, now, id, decided);
    AppendRecords(st.requests, st.records, decided, rec);
    var c := b.(runs := st.runs);
    RunsStay(st, c);
    RunApprovedByRequest(c, r.runId, RunRecord(RunStateFor(d.decision), run.recordRevision + 1), a);
  }

  lemma CoordWrite(st: Stores, c: Coordinator)
    requires StoresValid(st)
    requires st.coord.consumedNonces <= c.consumedNonces && st.coord.invalidatedNonces <= c.invalidatedNonces
    ensures Evolves(st, st.(coord := c)) && StoresValid(st.(coord := c))
  {
    hide OrderValid, LineageValid, RecordIndexValid, RecordsValid, RunsValid;
    RunsStay(st, st.(coord := c));
  }

  lemma Loaded(st: Stores, id: Id)
    requires StoresValid(st) && id in st.requests.byId
    ensures Seen(st.requests, st.requests.byId[id]) && st.requests.byId[id].approvalRequestId == id
  {}

  lemma ListedOrder(rs: RequestStore, run: Id, i: nat)
    requires OrderValid(rs) && i < |rs.Order(run)|
    ensures |rs.ListByRun(run)| == |rs.Order(run)| && rs.Order(run)[i] in rs.byId
    ensures rs.ListByRun(run)[i] == rs.byId[rs.Order(run)[i]]
  {
    var order := rs.Order(run);
    assert forall j :: 0 <= j < |order| ==> order[j] in order;
  }

  /** `listByRun` returns the requests of the run, all of them and nothing else. */
  lemma Listed(rs: RequestStore, run: Id, x: ApprovalRequest)
    requires OrderValid(rs)
    ensures x in rs.ListByRun(run) <==>
              x.approvalRequestId in rs.byId && rs.byId[x.approvalRequestId] == x && x.runId == run
  {
    var order := rs.Order(run);
    if x in rs.ListByRun(run) {
      var id :| id in order && id in rs.byId && rs.byId[id] == x;
    } else if x.approvalRequestId in rs.byId && rs.byId[x.approvalRequestId] == x && x.runId == run {
      var i :| 0 <= i < |order| && order[i] == x.approvalRequestId;
      ListedOrder(rs, run, i);
      assert false;
    }
  }

  lemma ListedSeen(st: Stores, run: Id)
    requires StoresValid(st)
    ensures forall x :: x in st.requests.ListByRun(run) ==>
              x.runId == run && x.approvalRequestId in st.requests.byId && st.requests.byId[x.approvalRequestId] == x
    ensures QueueKnown(st.requests, AllPending(st.requests, run))
  {
    forall x | x in st.requests.ListByRun(run)
      ensures x.runId == run && x.approvalRequestId in st.requests.byId && st.requests.byId[x.approvalRequestId] == x
    {
      Listed(st.requests, run, x);
    }
  }

  // ----- every step of every thread -----

  ghost predicate StepOk(st: Stores, o: Outcome) {
    Evolves(st, o.st) && StoresValid(o.st) && Holds(o.st, o.th)
  }

  lemma DecideSafe(st: Stores, step: DecideStep, ch: Choice)
    requires StoresValid(st) && DecideHolds(st, step)
    ensures StepOk(st, NextDecide(st, step, ch))
  {
    hide StoresValid, Evolves;
    CoordWrite(st, st.coord);
    match step
    case DecideLoad(id, _) => if id in st.requests.byId { Loaded(st, id); }
    case DecideLookup(_, _) =>
    case DecideGate(r, d) =>
      Loaded(st, r.approvalRequestId);
      if st.SetStatus(r.approvalRequestId, Expired, false).Some? { StatusWrite(st, r.approvalRequestId, Expired, false); }
    case DecideEligible(r, _, _) => Loaded(st, r.approvalRequestId);
    case DecideBegin(r, d, seen, now) =>
      var c := st.coord.BeginDecision(seen, d.nonce);
      if c.Some? { CoordWrite(st, c.value); }
    case DecideRun(_, _, _) =>
    case DecideCommit(r, d, now, run) =>
      if st.CommitDecision(RecordFor(r, d, now, ch.freshId), run).Some? { DecisionWrite(st, r, d, now, ch.freshId, run); }
    case DecideFail(r) => CoordWrite(st, st.coord.FailDecision(r.approvalRequestId));
  }

  lemma ExpireSafe(st: Stores, step: ExpiryStep, ch: Choice)
    requires StoresValid(st) && Holds(st, InExpiry(step))
    ensures StepOk(st, NextExpire(st, step, ch))
  {
    hide StoresValid, Evolves;
    CoordWrite(st, st.coord);
    match step
    case ExpireLoad(id) => if id in st.requests.byId { Loaded(st, id); }
    case ExpireSeen(r) =>
      if st.SetStatus(r.approvalRequestId, Expired, false).Some? { StatusWrite(st, r.approvalRequestId, Expired, false); }
    case ExpireNonce(r) => CoordWrite(st, st.coord.InvalidateNonce(r.approvalRequestId));
    case ExpireRun(_) =>
    case ExpireCommit(r, run) => RunWrite(st, r.runId, RunRecord(RunExpired, run.recordRevision + 1));
  }

  lemma FindSafe(st: Stores, step: FindStep, ch: Choice)
    requires StoresValid(st) && FindHolds(st.requests, step)
    ensures StepOk(st, NextFind(st, step, ch))
  {
    hide StoresValid, Evolves;
    CoordWrite(st, st.coord);
    if step.ReissueLoad? && step.id in st.requests.byId { Loaded(st, step.id); }
    if step.FindMapped? { CoordWrite(st, st.coord.ForgetReplacement(step.call.Replaced())); }
  }

  lemma ClaimSafe(st: Stores, step: ClaimStep, ch: Choice)
    requires StoresValid(st) && Holds(st, InClaim(step))
    ensures StepOk(st, NextClaim(st, step, ch))
  {
    hide StoresValid, Evolves;
    CoordWrite(st, st.coord);
    CoordWrite(st, st.coord.ForgetReplacement(step.call.Replaced()));
    CoordWrite(st, st.coord.Claim(step.call.Replaced()));
  }

  lemma HeldSafe(st: Stores, step: HeldStep, ch: Choice)
    requires StoresValid(st) && HeldHolds(st.requests, step)
    ensures StepOk(st, NextHeld(st, step, ch))
  {
    hide StoresValid, Evolves;
    CoordWrite(st, st.coord);
    var call := step.call;
    match step
    case HeldInvalidate(_) => CoordWrite(st, st.coord.InvalidateNonce(call.Replaced()));
    case HeldCancel(_) =>
      if st.SetStatus(call.Replaced(), Cancelled, false).Some? {
        StatusWrite(st, call.Replaced(), Cancelled, false);
        HoldsStable(st, st.SetStatus(call.Replaced(), Cancelled, false).value, InHeld(step));
      }
    case HeldCancelNonce(_) => CoordWrite(st, st.coord.InvalidateNonce(call.Replaced()));
    case HeldComplete(_, id) => CoordWrite(st, st.coord.CompleteReissue(call.Replaced(), id));
    case Release(_) => CoordWrite(st, st.coord.FailReissue(call.Replaced()));
    case LateRelease(_) => CoordWrite(st, st.coord.FailReissue(call.Replaced()));
    case _ =>
  }

  lemma RouteSafe(st: Stores, step: RouteStep, ch: Choice)
    requires StoresValid(st)
    ensures StepOk(st, NextRoute(st, step, ch))
  {
    hide StoresValid, Evolves;
    CoordWrite(st, st.coord);
    match step
    case RouteBlockCommit(runId, run) => RunWrite(st, runId, RunRecord(Blocked, run.recordRevision + 1));
    case RouteMapped(run, draft, live) =>
      CoordWrite(st, st.coord.(pendingByBinding := st.coord.pendingByBinding - {KeyOf(draft.runId, draft.binding)}));
    case RouteHistory(run, draft) => ListedSeen(st, draft.runId);
    case _ =>
  }

  lemma SupersedeSafe(st: Stores, step: CreateStep, ch: Choice)
    requires StoresValid(st) && CreateHolds(st.requests, step)
    requires step.SupersedeList? || step.SupersedeLoop? || step.SupersedeNonce?
    ensures StepOk(st, NextCreate(st, step, ch))
  {
    hide StoresValid, Evolves;
    CoordWrite(st, st.coord);
    if step.SupersedeList? {
      ListedSeen(st, step.creation.draft.runId);
    } else if step.queue == [] {
      var created := RequestFor(step.creation.draft, ch.freshId, ch.nonce);
      if st.requests.Save(created).Some? {
        SaveWrite(st, created);
        HoldsStable(st, st.(requests := st.requests.Save(created).value), InCreation(step));
      }
    } else if step.SupersedeLoop? {
      var write := st.SetStatus(step.queue[0].approvalRequestId, Superseded, false);
      if write.Some? {
        StatusWrite(st, step.queue[0].approvalRequestId, Superseded, false);
        HoldsStable(st, write.value, InCreation(step));
      }
    } else {
      CoordWrite(st, st.coord.InvalidateNonce(step.queue[0].approvalRequestId));
    }
  }

  lemma DeliverSafe(st: Stores, step: CreateStep, ch: Choice)
    requires StoresValid(st) && CreateHolds(st.requests, step)
    requires !step.SupersedeList? && !step.SupersedeLoop? && !step.SupersedeNonce?
    ensures StepOk(st, NextCreate(st, step, ch))
  {
    hide StoresValid, Evolves;
    CoordWrite(st, st.coord);
    var k, created := step.creation, step.created;
    match step
    case DeliverFailed(_, _) =>
      if st.SetStatus(created.approvalRequestId, Cancelled, true).Some? {
        StatusWrite(st, created.approvalRequestId, Cancelled, true);
        HoldsStable(st, st.SetStatus(created.approvalRequestId, Cancelled, true).value, InCreation(step));
      }
    case DeliverFailedNonce(_, _) => CoordWrite(st, st.coord.InvalidateNonce(created.approvalRequestId));
    case Register(_, _) =>
      var c := st.coord.RegisterPending(created.approvalRequestId, KeyOf(created.runId, created.binding));
      if c.Some? { CoordWrite(st, c.value); }
    case AfterRegister(_, _) =>
      if k.creator.Routing? { RunWrite(st, created.runId, RunRecord(AwaitingApproval, k.creator.seen.recordRevision + 1)); }
    case _ =>
  }

  lemma ConsumeSafe(st: Stores, step: ConsumeStep, ch: Choice)
    requires StoresValid(st) && Holds(st, InConsumer(step))
    ensures StepOk(st, NextConsume(st, step, ch))
  {
    hide StoresValid, Evolves;
    CoordWrite(st, st.coord);
    match step
    case ConsumeLoad(id) => if id in st.requests.byId { Loaded(st, id); }
    case ConsumeFailed(r) =>
      if st.SetStatus(r.approvalRequestId, Cancelled, true).Some? { StatusWrite(st, r.approvalRequestId, Cancelled, true); }
    case ConsumeFailedNonce(r) => CoordWrite(st, st.coord.InvalidateNonce(r.approvalRequestId));
    case ConsumeRegister(r) =>
      var c := st.coord.RegisterPending(r.approvalRequestId, KeyOf(r.runId, r.binding));
      if c.Some? { CoordWrite(st, c.value); }
    case ConsumeCommit(r, run) => RunWrite(st, r.runId, RunRecord(AwaitingApproval, run.recordRevision + 1));
    case _ =>
  }

  lemma NextSafe(st: Stores, th: Thread, ch: Choice)
    requires StoresValid(st) && Holds(st, th)
    ensures StepOk(st, Next(st, th, ch))
  {
    hide StoresValid, Evolves;
    match th
    case Done => CoordWrite(st, st.coord);
    case InDecide(step) => DecideSafe(st, step, ch);
    case InExpiry(step) => ExpireSafe(st, step, ch);
    case InFind(step) => FindSafe(st, step, ch);
    case InClaim(step) => ClaimSafe(st, step, ch);
    case InHeld(step) => HeldSafe(st, step, ch);
    case InRoute(step) => RouteSafe(st, step, ch);
    case InCreation(step) =>
      if step.SupersedeList? || step.SupersedeLoop? || step.SupersedeNonce? { SupersedeSafe(st, step, ch); }
      else { DeliverSafe(st, step, ch); }
    case InConsumer(step) => ConsumeSafe(st, step, ch);
  }
}
