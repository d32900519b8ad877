/**
 * Calls that do not overlap: one PENDING request per run, and a faithful binding index.
 *
 * Here a call starts only when every earlier call has ended; other services may still move runs
 * at any moment.
 */
module ApprovalSerial {
  import opened Wrappers
  import opened ApprovalDomain
  import opened ApprovalStores
  import opened ApprovalProtocol
  import opened ApprovalSafety
  import opened ApprovalTheorems
  import opened ApprovalReissue

  ghost predicate Quiet(s: System) {
    forall t :: t in s.threads ==> s.threads[t] == Done
  }

  /** Every call starts from a quiet system. */
  ghost predicate Serial(labels: seq<Label>)
    requires Schedule(labels)
  {
    forall i :: 0 <= i < |labels| && labels[i].Start? && Schedule(labels[..i]) ==> Quiet(After(labels[..i]))
  }

  ghost predicate OnePending(rs: RequestStore) {
    forall x, y :: rs.IsPending(x) && rs.IsPending(y) && rs.byId[x].runId == rs.byId[y].runId ==> x == y
  }

  /** The request whose status is written but whose nonce is not yet invalidated. */
  function Closing(th: Thread): Option<Id> {
    match th
    case InExpiry(e) => if e.ExpireNonce? then Some(e.request.approvalRequestId) else None
    case InHeld(h) => if h.HeldCancelNonce? then Some(h.call.Replaced()) else None
    case InCreation(c) =>
      if c.SupersedeNonce? && c.queue != [] then Some(c.queue[0].approvalRequestId)
      else if c.DeliverFailedNonce? then Some(c.created.approvalRequestId) else None
    case InConsumer(c) => if c.ConsumeFailedNonce? then Some(c.request.approvalRequestId) else None
    case _ => None
  }

  /** An index entry names a PENDING request under that request's own key. */
  ghost predicate EntryLive(st: Stores, key: BindingKey, closing: Option<Id>)
    requires key in st.coord.pendingByBinding
  {
    var id := st.coord.pendingByBinding[key];
    && id in st.requests.byId
    && key == KeyOf(st.requests.byId[id].runId, st.requests.byId[id].binding)
    && (st.requests.byId[id].status == Pending || closing == Some(id))
  }

  ghost predicate IndexLive(st: Stores, closing: Option<Id>) {
    forall key :: key in st.coord.pendingByBinding ==> EntryLive(st, key, closing)
  }

  ghost predicate Unindexed(st: Stores, id: Id) {
    forall key :: key in st.coord.pendingByBinding ==> st.coord.pendingByBinding[key] != id
  }

  /** What the one call in flight may count on, since nobody else moves. */
  ghost predicate Alone(st: Stores, th: Thread) {
    match th
    case InHeld(h) => h.HeldCancel? && h.call.service == Recover ==> Unindexed(st, h.call.Replaced())
    case InCreation(c) =>
      if c.SupersedeLoop? then PendingQueued(st.requests, c.creation.draft.runId, c.queue)
      else if c.SupersedeNonce? then c.queue != [] && PendingQueued(st.requests, c.creation.draft.runId, c.queue[1..])
      else c.Deliver? || c.Register? ==> st.requests.IsPending(c.created.approvalRequestId)
    case InConsumer(c) => c.ConsumeRegister? ==> st.requests.IsPending(c.request.approvalRequestId)
    case _ => true
  }

  ghost predicate LocalOk(st: Stores, th: Thread) {
    OnePending(st.requests) && IndexLive(st, Closing(th)) && Alone(st, th)
  }

  ghost predicate SerialInv(s: System) {
    && (forall t, u :: t in s.threads && u in s.threads && t != u ==> s.threads[t] == Done || s.threads[u] == Done)
    && (forall t :: t in s.threads && s.threads[t] != Done ==> LocalOk(s.st, s.threads[t]))
    && (Quiet(s) ==> LocalOk(s.st, Done))
  }

  // ----- the writes -----

  lemma PendingShrinksOne(a: RequestStore, b: RequestStore)
    requires OnePending(a) && PendingShrinks(a, b)
    ensures OnePending(b)
  {}

  /** A status write may close the request it writes, and no other. */
  lemma StatusCloses(st: Stores, id: Id, status: RequestStatus, deliveryFailed: bool, closing: Option<Id>)
    requires status != Pending && st.SetStatus(id, status, deliveryFailed).Some?
    requires OnePending(st.requests) && IndexLive(st, None) && (closing == Some(id) || Unindexed(st, id))
    ensures var b := st.SetStatus(id, status, deliveryFailed).value;
            OnePending(b.requests) && IndexLive(b, closing)
  {
    var b := st.SetStatus(id, status, deliveryFailed).value;
    StatusShrinks(st, id, status, deliveryFailed);
    PendingShrinksOne(st.requests, b.requests);
    forall key | key in b.coord.pendingByBinding ensures EntryLive(b, key, closing) {
      assert EntryLive(st, key, None);
    }
  }

  /** `invalidateNonce` ends the closing of its request. */
  lemma InvalidateCloses(st: Stores, id: Id)
    requires IndexLive(st, Some(id)) || IndexLive(st, None)
    ensures var b := st.(coord := st.coord.InvalidateNonce(id)); IndexLive(b, None) && Unindexed(b, id)
  {
    var b := st.(coord := st.coord.InvalidateNonce(id));
    forall key | key in b.coord.pendingByBinding ensures EntryLive(b, key, None) {
      assert key in st.coord.pendingByBinding && b.coord.pendingByBinding[key] == st.coord.pendingByBinding[key];
    }
  }

  lemma RegisterLive(st: Stores, r: ApprovalRequest)
    requires IndexLive(st, None) && Seen(st.requests, r) && st.requests.IsPending(r.approvalRequestId)
    ensures var c := st.coord.RegisterPending(r.approvalRequestId, KeyOf(r.runId, r.binding));
            c.Some? ==> IndexLive(st.(coord := c.value), None)
  {
    var c := st.coord.RegisterPending(r.approvalRequestId, KeyOf(r.runId, r.binding));
    if c.Some? {
      var b := st.(coord := c.value);
      forall key | key in b.coord.pendingByBinding ensures EntryLive(b, key, None) {
        if key in st.coord.pendingByBinding { assert EntryLive(st, key, None); }
      }
    }
  }

  lemma RunsDoNotMatter(st: Stores, runs: map<Id, RunRecord>, closing: Option<Id>)
    requires IndexLive(st, closing)
    ensures IndexLive(st.(runs := runs), closing)
  {
    forall key | key in st.coord.pendingByBinding ensures EntryLive(st.(runs := runs), key, closing) {
      assert EntryLive(st, key, closing);
    }
  }

  lemma CommitCloses(st: Stores, rec: AuthorizationRecord, seen: RunRecord)
    requires RecordsValid(st.requests, st.records) && OnePending(st.requests) && IndexLive(st, None)
    requires st.CommitDecision(rec, seen).Some?
    ensures var b := st.CommitDecision(rec, seen).value; OnePending(b.requests) && IndexLive(b, None)
  {
    var b := st.CommitDecision(rec, seen).value;
    DecidedOnce(st, rec);
    CommitShape(st, rec, seen);
    CommitShrinks(st, rec, seen);
    PendingShrinksOne(st.requests, b.requests);
    hide Stores.CommitDecision;
    forall key | key in b.coord.pendingByBinding ensures EntryLive(b, key, None) {
      assert key in st.coord.pendingByBinding && b.coord.pendingByBinding[key] == st.coord.pendingByBinding[key];
      assert EntryLive(st, key, None);
    }
  }

  lemma SaveLive(st: Stores, draft: Draft, id: Id, nonce: nat)
    requires OnePending(st.requests) && IndexLive(st, None) && PendingQueued(st.requests, draft.runId, [])
    requires st.requests.Save(RequestFor(draft, id, nonce)).Some?
    ensures var b := st.(requests := st.requests.Save(RequestFor(draft, id, nonce)).value);
            OnePending(b.requests) && IndexLive(b, None) && b.requests.IsPending(id)
  {
    var b := st.(requests := st.requests.Save(RequestFor(draft, id, nonce)).value);
    forall x | st.requests.IsPending(x) ensures st.requests.byId[x].runId != draft.runId { assert !Queued([], x); }
    forall key | key in b.coord.pendingByBinding ensures EntryLive(b, key, None) { assert EntryLive(st, key, None); }
  }

  // ----- every step -----

  lemma DecideAlone(st: Stores, step: DecideStep, ch: Choice)
    requires StoresValid(st) && LocalOk(st, InDecide(step))
    ensures LocalOk(NextDecide(st, step, ch).st, NextDecide(st, step, ch).th)
  {
    hide OnePending, IndexLive, OrderValid, LineageValid, RecordsValid, RecordIndexValid, RunsValid;
    match step
    case DecideGate(r, d) =>
      if st.SetStatus(r.approvalRequestId, Expired, false).Some? {
        StatusCloses(st, r.approvalRequestId, Expired, false, Some(r.approvalRequestId));
      }
    case DecideBegin(r, d, seen, now) =>
      var c := st.coord.BeginDecision(seen, d.nonce);
      if c.Some? { SameIndex(st, c.value); }
    case DecideCommit(r, d, now, run) =>
      var rec := RecordFor(r, d, now, ch.freshId);
      if st.CommitDecision(rec, run).Some? { CommitCloses(st, rec, run); }
    case DecideFail(r) => SameIndex(st, st.coord.FailDecision(r.approvalRequestId));
    case _ =>
  }

  lemma SameIndex(st: Stores, c: Coordinator)
    requires IndexLive(st, None) && c.pendingByBinding == st.coord.pendingByBinding
    ensures IndexLive(st.(coord := c), None)
  {
    forall key | key in c.pendingByBinding ensures EntryLive(st.(coord := c), key, None) {
      assert EntryLive(st, key, None);
    }
  }

  lemma ExpireAlone(st: Stores, step: ExpiryStep, ch: Choice)
    requires LocalOk(st, InExpiry(step))
    ensures LocalOk(NextExpire(st, step, ch).st, NextExpire(st, step, ch).th)
  {
    hide OnePending, IndexLive;
    match step
    case ExpireSeen(r) =>
      if st.SetStatus(r.approvalRequestId, Expired, false).Some? {
        StatusCloses(st, r.approvalRequestId, Expired, false, Some(r.approvalRequestId));
      }
    case ExpireNonce(r) => InvalidateCloses(st, r.approvalRequestId);
    case ExpireCommit(r, run) => RunsDoNotMatter(st, st.runs[r.runId := RunRecord(RunExpired, run.recordRevision + 1)], None);
    case _ =>
  }

  lemma FindAlone(st: Stores, step: FindStep, ch: Choice)
    requires LocalOk(st, InFind(step))
    ensures LocalOk(NextFind(st, step, ch).st, NextFind(st, step, ch).th)
  {
    hide OnePending, IndexLive;
    if step.FindMapped? { SameIndex(st, st.coord.ForgetReplacement(step.call.Replaced())); }
  }

  lemma ClaimAlone(st: Stores, step: ClaimStep, ch: Choice)
    requires LocalOk(st, InClaim(step))
    ensures LocalOk(NextClaim(st, step, ch).st, NextClaim(st, step, ch).th)
  {
    hide OnePending, IndexLive;
    SameIndex(st, st.coord.ForgetReplacement(step.call.Replaced()));
    SameIndex(st, st.coord.Claim(step.call.Replaced()));
  }

  lemma HeldAlone(st: Stores, step: HeldStep, ch: Choice)
    requires LocalOk(st, InHeld(step))
    ensures LocalOk(NextHeld(st, step, ch).st, NextHeld(st, step, ch).th)
  {
    hide OnePending, IndexLive, Unindexed;
    var id := step.call.Replaced();
    match step
    case HeldInvalidate(_) => InvalidateCloses(st, id);
    case HeldCancel(call) =>
      if st.SetStatus(id, Cancelled, false).Some? {
        StatusCloses(st, id, Cancelled, false, if call.service == Recover then None else Some(id));
      }
    case HeldCancelNonce(_) => InvalidateCloses(st, id);
    case HeldComplete(_, x) => SameIndex(st, st.coord.CompleteReissue(id, x));
    case Release(_) => SameIndex(st, st.coord.FailReissue(id));
    case LateRelease(_) => SameIndex(st, st.coord.FailReissue(id));
    case _ =>
  }

  lemma RouteAlone(st: Stores, step: RouteStep, ch: Choice)
    requires LocalOk(st, InRoute(step))
    ensures LocalOk(NextRoute(st, step, ch).st, NextRoute(st, step, ch).th)
  {
    hide OnePending;
    match step
    case RouteBlockCommit(runId, run) => RunsDoNotMatter(st, st.runs[runId := RunRecord(Blocked, run.recordRevision + 1)], None);
    case RouteMapped(run, draft, live) => DropEntry(st, KeyOf(draft.runId, draft.binding));
    case _ =>
  }

  lemma DropEntry(st: Stores, key: BindingKey)
    requires IndexLive(st, None)
    ensures IndexLive(st.(coord := st.coord.(pendingByBinding := st.coord.pendingByBinding - {key})), None)
  {
    var b := st.(coord := st.coord.(pendingByBinding := st.coord.pendingByBinding - {key}));
    forall k | k in b.coord.pendingByBinding ensures EntryLive(b, k, None) { assert EntryLive(st, k, None); }
  }

  lemma SupersedeAlone(st: Stores, step: CreateStep, ch: Choice)
    requires StoresValid(st) && LocalOk(st, InCreation(step)) && Superseding(step)
    ensures LocalOk(NextCreate(st, step, ch).st, NextCreate(st, step, ch).th)
  {
    hide OnePending, IndexLive, PendingQueued, LineageValid, RecordsValid, RecordIndexValid, RunsValid;
    var runId := step.creation.draft.runId;
    if step.SupersedeList? {
      AllQueued(st.requests, runId);
    } else if step.queue == [] {
      if st.requests.Save(RequestFor(step.creation.draft, ch.freshId, ch.nonce)).Some? {
        SaveLive(st, step.creation.draft, ch.freshId, ch.nonce);
      }
    } else if step.SupersedeLoop? {
      var id := step.queue[0].approvalRequestId;
      if st.SetStatus(id, Superseded, false).Some? {
        StatusCloses(st, id, Superseded, false, Some(id));
        QueueAdvances(st, runId, step.queue);
      }
    } else {
      InvalidateCloses(st, step.queue[0].approvalRequestId);
    }
  }

  lemma QueueAdvances(st: Stores, runId: Id, queue: seq<ApprovalRequest>)
    requires queue != [] && PendingQueued(st.requests, runId, queue)
    requires st.SetStatus(queue[0].approvalRequestId, Superseded, false).Some?
    ensures PendingQueued(st.SetStatus(queue[0].approvalRequestId, Superseded, false).value.requests, runId, queue[1..])
  {
    assert forall x :: Queued(queue, x) ==> x == queue[0].approvalRequestId || Queued(queue[1..], x);
  }

  lemma DeliverAlone(st: Stores, step: CreateStep, ch: Choice)
    requires Holds(st, InCreation(step)) && LocalOk(st, InCreation(step)) && !Superseding(step)
    ensures LocalOk(NextCreate(st, step, ch).st, NextCreate(st, step, ch).th)
  {
    hide OnePending, IndexLive;
    var created := step.created;
    var id := created.approvalRequestId;
    match step
    case DeliverFailed(_, _) =>
      if st.SetStatus(id, Cancelled, true).Some? { StatusCloses(st, id, Cancelled, true, Some(id)); }
    case DeliverFailedNonce(_, _) => InvalidateCloses(st, id);
    case Register(_, _) => RegisterLive(st, created);
    case AfterRegister(k, _) =>
      if k.creator.Routing? {
        RunsDoNotMatter(st, st.runs[created.runId := RunRecord(AwaitingApproval, k.creator.seen.recordRevision + 1)], None);
      }
    case _ =>
  }

  lemma ConsumeAlone(st: Stores, step: ConsumeStep, ch: Choice)
    requires Holds(st, InConsumer(step)) && LocalOk(st, InConsumer(step))
    ensures LocalOk(NextConsume(st, step, ch).st, NextConsume(st, step, ch).th)
  {
    hide OnePending, IndexLive;
    match step
    case ConsumeFailed(r) =>
      if st.SetStatus(r.approvalRequestId, Cancelled, true).Some? {
        StatusCloses(st, r.approvalRequestId, Cancelled, true, Some(r.approvalRequestId));
      }
    case ConsumeFailedNonce(r) => InvalidateCloses(st, r.approvalRequestId);
    case ConsumeRegister(r) => RegisterLive(st, r);
    case ConsumeCommit(r, run) => RunsDoNotMatter(st, st.runs[r.runId := RunRecord(AwaitingApproval, run.recordRevision + 1)], None);
    case _ =>
  }

  lemma NextAlone(st: Stores, th: Thread, ch: Choice)
    requires StoresValid(st) && Holds(st, th) && LocalOk(st, th)
    ensures LocalOk(Next(st, th, ch).st, Next(st, th, ch).th)
  {
    hide LocalOk, StoresValid;
    match th
    case Done =>
    case InDecide(step) => DecideAlone(st, step, ch);
    case InExpiry(step) => ExpireAlone(st, step, ch);
    case InFind(step) => FindAlone(st, step, ch);
    case InClaim(step) => ClaimAlone(st, step, ch);
    case InHeld(step) => HeldAlone(st, step, ch);
    case InRoute(step) => RouteAlone(st, step, ch);
    case InCreation(step) =>
      if Superseding(step) { SupersedeAlone(st, step, ch); } else { DeliverAlone(st, step, ch); }
    case InConsumer(step) => ConsumeAlone(st, step, ch);
  }

  lemma MoveSerial(s: System, t: nat, ch: Choice)
    requires Safe(s) && SerialInv(s) && t in s.threads
    ensures SerialInv(Apply(s, Move(t, ch)))
  {
    hide LocalOk, StoresValid, Holds;
    var th := s.threads[t];
    if th == Done {
      assert Apply(s, Move(t, ch)).threads == s.threads;
    } else {
      NextAlone(s.st, th, ch);
      hide Next;
      var b := Apply(s, Move(t, ch));
      assert b.threads[t] == Next(s.st, th, ch).th;
    }
  }

  lemma StartSerial(s: System, t: nat, th: Thread)
    requires SerialInv(s) && Quiet(s) && Enabled(s, Start(t, th))
    ensures SerialInv(Apply(s, Start(t, th)))
  {
    assert Closing(th).None? && Alone(s.st, th);
    hide OnePending, IndexLive, Alone;
  }

  lemma OtherSerial(s: System, runId: Id, run: RunRecord)
    requires SerialInv(s) && Enabled(s, OtherPhase(runId, run))
    ensures SerialInv(Apply(s, OtherPhase(runId, run)))
  {
    hide OnePending, IndexLive;
    var b := Apply(s, OtherPhase(runId, run));
    forall th | LocalOk(s.st, th) ensures LocalOk(b.st, th) { RunsDoNotMatter(s.st, b.st.runs, Closing(th)); }
  }

  lemma {:induction false} RunSerial(labels: seq<Label>)
    requires Schedule(labels) && Serial(labels)
    ensures SerialInv(After(labels))
  {
    if labels != [] {
      var n := |labels| - 1;
      var front := labels[..n];
      assert forall i :: 0 <= i < n ==> front[..i] == labels[..i];
      RunSerial(front);
      RunSafe(front);
      hide SerialInv, Safe;
      match labels[n]
      case Move(t, ch) => MoveSerial(After(front), t, ch);
      case Start(t, th) => StartSerial(After(front), t, th);
      case OtherPhase(runId, run) => OtherSerial(After(front), runId, run);
    }
  }

  /**
   * When calls do not overlap, a run has at most one PENDING request at every moment, and between
   * calls every entry of the binding index names a PENDING request under that request's own key.
   */
  lemma SerialRuns(labels: seq<Label>)
    requires Schedule(labels) && Serial(labels)
    ensures OnePending(After(labels).st.requests)
    ensures Quiet(After(labels)) ==> IndexLive(After(labels).st, None)
  {
    RunSerial(labels);
    var s := After(labels);
    if !Quiet(s) {
      var t :| t in s.threads && s.threads[t] != Done;
      assert LocalOk(s.st, s.threads[t]);
    }
  }
}
