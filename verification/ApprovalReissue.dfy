/**
 * Reissue exclusion: a replaced request has at most one PENDING replacement.
 *
 * Any number of recoveries and reissues may interleave. Two things are asked of the schedule:
 * a routing call that is creating a request in a run is the only one creating there, and the
 * audit append that follows `completeReissue` does not throw.
 */
module ApprovalReissue {
  import opened Wrappers
  import opened ApprovalDomain
  import opened ApprovalStores
  import opened ApprovalProtocol
  import opened ApprovalSafety
  import opened ApprovalTheorems

  /** The replaced request whose in-flight claim this thread holds. */
  function Holder(th: Thread): Option<Id> {
    match th
    case InFind(f) => if (f.FindMap? || f.FindMapped? || f.FindList?) && f.phase == UnderClaim then Some(f.call.Replaced()) else None
    case InHeld(h) => if h.Audit? || h.LateRelease? then None else Some(h.call.Replaced())
    case InCreation(c) => if c.creation.creator.Reissuing? then Some(c.creation.creator.call.Replaced()) else None
    case _ => None
  }

  predicate Superseding(c: CreateStep) {
    c.SupersedeList? || c.SupersedeLoop? || c.SupersedeNonce?
  }

  /** Between the look for other requests and the save of the new one, in run `runId`. */
  predicate Creating(th: Thread, runId: Id) {
    match th
    case InHeld(h) => (h.HeldLive? || h.HeldDraft?) && h.call.original.runId == runId
    case InCreation(c) => Superseding(c) && c.creation.draft.runId == runId
    case _ => false
  }

  predicate Routes(th: Thread) {
    th.InCreation? && th.create.creation.creator.Routing?
  }

  /** While a routing call is creating a request in a run, no other call is creating one there. */
  ghost predicate RoutingApart(s: System) {
    forall t, u, runId :: t in s.threads && u in s.threads && t != u
                          && Routes(s.threads[t]) && Creating(s.threads[t], runId)
                          ==> !Creating(s.threads[u], runId)
  }

  ghost predicate AuditKept(s: System) {
    forall t :: t in s.threads ==> !(s.threads[t].InHeld? && s.threads[t].held.LateRelease?)
  }

  ghost predicate Disciplined(labels: seq<Label>)
    requires Schedule(labels)
  {
    forall i :: 0 <= i <= |labels| && Schedule(labels[..i]) ==>
      RoutingApart(After(labels[..i])) && AuditKept(After(labels[..i]))
  }

  predicate PendingReplacement(rs: RequestStore, x: Id, replaced: Id) {
    rs.IsPending(x) && rs.byId[x].parent == Some(replaced)
  }

  ghost predicate OneReplacement(rs: RequestStore) {
    forall x, y, a :: PendingReplacement(rs, x, a) && PendingReplacement(rs, y, a) ==> x == y
  }

  // ----- what the threads keep -----

  ghost predicate NoReplacement(rs: RequestStore, a: Id) {
    forall x :: !PendingReplacement(rs, x, a)
  }

  predicate Queued(queue: seq<ApprovalRequest>, x: Id) {
    exists q :: q in queue && q.approvalRequestId == x
  }

  /** Every PENDING request of the run is still waiting in the queue to be superseded. */
  ghost predicate PendingQueued(rs: RequestStore, runId: Id, queue: seq<ApprovalRequest>) {
    forall x :: rs.IsPending(x) && rs.byId[x].runId == runId ==> Queued(queue, x)
  }

  /** What a thread that is about to create a request may count on. */
  ghost predicate Cleared(rs: RequestStore, th: Thread) {
    match th
    case InHeld(h) => h.HeldLive? || h.HeldDraft? ==> NoReplacement(rs, h.call.Replaced())
    case InCreation(c) =>
      if c.creation.creator.Reissuing? then Superseding(c) ==> NoReplacement(rs, c.creation.creator.call.Replaced())
      else if c.SupersedeLoop? then PendingQueued(rs, c.creation.draft.runId, c.queue)
      else if c.SupersedeNonce? then c.queue != [] && PendingQueued(rs, c.creation.draft.runId, c.queue[1..])
      else true
    case _ => true
  }

  ghost predicate ClaimsValid(s: System) {
    && (forall t :: t in s.threads && Holder(s.threads[t]).Some? ==> Holder(s.threads[t]).value in s.st.coord.reissueInFlight)
    && (forall t, u :: t in s.threads && u in s.threads && t != u && Holder(s.threads[t]).Some? ==>
          Holder(s.threads[t]) != Holder(s.threads[u]))
  }

  ghost predicate Exclusive(s: System) {
    && OneReplacement(s.st.requests)
    && ClaimsValid(s)
    && forall t :: t in s.threads ==> Cleared(s.st.requests, s.threads[t])
  }

  // ----- one step -----

  /** How a step of `th` may touch the claims. */
  ghost predicate ClaimStepOk(st: Stores, th: Thread, o: Outcome) {
    && (forall a :: a in st.coord.reissueInFlight && a !in o.st.coord.reissueInFlight ==>
          Holder(th) == Some(a) && Holder(o.th) != Some(a))
    && (Holder(o.th).Some? && Holder(o.th) != Holder(th) ==>
          Holder(o.th).value !in st.coord.reissueInFlight && Holder(o.th).value in o.st.coord.reissueInFlight)
  }

  lemma StepClaims(st: Stores, th: Thread, ch: Choice)
    requires !(th.InHeld? && th.held.LateRelease?)
    ensures ClaimStepOk(st, th, Next(st, th, ch))
  {
    match th
    case InFind(step) =>
    case InClaim(step) =>
    case InHeld(step) => HeldClaims(st, step, ch);
    case InCreation(step) => CreateClaims(st, step, ch);
    case _ => UnclaimedClaims(st, th, ch);
  }

  lemma HeldClaims(st: Stores, step: HeldStep, ch: Choice)
    requires !step.LateRelease?
    ensures ClaimStepOk(st, InHeld(step), NextHeld(st, step, ch))
  {}

  lemma CreateClaims(st: Stores, step: CreateStep, ch: Choice)
    ensures ClaimStepOk(st, InCreation(step), NextCreate(st, step, ch))
  {}

  lemma UnclaimedClaims(st: Stores, th: Thread, ch: Choice)
    requires !th.InFind? && !th.InClaim? && !th.InHeld? && !th.InCreation?
    ensures ClaimStepOk(st, th, Next(st, th, ch))
  {}

  lemma ClaimsKept(s: System, t: nat, ch: Choice)
    requires t in s.threads && ClaimsValid(s)
    requires !(s.threads[t].InHeld? && s.threads[t].held.LateRelease?)
    ensures ClaimsValid(Apply(s, Move(t, ch)))
  {
    StepClaims(s.st, s.threads[t], ch);
    hide Next, Holder;
  }

  /** The save at the end of a creation. */
  predicate Saves(th: Thread) {
    th.InCreation? && th.create.SupersedeLoop? && th.create.queue == []
  }

  /** Every PENDING request of `b` was PENDING in `a`. */
  ghost predicate PendingShrinks(a: RequestStore, b: RequestStore) {
    forall x :: b.IsPending(x) ==> a.IsPending(x) && SameBinding(a.byId[x], b.byId[x])
  }

  predicate SavedAs(a: RequestStore, b: RequestStore, draft: Draft, id: Id, nonce: nat) {
    id !in a.byId && b.byId == a.byId[id := RequestFor(draft, id, nonce)]
  }

  /** A request becomes PENDING only by the save of a creation. */
  ghost predicate PendingStepOk(st: Stores, th: Thread, ch: Choice, o: Outcome) {
    || PendingShrinks(st.requests, o.st.requests)
    || (Saves(th) && SavedAs(st.requests, o.st.requests, th.create.creation.draft, ch.freshId, ch.nonce))
  }

  lemma StatusShrinks(st: Stores, id: Id, status: RequestStatus, deliveryFailed: bool)
    requires status != Pending
    ensures PendingShrinks(st.requests, st.requests)
    ensures st.SetStatus(id, status, deliveryFailed).Some? ==>
              PendingShrinks(st.requests, st.SetStatus(id, status, deliveryFailed).value.requests)
  {}

  lemma CommitShrinks(st: Stores, rec: AuthorizationRecord, seen: RunRecord)
    ensures PendingShrinks(st.requests, st.requests)
    ensures st.CommitDecision(rec, seen).Some? ==>
              PendingShrinks(st.requests, st.CommitDecision(rec, seen).value.requests)
  {}

  lemma StepPending(st: Stores, th: Thread, ch: Choice)
    ensures PendingStepOk(st, th, ch, Next(st, th, ch))
  {
    hide PendingShrinks, Stores.SetStatus, Stores.CommitDecision;
    StatusShrinks(st, 0, Expired, false);
    match th
    case InDecide(step) =>
      if step.DecideCommit? {
        CommitShrinks(st, RecordFor(step.request, step.decision, step.now, ch.freshId), step.run);
      } else if step.DecideGate? {
        StatusShrinks(st, step.request.approvalRequestId, Expired, false);
      }
    case InExpiry(step) =>
      if step.ExpireSeen? { StatusShrinks(st, step.request.approvalRequestId, Expired, false); }
    case InHeld(step) =>
      if step.HeldCancel? { StatusShrinks(st, step.call.Replaced(), Cancelled, false); }
    case InCreation(step) => CreatePending(st, step, ch);
    case InConsumer(step) =>
      if step.ConsumeFailed? { StatusShrinks(st, step.request.approvalRequestId, Cancelled, true); }
    case _ =>
  }

  lemma CreatePending(st: Stores, step: CreateStep, ch: Choice)
    ensures PendingStepOk(st, InCreation(step), ch, NextCreate(st, step, ch))
  {
    hide PendingShrinks, Stores.SetStatus;
    StatusShrinks(st, 0, Expired, false);
    if step.SupersedeLoop? && step.queue != [] {
      StatusShrinks(st, step.queue[0].approvalRequestId, Superseded, false);
    } else if step.DeliverFailed? {
      StatusShrinks(st, step.created.approvalRequestId, Cancelled, true);
    }
  }

  lemma NoReplacementShrinks(a: RequestStore, b: RequestStore, replaced: Id)
    requires PendingShrinks(a, b) && NoReplacement(a, replaced)
    ensures NoReplacement(b, replaced)
  {
    forall x ensures !PendingReplacement(b, x, replaced) { assert !PendingReplacement(a, x, replaced); }
  }

  lemma NoReplacementSaved(a: RequestStore, b: RequestStore, draft: Draft, id: Id, nonce: nat, replaced: Id)
    requires SavedAs(a, b, draft, id, nonce) && NoReplacement(a, replaced) && draft.parent != Some(replaced)
    ensures NoReplacement(b, replaced)
  {
    forall x ensures !PendingReplacement(b, x, replaced) { assert !PendingReplacement(a, x, replaced); }
  }

  lemma OneReplacementStep(a: RequestStore, b: RequestStore)
    requires OneReplacement(a) && PendingShrinks(a, b)
    ensures OneReplacement(b)
  {
    forall x, y, r | PendingReplacement(b, x, r) && PendingReplacement(b, y, r) ensures x == y {
      assert PendingReplacement(a, x, r) && PendingReplacement(a, y, r);
    }
  }

  lemma OneReplacementSaved(a: RequestStore, b: RequestStore, draft: Draft, id: Id, nonce: nat)
    requires OneReplacement(a) && SavedAs(a, b, draft, id, nonce)
    requires draft.parent.Some? ==> NoReplacement(a, draft.parent.value)
    ensures OneReplacement(b)
  {
    forall x, y, r | PendingReplacement(b, x, r) && PendingReplacement(b, y, r) ensures x == y {
      if x != id { assert PendingReplacement(a, x, r); }
      if y != id { assert PendingReplacement(a, y, r); }
    }
  }

  lemma NothingReplaces(rs: RequestStore, call: ReissueCall)
    requires OrderValid(rs) && LineageValid(rs) && Seen(rs, call.original)
    requires FirstReplacement(rs, call.original.runId, call.Replaced()).None?
    ensures NoReplacement(rs, call.Replaced())
  {
    forall x ensures !PendingReplacement(rs, x, call.Replaced()) {
      if PendingReplacement(rs, x, call.Replaced()) {
        assert ReplacesValid(rs, rs.byId[x], call.Replaced());
        Listed(rs, call.original.runId, rs.byId[x]);
      }
    }
  }

  lemma AllQueued(rs: RequestStore, runId: Id)
    requires OrderValid(rs)
    ensures PendingQueued(rs, runId, AllPending(rs, runId))
  {
    forall x | rs.IsPending(x) && rs.byId[x].runId == runId ensures Queued(AllPending(rs, runId), x) {
      Listed(rs, runId, rs.byId[x]);
      assert rs.byId[x] in AllPending(rs, runId);
    }
  }

  /** Losing PENDING requests takes nothing from what a thread counts on. */
  lemma ClearedShrinks(a: RequestStore, b: RequestStore, th: Thread)
    requires Cleared(a, th) && PendingShrinks(a, b)
    ensures Cleared(b, th)
  {
    match th
    case InHeld(h) =>
      if h.HeldLive? || h.HeldDraft? { NoReplacementShrinks(a, b, h.call.Replaced()); }
    case InCreation(c) =>
      if c.creation.creator.Reissuing? {
        if Superseding(c) { NoReplacementShrinks(a, b, c.creation.creator.call.Replaced()); }
      }
    case _ =>
  }

  lemma FindCleared(st: Stores, step: FindStep, ch: Choice)
    requires StoresValid(st) && FindHolds(st.requests, step)
    ensures Cleared(NextFind(st, step, ch).st.requests, NextFind(st, step, ch).th)
  {
    hide NoReplacement, OrderValid, LineageValid, RecordsValid, RecordIndexValid, RunsValid, FirstReplacement;
    if step.FindList? && FirstReplacement(st.requests, step.call.original.runId, step.call.Replaced()).None? {
      NothingReplaces(st.requests, step.call);
    }
  }

  lemma ListCleared(st: Stores, step: CreateStep, ch: Choice)
    requires StoresValid(st) && step.SupersedeList? && Cleared(st.requests, InCreation(step))
    ensures Cleared(NextCreate(st, step, ch).st.requests, NextCreate(st, step, ch).th)
  {
    hide PendingQueued, NoReplacement;
    assert OrderValid(st.requests);
    AllQueued(st.requests, step.creation.draft.runId);
  }

  lemma QueueCleared(st: Stores, step: CreateStep, ch: Choice)
    requires step.SupersedeNonce? || (step.SupersedeLoop? && step.queue != [])
    requires Cleared(st.requests, InCreation(step))
    ensures Cleared(NextCreate(st, step, ch).st.requests, NextCreate(st, step, ch).th)
  {
    var q := step.queue;
    if step.SupersedeLoop? {
      assert forall x :: Queued(q, x) ==> x == q[0].approvalRequestId || Queued(q[1..], x);
      var w := st.SetStatus(q[0].approvalRequestId, Superseded, false);
      if w.Some? {
        assert PendingShrinks(st.requests, w.value.requests);
        ClearedShrinks(st.requests, w.value.requests, InCreation(step));
      }
    }
  }

  lemma CreateCleared(st: Stores, step: CreateStep, ch: Choice)
    requires StoresValid(st) && Cleared(st.requests, InCreation(step))
    ensures Cleared(NextCreate(st, step, ch).st.requests, NextCreate(st, step, ch).th)
  {
    hide StoresValid, PendingQueued, NoReplacement;
    if step.SupersedeList? { ListCleared(st, step, ch); }
    else if step.SupersedeNonce? || (step.SupersedeLoop? && step.queue != []) { QueueCleared(st, step, ch); }
    else { LateCleared(st, step, ch); }
  }

  /** From its save on a creation counts on nothing any more. */
  lemma LateCleared(st: Stores, step: CreateStep, ch: Choice)
    requires !step.SupersedeList? && !step.SupersedeNonce? && !(step.SupersedeLoop? && step.queue != [])
    ensures Cleared(NextCreate(st, step, ch).st.requests, NextCreate(st, step, ch).th)
  {
    hide PendingQueued, NoReplacement;
  }

  /** What the moving thread may count on after its own step. */
  lemma MoverCleared(st: Stores, th: Thread, ch: Choice)
    requires StoresValid(st) && Holds(st, th) && Cleared(st.requests, th)
    ensures Cleared(Next(st, th, ch).st.requests, Next(st, th, ch).th)
  {
    hide StoresValid;
    match th
    case InFind(step) => FindCleared(st, step, ch);
    case InHeld(step) => HeldCleared(st, step, ch);
    case InCreation(step) => CreateCleared(st, step, ch);
    case InClaim(step) =>
    case _ => UncreatingCleared(st, th, ch);
  }

  lemma HeldCleared(st: Stores, step: HeldStep, ch: Choice)
    requires Cleared(st.requests, InHeld(step))
    ensures Cleared(NextHeld(st, step, ch).st.requests, NextHeld(st, step, ch).th)
  {
    hide PendingQueued, NoReplacement;
  }

  lemma UncreatingCleared(st: Stores, th: Thread, ch: Choice)
    requires !th.InFind? && !th.InClaim? && !th.InHeld? && !th.InCreation?
    ensures Cleared(Next(st, th, ch).st.requests, Next(st, th, ch).th)
  {
    hide PendingQueued, NoReplacement;
  }

  lemma OthersCleared(s: System, t: nat, ch: Choice, u: nat)
    requires Safe(s) && Exclusive(s) && RoutingApart(s) && t in s.threads && u in s.threads && t != u
    ensures Cleared(Next(s.st, s.threads[t], ch).st.requests, s.threads[u])
  {
    var th, other := s.threads[t], s.threads[u];
    var o := Next(s.st, th, ch);
    StepPending(s.st, th, ch);
    hide Next, PendingShrinks, OneReplacement;
    if PendingShrinks(s.st.requests, o.st.requests) {
      ClearedShrinks(s.st.requests, o.st.requests, other);
    } else {
      SaveLeavesCleared(s, t, ch, u, o.st.requests);
    }
  }

  /** No save replaces a request that another creation in flight is replacing. */
  lemma SaverSparesHolder(s: System, t: nat, u: nat, call: ReissueCall)
    requires ClaimsValid(s) && RoutingApart(s) && t in s.threads && u in s.threads && t != u
    requires Saves(s.threads[t]) && CreationKnown(s.st.requests, s.threads[t].create.creation)
    requires Holder(s.threads[u]) == Some(call.Replaced()) && Creating(s.threads[u], call.original.runId)
    requires Seen(s.st.requests, call.original)
    ensures s.threads[t].create.creation.draft.parent != Some(call.Replaced())
  {
    var th := s.threads[t];
    assert Creating(th, th.create.creation.draft.runId);
    if th.create.creation.creator.Reissuing? {
      assert Holder(th) != Holder(s.threads[u]);
    }
  }

  lemma QueueLeft(a: RequestStore, b: RequestStore, draft: Draft, id: Id, nonce: nat, runId: Id, queue: seq<ApprovalRequest>)
    requires SavedAs(a, b, draft, id, nonce) && draft.runId != runId && PendingQueued(a, runId, queue)
    ensures PendingQueued(b, runId, queue)
  {}

  /** The save of one creation takes nothing from the others. */
  lemma SaveLeavesCleared(s: System, t: nat, ch: Choice, u: nat, b: RequestStore)
    requires ClaimsValid(s) && RoutingApart(s) && t in s.threads && u in s.threads && t != u
    requires Holds(s.st, s.threads[t]) && Holds(s.st, s.threads[u]) && Cleared(s.st.requests, s.threads[u])
    requires Saves(s.threads[t]) && SavedAs(s.st.requests, b, s.threads[t].create.creation.draft, ch.freshId, ch.nonce)
    ensures Cleared(b, s.threads[u])
  {
    var a, th, other := s.st.requests, s.threads[t], s.threads[u];
    var draft := th.create.creation.draft;
    assert Creating(th, draft.runId);
    hide NoReplacement, PendingQueued, ClaimsValid, Seen;
    match other
    case InHeld(h) =>
      if h.HeldLive? || h.HeldDraft? {
        SaverSparesHolder(s, t, u, h.call);
        NoReplacementSaved(a, b, draft, ch.freshId, ch.nonce, h.call.Replaced());
      }
    case InCreation(c) =>
      if Superseding(c) {
        if c.creation.creator.Reissuing? {
          SaverSparesHolder(s, t, u, c.creation.creator.call);
          NoReplacementSaved(a, b, draft, ch.freshId, ch.nonce, c.creation.creator.call.Replaced());
        } else {
          assert Routes(other) && Creating(other, c.creation.draft.runId);
          if c.SupersedeLoop? { QueueLeft(a, b, draft, ch.freshId, ch.nonce, c.creation.draft.runId, c.queue); }
          if c.SupersedeNonce? { QueueLeft(a, b, draft, ch.freshId, ch.nonce, c.creation.draft.runId, c.queue[1..]); }
        }
      }
    case _ =>
  }

  lemma EmptyQueueClears(rs: RequestStore, runId: Id, parent: Id)
    requires LineageValid(rs) && PendingQueued(rs, runId, [])
    requires parent in rs.byId && rs.byId[parent].runId == runId
    ensures NoReplacement(rs, parent)
  {
    forall x | rs.IsPending(x) ensures rs.byId[x].runId != runId { assert !Queued([], x); }
    forall x ensures !PendingReplacement(rs, x, parent) {
      if x in rs.byId && rs.byId[x].parent == Some(parent) { assert ReplacesValid(rs, rs.byId[x], parent); }
    }
  }

  lemma SaverHasNoRival(st: Stores, th: Thread)
    requires StoresValid(st) && Holds(st, th) && Cleared(st.requests, th) && Saves(th)
    ensures var draft := th.create.creation.draft;
            draft.parent.Some? ==> NoReplacement(st.requests, draft.parent.value)
  {
    hide NoReplacement, OrderValid, RecordsValid, RecordIndexValid, RunsValid, LineageValid, Seen, PendingQueued;
    var draft := th.create.creation.draft;
    if draft.parent.Some? && th.create.creation.creator.Routing? {
      EmptyQueueClears(st.requests, draft.runId, draft.parent.value);
    }
  }

  lemma MoveExclusive(s: System, t: nat, ch: Choice)
    requires Safe(s) && Exclusive(s) && RoutingApart(s) && AuditKept(s) && t in s.threads
    ensures Exclusive(Apply(s, Move(t, ch)))
  {
    var th := s.threads[t];
    var o := Next(s.st, th, ch);
    StepPending(s.st, th, ch);
    ClaimsKept(s, t, ch);
    MoverCleared(s.st, th, ch);
    forall u | u in s.threads && u != t ensures Cleared(o.st.requests, s.threads[u]) { OthersCleared(s, t, ch, u); }
    hide Next, PendingShrinks, OneReplacement, ClaimsValid, Cleared, SavedAs, StoresValid, Holds;
    if PendingShrinks(s.st.requests, o.st.requests) {
      OneReplacementStep(s.st.requests, o.st.requests);
    } else {
      SaverHasNoRival(s.st, th);
      OneReplacementSaved(s.st.requests, o.st.requests, th.create.creation.draft, ch.freshId, ch.nonce);
    }
  }

  lemma {:induction false} RunExclusive(labels: seq<Label>)
    requires Schedule(labels) && Disciplined(labels)
    ensures Exclusive(After(labels))
  {
    if labels != [] {
      var n := |labels| - 1;
      var front := labels[..n];
      assert Disciplined(front) by {
        forall i | 0 <= i <= n && Schedule(front[..i])
          ensures RoutingApart(After(front[..i])) && AuditKept(After(front[..i])) { assert front[..i] == labels[..i]; }
      }
      RunExclusive(front);
      RunSafe(front);
      var s := After(front);
      match labels[n]
      case Move(t, ch) => MoveExclusive(s, t, ch);
      case Start(t, th) => StartExclusive(s, t, th);
      case OtherPhase(runId, run) =>
    }
  }

  lemma StartExclusive(s: System, t: nat, th: Thread)
    requires Exclusive(s) && Enabled(s, Start(t, th))
    ensures Exclusive(Apply(s, Start(t, th)))
  {
    assert Holder(th).None? && Cleared(s.st.requests, th);
  }

  /**
   * However many recoveries and reissues interleave, a replaced request has at most one PENDING
   * replacement at any time.
   */
  lemma AtMostOneReplacement(labels: seq<Label>, replaced: Id, x: Id, y: Id)
    requires Schedule(labels) && Disciplined(labels)
    requires PendingReplacement(After(labels).st.requests, x, replaced)
    requires PendingReplacement(After(labels).st.requests, y, replaced)
    ensures x == y
  {
    RunExclusive(labels);
  }

  // ----- when the audit append throws -----

  function Say(ok: bool, freshId: Id): Choice {
    Choice(ok, false, 0, 1, freshId, 0, 0, 0, 0, 0, PlanBinding(0, 0, 0, 0, 0, 0, 0, 0, 0, 0, 0))
  }

  /**
   * Three calls replace the same request: `done` has completed and is about to audit, `creation` holds
   * the claim and is about to save, `late` is about to claim. Nothing is PENDING.
   */
  ghost predicate Poised(st: Stores, done: ReissueCall, creation: Creation, late: ReissueCall) {
    && creation.creator.Reissuing? && creation.draft.parent == Some(done.Replaced())
    && late.Replaced() == done.Replaced() && late.service == Reissue && late.original.status == Cancelled
    && done.Replaced() in st.coord.reissueInFlight
    && done.Replaced() !in st.coord.reissueReplacementByReplaced
    && forall x :: !st.requests.IsPending(x)
  }

  lemma FilterEmpty(s: seq<ApprovalRequest>, p: ApprovalRequest -> bool)
    requires forall x :: x in s ==> !p(x)
    ensures Filter(s, p) == []
  {
    if s != [] { FilterEmpty(s[1..], p); }
  }

  lemma NothingListedPending(rs: RequestStore, runId: Id)
    requires OrderValid(rs) && forall x :: !rs.IsPending(x)
    ensures forall x :: x in rs.ListByRun(runId) ==> x.status != Pending
  {
    forall x | x in rs.ListByRun(runId) ensures x.status != Pending {
      Listed(rs, runId, x);
      assert !rs.IsPending(x.approvalRequestId);
    }
  }

  lemma LateCallSearches(rs: RequestStore, late: ReissueCall)
    requires OrderValid(rs) && forall x :: !rs.IsPending(x)
    ensures FirstReplacement(rs, late.original.runId, late.Replaced()).None?
    ensures FirstPending(rs, late.original.runId).None? && AllPending(rs, late.original.runId) == []
  {
    NothingListedPending(rs, late.original.runId);
    hide OrderValid, RequestStore.ListByRun, Find, Filter;
    FilterEmpty(rs.ListByRun(late.original.runId), (r: ApprovalRequest) => r.status == Pending);
  }

  /** The throw drops the claim, which is another call's by now. */
  lemma ThrowReleases(st: Stores, done: ReissueCall)
    ensures Uninterrupted(st, InHeld(Audit(done)), [Say(false, 0), Say(true, 0)])
            == Outcome(st.(coord := st.coord.FailReissue(done.Replaced())), Done)
  {
    var chs := [Say(false, 0), Say(true, 0)];
    assert chs[1..] == [Say(true, 0)] && chs[1..][1..] == [];
    assert Next(st, InHeld(Audit(done)), chs[0]) == Outcome(st, InHeld(LateRelease(done)));
    assert Uninterrupted(st, InHeld(LateRelease(done)), chs[1..])
           == Uninterrupted(st.(coord := st.coord.FailReissue(done.Replaced())), Done, []);
  }

  function Going(k: nat, last: Choice): seq<Choice> {
    if k == 0 then [last] else [Say(true, 0)] + Going(k - 1, last)
  }

  /** One step of a call that goes on. */
  lemma GoOn(st: Stores, th: Thread, k: nat, last: Choice, next: Outcome)
    requires Next(st, th, Say(true, 0)) == next
    ensures Uninterrupted(st, th, Going(k + 1, last)) == Uninterrupted(next.st, next.th, Going(k, last))
  {
    assert Going(k + 1, last)[1..] == Going(k, last);
  }

  /** The late call claims, finds and sees nothing, and comes to its own save. */
  lemma LateReachesSave(st: Stores, late: ReissueCall, last: Choice)
    requires late.service == Reissue && late.original.status == Cancelled
    requires late.Replaced() !in st.coord.reissueInFlight && late.Replaced() !in st.coord.reissueReplacementByReplaced
    requires FirstReplacement(st.requests, late.original.runId, late.Replaced()).None?
    requires FirstPending(st.requests, late.original.runId).None? && AllPending(st.requests, late.original.runId) == []
    ensures var claimed := st.(coord := st.coord.Claim(late.Replaced()));
            var k := Creation(Reissuing(late), ReissueDraft(late, Say(true, 0)));
            Uninterrupted(st, InClaim(Claim(late)), Going(6, last))
            == Uninterrupted(claimed, InCreation(SupersedeLoop(k, [])), Going(0, last))
  {
    hide FirstReplacement, FirstPending, AllPending, Going, Uninterrupted;
    var b := st.(coord := st.coord.Claim(late.Replaced()));
    var k := Creation(Reissuing(late), ReissueDraft(late, Say(true, 0)));
    GoOn(st, InClaim(Claim(late)), 5, last, Outcome(b, InFind(FindMap(late, UnderClaim))));
    GoOn(b, InFind(FindMap(late, UnderClaim)), 4, last, Outcome(b, InFind(FindList(late, UnderClaim))));
    GoOn(b, InFind(FindList(late, UnderClaim)), 3, last, Outcome(b, InHeld(HeldLive(late))));
    GoOn(b, InHeld(HeldLive(late)), 2, last, Outcome(b, InHeld(HeldDraft(late))));
    GoOn(b, InHeld(HeldDraft(late)), 1, last, Outcome(b, InCreation(SupersedeList(k))));
    GoOn(b, InCreation(SupersedeList(k)), 0, last, Outcome(b, InCreation(SupersedeLoop(k, []))));
  }

  lemma SavesFresh(st: Stores, k: Creation, id: Id)
    requires id !in st.requests.byId
    ensures Uninterrupted(st, InCreation(SupersedeLoop(k, [])), Going(0, Say(true, id))).st.requests.byId
            == st.requests.byId[id := RequestFor(k.draft, id, 0)]
  {
    var chs := Going(0, Say(true, id));
    assert chs[0] == Say(true, id) && chs[1..] == [];
    var o := Next(st, InCreation(SupersedeLoop(k, [])), chs[0]);
    assert Uninterrupted(st, InCreation(SupersedeLoop(k, [])), chs) == Uninterrupted(o.st, o.th, []);
  }

  /**
   * The audit must not throw: its late `failReissue` drops the claim that another call holds by then,
   * and the two that remain both save a replacement.
   */
  lemma PoisedBreaksExclusion(st: Stores, done: ReissueCall, creation: Creation, late: ReissueCall, x: Id, y: Id)
    requires Poised(st, done, creation, late) && OrderValid(st.requests)
    requires x != y && x !in st.requests.byId && y !in st.requests.byId
    ensures var thrown := Uninterrupted(st, InHeld(Audit(done)), [Say(false, 0), Say(true, 0)]).st;
            var saved := Uninterrupted(thrown, InClaim(Claim(late)), Going(6, Say(true, y))).st;
            var both := Uninterrupted(saved, InCreation(SupersedeLoop(creation, [])), Going(0, Say(true, x))).st.requests;
            PendingReplacement(both, x, done.Replaced()) && PendingReplacement(both, y, done.Replaced())
  {
    ThrowReleases(st, done);
    LateCallSearches(st.requests, late);
    var thrown := st.(coord := st.coord.FailReissue(done.Replaced()));
    LateReachesSave(thrown, late, Say(true, y));
    var claimed := thrown.(coord := thrown.coord.Claim(late.Replaced()));
    SavesFresh(claimed, Creation(Reissuing(late), ReissueDraft(late, Say(true, 0))), y);
    hide Uninterrupted, OrderValid, FirstReplacement, FirstPending, AllPending;
    var saved := Uninterrupted(thrown, InClaim(Claim(late)), Going(6, Say(true, y))).st;
    SavesFresh(saved, creation, x);
  }
}
