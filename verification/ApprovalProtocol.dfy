/**
 * The approval services as one transition system.
 *
 * A thread is one call in flight. Each constructor of `Thread` is a point between two awaits
 * and holds the values the call has read so far, so what it holds may be out of date by the
 * time it moves. `Next` performs the code up to the following await. Everything a call reads
 * outside the modelled stores, the clock included, arrives in `Choice`.
 */
module ApprovalProtocol {
  import opened Wrappers
  import opened ApprovalDomain
  import opened ApprovalStores

  datatype DecisionCall = DecisionCall(approverId: Id, decision: Decision, submittedAt: Time, nonce: nat)

  /** Which service is replacing `original`. */
  datatype Service = Recover | Reissue
  datatype ReissueCall = ReissueCall(service: Service, original: ApprovalRequest) {
    function Replaced(): Id { original.approvalRequestId }
  }

  /** Why `findLiveReplacement` is running. */
  datatype Phase = BeforeClaim | AfterWait | UnderClaim

  datatype Draft = Draft(runId: Id, binding: PlanBinding, createdAt: Time, expiresAt: Time, parent: Option<Id>)
  datatype Creator = Routing(seen: RunRecord) | Reissuing(call: ReissueCall)
  datatype Creation = Creation(creator: Creator, draft: Draft)

  /** `decide`. */
  datatype DecideStep =
    | DecideLoad(id: Id, decision: DecisionCall)
    | DecideLookup(request: ApprovalRequest, decision: DecisionCall)
    | DecideGate(request: ApprovalRequest, decision: DecisionCall)
    | DecideEligible(request: ApprovalRequest, decision: DecisionCall, now: Time)
    | DecideBegin(request: ApprovalRequest, decision: DecisionCall, seen: ApprovalRequest, now: Time)
    | DecideRun(request: ApprovalRequest, decision: DecisionCall, now: Time)
    | DecideCommit(request: ApprovalRequest, decision: DecisionCall, now: Time, run: RunRecord)
    | DecideFail(request: ApprovalRequest)

  /** Expiry, from the sweep and from `decide`. */
  datatype ExpiryStep =
    | ExpireLoad(id: Id)
    | ExpireSeen(request: ApprovalRequest)
    | ExpireNonce(request: ApprovalRequest)
    | ExpireRun(request: ApprovalRequest)
    | ExpireCommit(request: ApprovalRequest, run: RunRecord)

  /** `findLiveReplacement`, and the reads before it, of recovery and reissue. */
  datatype FindStep =
    | ReissueRunCheck(runId: Id, id: Id)
    | ReissueLoad(service: Service, within: Option<Id>, id: Id)
    | FindMap(call: ReissueCall, phase: Phase)
    | FindMapped(call: ReissueCall, phase: Phase, mapped: Id, live: bool)
    | FindList(call: ReissueCall, phase: Phase)

  /** Eligibility and `beginReissue`. */
  datatype ClaimStep =
    | Eligible(call: ReissueCall)
    | EligibleRecord(call: ReissueCall)
    | ClaimMap(call: ReissueCall)
    | ClaimMapped(call: ReissueCall, live: bool)
    | Claim(call: ReissueCall)
    | Waiting(call: ReissueCall)

  /** The part of recovery and reissue between claim and release. */
  datatype HeldStep =
    | HeldRun(call: ReissueCall)
    | HeldInvalidate(call: ReissueCall)
    | HeldCancel(call: ReissueCall)
    | HeldCancelNonce(call: ReissueCall)
    | HeldLive(call: ReissueCall)
    | HeldDraft(call: ReissueCall)
    | HeldComplete(call: ReissueCall, replacement: Id)
    | Audit(call: ReissueCall)
    | Release(call: ReissueCall)
    | LateRelease(call: ReissueCall)

  /** `route`. */
  datatype RouteStep =
    | RouteRead(runId: Id)
    | RoutePending(runId: Id)
    | RouteReady(runId: Id)
    | RouteBlock(runId: Id)
    | RouteBlockCommit(runId: Id, run: RunRecord)
    | RouteLoad(runId: Id)
    | RouteIndex(run: RunRecord, draft: Draft)
    | RouteMapped(run: RunRecord, draft: Draft, live: bool)
    | RouteHistory(run: RunRecord, draft: Draft)

  /** Creation of a request, shared by routing and reissue. */
  datatype CreateStep =
    | SupersedeList(creation: Creation)
    | SupersedeLoop(creation: Creation, queue: seq<ApprovalRequest>)
    | SupersedeNonce(creation: Creation, queue: seq<ApprovalRequest>)
    | Deliver(creation: Creation, created: ApprovalRequest)
    | DeliverFailed(creation: Creation, created: ApprovalRequest)
    | DeliverFailedNonce(creation: Creation, created: ApprovalRequest)
    | Register(creation: Creation, created: ApprovalRequest)
    | AfterRegister(creation: Creation, created: ApprovalRequest)
    | DurableRun(creation: Creation, created: ApprovalRequest)
    | DurableLive(creation: Creation, created: ApprovalRequest)

  /** The outbox consumer. */
  datatype ConsumeStep =
    | ConsumeLoad(id: Id)
    | ConsumeDeliver(request: ApprovalRequest)
    | ConsumeFailed(request: ApprovalRequest)
    | ConsumeFailedNonce(request: ApprovalRequest)
    | ConsumeLive(request: ApprovalRequest)
    | ConsumeRegister(request: ApprovalRequest)
    | ConsumeRun(request: ApprovalRequest)
    | ConsumeCommit(request: ApprovalRequest, run: RunRecord)

  datatype Thread =
    | Done
    | InDecide(decide: DecideStep)
    | InExpiry(expiry: ExpiryStep)
    | InFind(find: FindStep)
    | InClaim(claim: ClaimStep)
    | InHeld(held: HeldStep)
    | InRoute(route: RouteStep)
    | InCreation(create: CreateStep)
    | InConsumer(consume: ConsumeStep)

  /** The points where a call starts. */
  predicate Starts(th: Thread) {
    match th
    case InDecide(d) => d.DecideLoad?
    case InExpiry(e) => e.ExpireLoad?
    case InFind(f) => f.ReissueRunCheck? || (f.ReissueLoad? && f.service == Recover && f.within.None?)
    case InRoute(r) => r.RouteRead?
    case InConsumer(c) => c.ConsumeLoad?
    case _ => false
  }

  /** What a segment learns from outside the stores. `ok` false is a refusal or a thrown error. */
  datatype Choice = Choice(
    ok: bool, alternative: bool, now: Time, window: nat, freshId: Id, nonce: nat,
    objectiveId: Id, objectiveVersion: nat, decisionCardHash: Id, capabilitySetFingerprint: Id,
    routed: PlanBinding)

  datatype Outcome = Outcome(st: Stores, th: Thread)

  function Live(rs: RequestStore, c: Coordinator, replaced: Id): Option<(Id, bool)> {
    if replaced !in c.reissueReplacementByReplaced then None
    else Some((c.reissueReplacementByReplaced[replaced], rs.IsPending(c.reissueReplacementByReplaced[replaced])))
  }

  /** Where a failed creation goes: a router just throws, a reissuer drops its claim first. */
  function Fail(creator: Creator): Thread {
    if creator.Routing? then Done else InHeld(Release(creator.call))
  }

  function NextDecide(st: Stores, step: DecideStep, ch: Choice): Outcome {
    match step
    case DecideLoad(id, d) =>
      var r := st.requests.Get(id);
      Outcome(st, if r.None? then Done else InDecide(DecideLookup(r.value, d)))
    case DecideLookup(r, d) =>
      Outcome(st, if r.approvalRequestId in st.records.byApproval then Done else InDecide(DecideGate(r, d)))
    case DecideGate(r, d) =>
      if r.status != Pending then Outcome(st, Done)
      else if IsExpired(r.expiresAt, d.submittedAt) || IsExpired(r.expiresAt, ch.now) then
        var next := st.SetStatus(r.approvalRequestId, Expired, false);
        if next.None? then Outcome(st, Done) else Outcome(next.value, InExpiry(ExpireNonce(r)))
      else if d.decision == Approve then Outcome(st, InDecide(DecideEligible(r, d, ch.now)))
      else EnterBegin(st, r, d, ch.now)
    case DecideEligible(r, d, now) =>
      // The validation that the request is bound to must still allow an approval.
      if ch.ok then EnterBegin(st, r, d, now) else Outcome(st, Done)
    case DecideBegin(r, d, seen, now) =>
      var next := st.coord.BeginDecision(seen, d.nonce);
      if next.None? then Outcome(st, Done) else Outcome(st.(coord := next.value), InDecide(DecideRun(r, d, now)))
    case DecideRun(r, d, now) =>
      Outcome(st, if ch.ok && st.Awaiting(r.runId) then InDecide(DecideCommit(r, d, now, st.runs[r.runId])) else InDecide(DecideFail(r)))
    case DecideCommit(r, d, now, run) =>
      var next := st.CommitDecision(RecordFor(r, d, now, ch.freshId), run);
      if !ch.ok || next.None? then Outcome(st, InDecide(DecideFail(r))) else Outcome(next.value, Done)
    case DecideFail(r) =>
      Outcome(st.(coord := st.coord.FailDecision(r.approvalRequestId)), Done)
  }

  /** `beginDecision` up to its await: the lock test and the read of the request. */
  function EnterBegin(st: Stores, r: ApprovalRequest, d: DecisionCall, now: Time): Outcome {
    var seen := st.requests.Get(r.approvalRequestId);
    if r.approvalRequestId in st.coord.decisionLocks || seen.None? then Outcome(st, Done)
    else Outcome(st, InDecide(DecideBegin(r, d, seen.value, now)))
  }

  function RecordFor(r: ApprovalRequest, d: DecisionCall, now: Time, id: Id): AuthorizationRecord {
    AuthorizationRecord(id, r.approvalRequestId, r.runId, r.binding, d.approverId, d.decision,
                        d.submittedAt, Sha256(d.nonce), now)
  }

  function NextExpire(st: Stores, step: ExpiryStep, ch: Choice): Outcome {
    match step
    case ExpireLoad(id) =>
      var r := st.requests.Get(id);
      Outcome(st, if r.None? then Done else InExpiry(ExpireSeen(r.value)))
    case ExpireSeen(r) =>
      var next := st.SetStatus(r.approvalRequestId, Expired, false);
      if r.status != Pending || !IsExpired(r.expiresAt, ch.now) || next.None? then Outcome(st, Done)
      else Outcome(next.value, InExpiry(ExpireNonce(r)))
    case ExpireNonce(r) =>
      Outcome(st.(coord := st.coord.InvalidateNonce(r.approvalRequestId)), InExpiry(ExpireRun(r)))
    case ExpireRun(r) =>
      Outcome(st, if st.Awaiting(r.runId) then InExpiry(ExpireCommit(r, st.runs[r.runId])) else Done)
    case ExpireCommit(r, run) =>
      var next := st.Transition(r.runId, run, RunExpired);
      Outcome(if next.None? then st else next.value, Done)
  }

  function NextFind(st: Stores, step: FindStep, ch: Choice): Outcome {
    match step
    case ReissueRunCheck(runId, id) =>
      Outcome(st, if st.Awaiting(runId) then InFind(ReissueLoad(Reissue, Some(runId), id)) else Done)
    case ReissueLoad(service, within, id) =>
      var r := st.requests.Get(id);
      if r.None? || (within.Some? && r.value.runId != within.value) then Outcome(st, Done)
      else Outcome(st, InFind(FindMap(ReissueCall(service, r.value), BeforeClaim)))
    case FindMap(call, phase) =>
      var m := Live(st.requests, st.coord, call.Replaced());
      Outcome(st, if m.None? then InFind(FindList(call, phase)) else InFind(FindMapped(call, phase, m.value.0, m.value.1)))
    case FindMapped(call, phase, mapped, live) =>
      if !live then Outcome(st.(coord := st.coord.ForgetReplacement(call.Replaced())), InFind(FindList(call, phase)))
      else Outcome(st, if st.requests.IsPending(mapped) then Found(call, phase, mapped) else InFind(FindList(call, phase)))
    case FindList(call, phase) =>
      var x := FirstReplacement(st.requests, call.original.runId, call.Replaced());
      Outcome(st, if x.Some? then Found(call, phase, x.value.approvalRequestId)
                  else match phase
                       case BeforeClaim => InClaim(Eligible(call))
                       case AfterWait => Done
                       case UnderClaim => InHeld(HeldLive(call)))
  }

  function FirstReplacement(rs: RequestStore, runId: Id, replaced: Id): Option<ApprovalRequest> {
    Find(rs.ListByRun(runId), (r: ApprovalRequest) => r.status == Pending && r.parent == Some(replaced))
  }

  function FirstPending(rs: RequestStore, runId: Id): Option<ApprovalRequest> {
    Find(rs.ListByRun(runId), (r: ApprovalRequest) => r.status == Pending)
  }

  function AllPending(rs: RequestStore, runId: Id): seq<ApprovalRequest> {
    Filter(rs.ListByRun(runId), (r: ApprovalRequest) => r.status == Pending)
  }

  function Found(call: ReissueCall, phase: Phase, id: Id): Thread {
    if phase == UnderClaim then InHeld(HeldComplete(call, id)) else Done
  }

  function NextClaim(st: Stores, step: ClaimStep, ch: Choice): Outcome {
    match step
    case Eligible(call) =>
      var o := call.original;
      var id := call.Replaced();
      var eligible :=
        match call.service
        case Recover =>
          && (o.status == Pending || (o.status == Cancelled && o.deliveryFailed))
          && st.Awaiting(o.runId) && !(o.status == Pending && IsExpired(o.expiresAt, ch.now))
        case Reissue =>
          if o.status == Pending then id in st.coord.consumedNonces || id in st.coord.invalidatedNonces
          else o.status == Cancelled || o.status == Superseded;
      Outcome(st, if !eligible || (call.service == Reissue && !ch.ok) then Done
                  else if call.service == Recover then InClaim(EligibleRecord(call)) else InClaim(ClaimMap(call)))
    case EligibleRecord(call) =>
      Outcome(st, if ch.ok && call.Replaced() !in st.records.byApproval then InClaim(ClaimMap(call)) else Done)
    case ClaimMap(call) =>
      var m := Live(st.requests, st.coord, call.Replaced());
      Outcome(st, if m.None? then InClaim(Claim(call)) else InClaim(ClaimMapped(call, m.value.1)))
    case ClaimMapped(call, live) =>
      if live then Outcome(st, InClaim(Waiting(call)))
      else Outcome(st.(coord := st.coord.ForgetReplacement(call.Replaced())), InClaim(Claim(call)))
    case Claim(call) =>
      if call.Replaced() in st.coord.reissueInFlight then Outcome(st, InClaim(Waiting(call)))
      else Outcome(st.(coord := st.coord.Claim(call.Replaced())), Claimed(call))
    case Waiting(call) =>
      // ALREADY: `ok` when the request named by the other claimant is PENDING, or on rejection.
      Outcome(st, if ch.ok then Done else InFind(FindMap(call, AfterWait)))
  }

  function Claimed(call: ReissueCall): Thread {
    if call.service == Recover then InHeld(HeldRun(call))
    else if call.original.status == Pending then InHeld(HeldCancel(call))
    else InFind(FindMap(call, UnderClaim))
  }

  function NextHeld(st: Stores, step: HeldStep, ch: Choice): Outcome {
    match step
    case HeldRun(call) =>
      Outcome(st, if !st.Awaiting(call.original.runId) then InHeld(Release(call))
                  else if call.original.status == Pending then InHeld(HeldInvalidate(call))
                  else InFind(FindMap(call, UnderClaim)))
    case HeldInvalidate(call) =>
      Outcome(st.(coord := st.coord.InvalidateNonce(call.Replaced())), InHeld(HeldCancel(call)))
    case HeldCancel(call) =>
      var next := st.SetStatus(call.Replaced(), Cancelled, false);
      if next.None? || (call.service == Recover && !ch.ok) then Outcome(st, InHeld(Release(call)))
      else Outcome(next.value, if call.service == Recover then InFind(FindMap(call, UnderClaim)) else InHeld(HeldCancelNonce(call)))
    case HeldCancelNonce(call) =>
      Outcome(st.(coord := st.coord.InvalidateNonce(call.Replaced())), InFind(FindMap(call, UnderClaim)))
    case HeldLive(call) =>
      var live := FirstPending(st.requests, call.original.runId);
      Outcome(st, if live.None? then InHeld(HeldDraft(call))
                  else if live.value.parent == Some(call.Replaced())
                  then InHeld(HeldComplete(call, live.value.approvalRequestId))
                  else InHeld(Release(call)))
    case HeldDraft(call) =>
      // The stored plan and decision must still be the replaced request's own.
      Outcome(st, if ch.ok then InCreation(SupersedeList(Creation(Reissuing(call), ReissueDraft(call, ch)))) else InHeld(Release(call)))
    case HeldComplete(call, id) =>
      Outcome(st.(coord := st.coord.CompleteReissue(call.Replaced(), id)),
              if call.service == Recover then InHeld(Audit(call)) else Done)
    case Audit(call) =>
      Outcome(st, if ch.ok then Done else InHeld(LateRelease(call)))
    case Release(call) =>
      Outcome(st.(coord := st.coord.FailReissue(call.Replaced())), Done)
    case LateRelease(call) =>
      Outcome(st.(coord := st.coord.FailReissue(call.Replaced())), Done)
  }

  function ReissueDraft(call: ReissueCall, ch: Choice): Draft {
    var o := call.original;
    Draft(o.runId,
          o.binding.(objectiveId := ch.objectiveId, objectiveVersion := ch.objectiveVersion,
                     decisionCardHash := ch.decisionCardHash, capabilitySetFingerprint := ch.capabilitySetFingerprint),
          ch.now, ch.now + ch.window, Some(o.approvalRequestId))
  }

  function NextRoute(st: Stores, step: RouteStep, ch: Choice): Outcome {
    match step
    case RouteRead(runId) =>
      if runId in st.runs && st.runs[runId].state == Blocked then Outcome(st, Done)
      else Outcome(st, if st.Awaiting(runId) then InRoute(RoutePending(runId)) else InRoute(RouteReady(runId)))
    case RoutePending(runId) =>
      Outcome(st, if FirstPending(st.requests, runId).Some? then Done else InRoute(RouteReady(runId)))
    case RouteReady(runId) =>
      if !ch.ok || runId !in st.runs || st.runs[runId].state != Validating then Outcome(st, Done)
      else Outcome(st, if ch.alternative then InRoute(RouteBlock(runId)) else InRoute(RouteLoad(runId)))
    case RouteBlock(runId) =>
      Outcome(st, if runId in st.runs && st.runs[runId].state != Blocked
                  then InRoute(RouteBlockCommit(runId, st.runs[runId])) else Done)
    case RouteBlockCommit(runId, run) =>
      var next := st.Transition(runId, run, Blocked);
      Outcome(if next.None? then st else next.value, Done)
    case RouteLoad(runId) =>
      if !ch.ok || runId !in st.runs then Outcome(st, Done)
      else Outcome(st, InRoute(RouteIndex(st.runs[runId], Draft(runId, ch.routed, ch.now, ch.now + ch.window, None))))
    case RouteIndex(run, draft) =>
      var key := KeyOf(draft.runId, draft.binding);
      var index := st.coord.pendingByBinding;
      Outcome(st, if key !in index then InRoute(RouteHistory(run, draft))
                  else InRoute(RouteMapped(run, draft, st.requests.IsPending(index[key]))))
    case RouteMapped(run, draft, live) =>
      if live then Outcome(st, Done)
      else Outcome(st.(coord := st.coord.(pendingByBinding := st.coord.pendingByBinding - {KeyOf(draft.runId, draft.binding)})),
                   InRoute(RouteHistory(run, draft)))
    case RouteHistory(run, draft) =>
      var prior := LastFailedDelivery(st.requests, draft);
      Outcome(st, InCreation(SupersedeList(Creation(Routing(run),
        draft.(parent := if prior.None? then None else Some(prior.value.approvalRequestId))))))
  }

  function LastFailedDelivery(rs: RequestStore, d: Draft): Option<ApprovalRequest> {
    Find(Reverse(rs.ListByRun(d.runId)),
         (r: ApprovalRequest) => r.status == Cancelled && r.deliveryFailed && SamePlan(r.binding, d.binding))
  }

  function NextCreate(st: Stores, step: CreateStep, ch: Choice): Outcome {
    match step
    case SupersedeList(k) =>
      Outcome(st, InCreation(SupersedeLoop(k, AllPending(st.requests, k.draft.runId))))
    case SupersedeLoop(k, queue) =>
      if queue != [] then
        var next := st.SetStatus(queue[0].approvalRequestId, Superseded, false);
        if next.None? then Outcome(st, Fail(k.creator)) else Outcome(next.value, InCreation(SupersedeNonce(k, queue)))
      else
        var created := RequestFor(k.draft, ch.freshId, ch.nonce);
        var next := st.requests.Save(created);
        if next.None? then Outcome(st, Fail(k.creator))
        else Outcome(st.(requests := next.value),
                     if !ch.ok then Fail(k.creator)
                     else if ch.alternative then InCreation(DurableRun(k, created))
                     else InCreation(Deliver(k, created)))
    case SupersedeNonce(k, queue) =>
      if queue == [] then Outcome(st, Done)
      else Outcome(st.(coord := st.coord.InvalidateNonce(queue[0].approvalRequestId)), InCreation(SupersedeLoop(k, queue[1..])))
    case Deliver(k, created) =>
      Outcome(st, if ch.ok then InCreation(Register(k, created)) else InCreation(DeliverFailed(k, created)))
    case DeliverFailed(k, created) =>
      var next := st.SetStatus(created.approvalRequestId, Cancelled, true);
      if next.None? then Outcome(st, Fail(k.creator)) else Outcome(next.value, InCreation(DeliverFailedNonce(k, created)))
    case DeliverFailedNonce(k, created) =>
      Outcome(st.(coord := st.coord.InvalidateNonce(created.approvalRequestId)), Fail(k.creator))
    case Register(k, created) =>
      var next := st.coord.RegisterPending(created.approvalRequestId, KeyOf(created.runId, created.binding));
      if next.None? then Outcome(st, Fail(k.creator)) else Outcome(st.(coord := next.value), InCreation(AfterRegister(k, created)))
    case AfterRegister(k, created) =>
      if k.creator.Routing? then
        var next := st.Transition(created.runId, k.creator.seen, AwaitingApproval);
        Outcome(if k.creator.seen.state == AwaitingApproval || next.None? then st else next.value, Done)
      else Outcome(st, if st.Awaiting(created.runId) then InHeld(HeldComplete(k.creator.call, created.approvalRequestId))
                       else InHeld(Release(k.creator.call)))
    case DurableRun(k, created) =>
      Outcome(st, if k.creator.Routing? then Done
                  else if st.Awaiting(created.runId) then InCreation(DurableLive(k, created)) else InHeld(Release(k.creator.call)))
    case DurableLive(k, created) =>
      Outcome(st, if k.creator.Routing? then Done
                  else if st.requests.IsPending(created.approvalRequestId)
                  then InHeld(HeldComplete(k.creator.call, created.approvalRequestId)) else InHeld(Release(k.creator.call)))
  }

  function RequestFor(d: Draft, id: Id, nonce: nat): ApprovalRequest {
    ApprovalRequest(id, d.runId, d.binding, d.createdAt, d.expiresAt, Sha256(nonce), d.parent, Pending, false)
  }

  function NextConsume(st: Stores, step: ConsumeStep, ch: Choice): Outcome {
    match step
    case ConsumeLoad(id) =>
      Outcome(st, if st.requests.IsPending(id) then InConsumer(ConsumeDeliver(st.requests.byId[id])) else Done)
    case ConsumeDeliver(r) =>
      Outcome(st, if ch.ok then InConsumer(ConsumeLive(r)) else if ch.alternative then InConsumer(ConsumeFailed(r)) else Done)
    case ConsumeFailed(r) =>
      var next := st.SetStatus(r.approvalRequestId, Cancelled, true);
      if next.None? then Outcome(st, Done) else Outcome(next.value, InConsumer(ConsumeFailedNonce(r)))
    case ConsumeFailedNonce(r) =>
      Outcome(st.(coord := st.coord.InvalidateNonce(r.approvalRequestId)), Done)
    case ConsumeLive(r) =>
      Outcome(st, if st.requests.IsPending(r.approvalRequestId) then InConsumer(ConsumeRegister(r)) else Done)
    case ConsumeRegister(r) =>
      var next := st.coord.RegisterPending(r.approvalRequestId, KeyOf(r.runId, r.binding));
      if next.None? then Outcome(st, Done) else Outcome(st.(coord := next.value), InConsumer(ConsumeRun(r)))
    case ConsumeRun(r) =>
      Outcome(st, if r.runId in st.runs && st.runs[r.runId].state != AwaitingApproval
                  then InConsumer(ConsumeCommit(r, st.runs[r.runId])) else Done)
    case ConsumeCommit(r, run) =>
      var next := st.Transition(r.runId, run, AwaitingApproval);
      Outcome(if next.None? then st else next.value, Done)
  }

  function Next(st: Stores, th: Thread, ch: Choice): Outcome {
    match th
    case Done => Outcome(st, Done)
    case InDecide(step) => NextDecide(st, step, ch)
    case InExpiry(step) => NextExpire(st, step, ch)
    case InFind(step) => NextFind(st, step, ch)
    case InClaim(step) => NextClaim(st, step, ch)
    case InHeld(step) => NextHeld(st, step, ch)
    case InRoute(step) => NextRoute(st, step, ch)
    case InCreation(step) => NextCreate(st, step, ch)
    case InConsumer(step) => NextConsume(st, step, ch)
  }

  /** The thread `th` run on by itself, one choice per step. */
  function Uninterrupted(st: Stores, th: Thread, chs: seq<Choice>): Outcome
    decreases |chs|
  {
    if chs == [] then Outcome(st, th)
    else var o := Next(st, th, chs[0]); Uninterrupted(o.st, o.th, chs[1..])
  }

  datatype System = System(st: Stores, threads: map<nat, Thread>)

  datatype Label =
    | Start(t: nat, th: Thread)
    | Move(t: nat, ch: Choice)
      // another service, or another phase, changes a run; only `decide` may approve one
    | OtherPhase(runId: Id, run: RunRecord)

  predicate Enabled(s: System, l: Label) {
    match l
    case Start(t, th) => t !in s.threads && Starts(th)
    case Move(t, ch) => t in s.threads
    case OtherPhase(runId, run) => run.state != RunApproved
  }

  function Apply(s: System, l: Label): System
    requires Enabled(s, l)
  {
    match l
    case Start(t, th) => s.(threads := s.threads[t := th])
    case Move(t, ch) =>
      var o := Next(s.st, s.threads[t], ch);
      System(o.st, s.threads[t := o.th])
    case OtherPhase(runId, run) => s.(st := s.st.(runs := s.st.runs[runId := run]))
  }

  const EmptySystem := System(
    Stores(RequestStore(map[], map[]), RecordStore(map[], map[], map[]),
           Coordinator(map[], {}, {}, {}, {}, map[]), map[]), map[])

  /** A run of the system: every prefix of the label list is enabled. */
  predicate Schedule(labels: seq<Label>)
    decreases |labels|, 0
  {
    labels == [] || (Schedule(labels[..|labels| - 1])
                     && Enabled(After(labels[..|labels| - 1]), labels[|labels| - 1]))
  }

  /** The state that a schedule leads to, from empty stores. */
  function After(labels: seq<Label>): System
    requires Schedule(labels)
    decreases |labels|, 1
  {
    if labels == [] then EmptySystem
    else Apply(After(labels[..|labels| - 1]), labels[|labels| - 1])
  }
}
