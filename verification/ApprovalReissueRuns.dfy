/**
 * Runs from empty stores that break reissue exclusion: one in which the audit append throws, while
 * no routing call overlaps another creation, and one in which two routing calls overlap, while no
 * audit append throws. Either half of the discipline of `ApprovalReissue` is needed.
 */
module ApprovalReissueRuns {
  import opened Wrappers
  import opened ApprovalDomain
  import opened ApprovalStores
  import opened ApprovalProtocol
  import opened ApprovalSafety
  import opened ApprovalTheorems
  import opened ApprovalReissue

  // ----- building a schedule label by label -----

  /** The half of the discipline that a run respects throughout. */
  datatype Half = Apart | Audited

  ghost predicate Respects(s: System, half: Half) {
    if half == Apart then RoutingApart(s) else AuditKept(s)
  }

  ghost predicate Always(labels: seq<Label>, half: Half)
    requires Schedule(labels)
  {
    forall i :: 0 <= i <= |labels| && Schedule(labels[..i]) ==> Respects(After(labels[..i]), half)
  }

  /** `labels` is a schedule that leads to `s` and respects `half` on the way. */
  ghost predicate Leads(labels: seq<Label>, s: System, half: Half) {
    Schedule(labels) && After(labels) == s && Always(labels, half)
  }

  lemma LeadsOn(labels: seq<Label>, s: System, half: Half, l: Label)
    requires Leads(labels, s, half) && Enabled(s, l) && Respects(Apply(s, l), half)
    ensures Leads(labels + [l], Apply(s, l), half)
  {
    var more := labels + [l];
    assert more[..|more| - 1] == labels;
    forall i | 0 <= i <= |more| && Schedule(more[..i]) ensures Respects(After(more[..i]), half) {
      if i < |more| { assert more[..i] == labels[..i]; } else { assert more[..i] == more; }
    }
  }

  /** Threads that by themselves cannot break `half`. */
  predicate Harmless(th: Thread, half: Half) {
    if half == Apart then !Routes(th) else !(th.InHeld? && th.held.LateRelease?)
  }

  ghost predicate Calm(s: System, half: Half) {
    forall t :: t in s.threads ==> Harmless(s.threads[t], half)
  }

  /** No other call has begun. */
  ghost predicate Lone(s: System, t: nat) {
    forall u :: u in s.threads ==> u == t
  }

  lemma CalmRespects(s: System, half: Half, t: nat)
    requires Calm(s, half) || (half == Apart && Lone(s, t))
    ensures Respects(s, half)
  {}

  /** One more call, or one more step of a call, among harmless threads. */
  lemma Started(labels: seq<Label>, s: System, half: Half, t: nat, th: Thread) returns (more: seq<Label>, b: System)
    requires Leads(labels, s, half) && Calm(s, half) && t !in s.threads && Starts(th)
    ensures b == System(s.st, s.threads[t := th]) && Leads(more, b, half) && Calm(b, half)
    ensures s.threads == map[] ==> Lone(b, t)
  {
    more, b := labels + [Start(t, th)], Apply(s, Start(t, th));
    CalmRespects(b, half, t);
    LeadsOn(labels, s, half, Start(t, th));
    hide Leads;
  }

  lemma Goes(labels: seq<Label>, s: System, half: Half, t: nat, ch: Choice, next: Outcome) returns (more: seq<Label>, b: System)
    requires Leads(labels, s, half) && t in s.threads && Next(s.st, s.threads[t], ch) == next
    requires (Calm(s, half) && Harmless(next.th, half)) || (half == Apart && Lone(s, t))
    ensures b == System(next.st, s.threads[t := next.th]) && Leads(more, b, half)
    ensures Harmless(next.th, half) ==> Calm(b, half)
    ensures Lone(s, t) ==> Lone(b, t)
  {
    more, b := labels + [Move(t, ch)], Apply(s, Move(t, ch));
    CalmRespects(b, half, t);
    LeadsOn(labels, s, half, Move(t, ch));
    hide Leads;
  }

  /** Another phase leaves the run 0 ready for routing. */
  lemma Validated(half: Half) returns (labels: seq<Label>, s: System)
    ensures s == System(ReadyStores(), map[]) && Leads(labels, s, half) && Calm(s, half)
  {
    var l := OtherPhase(0, RunRecord(Validating, 1));
    labels, s := [] + [l], Apply(EmptySystem, l);
    CalmRespects(EmptySystem, half, 0);
    CalmRespects(s, half, 0);
    assert Leads([], EmptySystem, half);
    LeadsOn([], EmptySystem, half, l);
    hide Leads;
    assert s.st.runs == map[0 := RunRecord(Validating, 1)];
  }

  // ----- the stores of these runs -----

  function Plan(): PlanBinding {
    PlanBinding(0, 0, 0, 0, 0, 0, 0, 0, 0, 0, 0)
  }

  function Request(id: Id, parent: Option<Id>, status: RequestStatus, deliveryFailed: bool): ApprovalRequest {
    ApprovalRequest(id, 0, Plan(), 0, 1, Sha256(0), parent, status, deliveryFailed)
  }

  function ReadyStores(): Stores {
    Stores(RequestStore(map[], map[]), RecordStore(map[], map[], map[]), Coordinator(map[], {}, {}, {}, {}, map[]),
           map[0 := RunRecord(Validating, 1)])
  }

  function One(r: ApprovalRequest): RequestStore {
    RequestStore(map[0 := r], map[0 := [0]])
  }

  function Two(r: ApprovalRequest, x: ApprovalRequest): RequestStore {
    RequestStore(map[0 := r, 1 := x], map[0 := [0, 1]])
  }

  lemma ListedOne(r: ApprovalRequest)
    requires r.approvalRequestId == 0
    ensures One(r).ListByRun(0) == [r]
  {
    assert One(r).Order(0) == [0] && [0][1..] == [] && Rows(One(r).byId, []) == [];
  }

  lemma ListedTwo(r: ApprovalRequest, x: ApprovalRequest)
    ensures Two(r, x).ListByRun(0) == [r, x]
  {
    var byId := Two(r, x).byId;
    assert Two(r, x).Order(0) == [0, 1] && [0, 1][1..] == [1] && [1][1..] == [] && Rows(byId, []) == [];
    assert Rows(byId, [1]) == [x];
  }

  /** Nothing listed is PENDING, so every search and every queue is empty. */
  lemma NothingPending(rs: RequestStore)
    requires forall x :: x in rs.ListByRun(0) ==> x.status != Pending
    ensures FirstReplacement(rs, 0, 0).None? && FirstPending(rs, 0).None? && AllPending(rs, 0) == []
  {
    FilterEmpty(rs.ListByRun(0), (r: ApprovalRequest) => r.status == Pending);
  }

  function Go(): Choice {
    Say(true, 0)
  }

  // ----- two routing calls -----

  function FailedStores(): Stores {
    ReadyStores().(requests := One(Request(0, None, Cancelled, true)),
                   coord := Coordinator(map[], {}, {}, {0}, {}, map[]))
  }

  function RouterSeen(): RunRecord {
    RunRecord(Validating, 1)
  }

  function RoutedDraft(parent: Option<Id>): Draft {
    Draft(0, Plan(), 0, 1, parent)
  }

  function RouterCreation(parent: Option<Id>): Creation {
    Creation(Routing(RouterSeen()), RoutedDraft(parent))
  }

  /** A routing call comes to its look at the index. */
  lemma RouterLoads(labels: seq<Label>, s: System, half: Half, t: nat) returns (more: seq<Label>, b: System)
    requires Leads(labels, s, half) && Calm(s, half) && t !in s.threads && s.st.runs == ReadyStores().runs
    ensures b == System(s.st, s.threads[t := InRoute(RouteIndex(RouterSeen(), RoutedDraft(None)))])
    ensures Leads(more, b, half) && Calm(b, half) && (s.threads == map[] ==> Lone(b, t))
  {
    hide Leads, Calm, Lone;
    more, b := Started(labels, s, half, t, InRoute(RouteRead(0)));
    more, b := Goes(more, b, half, t, Go(), Outcome(s.st, InRoute(RouteReady(0))));
    more, b := Goes(more, b, half, t, Go(), Outcome(s.st, InRoute(RouteLoad(0))));
    more, b := Goes(more, b, half, t, Go(), Outcome(s.st, InRoute(RouteIndex(RouterSeen(), RoutedDraft(None)))));
  }

  /** A routing call comes to the save of its request. */
  lemma RouterReachesSave(labels: seq<Label>, s: System, half: Half, t: nat, prior: Option<ApprovalRequest>)
    returns (more: seq<Label>, b: System)
    requires Leads(labels, s, half) && Calm(s, half) && t !in s.threads && (half == Audited || s.threads == map[])
    requires s.st.runs == ReadyStores().runs && s.st.coord.pendingByBinding == map[]
    requires LastFailedDelivery(s.st.requests, RoutedDraft(None)) == prior && AllPending(s.st.requests, 0) == []
    ensures var k := RouterCreation(if prior.None? then None else Some(prior.value.approvalRequestId));
            b == System(s.st, s.threads[t := InCreation(SupersedeLoop(k, []))])
    ensures Leads(more, b, half) && (half == Audited ==> Calm(b, half)) && (s.threads == map[] ==> Lone(b, t))
  {
    hide Leads, Calm, Lone, LastFailedDelivery, AllPending;
    var k := RouterCreation(if prior.None? then None else Some(prior.value.approvalRequestId));
    more, b := RouterLoads(labels, s, half, t);
    more, b := Goes(more, b, half, t, Go(), Outcome(s.st, InRoute(RouteHistory(RouterSeen(), RoutedDraft(None)))));
    more, b := Goes(more, b, half, t, Go(), Outcome(s.st, InCreation(SupersedeList(k))));
    more, b := Goes(more, b, half, t, Go(), Outcome(s.st, InCreation(SupersedeLoop(k, []))));
  }

  lemma NothingStored(rs: RequestStore)
    requires rs == RequestStore(map[], map[])
    ensures LastFailedDelivery(rs, RoutedDraft(None)).None? && AllPending(rs, 0) == []
  {}

  /** Routing creates request 0, and its delivery fails. */
  lemma FirstFails(labels: seq<Label>, s: System) returns (more: seq<Label>, b: System)
    requires s == System(ReadyStores(), map[]) && Leads(labels, s, Audited) && Calm(s, Audited)
    ensures b == System(FailedStores(), map[0 := Done]) && Leads(more, b, Audited) && Calm(b, Audited)
  {
    hide Leads, Calm, Lone, LastFailedDelivery, AllPending;
    NothingStored(s.st.requests);
    more, b := RouterReachesSave(labels, s, Audited, 0, None);
    var k, r := RouterCreation(None), Request(0, None, Pending, false);
    var saved, failed := s.st.(requests := One(r)), s.st.(requests := One(Request(0, None, Cancelled, true)));
    assert s.st.requests.Save(r) == Some(One(r)) by { assert s.st.requests.Order(0) + [0] == [0]; }
    more, b := Goes(more, b, Audited, 0, Go(), Outcome(saved, InCreation(Deliver(k, r))));
    more, b := Goes(more, b, Audited, 0, Say(false, 0), Outcome(saved, InCreation(DeliverFailed(k, r))));
    more, b := Goes(more, b, Audited, 0, Go(), Outcome(failed, InCreation(DeliverFailedNonce(k, r))));
    more, b := Goes(more, b, Audited, 0, Go(), Outcome(FailedStores(), Done));
  }

  lemma PriorFailed()
    ensures LastFailedDelivery(FailedStores().requests, RoutedDraft(None)) == Some(Request(0, None, Cancelled, true))
    ensures AllPending(FailedStores().requests, 0) == []
  {
    var r := Request(0, None, Cancelled, true);
    ListedOne(r);
    assert [r][1..] == [] && Reverse([r]) == [r];
  }

  /** The save at the end of a creation, from an empty queue. */
  lemma SavesBeside(labels: seq<Label>, s: System, half: Half, t: nat, k: Creation, id: Id) returns (more: seq<Label>, b: System)
    requires Leads(labels, s, half) && Calm(s, half) && (half == Audited || k.creator.Reissuing?)
    requires t in s.threads && s.threads[t] == InCreation(SupersedeLoop(k, [])) && id !in s.st.requests.byId
    ensures Leads(more, b, half) && Calm(b, half)
    ensures b.st.requests.byId == s.st.requests.byId[id := RequestFor(k.draft, id, 0)]
    ensures forall u :: u in s.threads && u != t ==> u in b.threads && b.threads[u] == s.threads[u]
  {
    var created := RequestFor(k.draft, id, 0);
    more, b := Goes(labels, s, half, t, Say(true, id),
                    Outcome(s.st.(requests := s.st.requests.Save(created).value), InCreation(Deliver(k, created))));
    hide Leads, Calm;
  }

  lemma RoutersPoised() returns (labels: seq<Label>, s: System)
    ensures Leads(labels, s, Audited) && Calm(s, Audited) && s.st == FailedStores()
    ensures 1 in s.threads && s.threads[1] == InCreation(SupersedeLoop(RouterCreation(Some(0)), []))
    ensures 2 in s.threads && s.threads[2] == InCreation(SupersedeLoop(RouterCreation(Some(0)), []))
  {
    hide Leads, Calm, Lone, LastFailedDelivery, AllPending;
    PriorFailed();
    labels, s := Validated(Audited);
    labels, s := FirstFails(labels, s);
    labels, s := RouterReachesSave(labels, s, Audited, 1, Some(Request(0, None, Cancelled, true)));
    labels, s := RouterReachesSave(labels, s, Audited, 2, Some(Request(0, None, Cancelled, true)));
  }

  /**
   * Two routing calls read the same failed request as parent, both find nothing to supersede, and
   * both save a replacement. Nothing else happens, so the audit append plays no part.
   */
  lemma RoutersBreakExclusion() returns (labels: seq<Label>)
    ensures Schedule(labels) && Always(labels, Audited)
    ensures PendingReplacement(After(labels).st.requests, 1, 0) && PendingReplacement(After(labels).st.requests, 2, 0)
    ensures !OneReplacement(After(labels).st.requests)
  {
    hide *;
    var s;
    labels, s := RoutersPoised();
    RouterStores();
    labels, s := SavesBeside(labels, s, Audited, 1, RouterCreation(Some(0)), 1);
    labels, s := SavesBeside(labels, s, Audited, 2, RouterCreation(Some(0)), 2);
    BothSaved(s.st.requests, RouterCreation(Some(0)).draft, RouterCreation(Some(0)).draft);
    TwoReplace(labels, s, Audited, 1, 2);
  }

  lemma RouterStores()
    ensures FailedStores().requests.byId == map[0 := Request(0, None, Cancelled, true)]
    ensures !RouterCreation(Some(0)).creator.Reissuing? && RouterCreation(Some(0)).draft.parent == Some(0)
  {}

  lemma BothSaved(rs: RequestStore, first: Draft, second: Draft)
    requires 1 in rs.byId && 2 in rs.byId && first.parent == second.parent == Some(0)
    requires rs.byId[1] == RequestFor(first, 1, 0) && rs.byId[2] == RequestFor(second, 2, 0)
    ensures PendingReplacement(rs, 1, 0) && PendingReplacement(rs, 2, 0)
  {}

  lemma TwoReplace(labels: seq<Label>, s: System, half: Half, x: Id, y: Id)
    requires Leads(labels, s, half) && x != y
    requires PendingReplacement(s.st.requests, x, 0) && PendingReplacement(s.st.requests, y, 0)
    ensures Schedule(labels) && Always(labels, half) && After(labels) == s && !OneReplacement(s.st.requests)
  {
    hide Schedule, After, Always;
  }

  // ----- an audit that throws -----

  function Original(status: RequestStatus): ApprovalRequest {
    Request(0, None, status, false)
  }

  function Replacement(status: RequestStatus, deliveryFailed: bool): ApprovalRequest {
    Request(1, Some(0), status, deliveryFailed)
  }

  /** The stores of this run, of which only the requests and the coordinator go on changing. */
  function Waiting(requests: RequestStore, coord: Coordinator): Stores {
    Stores(requests, RecordStore(map[], map[], map[]), coord, map[0 := RunRecord(AwaitingApproval, 2)])
  }

  /** Request 0 is delivered and registered. */
  function DeliveredStores(): Stores {
    Waiting(One(Original(Pending)), Coordinator(map[KeyOf(0, Plan()) := 0], {}, {}, {}, {}, map[]))
  }

  /** Request 0 is cancelled under a claim. */
  function CancelledStores(): Stores {
    Waiting(One(Original(Cancelled)), Coordinator(map[], {}, {}, {0}, {0}, map[]))
  }

  /** Request 1 has replaced it. */
  function ReplacedStores(): Stores {
    Waiting(Two(Original(Cancelled), Replacement(Pending, false)), Coordinator(map[], {}, {}, {0}, {}, map[0 := 1]))
  }

  /** And was not delivered. */
  function UndeliveredStores(): Stores {
    Waiting(Two(Original(Cancelled), Replacement(Cancelled, true)), Coordinator(map[], {}, {}, {0, 1}, {}, map[0 := 1]))
  }

  /** Request 0 is claimed again. */
  function PoisedStores(): Stores {
    Waiting(Two(Original(Cancelled), Replacement(Cancelled, true)), Coordinator(map[], {}, {}, {0, 1}, {0}, map[]))
  }

  function Recovery(): ReissueCall {
    ReissueCall(Recover, Original(Pending))
  }

  function SecondReissue(): ReissueCall {
    ReissueCall(Reissue, Original(Cancelled))
  }

  function CreationOf(call: ReissueCall): Creation {
    Creation(Reissuing(call), ReissueDraft(call, Go()))
  }

  function Durable(id: Id): Choice {
    Go().(alternative := true, freshId := id)
  }

  /** Routing creates request 0, to be delivered from the outbox. */
  lemma FirstRouted(labels: seq<Label>, s: System) returns (more: seq<Label>, b: System)
    requires s == System(ReadyStores(), map[]) && Leads(labels, s, Apart) && Calm(s, Apart)
    ensures b == System(ReadyStores().(requests := One(Original(Pending))), map[0 := Done]) && Leads(more, b, Apart) && Calm(b, Apart)
  {
    hide Leads, Calm, Lone, LastFailedDelivery, AllPending;
    NothingStored(s.st.requests);
    more, b := RouterReachesSave(labels, s, Apart, 0, None);
    var k, r := RouterCreation(None), Original(Pending);
    var saved := s.st.(requests := One(r));
    assert s.st.requests.Save(r) == Some(One(r)) by { assert s.st.requests.Order(0) + [0] == [0]; }
    more, b := Goes(more, b, Apart, 0, Durable(0), Outcome(saved, InCreation(DurableRun(k, r))));
    more, b := Goes(more, b, Apart, 0, Go(), Outcome(saved, Done));
  }

  /** The outbox delivers it. */
  lemma FirstSent(labels: seq<Label>, s: System) returns (more: seq<Label>, b: System)
    requires s == System(ReadyStores().(requests := One(Original(Pending))), map[0 := Done]) && Leads(labels, s, Apart) && Calm(s, Apart)
    ensures b == System(s.st, map[0 := Done, 5 := InConsumer(ConsumeRegister(Original(Pending)))]) && Leads(more, b, Apart) && Calm(b, Apart)
  {
    hide Leads, Calm, Lone;
    var r := Original(Pending);
    more, b := Started(labels, s, Apart, 5, InConsumer(ConsumeLoad(0)));
    more, b := Goes(more, b, Apart, 5, Go(), Outcome(s.st, InConsumer(ConsumeDeliver(r))));
    more, b := Goes(more, b, Apart, 5, Go(), Outcome(s.st, InConsumer(ConsumeLive(r))));
    more, b := Goes(more, b, Apart, 5, Go(), Outcome(s.st, InConsumer(ConsumeRegister(r))));
  }

  /** It is registered, and the run awaits approval. */
  lemma FirstDelivered(labels: seq<Label>, s: System) returns (more: seq<Label>, b: System)
    requires s == System(ReadyStores().(requests := One(Original(Pending))), map[0 := Done]) && Leads(labels, s, Apart) && Calm(s, Apart)
    ensures b == System(DeliveredStores(), map[0 := Done, 5 := Done]) && Leads(more, b, Apart) && Calm(b, Apart)
  {
    hide Leads, Calm, Lone;
    var r, run := Original(Pending), RunRecord(Validating, 1);
    more, b := FirstSent(labels, s);
    var indexed := s.st.(coord := s.st.coord.(pendingByBinding := map[KeyOf(0, Plan()) := 0]));
    more, b := Goes(more, b, Apart, 5, Go(), Outcome(indexed, InConsumer(ConsumeRun(r))));
    more, b := Goes(more, b, Apart, 5, Go(), Outcome(indexed, InConsumer(ConsumeCommit(r, run))));
    assert indexed.runs[0 := RunRecord(AwaitingApproval, 2)] == map[0 := RunRecord(AwaitingApproval, 2)];
    more, b := Goes(more, b, Apart, 5, Go(), Outcome(DeliveredStores(), Done));
  }

  /** Under its claim a call finds and sees nothing, and comes to the save. */
  lemma ClaimantReachesSave(labels: seq<Label>, s: System, t: nat, call: ReissueCall) returns (more: seq<Label>, b: System)
    requires Leads(labels, s, Apart) && Calm(s, Apart) && t in s.threads && s.threads[t] == InFind(FindMap(call, UnderClaim))
    requires call.Replaced() == 0 && call.original.runId == 0 && 0 !in s.st.coord.reissueReplacementByReplaced
    requires FirstReplacement(s.st.requests, 0, 0).None? && FirstPending(s.st.requests, 0).None? && AllPending(s.st.requests, 0) == []
    ensures b == System(s.st, s.threads[t := InCreation(SupersedeLoop(CreationOf(call), []))]) && Leads(more, b, Apart) && Calm(b, Apart)
  {
    hide Leads, Calm, Lone, FirstReplacement, FirstPending, AllPending;
    more, b := Goes(labels, s, Apart, t, Go(), Outcome(s.st, InFind(FindList(call, UnderClaim))));
    more, b := Goes(more, b, Apart, t, Go(), Outcome(s.st, InHeld(HeldLive(call))));
    more, b := Goes(more, b, Apart, t, Go(), Outcome(s.st, InHeld(HeldDraft(call))));
    more, b := Goes(more, b, Apart, t, Go(), Outcome(s.st, InCreation(SupersedeList(CreationOf(call)))));
    more, b := Goes(more, b, Apart, t, Go(), Outcome(s.st, InCreation(SupersedeLoop(CreationOf(call), []))));
  }

  lemma OneSearched(status: RequestStatus)
    ensures FirstReplacement(One(Original(status)), 0, 0).None?
    ensures status != Pending ==> FirstPending(One(Original(status)), 0).None? && AllPending(One(Original(status)), 0) == []
  {
    ListedOne(Original(status));
    assert forall x :: x in One(Original(status)).ListByRun(0) ==> x.parent == None;
    if status != Pending { NothingPending(One(Original(status))); }
  }

  /** A recovery of request 0 finds no replacement. */
  lemma RecoverySearches(labels: seq<Label>, s: System) returns (more: seq<Label>, b: System)
    requires s == System(DeliveredStores(), map[0 := Done, 5 := Done]) && Leads(labels, s, Apart) && Calm(s, Apart)
    ensures b == System(s.st, s.threads[1 := InClaim(Eligible(Recovery()))]) && Leads(more, b, Apart) && Calm(b, Apart)
  {
    OneSearched(Pending);
    hide Leads, Calm, Lone, FirstReplacement;
    var call := Recovery();
    more, b := Started(labels, s, Apart, 1, InFind(ReissueLoad(Recover, None, 0)));
    more, b := Goes(more, b, Apart, 1, Go(), Outcome(s.st, InFind(FindMap(call, BeforeClaim))));
    more, b := Goes(more, b, Apart, 1, Go(), Outcome(s.st, InFind(FindList(call, BeforeClaim))));
    more, b := Goes(more, b, Apart, 1, Go(), Outcome(s.st, InClaim(Eligible(call))));
  }

  /** It takes the claim. */
  lemma RecoveryClaims(labels: seq<Label>, s: System) returns (more: seq<Label>, b: System)
    requires s == System(DeliveredStores(), map[0 := Done, 5 := Done]) && Leads(labels, s, Apart) && Calm(s, Apart)
    ensures b == System(DeliveredStores().(coord := DeliveredStores().coord.Claim(0)), s.threads[1 := InHeld(HeldRun(Recovery()))])
    ensures Leads(more, b, Apart) && Calm(b, Apart)
  {
    hide Leads, Calm, Lone;
    var call := Recovery();
    more, b := RecoverySearches(labels, s);
    more, b := Goes(more, b, Apart, 1, Go(), Outcome(s.st, InClaim(EligibleRecord(call))));
    more, b := Goes(more, b, Apart, 1, Go(), Outcome(s.st, InClaim(ClaimMap(call))));
    more, b := Goes(more, b, Apart, 1, Go(), Outcome(s.st, InClaim(Claim(call))));
    more, b := Goes(more, b, Apart, 1, Go(), Outcome(s.st.(coord := s.st.coord.Claim(0)), InHeld(HeldRun(call))));
  }

  /** It cancels request 0. */
  lemma RecoveryCancels(labels: seq<Label>, s: System) returns (more: seq<Label>, b: System)
    requires s == System(DeliveredStores().(coord := DeliveredStores().coord.Claim(0)), map[0 := Done, 5 := Done, 1 := InHeld(HeldRun(Recovery()))])
    requires Leads(labels, s, Apart) && Calm(s, Apart)
    ensures b == System(CancelledStores(), s.threads[1 := InFind(FindMap(Recovery(), UnderClaim))]) && Leads(more, b, Apart) && Calm(b, Apart)
  {
    hide Leads, Calm, Lone;
    var call := Recovery();
    more, b := Goes(labels, s, Apart, 1, Go(), Outcome(s.st, InHeld(HeldInvalidate(call))));
    var burnt := Waiting(One(Original(Pending)), CancelledStores().coord);
    assert s.st.coord.Unindex(0) == map[];
    more, b := Goes(more, b, Apart, 1, Go(), Outcome(burnt, InHeld(HeldCancel(call))));
    assert burnt.SetStatus(0, Cancelled, false) == Some(CancelledStores()) by {
      assert One(Original(Pending)).byId[0 := Original(Cancelled)] == map[0 := Original(Cancelled)];
    }
    more, b := Goes(more, b, Apart, 1, Go(), Outcome(CancelledStores(), InFind(FindMap(call, UnderClaim))));
  }

  lemma SecondSaved()
    ensures One(Original(Cancelled)).Save(Replacement(Pending, false)) == Some(Two(Original(Cancelled), Replacement(Pending, false)))
  {
    var one, x := One(Original(Cancelled)), Replacement(Pending, false);
    var both := one.Save(x).value;
    assert both.byId == Two(Original(Cancelled), x).byId;
    assert one.Order(0) + [1] == [0, 1];
    assert both.orderByRun == map[0 := [0, 1]];
  }

  /** And replaces it by request 1, which leaves its audit to be written. */
  lemma RecoveryReplaces(labels: seq<Label>, s: System) returns (more: seq<Label>, b: System)
    requires s.st == CancelledStores() && 1 in s.threads && s.threads[1] == InFind(FindMap(Recovery(), UnderClaim))
    requires Leads(labels, s, Apart) && Calm(s, Apart)
    ensures b == System(ReplacedStores(), s.threads[1 := InHeld(Audit(Recovery()))]) && Leads(more, b, Apart) && Calm(b, Apart)
  {
    OneSearched(Cancelled);
    hide Leads, Calm, Lone, FirstReplacement, FirstPending, AllPending;
    var call, k, x := Recovery(), CreationOf(Recovery()), Replacement(Pending, false);
    more, b := ClaimantReachesSave(labels, s, 1, call);
    var saved := Waiting(Two(Original(Cancelled), x), CancelledStores().coord);
    SecondSaved();
    assert RequestFor(k.draft, 1, 0) == x;
    more, b := Goes(more, b, Apart, 1, Durable(1), Outcome(saved, InCreation(DurableRun(k, x))));
    more, b := Goes(more, b, Apart, 1, Go(), Outcome(saved, InCreation(DurableLive(k, x))));
    more, b := Goes(more, b, Apart, 1, Go(), Outcome(saved, InHeld(HeldComplete(call, 1))));
    more, b := Goes(more, b, Apart, 1, Go(), Outcome(ReplacedStores(), InHeld(Audit(call))));
  }

  /** The outbox fails to deliver request 1. */
  lemma ReplacementFails(labels: seq<Label>, s: System) returns (more: seq<Label>, b: System)
    requires s.st == ReplacedStores() && 4 !in s.threads && Leads(labels, s, Apart) && Calm(s, Apart)
    ensures b == System(UndeliveredStores(), s.threads[4 := Done]) && Leads(more, b, Apart) && Calm(b, Apart)
  {
    hide Leads, Calm, Lone;
    var x := Replacement(Pending, false);
    more, b := Started(labels, s, Apart, 4, InConsumer(ConsumeLoad(1)));
    more, b := Goes(more, b, Apart, 4, Go(), Outcome(s.st, InConsumer(ConsumeDeliver(x))));
    more, b := Goes(more, b, Apart, 4, Say(false, 0).(alternative := true), Outcome(s.st, InConsumer(ConsumeFailed(x))));
    var failed := Waiting(Two(Original(Cancelled), Replacement(Cancelled, true)), ReplacedStores().coord);
    assert s.st.SetStatus(1, Cancelled, true) == Some(failed) by {
      assert s.st.requests.byId[1 := Replacement(Cancelled, true)] == failed.requests.byId;
    }
    more, b := Goes(more, b, Apart, 4, Go(), Outcome(failed, InConsumer(ConsumeFailedNonce(x))));
    assert failed.coord.Unindex(1) == map[] && {0} + {1} == {0, 1};
    more, b := Goes(more, b, Apart, 4, Go(), Outcome(UndeliveredStores(), Done));
  }

  lemma TwoSearched()
    ensures var rs := Two(Original(Cancelled), Replacement(Cancelled, true));
            FirstReplacement(rs, 0, 0).None? && FirstPending(rs, 0).None? && AllPending(rs, 0) == []
  {
    ListedTwo(Original(Cancelled), Replacement(Cancelled, true));
    NothingPending(Two(Original(Cancelled), Replacement(Cancelled, true)));
  }

  /** A reissue of request 0 comes to its look for a replacement. */
  lemma ReissueLoads(labels: seq<Label>, s: System, t: nat) returns (more: seq<Label>, b: System)
    requires Leads(labels, s, Apart) && Calm(s, Apart) && t !in s.threads
    requires s.st == UndeliveredStores() || s.st == PoisedStores()
    ensures b == System(s.st, s.threads[t := InFind(FindMap(SecondReissue(), BeforeClaim))]) && Leads(more, b, Apart) && Calm(b, Apart)
  {
    hide Leads, Calm, Lone;
    more, b := Started(labels, s, Apart, t, InFind(ReissueRunCheck(0, 0)));
    more, b := Goes(more, b, Apart, t, Go(), Outcome(s.st, InFind(ReissueLoad(Reissue, Some(0), 0))));
    more, b := Goes(more, b, Apart, t, Go(), Outcome(s.st, InFind(FindMap(SecondReissue(), BeforeClaim))));
  }

  /** It forgets a replacement that is not live. */
  lemma ReissueForgets(labels: seq<Label>, s: System, t: nat) returns (more: seq<Label>, b: System)
    requires Leads(labels, s, Apart) && Calm(s, Apart) && t !in s.threads
    requires s.st == UndeliveredStores() || s.st == PoisedStores()
    ensures b == System(s.st.(coord := s.st.coord.ForgetReplacement(0)), s.threads[t := InFind(FindList(SecondReissue(), BeforeClaim))])
    ensures Leads(more, b, Apart) && Calm(b, Apart)
  {
    hide Leads, Calm, Lone;
    var call, forgot := SecondReissue(), s.st.(coord := s.st.coord.ForgetReplacement(0));
    more, b := ReissueLoads(labels, s, t);
    if s.st == UndeliveredStores() {
      more, b := Goes(more, b, Apart, t, Go(), Outcome(s.st, InFind(FindMapped(call, BeforeClaim, 1, false))));
    } else {
      assert forgot.coord.reissueReplacementByReplaced == map[];
    }
    more, b := Goes(more, b, Apart, t, Go(), Outcome(forgot, InFind(FindList(call, BeforeClaim))));
  }

  /** It sees nothing live, and comes to its claim. */
  lemma ReissueReachesClaim(labels: seq<Label>, s: System, t: nat) returns (more: seq<Label>, b: System)
    requires Leads(labels, s, Apart) && Calm(s, Apart) && t !in s.threads
    requires s.st == UndeliveredStores() || s.st == PoisedStores()
    ensures b == System(s.st.(coord := s.st.coord.ForgetReplacement(0)), s.threads[t := InClaim(Claim(SecondReissue()))])
    ensures Leads(more, b, Apart) && Calm(b, Apart)
  {
    TwoSearched();
    hide Leads, Calm, Lone, FirstReplacement, FirstPending, AllPending;
    var call := SecondReissue();
    more, b := ReissueForgets(labels, s, t);
    var st := b.st;
    more, b := Goes(more, b, Apart, t, Go(), Outcome(st, InClaim(Eligible(call))));
    more, b := Goes(more, b, Apart, t, Go(), Outcome(st, InClaim(ClaimMap(call))));
    more, b := Goes(more, b, Apart, t, Go(), Outcome(st, InClaim(Claim(call))));
  }

  /** The recovery, up to its audit append. */
  lemma RecoveryRuns() returns (labels: seq<Label>, s: System)
    ensures Leads(labels, s, Apart) && Calm(s, Apart)
    ensures s == System(UndeliveredStores(), map[0 := Done, 5 := Done, 1 := InHeld(Audit(Recovery())), 4 := Done])
  {
    hide Leads, Calm, Lone, ReadyStores, DeliveredStores, CancelledStores, ReplacedStores, UndeliveredStores, Original, Recovery;
    labels, s := Validated(Apart);
    labels, s := FirstRouted(labels, s);
    labels, s := FirstDelivered(labels, s);
    labels, s := RecoveryClaims(labels, s);
    labels, s := RecoveryCancels(labels, s);
    labels, s := RecoveryReplaces(labels, s);
    labels, s := ReplacementFails(labels, s);
  }

  /** The three calls of `Poised`, reached from empty stores. */
  lemma CallsPoised() returns (labels: seq<Label>, s: System)
    ensures Leads(labels, s, Apart) && Calm(s, Apart) && s.st == PoisedStores()
    ensures 1 in s.threads && s.threads[1] == InHeld(Audit(Recovery()))
    ensures 2 in s.threads && s.threads[2] == InCreation(SupersedeLoop(CreationOf(SecondReissue()), []))
    ensures 3 in s.threads && s.threads[3] == InClaim(Claim(SecondReissue()))
    ensures Poised(s.st, Recovery(), CreationOf(SecondReissue()), SecondReissue())
  {
    hide Leads, Calm, Lone, FirstReplacement, FirstPending, AllPending;
    TwoSearched();
    labels, s := RecoveryRuns();
    labels, s := ReissueReachesClaim(labels, s, 2);
    var claimed := PoisedStores();
    assert s.st.coord.Claim(0) == claimed.coord;
    labels, s := Goes(labels, s, Apart, 2, Go(), Outcome(claimed, InFind(FindMap(SecondReissue(), UnderClaim))));
    labels, s := ClaimantReachesSave(labels, s, 2, SecondReissue());
    labels, s := ReissueReachesClaim(labels, s, 3);
    assert s.st.coord == claimed.coord;
  }

  lemma StaysHarmless(st: Stores, th: Thread, ch: Choice)
    requires Harmless(th, Apart) && !th.InRoute?
    ensures Harmless(Next(st, th, ch).th, Apart) && !Next(st, th, ch).th.InRoute?
  {}

  /** A call that runs on by itself is a stretch of the schedule. */
  lemma {:induction false} GoesOn(labels: seq<Label>, s: System, t: nat, chs: seq<Choice>) returns (more: seq<Label>, b: System)
    requires Leads(labels, s, Apart) && Calm(s, Apart) && t in s.threads && !s.threads[t].InRoute?
    ensures var o := Uninterrupted(s.st, s.threads[t], chs); b == System(o.st, s.threads[t := o.th])
    ensures Leads(more, b, Apart) && Calm(b, Apart)
    decreases |chs|
  {
    more, b := labels, s;
    if chs != [] {
      var o := Next(s.st, s.threads[t], chs[0]);
      assert Harmless(s.threads[t], Apart);
      StaysHarmless(s.st, s.threads[t], chs[0]);
      hide Leads, Calm, Lone, Next;
      more, b := Goes(labels, s, Apart, t, chs[0], o);
      more, b := GoesOn(more, b, t, chs[1..]);
    }
  }

  /**
   * From empty stores: a recovery completes, its replacement is not delivered, a reissue holds the
   * claim, a second reissue is about to claim. The recovery's audit append throws, and its late
   * `failReissue` drops the claim, so both reissues save. No routing call overlaps another creation.
   */
  lemma AuditThrowBreaksExclusion() returns (labels: seq<Label>)
    ensures Schedule(labels) && Always(labels, Apart)
    ensures PendingReplacement(After(labels).st.requests, 2, 0) && PendingReplacement(After(labels).st.requests, 3, 0)
    ensures !OneReplacement(After(labels).st.requests)
  {
    var s;
    labels, s := CallsPoised();
    PoisedOrder();
    PoisedBreaksExclusion(s.st, Recovery(), CreationOf(SecondReissue()), SecondReissue(), 2, 3);
    hide Leads, Calm, Lone, Uninterrupted, Going, OrderValid, Poised, PendingReplacement;
    labels, s := GoesOn(labels, s, 1, [Say(false, 0), Say(true, 0)]);
    labels, s := GoesOn(labels, s, 3, Going(6, Say(true, 3)));
    labels, s := GoesOn(labels, s, 2, Going(0, Say(true, 2)));
    TwoReplace(labels, s, Apart, 2, 3);
  }

  lemma PoisedOrder()
    ensures OrderValid(PoisedStores().requests) && 2 !in PoisedStores().requests.byId && 3 !in PoisedStores().requests.byId
  {
    var rs := PoisedStores().requests;
    assert rs.Order(0) == [0, 1] && rs.byId.Keys == {0, 1};
    assert forall run :: run != 0 ==> rs.Order(run) == [];
    hide PoisedStores, RequestStore.Order;
  }
}
