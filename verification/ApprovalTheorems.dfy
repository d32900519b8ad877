/** What holds after every run of the approval services, whatever the interleaving. */
module ApprovalTheorems {
  import opened Wrappers
  import opened ApprovalDomain
  import opened ApprovalStores
  import opened ApprovalProtocol
  import opened ApprovalSafety
  import opened HistoricalAuthority

  // ----- every run is safe, and later states extend earlier ones -----

  lemma EvolvesTransitive(a: Stores, b: Stores, c: Stores)
    requires Evolves(a, b) && Evolves(b, c)
    ensures Evolves(a, c)
  {
    forall id | id in a.requests.byId ensures id in c.requests.byId && Later(a.requests.byId[id], c.requests.byId[id]) {
      LaterTransitive(a.requests.byId[id], b.requests.byId[id], c.requests.byId[id]);
    }
    forall run ensures a.requests.Order(run) <= c.requests.Order(run) {
      assert a.requests.Order(run) <= b.requests.Order(run) <= c.requests.Order(run);
    }
  }

  lemma OthersHold(s: System, b: Stores)
    requires Safe(s) && Evolves(s.st, b)
    ensures forall t :: t in s.threads ==> Holds(b, s.threads[t])
  {
    forall t | t in s.threads ensures Holds(b, s.threads[t]) { HoldsStable(s.st, b, s.threads[t]); }
  }

  lemma StepSafe(s: System, l: Label)
    requires Safe(s) && Enabled(s, l)
    ensures Safe(Apply(s, l)) && Evolves(s.st, Apply(s, l).st)
  {
    hide StoresValid, Evolves, Holds, Next;
    match l
    case Start(t, th) =>
      CoordWrite(s.st, s.st.coord);
      StartHolds(s.st, th);
    case Move(t, ch) =>
      NextSafe(s.st, s.threads[t], ch);
      OthersHold(s, Next(s.st, s.threads[t], ch).st);
    case OtherPhase(runId, run) =>
      RunWrite(s.st, runId, run);
      OthersHold(s, Apply(s, l).st);
  }

  lemma StartHolds(st: Stores, th: Thread)
    requires Starts(th)
    ensures Holds(st, th)
  {}

  lemma {:induction false} RunSafe(labels: seq<Label>)
    requires Schedule(labels)
    ensures Safe(After(labels))
  {
    if labels != [] {
      RunSafe(labels[..|labels| - 1]);
      StepSafe(After(labels[..|labels| - 1]), labels[|labels| - 1]);
    }
  }

  lemma {:induction false} PrefixEvolves(labels: seq<Label>, i: nat)
    requires Schedule(labels) && i <= |labels|
    ensures Schedule(labels[..i]) && Evolves(After(labels[..i]).st, After(labels).st)
  {
    hide Evolves, Safe;
    RunSafe(labels);
    if i == |labels| {
      assert labels[..i] == labels;
      SelfEvolves(After(labels).st);
    } else {
      var front := labels[..|labels| - 1];
      assert front[..i] == labels[..i];
      RunSafe(front);
      PrefixEvolves(front, i);
      StepSafe(After(front), labels[|labels| - 1]);
      EvolvesTransitive(After(labels[..i]).st, After(front).st, After(labels).st);
    }
  }

  lemma SelfEvolves(st: Stores)
    ensures Evolves(st, st)
  {}

  // ----- beginDecision -----

  /** Position `i` of the schedule is a `beginDecision` that succeeds for request `a`. */
  ghost predicate Begins(labels: seq<Label>, i: nat, a: Id)
    requires Schedule(labels)
  {
    && i < |labels| && labels[i].Move?
    && Schedule(labels[..i])
    && var s := After(labels[..i]);
    labels[i].t in s.threads && BeginsNow(s.st, s.threads[labels[i].t], a)
  }

  predicate BeginsNow(st: Stores, th: Thread, a: Id) {
    && th.InDecide? && th.decide.DecideBegin?
    && th.decide.seen.approvalRequestId == a
    && st.coord.BeginDecision(th.decide.seen, th.decide.decision.nonce).Some?
  }

  lemma BeginBurns(labels: seq<Label>, i: nat, a: Id)
    requires Schedule(labels) && Begins(labels, i, a)
    ensures i < |labels| && Schedule(labels[..i])
    ensures a !in After(labels[..i]).st.coord.consumedNonces && a !in After(labels[..i]).st.coord.invalidatedNonces
    ensures Schedule(labels[..i + 1]) && a in After(labels[..i + 1]).st.coord.consumedNonces
  {
    StepAt(labels, i);
    BeginStep(After(labels[..i]).st, After(labels[..i]).threads[labels[i].t], labels[i].ch, a);
    hide Next, Schedule, After;
  }

  /** The state after position `i` is one step from the state before it. */
  lemma StepAt(labels: seq<Label>, i: nat)
    requires Schedule(labels) && i < |labels|
    ensures Schedule(labels[..i]) && Schedule(labels[..i + 1]) && Enabled(After(labels[..i]), labels[i])
    ensures After(labels[..i + 1]) == Apply(After(labels[..i]), labels[i])
  {
    PrefixEvolves(labels, i + 1);
    assert labels[..i + 1][..i] == labels[..i];
    hide Apply, Evolves;
  }

  lemma BeginStep(st: Stores, th: Thread, ch: Choice, a: Id)
    requires BeginsNow(st, th, a)
    ensures a !in st.coord.consumedNonces && a !in st.coord.invalidatedNonces
    ensures a in Next(st, th, ch).st.coord.consumedNonces
  {}

  lemma InvalidateStep(st: Stores, th: Thread, ch: Choice, a: Id)
    requires InvalidatesNow(th, a)
    ensures a in Next(st, th, ch).st.coord.invalidatedNonces
  {
    match th
    case InExpiry(_) =>
    case InHeld(_) =>
    case InCreation(_) =>
    case InConsumer(_) =>
    case _ =>
  }

  lemma Monotone(labels: seq<Label>, i: nat, j: nat)
    requires Schedule(labels) && i <= j <= |labels|
    ensures Schedule(labels[..i]) && Schedule(labels[..j])
    ensures Evolves(After(labels[..i]).st, After(labels[..j]).st)
  {
    PrefixEvolves(labels, j);
    PrefixEvolves(labels[..j], i);
    assert labels[..j][..i] == labels[..i];
  }

  /** In any run, at most one `beginDecision` succeeds for a request. */
  lemma BeginsAtMostOnce(labels: seq<Label>, i: nat, j: nat, a: Id)
    requires Schedule(labels) && Begins(labels, i, a) && Begins(labels, j, a)
    ensures i == j
  {
    hide Begins;
    if i < j {
      BeginBurns(labels, i, a);
      BeginBurns(labels, j, a);
      Monotone(labels, i + 1, j);
    } else if j < i {
      BeginsAtMostOnce(labels, j, i, a);
    }
  }

  /** A thread is about to call `invalidateNonce` for `a`. */
  predicate InvalidatesNow(th: Thread, a: Id) {
    match th
    case InExpiry(e) => e.ExpireNonce? && e.request.approvalRequestId == a
    case InHeld(h) => (h.HeldInvalidate? || h.HeldCancelNonce?) && h.call.Replaced() == a
    case InCreation(c) =>
      || (c.SupersedeNonce? && c.queue != [] && c.queue[0].approvalRequestId == a)
      || (c.DeliverFailedNonce? && c.created.approvalRequestId == a)
    case InConsumer(c) => c.ConsumeFailedNonce? && c.request.approvalRequestId == a
    case _ => false
  }

  /** Position `i` of the schedule runs `invalidateNonce` for `a`. */
  ghost predicate Invalidates(labels: seq<Label>, i: nat, a: Id)
    requires Schedule(labels)
  {
    && i < |labels| && labels[i].Move?
    && Schedule(labels[..i])
    && var s := After(labels[..i]);
    labels[i].t in s.threads && InvalidatesNow(s.threads[labels[i].t], a)
  }

  lemma InvalidationKept(labels: seq<Label>, i: nat, a: Id)
    requires Schedule(labels) && Invalidates(labels, i, a)
    ensures i < |labels| && Schedule(labels[..i + 1]) && a in After(labels[..i + 1]).st.coord.invalidatedNonces
  {
    StepAt(labels, i);
    InvalidateStep(After(labels[..i]).st, After(labels[..i]).threads[labels[i].t], labels[i].ch, a);
    hide Next, Schedule, After, InvalidatesNow;
  }

  /** After `invalidateNonce` no `beginDecision` for the request succeeds any more. */
  lemma NeverAfterInvalidation(labels: seq<Label>, i: nat, j: nat, a: Id)
    requires Schedule(labels) && Invalidates(labels, i, a) && Begins(labels, j, a)
    ensures j < i
  {
    hide Begins, Invalidates;
    if i < j {
      InvalidationKept(labels, i, a);
      BeginBurns(labels, j, a);
      Monotone(labels, i + 1, j);
    } else if i == j {
      OneStepEach(labels, i, a);
    }
  }

  lemma OneStepEach(labels: seq<Label>, i: nat, a: Id)
    requires Schedule(labels)
    ensures !(Invalidates(labels, i, a) && Begins(labels, i, a))
  {}

  // ----- records -----

  lemma OnlyCommitAppends(st: Stores, th: Thread, ch: Choice)
    ensures Next(st, th, ch).st.records == st.records || (th.InDecide? && th.decide.DecideCommit?)
    ensures Next(st, th, ch).st.coord.consumedNonces == st.coord.consumedNonces || (th.InDecide? && th.decide.DecideBegin?)
  {
    match th
    case InCreation(step) => CreationKeepsRecords(st, step, ch);
    case InHeld(step) => HeldKeepsRecords(st, step, ch);
    case _ =>
  }

  lemma CreationKeepsRecords(st: Stores, step: CreateStep, ch: Choice)
    ensures NextCreate(st, step, ch).st.records == st.records
    ensures NextCreate(st, step, ch).st.coord.consumedNonces == st.coord.consumedNonces
  {}

  lemma HeldKeepsRecords(st: Stores, step: HeldStep, ch: Choice)
    ensures NextHeld(st, step, ch).st.records == st.records
    ensures NextHeld(st, step, ch).st.coord.consumedNonces == st.coord.consumedNonces
  {}

  /** Each recorded decision burnt the nonce of its request. */
  ghost predicate RecordsBurn(st: Stores) {
    forall a :: a in st.records.byApproval ==> a in st.coord.consumedNonces
  }

  lemma StepBurns(st: Stores, th: Thread, ch: Choice)
    requires RecordsBurn(st) && Holds(st, th)
    ensures RecordsBurn(Next(st, th, ch).st)
    ensures forall a :: a in Next(st, th, ch).st.coord.consumedNonces && a !in st.coord.consumedNonces ==> BeginsNow(st, th, a)
  {
    OnlyCommitAppends(st, th, ch);
    if th.InDecide? {
      hide NextExpire, NextFind, NextClaim, NextHeld, NextRoute, NextCreate, NextConsume;
    } else {
      hide Next, Holds;
    }
  }

  lemma {:induction false} BurntByBegin(labels: seq<Label>)
    requires Schedule(labels)
    ensures RecordsBurn(After(labels).st)
    ensures forall a :: a in After(labels).st.coord.consumedNonces ==> exists i: nat :: Begins(labels, i, a)
  {
    if labels != [] {
      var n := |labels| - 1;
      var front := labels[..n];
      var s := After(front);
      BurntByBegin(front);
      RunSafe(front);
      if labels[n].Move? { StepBurns(s.st, s.threads[labels[n].t], labels[n].ch); }
      forall a | a in After(labels).st.coord.consumedNonces ensures exists i: nat :: Begins(labels, i, a) {
        if a in s.st.coord.consumedNonces {
          var i: nat :| Begins(front, i, a);
          assert front[..i] == labels[..i];
          assert Begins(labels, i, a);
        } else {
          assert Begins(labels, n, a);
        }
      }
    }
  }

  /**
   * Every record decides one request that exists, nobody else's: it was preceded by the one
   * successful `beginDecision`, carries the request's own nonce hash and binding, and was
   * decided and written before the request expired.
   */
  lemma RecordsAreOwn(labels: seq<Label>, x: Id)
    requires Schedule(labels) && x in After(labels).st.records.byId
    ensures var st := After(labels).st;
            var rec := st.records.byId[x];
            && rec.approvalRequestId in st.requests.byId
            && var r := st.requests.byId[rec.approvalRequestId];
            && rec.nonceHash == r.decisionNonceHash && rec.binding == r.binding && rec.runId == r.runId
            && rec.decisionTimestamp < r.expiresAt && rec.createdAt < r.expiresAt
            && (exists i: nat :: Begins(labels, i, rec.approvalRequestId))
            && forall y :: y in st.records.byId && st.records.byId[y].approvalRequestId == rec.approvalRequestId ==> y == x
  {
    hide Begins;
    RunSafe(labels);
    BurntByBegin(labels);
  }

  /** A request carries a decided status exactly when it has the record of that decision, on equal binding. */
  lemma DecidedExactlyByRecord(labels: seq<Label>, a: Id, d: Decision)
    requires Schedule(labels) && a in After(labels).st.requests.byId
    ensures var st := After(labels).st;
            st.requests.byId[a].status == StatusFor(d) <==>
            exists x :: x in st.records.byId && st.records.byId[x].approvalRequestId == a
                        && st.records.byId[x].decision == d && st.records.byId[x].binding == st.requests.byId[a].binding
  {
    RunSafe(labels);
    DecidedByRecord(After(labels).st, a, d);
  }

  lemma DecidedByRecord(st: Stores, a: Id, d: Decision)
    requires RecordIndexValid(st.records) && RecordsValid(st.requests, st.records) && a in st.requests.byId
    ensures st.requests.byId[a].status == StatusFor(d) <==>
            exists x :: x in st.records.byId && st.records.byId[x].approvalRequestId == a
                        && st.records.byId[x].decision == d && st.records.byId[x].binding == st.requests.byId[a].binding
  {
    if st.requests.byId[a].status == StatusFor(d) {
      var x := st.records.byApproval[a];
      assert RecordMatches(st.records.byId[x], st.requests.byId[a]);
    }
  }

  // ----- lineage -----

  /** A parent chain, eldest first. */
  ghost predicate Chain(rs: RequestStore, chain: seq<Id>) {
    && (forall id :: id in chain ==> id in rs.byId)
    && forall k :: 0 <= k < |chain| - 1 ==> rs.byId[chain[k + 1]].parent == Some(chain[k])
  }

  lemma IndexUnique(s: seq<Id>, i: nat)
    requires Distinct(s) && i < |s|
    ensures IndexOf(s, s[i]) == i
  {}

  lemma ParentBefore(rs: RequestStore, child: Id)
    requires OrderValid(rs) && LineageValid(rs) && child in rs.byId && rs.byId[child].parent.Some?
    ensures var p := rs.byId[child].parent.value;
            && p in rs.byId && rs.byId[p].runId == rs.byId[child].runId && Retired(rs.byId[p].status)
            && SamePlan(rs.byId[p].binding, rs.byId[child].binding)
            && p in rs.Order(rs.byId[child].runId) && child in rs.Order(rs.byId[child].runId)
            && IndexOf(rs.Order(rs.byId[child].runId), p) < IndexOf(rs.Order(rs.byId[child].runId), child)
  {
    var p := rs.byId[child].parent.value;
    assert ReplacesValid(rs, rs.byId[child], p);
    var order := rs.Order(rs.byId[child].runId);
    var i := IndexOf(order, child);
    assert Distinct(order) && ParentsFirst(rs, order);
    var j :| 0 <= j < i && order[..i][j] == p;
    IndexUnique(order, j);
  }

  lemma {:induction false} ChainOrdered(rs: RequestStore, chain: seq<Id>, i: nat, j: nat)
    requires OrderValid(rs) && LineageValid(rs) && Chain(rs, chain) && i < j < |chain|
    ensures && rs.byId[chain[i]].runId == rs.byId[chain[j]].runId
            && SamePlan(rs.byId[chain[i]].binding, rs.byId[chain[j]].binding)
            && Retired(rs.byId[chain[i]].status)
            && var order := rs.Order(rs.byId[chain[j]].runId);
            chain[i] in order && chain[j] in order && IndexOf(order, chain[i]) < IndexOf(order, chain[j])
    decreases j
  {
    hide OrderValid, LineageValid;
    assert chain[j] in chain && rs.byId[chain[(j - 1) + 1]].parent == Some(chain[j - 1]);
    ParentBefore(rs, chain[j]);
    if i < j - 1 { ChainOrdered(rs, chain, i, j - 1); }
  }

  /**
   * Replacement lineage is a finite forest: along any parent chain the requests stand in the
   * order of their run (so none repeats), keep the plan identity, and only the last may be
   * PENDING or decided.
   */
  lemma LineageForest(labels: seq<Label>, chain: seq<Id>, i: nat, j: nat)
    requires Schedule(labels) && Chain(After(labels).st.requests, chain) && i < j < |chain|
    ensures var rs := After(labels).st.requests;
            && chain[i] in rs.byId && chain[j] in rs.byId && chain[i] != chain[j]
            && rs.byId[chain[i]].runId == rs.byId[chain[j]].runId
            && SamePlan(rs.byId[chain[i]].binding, rs.byId[chain[j]].binding)
            && Retired(rs.byId[chain[i]].status)
            && var order := rs.Order(rs.byId[chain[j]].runId);
            chain[i] in order && chain[j] in order && IndexOf(order, chain[i]) < IndexOf(order, chain[j])
  {
    RunSafe(labels);
    ChainOrdered(After(labels).st.requests, chain, i, j);
  }

  /** From the moment a child exists its parent is, and stays, retired. */
  lemma ParentStaysRetired(labels: seq<Label>, i: nat, child: Id)
    requires Schedule(labels) && i <= |labels| && Schedule(labels[..i])
    requires child in After(labels[..i]).st.requests.byId && After(labels[..i]).st.requests.byId[child].parent.Some?
    ensures var before, after := After(labels[..i]).st.requests, After(labels).st.requests;
            var p := before.byId[child].parent.value;
            && p in before.byId && Retired(before.byId[p].status)
            && p in after.byId && after.byId[p].status == before.byId[p].status
            && child in after.byId && after.byId[child].parent == Some(p)
  {
    RunSafe(labels[..i]);
    PrefixEvolves(labels, i);
    ParentBefore(After(labels[..i]).st.requests, child);
  }

  // ----- the auditor on the history of the protocol -----

  function HistoryOf(st: Stores, runId: Id, plans: seq<StoredPlan>): History {
    History(runId, st.records.ListByRun(runId), st.requests.ListByRun(runId), plans)
  }

  lemma ListedIds(rs: RequestStore, runId: Id)
    requires OrderValid(rs)
    ensures var order, list := rs.Order(runId), rs.ListByRun(runId);
            |list| == |order| && forall j :: 0 <= j < |list| ==>
              order[j] in rs.byId && list[j] == rs.byId[order[j]] && list[j].approvalRequestId == order[j]
  {
    var order := rs.Order(runId);
    assert forall j :: 0 <= j < |order| ==> order[j] in order;
  }

  lemma ListedOnce(rs: RequestStore, runId: Id, a: Id)
    requires OrderValid(rs) && a in rs.byId && rs.byId[a].runId == runId
    ensures ExactlyOne(rs.ListByRun(runId), (q: ApprovalRequest) => q.approvalRequestId == a)
    ensures forall q :: q in rs.ListByRun(runId) && q.approvalRequestId == a ==> q == rs.byId[a]
  {
    var order, list := rs.Order(runId), rs.ListByRun(runId);
    var i := IndexOf(order, a);
    ListedIds(rs, runId);
    assert Distinct(order);
    hide RequestStore.Order, RequestStore.ListByRun, OrderValid;
    assert OnlyAt(list, (q: ApprovalRequest) => q.approvalRequestId == a, i);
  }

  lemma ListedRecords(rec: RecordStore, runId: Id)
    requires RecordIndexValid(rec)
    ensures |rec.ListByRun(runId)| == |rec.Order(runId)|
    ensures forall i :: 0 <= i < |rec.Order(runId)| ==>
              rec.Order(runId)[i] in rec.byId && rec.ListByRun(runId)[i] == rec.byId[rec.Order(runId)[i]]
              && rec.ListByRun(runId)[i].runId == runId
              && rec.ListByRun(runId)[i].authorizationRecordId == rec.Order(runId)[i]
  {
    hide RecordMapsValid;
    var order := rec.Order(runId);
    forall i | 0 <= i < |order| ensures order[i] in rec.byId && rec.byId[order[i]].runId == runId { assert order[i] in order; }
    RecordKeys(rec);
    hide RecordOrderValid;
  }

  lemma RecordKeys(rec: RecordStore)
    requires RecordMapsValid(rec)
    ensures forall id :: id in rec.byId ==> rec.byId[id].authorizationRecordId == id
  {}

  lemma RecordListedOnce(rec: RecordStore, runId: Id, x: Id)
    requires RecordIndexValid(rec) && x in rec.byId && rec.byId[x].runId == runId
    ensures var a := rec.byId[x].approvalRequestId;
            && ExactlyOne(rec.ListByRun(runId), (r: AuthorizationRecord) => r.approvalRequestId == a)
            && forall r :: r in rec.ListByRun(runId) && r.approvalRequestId == a ==> r == rec.byId[x]
  {
    var order, list, a := rec.Order(runId), rec.ListByRun(runId), rec.byId[x].approvalRequestId;
    ListedRecords(rec, runId);
    var i := IndexOf(order, x);
    assert Distinct(order) && list[i] == rec.byId[x];
    forall j | 0 <= j < |list| && list[j].approvalRequestId == a ensures j == i {
      assert rec.byApproval[a] == order[j];
    }
    assert OnlyAt(list, (r: AuthorizationRecord) => r.approvalRequestId == a, i);
  }

  lemma HistoryPaired(st: Stores, runId: Id, plans: seq<StoredPlan>)
    requires StoresValid(st)
    ensures var h := HistoryOf(st, runId, plans);
            && (forall r :: r in h.records ==> r.runId == runId)
            && (forall q :: q in h.requests ==> q.runId == runId)
            && (forall r :: r in h.records && r.decision == Approve ==> RecordPaired(h, r))
            && (forall q :: q in h.requests && q.status == Approved ==> RequestPaired(h, q))
  {
    var h := HistoryOf(st, runId, plans);
    ListedRecords(st.records, runId);
    ListedSeen(st, runId);
    hide RecordPaired, RequestPaired;
    forall r | r in h.records && r.decision == Approve ensures RecordPaired(h, r) {
      PairedRecord(st, runId, plans, r);
    }
    forall q | q in h.requests && q.status == Approved ensures RequestPaired(h, q) {
      PairedRequest(st, runId, plans, q);
    }
  }

  lemma PairedRecord(st: Stores, runId: Id, plans: seq<StoredPlan>, r: AuthorizationRecord)
    requires StoresValid(st) && r in st.records.ListByRun(runId) && r.decision == Approve
    ensures RecordPaired(HistoryOf(st, runId, plans), r)
  {
    hide RecordPaired, ExactlyOne;
    ListedRecords(st.records, runId);
    RecordPairedExactly(HistoryOf(st, runId, plans), r);
    ListedOnce(st.requests, runId, r.approvalRequestId);
  }

  lemma PairedRequest(st: Stores, runId: Id, plans: seq<StoredPlan>, q: ApprovalRequest)
    requires StoresValid(st) && q in st.requests.ListByRun(runId) && q.status == Approved
    ensures RequestPaired(HistoryOf(st, runId, plans), q)
  {
    hide RequestPaired, ExactlyOne;
    ListedSeen(st, runId);
    RequestPairedExactly(HistoryOf(st, runId, plans), q);
    RecordListedOnce(st.records, runId, st.records.byApproval[q.approvalRequestId]);
  }

  /** Pairs built from equal bindings raise no binding objection. */
  lemma {:induction false} ObjectionIsAboutPlans(h: History, pairs: seq<Pair>)
    requires forall p :: p in pairs ==> SameApproval(p.request, p.record)
    requires FirstObjection(h, pairs).Some?
    ensures FirstObjection(h, pairs).value.CurrentApprove?
            || FirstObjection(h, pairs).value in {Ambiguous(ApprovedPlanMissing), Ambiguous(ApprovedPlanDuplicate),
                                                  Ambiguous(ApprovedPlanBindingInconsistent)}
  {
    if Objection(h, pairs[0]).None? { ObjectionIsAboutPlans(h, pairs[1..]); }
  }

  lemma PairsSameApproval(st: Stores, runId: Id, plans: seq<StoredPlan>)
    requires StoresValid(st)
    ensures var h := HistoryOf(st, runId, plans);
            && (forall r :: r in h.records && r.decision == Approve ==> RecordPaired(h, r))
            && forall p :: p in Pairs(h, h.records) ==> SameApproval(p.request, p.record)
  {
    var h := HistoryOf(st, runId, plans);
    HistoryPaired(st, runId, plans);
    PairsMembers(h, h.records);
    ListedRecords(st.records, runId);
    ListedSeen(st, runId);
    hide Pairs;
    forall p | p in Pairs(h, h.records) ensures SameApproval(p.request, p.record) {
      assert p.request in RequestsOf(h, p.record);
      assert RecordMatches(p.record, st.requests.byId[p.record.approvalRequestId]);
    }
  }

  /**
   * On a history that the protocol wrote, the auditor can complain only about the plan store:
   * the other four ambiguities are unreachable.
   */
  lemma AuditorTrustsProtocol(labels: seq<Label>, runId: Id, plans: seq<StoredPlan>)
    requires Schedule(labels) && forall p :: p in plans ==> p.runId == runId
    ensures var v := Verdict(HistoryOf(After(labels).st, runId, plans));
            v.Ambiguous? ==> v.ambiguity in {ApprovedPlanMissing, ApprovedPlanDuplicate, ApprovedPlanBindingInconsistent}
  {
    RunSafe(labels);
    hide HistoryOf, StoresValid, Verdict;
    AuditorTrustsStores(After(labels).st, runId, plans);
  }

  lemma OnlyPlanComplaints(h: History)
    requires !Foreign(h)
    requires forall r :: r in h.records && r.decision == Approve ==> RecordPaired(h, r)
    requires forall q :: q in h.requests && q.status == Approved ==> RequestPaired(h, q)
    requires forall p :: p in Pairs(h, h.records) ==> SameApproval(p.request, p.record)
    ensures Verdict(h).Ambiguous? ==>
              Verdict(h).ambiguity in {ApprovedPlanMissing, ApprovedPlanDuplicate, ApprovedPlanBindingInconsistent}
  {
    var pairs := Pairs(h, h.records);
    if FirstObjection(h, pairs).Some? { ObjectionIsAboutPlans(h, pairs); }
    hide Foreign, Pairs, RecordPaired, RequestPaired, FirstObjection, SameApproval, RecordIds, RequestIds;
  }

  lemma AuditorTrustsStores(st: Stores, runId: Id, plans: seq<StoredPlan>)
    requires StoresValid(st) && forall p :: p in plans ==> p.runId == runId
    ensures var v := Verdict(HistoryOf(st, runId, plans));
            v.Ambiguous? ==> v.ambiguity in {ApprovedPlanMissing, ApprovedPlanDuplicate, ApprovedPlanBindingInconsistent}
  {
    HistoryPaired(st, runId, plans);
    PairsSameApproval(st, runId, plans);
    hide Verdict, Pairs, RecordPaired, RequestPaired, StoresValid, SameApproval;
    OnlyPlanComplaints(HistoryOf(st, runId, plans));
  }

  /** A run that stands approved is never reported as having no authority. */
  lemma ApprovedRunHasAuthority(labels: seq<Label>, runId: Id, plans: seq<StoredPlan>)
    requires Schedule(labels)
    requires runId in After(labels).st.runs && After(labels).st.runs[runId].state == RunApproved
    ensures !Verdict(HistoryOf(After(labels).st, runId, plans)).NoAuthority?
  {
    RunSafe(labels);
    var st := After(labels).st;
    var a :| a in st.requests.byId && st.requests.byId[a].runId == runId && st.requests.byId[a].status == Approved;
    Listed(st.requests, runId, st.requests.byId[a]);
    NoneExactly(HistoryOf(st, runId, plans));
  }

  /**
   * Why the writes of `decide` must be one transaction: with an expiry between the record and the
   * status, the status write fails and the record is left deciding an EXPIRED request.
   */
  lemma SplitDecisionStrandsRecord(st: Stores, rec: AuthorizationRecord)
    requires st.records.Append(rec).Some? && st.requests.IsPending(rec.approvalRequestId)
    ensures var appended := st.(records := st.records.Append(rec).value);
            var expired := appended.SetStatus(rec.approvalRequestId, Expired, false);
            && expired.Some?
            && expired.value.SetStatus(rec.approvalRequestId, StatusFor(rec.decision), false).None?
            && !RecordsValid(expired.value.requests, expired.value.records)
  {
    var appended := st.(records := st.records.Append(rec).value);
    var expired := appended.SetStatus(rec.approvalRequestId, Expired, false).value;
    assert rec.authorizationRecordId in expired.records.byId;
    assert !RecordMatches(rec, expired.requests.byId[rec.approvalRequestId]);
  }
}
