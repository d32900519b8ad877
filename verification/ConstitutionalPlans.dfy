/**
 * Mutation plans, and what the projection and the application of a plan end with: each folds `Put`
 * over the mandates that the operations make. Two of those share a name exactly where two
 * operations collide, on the one side in a made-up version name, on the other in an institution and
 * a clock reading.
 */
module ConstitutionalPlans {
  import opened Wrappers
  import opened Constitutional

  // ----- plans -----

  predicate Replaces(op: Operation) {
    op.Change? || op.SupersedeVersion?
  }

  predicate Makes(op: Operation) {
    op.CreateVersion? || Replaces(op)
  }

  predicate IdsDistinct(ms: seq<Mandate>) {
    forall i, j :: 0 <= i < j < |ms| ==> ms[i].mandateId != ms[j].mandateId
  }

  predicate Has(ms: seq<Mandate>, id: MandateId) {
    exists m :: m in ms && m.mandateId == id
  }

  /** What an operation replaces is stored. */
  predicate Known(current: seq<Mandate>, op: Operation) {
    Replaces(op) ==> Lookup(current, op.mandateId).Some?
  }

  function Target(current: seq<Mandate>, op: Operation): Mandate
    requires Replaces(op) && Known(current, op)
  {
    Lookup(current, op.mandateId).value
  }

  function InstitutionOf(current: seq<Mandate>, op: Operation): Id
    requires Makes(op) && Known(current, op)
  {
    if op.CreateVersion? then op.institutionId else Target(current, op).terms.institutionId
  }

  /** The identifier that the application mints. */
  function MintOf(current: seq<Mandate>, op: Operation, s: Setting): MandateId
    requires Makes(op) && Known(current, op)
  {
    MintedAt(InstitutionOf(current, op), s.at)
  }

  /**
   * The operations replace distinct active mandates, and the clock has moved on since the stored
   * mandates were created.
   */
  predicate PlanValid(current: seq<Mandate>, ops: seq<Operation>, ss: seq<Setting>)
    requires |ss| == |ops|
  {
    && IdsDistinct(current) && (forall m :: m in current ==> m.mandateId.MintedAt?)
    && (forall i :: 0 <= i < |ops| && Replaces(ops[i]) ==>
          Lookup(current, ops[i].mandateId).Some? && Lookup(current, ops[i].mandateId).value.status == Active)
    && (forall i, j :: 0 <= i < j < |ops| && Replaces(ops[i]) && Replaces(ops[j]) ==> ops[i].mandateId != ops[j].mandateId)
    && (forall i :: 0 <= i < |ops| && Makes(ops[i]) ==> !Has(current, MintOf(current, ops[i], ss[i])))
  }

  /** Two CREATE operations that the projection gives one name: same institution, same version, by default 1. */
  predicate SameVersion(a: Operation, b: Operation) {
    && a.CreateVersion? && b.CreateVersion?
    && a.institutionId == b.institutionId && a.version.GetOr(1) == b.version.GetOr(1)
  }

  /** Two operations that make mandates of one institution at one reading of the clock. */
  predicate SameReading(current: seq<Mandate>, ops: seq<Operation>, ss: seq<Setting>, i: nat, j: nat)
    requires |ss| == |ops| && PlanValid(current, ops, ss) && i < |ops| && j < |ops|
  {
    && Makes(ops[i]) && Makes(ops[j])
    && InstitutionOf(current, ops[i]) == InstitutionOf(current, ops[j]) && ss[i].at == ss[j].at
  }

  predicate CreatesDistinct(ops: seq<Operation>) {
    forall i, j :: 0 <= i < j < |ops| ==> !SameVersion(ops[i], ops[j])
  }

  predicate ReadingsDistinct(current: seq<Mandate>, ops: seq<Operation>, ss: seq<Setting>)
    requires |ss| == |ops| && PlanValid(current, ops, ss)
  {
    forall i, j :: 0 <= i < j < |ops| ==> !SameReading(current, ops, ss, i, j)
  }

  /** The same pairs of operations collide on both sides; no pairs at all is the usual case. */
  predicate CollideAlike(current: seq<Mandate>, ops: seq<Operation>, ss: seq<Setting>)
    requires |ss| == |ops| && PlanValid(current, ops, ss)
  {
    forall i, j :: 0 <= i < j < |ops| ==> (SameVersion(ops[i], ops[j]) <==> SameReading(current, ops, ss, i, j))
  }

  /** No limits are lost, and a date that is left open is the one that the projection filled in. */
  predicate Faithful(current: seq<Mandate>, op: Operation, s: Setting, now: Time)
    requires Known(current, op)
  {
    && (op.Change? ==> Target(current, op).limits == NoLimits())
    && ((op.CreateVersion? || op.SupersedeVersion?) && op.body.effectiveFrom.None? ==> s.at == now)
  }

  predicate AllFaithful(current: seq<Mandate>, ops: seq<Operation>, ss: seq<Setting>, now: Time)
    requires |ss| == |ops| && PlanValid(current, ops, ss)
  {
    forall i :: 0 <= i < |ops| ==> Faithful(current, ops[i], ss[i], now)
  }

  function Targets(ops: seq<Operation>): set<MandateId> {
    set op | op in ops && Replaces(op) :: op.mandateId
  }

  // ----- the mandates that the operations make -----

  /** As the projection shows it. */
  function Shown(current: seq<Mandate>, op: Operation, now: Time): Mandate
    requires Makes(op) && Known(current, op)
  {
    match op
    case Change(id, patch) =>
      var m := Target(current, op);
      Mandate(VersionOf(id, m.version + 1), m.version + 1, Patched(m.terms, patch), m.effectiveFrom, m.limits, Active)
    case CreateVersion(i, version, body) =>
      var v := version.GetOr(1);
      Mandate(NewOf(i, v), v, BodyTerms(i, body), body.effectiveFrom.GetOr(now), NoLimits(), Active)
    case SupersedeVersion(id, v, body) =>
      Mandate(VersionOf(id, v), v, BodyTerms(Target(current, op).terms.institutionId, body), body.effectiveFrom.GetOr(now), NoLimits(), Active)
  }

  /** As the application leaves it. */
  function Made(current: seq<Mandate>, op: Operation, s: Setting): Mandate
    requires Makes(op) && Known(current, op)
  {
    var id := MintOf(current, op, s);
    match op
    case Change(_, patch) =>
      var m := Target(current, op);
      Mandate(id, m.version + 1, Recreated(m.terms, patch), m.effectiveFrom, NoLimits(), Active)
    case CreateVersion(i, version, body) =>
      Mandate(id, version.GetOr(1), BodyTerms(i, body), body.effectiveFrom.GetOr(s.at), NoLimits(), Active)
    case SupersedeVersion(_, v, body) =>
      Mandate(id, v, BodyTerms(Target(current, op).terms.institutionId, body), body.effectiveFrom.GetOr(s.at), NoLimits(), Active)
  }

  function ShownAll(current: seq<Mandate>, ops: seq<Operation>, now: Time): seq<Mandate>
    requires forall op :: op in ops ==> Known(current, op)
  {
    if ops == [] then []
    else
      var n := |ops| - 1;
      ShownAll(current, ops[..n], now) + if Makes(ops[n]) then [Shown(current, ops[n], now)] else []
  }

  function MadeAll(current: seq<Mandate>, ops: seq<Operation>, ss: seq<Setting>): seq<Mandate>
    requires |ss| == |ops| && forall op :: op in ops ==> Known(current, op)
  {
    if ops == [] then []
    else
      var n := |ops| - 1;
      MadeAll(current, ops[..n], ss[..n]) + if Makes(ops[n]) then [Made(current, ops[n], ss[n])] else []
  }

  /** The `Map` that holds the values of `ms`, set one after the other. */
  function PutAll(ms: seq<Mandate>): seq<Mandate> {
    if ms == [] then [] else Put(PutAll(ms[..|ms| - 1]), ms[|ms| - 1])
  }

  // ----- lists of mandates -----

  lemma HasCons(x: Mandate, rest: seq<Mandate>)
    ensures forall id :: Has([x] + rest, id) <==> x.mandateId == id || Has(rest, id)
  {
    forall id ensures Has([x] + rest, id) <==> x.mandateId == id || Has(rest, id) {
      assert x in [x] + rest && forall y :: y in rest ==> y in [x] + rest;
    }
  }

  lemma HasSnoc(front: seq<Mandate>, x: Mandate)
    ensures forall id :: Has(front + [x], id) <==> x.mandateId == id || Has(front, id)
    ensures IdsDistinct(front + [x]) <==> IdsDistinct(front) && !Has(front, x.mandateId)
  {
    var all := front + [x];
    assert x in all && forall y :: y in front ==> y in all;
    assert forall i :: 0 <= i < |front| ==> all[i] == front[i];
    if IdsDistinct(all) {
      forall i, j | 0 <= i < j < |front| ensures front[i].mandateId != front[j].mandateId { assert all[i].mandateId != all[j].mandateId; }
      if m :| m in front && m.mandateId == x.mandateId {
        var i :| 0 <= i < |front| && front[i] == m;
        assert all[i].mandateId != all[|front|].mandateId;
      }
    }
  }

  lemma {:induction false} PutFresh(ms: seq<Mandate>, m: Mandate)
    requires !Has(ms, m.mandateId)
    ensures Put(ms, m) == ms + [m]
  {
    if ms != [] {
      assert ms[0] in ms && forall x :: x in ms[1..] ==> x in ms;
      PutFresh(ms[1..], m);
    }
  }

  lemma {:induction false} PutBehind(a: seq<Mandate>, b: seq<Mandate>, m: Mandate)
    requires !Has(a, m.mandateId)
    ensures Put(a + b, m) == a + Put(b, m)
  {
    if a == [] {
      assert a + b == b;
    } else {
      assert a[0] in a && (a + b)[1..] == a[1..] + b && forall x :: x in a[1..] ==> x in a;
      PutBehind(a[1..], b, m);
    }
  }

  lemma {:induction false} PutInFront(a: seq<Mandate>, b: seq<Mandate>, m: Mandate)
    requires Has(a, m.mandateId)
    ensures Put(a + b, m) == Put(a, m) + b
  {
    assert a != [] && (a + b)[1..] == a[1..] + b && a == [a[0]] + a[1..];
    HasCons(a[0], a[1..]);
    if a[0].mandateId != m.mandateId { PutInFront(a[1..], b, m); }
  }

  /** Overwriting keeps the length; a new key makes the list one longer. */
  lemma {:induction false} PutShape(ms: seq<Mandate>, m: Mandate)
    ensures |Put(ms, m)| == if Has(ms, m.mandateId) then |ms| else |ms| + 1
    ensures forall id :: Has(Put(ms, m), id) <==> Has(ms, id) || id == m.mandateId
    ensures forall x :: x in Put(ms, m) ==> x in ms || x == m
  {
    if ms == [] {
      HasCons(m, []);
    } else {
      HasCons(ms[0], ms[1..]);
      assert ms == [ms[0]] + ms[1..];
      if ms[0].mandateId == m.mandateId {
        HasCons(m, ms[1..]);
      } else {
        PutShape(ms[1..], m);
        HasCons(ms[0], Put(ms[1..], m));
      }
    }
  }

  /** A set entry is found, and setting it again forgets the first time. */
  lemma {:induction false} PutTwice(ms: seq<Mandate>, a: Mandate, b: Mandate)
    requires a.mandateId == b.mandateId
    ensures Lookup(Put(ms, a), a.mandateId) == Some(a)
    ensures Put(Put(ms, a), b) == Put(ms, b)
  {
    if ms != [] && ms[0].mandateId != a.mandateId {
      PutTwice(ms[1..], a, b);
      assert Put(ms, a)[1..] == Put(ms[1..], a);
    }
  }

  lemma {:induction false} LookupFront(a: seq<Mandate>, b: seq<Mandate>, id: MandateId)
    requires Lookup(a, id).Some?
    ensures Lookup(a + b, id) == Lookup(a, id) && Lookup(a, id).value.mandateId == id && Has(a, id)
  {
    assert a != [] && (a + b)[1..] == a[1..] + b;
    if a[0].mandateId == id {
      assert a[0] in a;
    } else {
      LookupFront(a[1..], b, id);
      assert forall x :: x in a[1..] ==> x in a;
    }
  }

  lemma {:induction false} FilterSplit(a: seq<Mandate>, b: seq<Mandate>, p: Mandate -> bool)
    ensures Filter(a + b, p) == Filter(a, p) + Filter(b, p)
  {
    if a == [] {
      assert a + b == b;
    } else {
      assert (a + b)[1..] == a[1..] + b;
      FilterSplit(a[1..], b, p);
    }
  }

  lemma {:induction false} FilterAll(ms: seq<Mandate>, p: Mandate -> bool)
    requires forall m :: m in ms ==> p(m)
    ensures Filter(ms, p) == ms
  {
    if ms != [] {
      assert ms[0] in ms && forall x :: x in ms[1..] ==> x in ms;
      FilterAll(ms[1..], p);
    }
  }

  /** The stored mandates once those in `targets` are superseded. */
  function Marked(ms: seq<Mandate>, targets: set<MandateId>): seq<Mandate> {
    if ms == [] then [] else [MarkedOne(ms[0], targets)] + Marked(ms[1..], targets)
  }

  function MarkedOne(m: Mandate, targets: set<MandateId>): Mandate {
    if m.mandateId in targets then m.(status := Superseded) else m
  }

  lemma {:induction false} MarkNone(ms: seq<Mandate>)
    ensures Marked(ms, {}) == ms
  {
    if ms != [] { MarkNone(ms[1..]); }
  }

  lemma {:induction false} MarkedHas(ms: seq<Mandate>, targets: set<MandateId>)
    ensures forall id :: Has(Marked(ms, targets), id) <==> Has(ms, id)
    ensures forall id :: id !in targets ==> Lookup(Marked(ms, targets), id) == Lookup(ms, id)
  {
    if ms != [] {
      MarkedHas(ms[1..], targets);
      HasCons(ms[0], ms[1..]);
      HasCons(MarkedOne(ms[0], targets), Marked(ms[1..], targets));
      assert ms == [ms[0]] + ms[1..] && Marked(ms, targets)[1..] == Marked(ms[1..], targets);
    }
  }

  lemma {:induction false} MarkedAbsent(ms: seq<Mandate>, targets: set<MandateId>, id: MandateId)
    requires !Has(ms, id)
    ensures Marked(ms, targets + {id}) == Marked(ms, targets)
  {
    if ms != [] {
      assert ms[0] in ms && forall x :: x in ms[1..] ==> x in ms;
      MarkedAbsent(ms[1..], targets, id);
    }
  }

  lemma {:induction false} MarkOneMore(ms: seq<Mandate>, targets: set<MandateId>, id: MandateId)
    requires IdsDistinct(ms) && Lookup(ms, id).Some? && id !in targets
    ensures Put(Marked(ms, targets), Lookup(ms, id).value.(status := Superseded)) == Marked(ms, targets + {id})
  {
    LookupFront(ms, [], id);
    var rest := ms[1..];
    assert forall i :: 0 <= i < |rest| ==> rest[i] == ms[i + 1];
    assert Marked(ms, targets)[1..] == Marked(rest, targets);
    if ms[0].mandateId == id {
      MarkedAbsent(rest, targets, id);
    } else {
      MarkOneMore(rest, targets, id);
    }
  }

  lemma {:induction false} MarkedActive(ms: seq<Mandate>, targets: set<MandateId>)
    ensures ActiveOf(Marked(ms, targets)) == Filter(ms, (m: Mandate) => m.status == Active && m.mandateId !in targets)
  {
    if ms != [] {
      MarkedActive(ms[1..], targets);
      assert Marked(ms, targets)[1..] == Marked(ms[1..], targets);
    }
  }

  // ----- folding Put -----

  /** Nothing is lost exactly when no two of the mandates share a name. */
  lemma {:induction false} PutAllShape(ms: seq<Mandate>)
    ensures |PutAll(ms)| <= |ms| && (|PutAll(ms)| == |ms| <==> IdsDistinct(ms)) && (IdsDistinct(ms) ==> PutAll(ms) == ms)
    ensures forall id :: Has(PutAll(ms), id) <==> Has(ms, id)
    ensures forall x :: x in PutAll(ms) ==> x in ms
  {
    if ms != [] {
      var front, last := ms[..|ms| - 1], ms[|ms| - 1];
      assert front + [last] == ms;
      PutAllShape(front);
      HasSnoc(front, last);
      PutShape(PutAll(front), last);
      if IdsDistinct(ms) { PutFresh(front, last); }
    }
  }

  lemma PutAllSnoc(front: seq<Mandate>, m: Mandate)
    ensures PutAll(front + [m]) == Put(PutAll(front), m)
  {
    assert (front + [m])[..|front|] == front;
  }

  /** The same pairs of mandates share a name in both lists. */
  predicate Alike(a: seq<Mandate>, b: seq<Mandate>) {
    |a| == |b| && forall i, j :: 0 <= i < |a| && 0 <= j < |a| ==> (a[i].mandateId == a[j].mandateId <==> b[i].mandateId == b[j].mandateId)
  }

  lemma AlikeTail(a: seq<Mandate>, b: seq<Mandate>)
    requires Alike(a, b) && a != []
    ensures Alike(a[1..], b[1..])
  {
    assert forall i :: 0 <= i < |a| - 1 ==> a[1..][i] == a[i + 1] && b[1..][i] == b[i + 1];
  }

  /** `Put` writes at the same position of two such lists. */
  lemma {:induction false} PutAlike(a: seq<Mandate>, b: seq<Mandate>, x: Mandate, y: Mandate)
    requires Alike(a + [x], b + [y]) && |a| == |b|
    ensures |Put(a, x)| == |Put(b, y)|
    ensures forall k :: 0 <= k < |Put(a, x)| ==>
              (Put(a, x)[k] == x && Put(b, y)[k] == y) || (k < |a| && Put(a, x)[k] == a[k] && Put(b, y)[k] == b[k])
  {
    if a != [] {
      var p, q := a + [x], b + [y];
      assert p[0] == a[0] && p[|a|] == x && q[0] == b[0] && q[|a|] == y;
      if a[0].mandateId != x.mandateId {
        AlikeTail(p, q);
        assert p[1..] == a[1..] + [x] && q[1..] == b[1..] + [y];
        PutAlike(a[1..], b[1..], x, y);
        var c, d := Put(a[1..], x), Put(b[1..], y);
        forall k | 0 <= k < |a| && 0 <= k < |c|
          ensures (c[k] == x && d[k] == y) || (k + 1 < |a| && c[k] == a[k + 1] && d[k] == b[k + 1])
        {
          assert k < |a| - 1 ==> a[1..][k] == a[k + 1] && b[1..][k] == b[k + 1];
        }
        hide Put;
      }
    }
  }

  /** Position `k` of both folds is named after one and the same position of the lists. */
  ghost predicate Paired(a: seq<Mandate>, b: seq<Mandate>, k: nat)
    requires |a| == |b| && k < |PutAll(a)| && k < |PutAll(b)|
  {
    exists i :: 0 <= i < |a| && PutAll(a)[k].mandateId == a[i].mandateId && PutAll(b)[k].mandateId == b[i].mandateId
  }

  lemma FoldAlike(a: seq<Mandate>, b: seq<Mandate>, x: Mandate, y: Mandate)
    requires Alike(a + [x], b + [y]) && |a| == |b| && |PutAll(a)| == |PutAll(b)|
    requires forall k :: 0 <= k < |PutAll(a)| ==> Paired(a, b, k)
    ensures Alike(PutAll(a) + [x], PutAll(b) + [y])
  {
    var n := |a|;
    var c, d, p, q := a + [x], b + [y], PutAll(a) + [x], PutAll(b) + [y];
    forall k | 0 <= k < |p| ensures exists i :: 0 <= i <= n && p[k].mandateId == c[i].mandateId && q[k].mandateId == d[i].mandateId {
      if k < |p| - 1 {
        assert Paired(a, b, k);
        var i :| 0 <= i < n && p[k].mandateId == a[i].mandateId && q[k].mandateId == b[i].mandateId;
        assert c[i] == a[i] && d[i] == b[i];
      } else {
        assert p[k] == c[n] && q[k] == d[n];
      }
    }
  }

  lemma PutAllStep(a: seq<Mandate>, b: seq<Mandate>, x: Mandate, y: Mandate)
    requires Alike(a + [x], b + [y]) && |a| == |b| && x.version == y.version && x.terms == y.terms
    requires |PutAll(a)| == |PutAll(b)| && Views(PutAll(a)) == Views(PutAll(b))
    requires forall k :: 0 <= k < |PutAll(a)| ==> Paired(a, b, k)
    ensures |PutAll(a + [x])| == |PutAll(b + [y])| && Views(PutAll(a + [x])) == Views(PutAll(b + [y]))
    ensures forall k :: 0 <= k < |PutAll(a + [x])| ==> Paired(a + [x], b + [y], k)
  {
    var n, c, d, pa, pb := |a|, a + [x], b + [y], PutAll(a), PutAll(b);
    PutAllSnoc(a, x);
    PutAllSnoc(b, y);
    ViewsPoint(pa, pb);
    FoldAlike(a, b, x, y);
    PutAlike(pa, pb, x, y);
    hide PutAll, Put, Views, Alike;
    forall k | 0 <= k < |PutAll(c)| ensures Paired(c, d, k) {
      if k < |pa| && PutAll(c)[k] == pa[k] && PutAll(d)[k] == pb[k] {
        assert Paired(a, b, k);
        var i :| 0 <= i < n && pa[k].mandateId == a[i].mandateId && pb[k].mandateId == b[i].mandateId;
        assert PutAll(c)[k].mandateId == c[i].mandateId && PutAll(d)[k].mandateId == d[i].mandateId;
      } else {
        assert PutAll(c)[k].mandateId == c[n].mandateId && PutAll(d)[k].mandateId == d[n].mandateId;
      }
    }
    ViewsSame(PutAll(c), PutAll(d));
  }

  lemma {:induction false} PutAllAlike(a: seq<Mandate>, b: seq<Mandate>)
    requires Alike(a, b) && Views(a) == Views(b)
    ensures |PutAll(a)| == |PutAll(b)| && Views(PutAll(a)) == Views(PutAll(b))
    ensures forall k :: 0 <= k < |PutAll(a)| ==> Paired(a, b, k)
  {
    if a != [] {
      var n := |a| - 1;
      ViewsPoint(a, b);
      ViewsSame(a[..n], b[..n]);
      PutAllAlike(a[..n], b[..n]);
      assert a == a[..n] + [a[n]] && b == b[..n] + [b[n]];
      PutAllStep(a[..n], b[..n], a[n], b[n]);
    }
  }

  lemma ViewsPoint(a: seq<Mandate>, b: seq<Mandate>)
    requires Views(a) == Views(b)
    ensures |a| == |b| && forall i :: 0 <= i < |a| ==> a[i].version == b[i].version && a[i].terms == b[i].terms
  {
    assert |a| == |Views(a)| && |b| == |Views(b)|;
    forall i | 0 <= i < |a| ensures a[i].version == b[i].version && a[i].terms == b[i].terms {
      assert Views(a)[i] == Views(b)[i];
    }
  }

  lemma ViewsSame(a: seq<Mandate>, b: seq<Mandate>)
    requires |a| == |b| && forall i :: 0 <= i < |a| ==> a[i].version == b[i].version && a[i].terms == b[i].terms
    ensures Views(a) == Views(b)
  {}

  // ----- the two runs -----

  lemma KnownFront(current: seq<Mandate>, ops: seq<Operation>, ss: seq<Setting>)
    requires |ss| == |ops| && PlanValid(current, ops, ss)
    ensures forall op :: op in ops ==> Known(current, op)
    ensures ops != [] ==> PlanValid(current, ops[..|ops| - 1], ss[..|ops| - 1])
    ensures ops != [] && Replaces(ops[|ops| - 1]) ==> ops[|ops| - 1].mandateId !in Targets(ops[..|ops| - 1])
  {
    forall op | op in ops ensures Known(current, op) {
      var i :| 0 <= i < |ops| && ops[i] == op;
    }
    if ops != [] {
      var n := |ops| - 1;
      var front := ops[..n];
      assert forall i :: 0 <= i < n ==> front[i] == ops[i] && ss[..n][i] == ss[i];
    }
  }

  lemma TargetsSnoc(ops: seq<Operation>)
    requires ops != []
    ensures var n := |ops| - 1; Targets(ops) == Targets(ops[..n]) + if Replaces(ops[n]) then {ops[n].mandateId} else {}
  {
    assert ops == ops[..|ops| - 1] + [ops[|ops| - 1]];
  }

  lemma {:induction false} MintedNames(current: seq<Mandate>, ops: seq<Operation>, ss: seq<Setting>, now: Time)
    requires |ss| == |ops| && PlanValid(current, ops, ss) && forall op :: op in ops ==> Known(current, op)
    ensures forall m :: m in ShownAll(current, ops, now) ==> !m.mandateId.MintedAt? && m.status == Active
    ensures forall m :: m in MadeAll(current, ops, ss) ==> !Has(current, m.mandateId) && m.status == Active
    decreases |ops|
  {
    if ops != [] {
      KnownFront(current, ops, ss);
      MintedNames(current, ops[..|ops| - 1], ss[..|ops| - 1], now);
    }
  }

  lemma ProjectionStep(current: seq<Mandate>, targets: set<MandateId>, ms: seq<Mandate>, op: Operation, now: Time)
    requires Makes(op) && Known(current, op) && !Has(current, Shown(current, op, now).mandateId)
    ensures var p := Project(current, Projection(current + ms, targets), op, now);
            && p.byId == current + Put(ms, Shown(current, op, now))
            && p.superseded == if Replaces(op) then targets + {op.mandateId} else targets
  {
    if Replaces(op) { LookupFront(current, ms, op.mandateId); }
    PutBehind(current, ms, Shown(current, op, now));
    hide Put, Has, BodyTerms, Patched;
  }

  /** The projection ends with the stored mandates and the fold of those it shows. */
  lemma {:induction false} ProjectionEnds(current: seq<Mandate>, ops: seq<Operation>, ss: seq<Setting>, now: Time)
    requires |ss| == |ops| && PlanValid(current, ops, ss) && forall op :: op in ops ==> Known(current, op)
    ensures ProjectAll(current, ops, now) == Projection(current + PutAll(ShownAll(current, ops, now)), Targets(ops))
    decreases |ops|
  {
    if ops == [] {
      assert current + [] == current && Targets(ops) == {};
    } else {
      var n := |ops| - 1;
      var op, shown := ops[n], ShownAll(current, ops[..n], now);
      KnownFront(current, ops, ss);
      ProjectionEnds(current, ops[..n], ss[..n], now);
      TargetsSnoc(ops);
      if Makes(op) {
        var next := Shown(current, op, now);
        assert !Has(current, next.mandateId);
        ProjectionStep(current, Targets(ops[..n]), PutAll(shown), op, now);
        PutAllSnoc(shown, next);
      } else {
        assert shown + [] == shown;
      }
      hide PlanValid, Put, PutAll, Shown, Targets, Has;
      assert Targets(ops[..n]) + {} == Targets(ops[..n]);
    }
  }

  /** Nothing that an operation needs is refused or missing. */
  predicate Allowed(institutions: map<Id, seq<Id>>, units: set<UnitId>, earlier: seq<Operation>, op: Operation, s: Setting) {
    && Authorizes(op) !! s.refuses
    && (op.AdminScope? ==> op.institutionId in institutions)
    && (op.CreateUnit? ==> op.newUnit.institutionId in institutions)
    && (op.MoveUnit? || op.RetireUnit? ==> op.unit in units || CreateUnit(op.unit) in earlier)
  }

  predicate Passes(institutions: map<Id, seq<Id>>, units: set<UnitId>, ops: seq<Operation>, ss: seq<Setting>)
    requires |ss| == |ops|
  {
    forall i :: 0 <= i < |ops| ==> Allowed(institutions, units, ops[..i], ops[i], ss[i])
  }

  lemma PassesSnoc(institutions: map<Id, seq<Id>>, units: set<UnitId>, ops: seq<Operation>, ss: seq<Setting>)
    requires |ss| == |ops| && ops != []
    ensures var n := |ops| - 1;
            Passes(institutions, units, ops, ss) <==>
            Passes(institutions, units, ops[..n], ss[..n]) && Allowed(institutions, units, ops[..n], ops[n], ss[n])
  {
    var n := |ops| - 1;
    assert forall i :: 0 <= i < n ==> ops[..n][i] == ops[i] && ss[..n][i] == ss[i] && ops[..n][..i] == ops[..i];
  }

  function NewUnits(ops: seq<Operation>): set<UnitId> {
    set op | op in ops && op.CreateUnit? :: op.newUnit
  }

  lemma AllowedIs(institutions: map<Id, seq<Id>>, units: set<UnitId>, earlier: seq<Operation>, op: Operation, s: Setting)
    requires Makes(op)
    ensures Allowed(institutions, units, earlier, op, s) <==>
              CreateMandate !in s.refuses && ActivateMandate !in s.refuses && (Replaces(op) ==> SupersedeMandate !in s.refuses)
  {}

  /** `createAndActivateMandate` is one setting of the `Map`. */
  lemma Installs(g: Governance, version: nat, terms: Terms, from: Option<Time>, s: Setting)
    ensures var made := Mandate(MintedAt(terms.institutionId, s.at), version, terms, from.GetOr(s.at), NoLimits(), Active);
            var a := Install(g, version, terms, from, s);
            && (a.ok <==> CreateMandate !in s.refuses && ActivateMandate !in s.refuses)
            && (a.ok ==> a.g == g.(mandates := Put(g.mandates, made), calls := g.calls + [CreateMandate] + [ActivateMandate]))
  {
    var made := Mandate(MintedAt(terms.institutionId, s.at), version, terms, from.GetOr(s.at), NoLimits(), Active);
    PutTwice(g.mandates, made.(status := Draft), made);
  }

  /** Where the application has got to: the marked stored mandates, those it made, the institutions and the units. */
  ghost predicate Reached(current: seq<Mandate>, institutions: map<Id, seq<Id>>, units: set<UnitId>,
                          targets: set<MandateId>, created: set<UnitId>, ms: seq<Mandate>, g: Governance) {
    && g.mandates == Marked(current, targets) + ms
    && g.institutions.Keys == institutions.Keys && g.units == units + created
  }

  /** What an operation replaces is found as it is stored. */
  lemma TargetFound(current: seq<Mandate>, institutions: map<Id, seq<Id>>, units: set<UnitId>,
                    targets: set<MandateId>, created: set<UnitId>, ms: seq<Mandate>, g: Governance, id: MandateId)
    requires Reached(current, institutions, units, targets, created, ms, g) && id !in targets && Lookup(current, id).Some?
    ensures Lookup(g.mandates, id) == Lookup(current, id)
  {
    MarkedHas(current, targets);
    LookupFront(Marked(current, targets), ms, id);
  }

  /** A new version in and the old one out. */
  lemma Swaps(current: seq<Mandate>, institutions: map<Id, seq<Id>>, units: set<UnitId>,
              targets: set<MandateId>, created: set<UnitId>, ms: seq<Mandate>, g: Governance,
              id: MandateId, version: nat, terms: Terms, from: Option<Time>, s: Setting)
    requires Reached(current, institutions, units, targets, created, ms, g) && id !in targets && IdsDistinct(current)
    requires Lookup(current, id).Some? && Lookup(current, id).value.status == Active
    requires !Has(current, MintedAt(terms.institutionId, s.at))
    ensures var made := Mandate(MintedAt(terms.institutionId, s.at), version, terms, from.GetOr(s.at), NoLimits(), Active);
            var a := Replace(g, id, version, terms, from, s);
            && (a.ok <==> CreateMandate !in s.refuses && ActivateMandate !in s.refuses && SupersedeMandate !in s.refuses)
            && (a.ok ==> Reached(current, institutions, units, targets + {id}, created, Put(ms, made), a.g))
  {
    var made := Mandate(MintedAt(terms.institutionId, s.at), version, terms, from.GetOr(s.at), NoLimits(), Active);
    var kept := Marked(current, targets);
    Installs(g, version, terms, from, s);
    MarkedHas(current, targets);
    PutBehind(kept, ms, made);
    LookupFront(kept, Put(ms, made), id);
    PutInFront(kept, Put(ms, made), Lookup(current, id).value.(status := Superseded));
    MarkOneMore(current, targets, id);
    hide Put, Marked, Install, IdsDistinct;
  }

  lemma UnitsNamed(ops: seq<Operation>)
    ensures forall u :: u in NewUnits(ops) <==> CreateUnit(u) in ops
  {
    forall u | CreateUnit(u) in ops ensures u in NewUnits(ops) {
      var op := CreateUnit(u);
      assert op.newUnit == u;
    }
  }

  lemma NewUnitsSnoc(ops: seq<Operation>)
    requires ops != []
    ensures var n := |ops| - 1; NewUnits(ops) == NewUnits(ops[..n]) + if ops[n].CreateUnit? then {ops[n].newUnit} else {}
  {
    assert ops == ops[..|ops| - 1] + [ops[|ops| - 1]];
  }

  /** The date that a new version is given. */
  function FromOf(current: seq<Mandate>, op: Operation): Option<Time>
    requires Makes(op) && Known(current, op)
  {
    if op.Change? then Some(Target(current, op).effectiveFrom) else op.body.effectiveFrom
  }

  lemma ReplaceIs(current: seq<Mandate>, op: Operation, s: Setting, g: Governance)
    requires Replaces(op) && Known(current, op) && Lookup(g.mandates, op.mandateId) == Lookup(current, op.mandateId)
    ensures var made, from := Made(current, op, s), FromOf(current, op);
            && ApplyOne(g, op, s) == Replace(g, op.mandateId, made.version, made.terms, from, s)
            && made == Mandate(MintedAt(made.terms.institutionId, s.at), made.version, made.terms, from.GetOr(s.at), NoLimits(), Active)
  {
    hide Replace, Lookup;
  }

  lemma ReplaceStep(current: seq<Mandate>, institutions: map<Id, seq<Id>>, units: set<UnitId>, front: seq<Operation>,
                    op: Operation, s: Setting, g: Governance, ms: seq<Mandate>)
    requires Replaces(op) && IdsDistinct(current) && Reached(current, institutions, units, Targets(front), NewUnits(front), ms, g)
    requires op.mandateId !in Targets(front) && Lookup(current, op.mandateId).Some? && Lookup(current, op.mandateId).value.status == Active
    requires !Has(current, MintOf(current, op, s))
    ensures var a := ApplyOne(g, op, s);
            && (a.ok <==> Allowed(institutions, units, front, op, s))
            && (a.ok ==> Reached(current, institutions, units, Targets(front) + {op.mandateId}, NewUnits(front), Put(ms, Made(current, op, s)), a.g))
  {
    var targets, made := Targets(front), Made(current, op, s);
    assert made.mandateId == MintOf(current, op, s);
    AllowedIs(institutions, units, front, op, s);
    hide Allowed, Lookup, Reached, Put, Replace, Targets, NewUnits, IdsDistinct, Has, Made, ApplyOne, FromOf, MintOf, Target;
    TargetFound(current, institutions, units, targets, NewUnits(front), ms, g, op.mandateId);
    ReplaceIs(current, op, s, g);
    Swaps(current, institutions, units, targets, NewUnits(front), ms, g, op.mandateId, made.version, made.terms, FromOf(current, op), s);
  }

  lemma CreateStep(current: seq<Mandate>, institutions: map<Id, seq<Id>>, units: set<UnitId>, front: seq<Operation>,
                   op: Operation, s: Setting, g: Governance, ms: seq<Mandate>)
    requires op.CreateVersion? && Reached(current, institutions, units, Targets(front), NewUnits(front), ms, g)
    requires !Has(current, MintOf(current, op, s))
    ensures var a := ApplyOne(g, op, s);
            && (a.ok <==> Allowed(institutions, units, front, op, s))
            && (a.ok ==> Reached(current, institutions, units, Targets(front), NewUnits(front), Put(ms, Made(current, op, s)), a.g))
  {
    AllowedIs(institutions, units, front, op, s);
    Installs(g, op.version.GetOr(1), BodyTerms(op.institutionId, op.body), op.body.effectiveFrom, s);
    MarkedHas(current, Targets(front));
    PutBehind(Marked(current, Targets(front)), ms, Made(current, op, s));
    hide Marked, Put, Install, Targets, NewUnits, Has, Allowed;
  }

  lemma OtherStep(current: seq<Mandate>, institutions: map<Id, seq<Id>>, units: set<UnitId>, front: seq<Operation>,
                  op: Operation, s: Setting, g: Governance, ms: seq<Mandate>)
    requires !Makes(op) && Reached(current, institutions, units, Targets(front), NewUnits(front), ms, g)
    ensures var a := ApplyOne(g, op, s);
            && (a.ok <==> Allowed(institutions, units, front, op, s))
            && (a.ok ==> Reached(current, institutions, units, Targets(front),
                                 NewUnits(front) + if op.CreateUnit? then {op.newUnit} else {}, ms, a.g))
  {
    UnitsNamed(front);
    assert NewUnits(front) + {} == NewUnits(front);
    hide Marked, Targets, NewUnits;
  }

  /** The application ends with the marked stored mandates and the fold of those it makes; it gets there exactly when it may. */
  lemma {:induction false} ApplicationEnds(current: seq<Mandate>, institutions: map<Id, seq<Id>>, units: set<UnitId>,
                                           ops: seq<Operation>, ss: seq<Setting>)
    requires |ss| == |ops| && PlanValid(current, ops, ss) && forall op :: op in ops ==> Known(current, op)
    ensures var a := ApplyAll(Before(current, institutions, units), ops, ss);
            && (a.ok <==> Passes(institutions, units, ops, ss))
            && (a.ok ==> Reached(current, institutions, units, Targets(ops), NewUnits(ops), PutAll(MadeAll(current, ops, ss)), a.g))
    decreases |ops|
  {
    if ops == [] {
      MarkNone(current);
      assert Targets(ops) == {} && current + [] == current && NewUnits(ops) == {};
    } else {
      var n := |ops| - 1;
      var op, s, made := ops[n], ss[n], MadeAll(current, ops[..n], ss[..n]);
      KnownFront(current, ops, ss);
      assert Replaces(op) ==> Lookup(current, op.mandateId).value.status == Active;
      assert Makes(op) ==> !Has(current, MintOf(current, op, s));
      hide PlanValid, Put, PutAll, ApplyOne, Targets, Passes, Allowed, Marked, NewUnits, Reached, Lookup, Made, MintOf, Has;
      ApplicationEnds(current, institutions, units, ops[..n], ss[..n]);
      PassesSnoc(institutions, units, ops, ss);
      TargetsSnoc(ops);
      NewUnitsSnoc(ops);
      var front := ApplyAll(Before(current, institutions, units), ops[..n], ss[..n]);
      if front.ok {
        assert Targets(ops[..n]) + {} == Targets(ops[..n]) && NewUnits(ops[..n]) + {} == NewUnits(ops[..n]);
        if Replaces(op) {
          ReplaceStep(current, institutions, units, ops[..n], op, s, front.g, PutAll(made));
        } else if op.CreateVersion? {
          CreateStep(current, institutions, units, ops[..n], op, s, front.g, PutAll(made));
        } else {
          OtherStep(current, institutions, units, ops[..n], op, s, front.g, PutAll(made));
        }
        if Makes(op) { PutAllSnoc(made, Made(current, op, s)); } else { assert made + [] == made; }
      }
    }
  }

  // ----- where names are shared -----

  /** Position `k` of both lists holds what operation `i` makes. */
  predicate Slot(current: seq<Mandate>, ops: seq<Operation>, ss: seq<Setting>, now: Time, k: nat, i: nat)
    requires |ss| == |ops| && forall op :: op in ops ==> Known(current, op)
    requires k < |ShownAll(current, ops, now)| && k < |MadeAll(current, ops, ss)|
  {
    && i < |ops| && Makes(ops[i])
    && ShownAll(current, ops, now)[k] == Shown(current, ops[i], now) && MadeAll(current, ops, ss)[k] == Made(current, ops[i], ss[i])
  }

  lemma {:induction false} SlotOf(current: seq<Mandate>, ops: seq<Operation>, ss: seq<Setting>, now: Time, k: nat) returns (i: nat)
    requires |ss| == |ops| && forall op :: op in ops ==> Known(current, op)
    requires k < |ShownAll(current, ops, now)| && k < |MadeAll(current, ops, ss)|
    ensures |ShownAll(current, ops, now)| == |MadeAll(current, ops, ss)|
    ensures Slot(current, ops, ss, now, k, i)
    decreases |ops|
  {
    var n := |ops| - 1;
    SameLength(current, ops[..n], ss[..n], now);
    if k < |ShownAll(current, ops[..n], now)| {
      i := SlotOf(current, ops[..n], ss[..n], now, k);
    } else {
      i := n;
    }
    hide Shown, Made;
  }

  lemma {:induction false} SameLength(current: seq<Mandate>, ops: seq<Operation>, ss: seq<Setting>, now: Time)
    requires |ss| == |ops| && forall op :: op in ops ==> Known(current, op)
    ensures |ShownAll(current, ops, now)| == |MadeAll(current, ops, ss)| == MakerCount(ops)
    decreases |ops|
  {
    if ops != [] { SameLength(current, ops[..|ops| - 1], ss[..|ops| - 1], now); }
  }

  /** The number of operations that make a mandate. */
  function MakerCount(ops: seq<Operation>): nat {
    if ops == [] then 0 else MakerCount(ops[..|ops| - 1]) + if Makes(ops[|ops| - 1]) then 1 else 0
  }

  predicate Shows(current: seq<Mandate>, op: Operation, now: Time, id: MandateId)
    requires Known(current, op)
  {
    Makes(op) && Shown(current, op, now).mandateId == id
  }

  predicate Mints(current: seq<Mandate>, op: Operation, s: Setting, id: MandateId)
    requires Known(current, op)
  {
    Makes(op) && Made(current, op, s).mandateId == id
  }

  lemma {:induction false} ShownNames(current: seq<Mandate>, ops: seq<Operation>, now: Time, id: MandateId)
    requires forall op :: op in ops ==> Known(current, op)
    ensures Has(ShownAll(current, ops, now), id) <==> exists i :: 0 <= i < |ops| && Shows(current, ops[i], now, id)
    decreases |ops|
  {
    if ops != [] {
      var n := |ops| - 1;
      var front := ops[..n];
      ShownNames(current, front, now, id);
      if i :| 0 <= i < |ops| && Shows(current, ops[i], now, id) && i != n { assert Shows(current, front[i], now, id); }
      if i :| 0 <= i < n && Shows(current, front[i], now, id) { assert Shows(current, ops[i], now, id); }
      if Makes(ops[n]) {
        HasSnoc(ShownAll(current, front, now), Shown(current, ops[n], now));
      } else {
        assert ShownAll(current, ops, now) == ShownAll(current, front, now);
      }
      hide Shown, Has;
    }
  }

  lemma {:induction false} MadeNames(current: seq<Mandate>, ops: seq<Operation>, ss: seq<Setting>, id: MandateId)
    requires |ss| == |ops| && forall op :: op in ops ==> Known(current, op)
    ensures Has(MadeAll(current, ops, ss), id) <==> exists i :: 0 <= i < |ops| && Mints(current, ops[i], ss[i], id)
    decreases |ops|
  {
    if ops != [] {
      var n := |ops| - 1;
      var front, fs := ops[..n], ss[..n];
      MadeNames(current, front, fs, id);
      if i :| 0 <= i < |ops| && Mints(current, ops[i], ss[i], id) && i != n { assert Mints(current, front[i], fs[i], id); }
      if i :| 0 <= i < n && Mints(current, front[i], fs[i], id) { assert Mints(current, ops[i], ss[i], id); }
      if Makes(ops[n]) {
        HasSnoc(MadeAll(current, front, fs), Made(current, ops[n], ss[n]));
      } else {
        assert MadeAll(current, ops, ss) == MadeAll(current, front, fs);
      }
      hide Made, Has;
    }
  }

  /** The names that the projection makes up are shared exactly by two CREATE operations of one version. */
  lemma ShownShared(current: seq<Mandate>, ops: seq<Operation>, ss: seq<Setting>, now: Time, i: nat, j: nat)
    requires |ss| == |ops| && PlanValid(current, ops, ss) && i < j < |ops| && Makes(ops[i]) && Makes(ops[j])
    ensures Shown(current, ops[i], now).mandateId == Shown(current, ops[j], now).mandateId <==> SameVersion(ops[i], ops[j])
    ensures Made(current, ops[i], ss[i]).mandateId == Made(current, ops[j], ss[j]).mandateId <==> SameReading(current, ops, ss, i, j)
  {
    assert Replaces(ops[i]) && Replaces(ops[j]) ==> ops[i].mandateId != ops[j].mandateId;
    hide PlanValid, BodyTerms, Patched, Recreated;
  }

  /** The name that the last operation takes was taken exactly when an earlier operation collides with it. */
  lemma LastTaken(current: seq<Mandate>, ops: seq<Operation>, ss: seq<Setting>, now: Time)
    requires |ss| == |ops| && PlanValid(current, ops, ss) && forall op :: op in ops ==> Known(current, op)
    requires ops != [] && Makes(ops[|ops| - 1])
    ensures var n := |ops| - 1;
            && (Has(ShownAll(current, ops[..n], now), Shown(current, ops[n], now).mandateId) <==>
                exists i :: 0 <= i < n && SameVersion(ops[i], ops[n]))
            && (Has(MadeAll(current, ops[..n], ss[..n]), Made(current, ops[n], ss[n]).mandateId) <==>
                exists i :: 0 <= i < n && SameReading(current, ops, ss, i, n))
  {
    var n := |ops| - 1;
    var front, fs := ops[..n], ss[..n];
    var shown, made := Shown(current, ops[n], now).mandateId, Made(current, ops[n], ss[n]).mandateId;
    ShownNames(current, front, now, shown);
    MadeNames(current, front, fs, made);
    forall i | 0 <= i < n
      ensures Shows(current, front[i], now, shown) <==> SameVersion(ops[i], ops[n])
      ensures Mints(current, front[i], fs[i], made) <==> SameReading(current, ops, ss, i, n)
    {
      assert front[i] == ops[i] && fs[i] == ss[i];
      if Makes(ops[i]) { ShownShared(current, ops, ss, now, i, n); }
      hide PlanValid, Shown, Made;
    }
    hide PlanValid, Shown, Made, SameVersion, SameReading, Has, ShownAll, MadeAll, Shows, Mints;
  }

  lemma NothingMade(current: seq<Mandate>, ops: seq<Operation>, ss: seq<Setting>, now: Time)
    requires |ss| == |ops| && PlanValid(current, ops, ss) && forall op :: op in ops ==> Known(current, op)
    requires ops != [] && !Makes(ops[|ops| - 1])
    ensures var n := |ops| - 1;
            && (forall i :: 0 <= i < n ==> !SameVersion(ops[i], ops[n]) && !SameReading(current, ops, ss, i, n))
            && ShownAll(current, ops, now) == ShownAll(current, ops[..n], now)
            && MadeAll(current, ops, ss) == MadeAll(current, ops[..n], ss[..n])
  {
    hide PlanValid, Shown, Made;
  }

  lemma {:induction false} SharedExactly(current: seq<Mandate>, ops: seq<Operation>, ss: seq<Setting>, now: Time)
    requires |ss| == |ops| && PlanValid(current, ops, ss) && forall op :: op in ops ==> Known(current, op)
    ensures IdsDistinct(ShownAll(current, ops, now)) <==> CreatesDistinct(ops)
    ensures IdsDistinct(MadeAll(current, ops, ss)) <==> ReadingsDistinct(current, ops, ss)
    decreases |ops|
  {
    if ops != [] {
      var n := |ops| - 1;
      var front, fs, op := ops[..n], ss[..n], ops[n];
      KnownFront(current, ops, ss);
      hide PlanValid, Shown, Made, SameVersion, SameReading, CreatesDistinct, ReadingsDistinct, IdsDistinct, Has;
      SharedExactly(current, front, fs, now);
      DistinctSnoc(current, ops, ss);
      if Makes(op) {
        HasSnoc(ShownAll(current, front, now), Shown(current, op, now));
        HasSnoc(MadeAll(current, front, fs), Made(current, op, ss[n]));
        LastTaken(current, ops, ss, now);
      } else {
        NothingMade(current, ops, ss, now);
      }
    }
  }

  lemma DistinctSnoc(current: seq<Mandate>, ops: seq<Operation>, ss: seq<Setting>)
    requires |ss| == |ops| && PlanValid(current, ops, ss) && ops != []
    requires PlanValid(current, ops[..|ops| - 1], ss[..|ops| - 1])
    ensures var n := |ops| - 1;
            && (CreatesDistinct(ops) <==> CreatesDistinct(ops[..n]) && forall i :: 0 <= i < n ==> !SameVersion(ops[i], ops[n]))
            && (ReadingsDistinct(current, ops, ss) <==>
                ReadingsDistinct(current, ops[..n], ss[..n]) && forall i :: 0 <= i < n ==> !SameReading(current, ops, ss, i, n))
  {
    var n := |ops| - 1;
    var front, fs := ops[..n], ss[..n];
    assert forall i :: 0 <= i < n ==> front[i] == ops[i] && fs[i] == ss[i];
    forall i, j | 0 <= i < j < n ensures SameReading(current, front, fs, i, j) <==> SameReading(current, ops, ss, i, j) {}
    hide PlanValid, SameVersion, SameReading;
  }

  lemma CollisionsAlike(current: seq<Mandate>, ops: seq<Operation>, ss: seq<Setting>, now: Time)
    requires |ss| == |ops| && PlanValid(current, ops, ss) && forall op :: op in ops ==> Known(current, op)
    requires CollideAlike(current, ops, ss)
    ensures Alike(ShownAll(current, ops, now), MadeAll(current, ops, ss))
  {
    var shown, made := ShownAll(current, ops, now), MadeAll(current, ops, ss);
    SameLength(current, ops, ss, now);
    forall k, l | 0 <= k < |shown| && 0 <= l < |shown| ensures shown[k].mandateId == shown[l].mandateId <==> made[k].mandateId == made[l].mandateId {
      var i := SlotOf(current, ops, ss, now, k);
      var j := SlotOf(current, ops, ss, now, l);
      if i < j { ShownShared(current, ops, ss, now, i, j); }
      if j < i { ShownShared(current, ops, ss, now, j, i); }
      hide PlanValid, Shown, Made, SameVersion, SameReading, ShownAll, MadeAll;
    }
  }
}
