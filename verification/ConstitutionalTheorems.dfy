/** When the projection is true, when the continuity check that trusts it is, and plans for which they are not. */
module ConstitutionalTheorems {
  import opened Wrappers
  import opened Constitutional
  import opened ConstitutionalPlans

  // ----- agreement -----

  /** A change as the projection makes it and as the application makes it. */
  lemma PatchedIsRecreated(t: Terms, p: Patch)
    ensures Patched(t, p) == Recreated(t, p)
  {}

  lemma OneView(current: seq<Mandate>, op: Operation, s: Setting, now: Time)
    requires Makes(op) && Known(current, op)
    ensures var x, y := Shown(current, op, now), Made(current, op, s);
            && x.version == y.version && x.terms == y.terms
            && (x.effectiveFrom == y.effectiveFrom && x.limits == y.limits <==> Faithful(current, op, s, now))
  {
    if op.Change? { PatchedIsRecreated(Target(current, op).terms, op.patch); }
    hide Patched, Recreated, BodyTerms;
  }

  lemma ViewsSnoc(a: seq<Mandate>, b: seq<Mandate>, x: Mandate, y: Mandate)
    requires Views(a) == Views(b) && x.version == y.version && x.terms == y.terms
    ensures Views(a + [x]) == Views(b + [y])
    ensures FullViews(a + [x]) == FullViews(b + [y]) <==>
              FullViews(a) == FullViews(b) && x.effectiveFrom == y.effectiveFrom && x.limits == y.limits
  {
    ViewsPoint(a, b);
    assert Views(a + [x]) == Views(a) + [View(x.version, x.terms)] && Views(b + [y]) == Views(b) + [View(y.version, y.terms)];
    var u, v := FullViews(a + [x]), FullViews(b + [y]);
    assert u == FullViews(a) + [FullView(x.version, x.terms, x.effectiveFrom, x.limits)];
    assert v == FullViews(b) + [FullView(y.version, y.terms, y.effectiveFrom, y.limits)];
    assert FullViews(a) == u[..|a|] && FullViews(b) == v[..|a|];
    assert u[|a|] == FullView(x.version, x.terms, x.effectiveFrom, x.limits) && v[|a|] == FullView(y.version, y.terms, y.effectiveFrom, y.limits);
  }

  lemma FaithfulSnoc(current: seq<Mandate>, ops: seq<Operation>, ss: seq<Setting>, now: Time)
    requires |ss| == |ops| && PlanValid(current, ops, ss) && ops != []
    requires PlanValid(current, ops[..|ops| - 1], ss[..|ops| - 1])
    ensures var n := |ops| - 1;
            AllFaithful(current, ops, ss, now) <==>
            AllFaithful(current, ops[..n], ss[..n], now) && Faithful(current, ops[n], ss[n], now)
  {
    var n := |ops| - 1;
    assert forall i :: 0 <= i < n ==> ops[..n][i] == ops[i] && ss[..n][i] == ss[i];
    hide PlanValid, Faithful;
  }

  /** What the projection shows and what the application makes have one view; the full view when nothing is lost. */
  lemma {:induction false} SameViews(current: seq<Mandate>, ops: seq<Operation>, ss: seq<Setting>, now: Time)
    requires |ss| == |ops| && PlanValid(current, ops, ss) && forall op :: op in ops ==> Known(current, op)
    ensures Views(ShownAll(current, ops, now)) == Views(MadeAll(current, ops, ss))
    ensures FullViews(ShownAll(current, ops, now)) == FullViews(MadeAll(current, ops, ss)) <==> AllFaithful(current, ops, ss, now)
    decreases |ops|
  {
    if ops != [] {
      var n := |ops| - 1;
      var front, fs, op := ops[..n], ss[..n], ops[n];
      KnownFront(current, ops, ss);
      SameViews(current, front, fs, now);
      FaithfulSnoc(current, ops, ss, now);
      if Makes(op) {
        OneView(current, op, ss[n], now);
        ViewsSnoc(ShownAll(current, front, now), MadeAll(current, front, fs), Shown(current, op, now), Made(current, op, ss[n]));
      } else {
        assert ShownAll(current, ops, now) == ShownAll(current, front, now);
        assert MadeAll(current, ops, ss) == MadeAll(current, front, fs);
      }
      hide PlanValid, Shown, Made, AllFaithful, Views, FullViews;
    }
  }

  /** Where the projection ends and where the application ends, side by side. */
  lemma {:induction false} BothEnd(current: seq<Mandate>, institutions: map<Id, seq<Id>>, units: set<UnitId>,
                ops: seq<Operation>, ss: seq<Setting>, now: Time) returns (kept: seq<Mandate>, shown: seq<Mandate>, made: seq<Mandate>)
    requires |ss| == |ops| && PlanValid(current, ops, ss) && Passes(institutions, units, ops, ss)
    ensures ApplyAll(Before(current, institutions, units), ops, ss).ok
    ensures kept == ActiveOf(Marked(current, Targets(ops))) && |shown| == |made| == MakerCount(ops)
    ensures (forall op :: op in ops ==> Known(current, op)) && shown == ShownAll(current, ops, now) && made == MadeAll(current, ops, ss)
    ensures Projected(current, ops, now) == kept + PutAll(shown)
    ensures ActiveOf(ApplyAll(Before(current, institutions, units), ops, ss).g.mandates) == kept + PutAll(made)
    ensures Views(shown) == Views(made) && (FullViews(shown) == FullViews(made) <==> AllFaithful(current, ops, ss, now))
    ensures IdsDistinct(shown) <==> CreatesDistinct(ops)
    ensures IdsDistinct(made) <==> ReadingsDistinct(current, ops, ss)
    ensures CollideAlike(current, ops, ss) ==> Alike(shown, made)
  {
    KnownFront(current, ops, ss);
    kept, shown, made := ActiveOf(Marked(current, Targets(ops))), ShownAll(current, ops, now), MadeAll(current, ops, ss);
    ProjectionEnds(current, ops, ss, now);
    ApplicationEnds(current, institutions, units, ops, ss);
    SameLength(current, ops, ss, now);
    SharedExactly(current, ops, ss, now);
    if CollideAlike(current, ops, ss) { CollisionsAlike(current, ops, ss, now); }
    SameViews(current, ops, ss, now);
    MintedNames(current, ops, ss, now);
    hide ShownAll, MadeAll, AllFaithful, ProjectAll, ApplyAll, Passes, CreatesDistinct, ReadingsDistinct, CollideAlike, IdsDistinct, Views, FullViews, Alike;
    ShownActive(current, ops, shown);
    MadeActive(current, ops, made);
  }

  lemma ShownActive(current: seq<Mandate>, ops: seq<Operation>, shown: seq<Mandate>)
    requires forall m :: m in shown ==> !m.mandateId.MintedAt? && m.status == Active
    requires forall id :: id in Targets(ops) ==> id.MintedAt?
    ensures Filter(current + PutAll(shown), (m: Mandate) => m.status == Active && m.mandateId !in Targets(ops))
            == ActiveOf(Marked(current, Targets(ops))) + PutAll(shown)
  {
    var live := (m: Mandate) => m.status == Active && m.mandateId !in Targets(ops);
    PutAllShape(shown);
    FilterSplit(current, PutAll(shown), live);
    FilterAll(PutAll(shown), live);
    MarkedActive(current, Targets(ops));
  }

  lemma MadeActive(current: seq<Mandate>, ops: seq<Operation>, made: seq<Mandate>)
    requires forall m :: m in made ==> m.status == Active
    ensures ActiveOf(Marked(current, Targets(ops)) + PutAll(made)) == ActiveOf(Marked(current, Targets(ops))) + PutAll(made)
  {
    PutAllShape(made);
    FilterSplit(Marked(current, Targets(ops)), PutAll(made), (m: Mandate) => m.status == Active);
    FilterAll(PutAll(made), (m: Mandate) => m.status == Active);
  }

  // ----- the theorems -----

  lemma ViewsApart(kept: seq<Mandate>, a: seq<Mandate>, b: seq<Mandate>)
    ensures Views(a) == Views(b) ==> Views(kept + a) == Views(kept + b)
    ensures FullViews(kept + a) == FullViews(kept + b) <==> FullViews(a) == FullViews(b)
    ensures |a| != |b| ==> Views(kept + a) != Views(kept + b) && multiset(Views(kept + a)) != multiset(Views(kept + b))
  {
    assert Views(kept + a) == Views(kept) + Views(a) && Views(kept + b) == Views(kept) + Views(b);
    assert FullViews(kept + a) == FullViews(kept) + FullViews(a) && FullViews(kept + b) == FullViews(kept) + FullViews(b);
    assert |multiset(Views(kept + a))| == |kept| + |a| && |multiset(Views(kept + b))| == |kept| + |b|;
    assert FullViews(a) == FullViews(kept + a)[|kept|..] && FullViews(b) == FullViews(kept + b)[|kept|..];
  }

  /** What there should be after the operations: the stored mandates that stay, and one for each operation that makes one. */
  function Due(current: seq<Mandate>, ops: seq<Operation>): nat {
    |ActiveOf(Marked(current, Targets(ops)))| + MakerCount(ops)
  }

  /** A plan goes through exactly when nothing refuses it. */
  lemma PassesExactly(current: seq<Mandate>, institutions: map<Id, seq<Id>>, units: set<UnitId>, ops: seq<Operation>, ss: seq<Setting>)
    requires |ss| == |ops| && PlanValid(current, ops, ss)
    ensures ApplyAll(Before(current, institutions, units), ops, ss).ok <==> Passes(institutions, units, ops, ss)
  {
    KnownFront(current, ops, ss);
    ApplicationEnds(current, institutions, units, ops, ss);
  }

  /**
   * The projection misses a mandate exactly when two CREATE operations make one version, and the
   * application loses one exactly when two operations on one institution read one time.
   */
  lemma NothingLostExactly(current: seq<Mandate>, institutions: map<Id, seq<Id>>, units: set<UnitId>,
                           ops: seq<Operation>, ss: seq<Setting>, now: Time)
    requires |ss| == |ops| && PlanValid(current, ops, ss) && Passes(institutions, units, ops, ss)
    ensures var left := ActiveOf(ApplyAll(Before(current, institutions, units), ops, ss).g.mandates);
            && |Projected(current, ops, now)| <= Due(current, ops) && |left| <= Due(current, ops)
            && (|Projected(current, ops, now)| == Due(current, ops) <==> CreatesDistinct(ops))
            && (|left| == Due(current, ops) <==> ReadingsDistinct(current, ops, ss))
  {
    var kept, shown, made := BothEnd(current, institutions, units, ops, ss, now);
    PutAllShape(shown);
    PutAllShape(made);
    hide PutAll, Projected, ApplyAll, CreatesDistinct, ReadingsDistinct, PlanValid, Passes, ActiveOf, Targets, MakerCount, Marked;
  }

  /**
   * Version by version and term by term, the projection shows the mandates that the application
   * leaves active whenever the same operations collide on both sides. When no two collide on one of
   * the sides, it does exactly when no two collide on the other.
   */
  lemma ProjectionTrueExactly(current: seq<Mandate>, institutions: map<Id, seq<Id>>, units: set<UnitId>,
                              ops: seq<Operation>, ss: seq<Setting>, now: Time)
    requires |ss| == |ops| && PlanValid(current, ops, ss) && Passes(institutions, units, ops, ss)
    ensures var shown, left := Views(Projected(current, ops, now)), Views(ActiveOf(ApplyAll(Before(current, institutions, units), ops, ss).g.mandates));
            && (CollideAlike(current, ops, ss) ==> shown == left)
            && (CreatesDistinct(ops) || ReadingsDistinct(current, ops, ss) ==>
                  && (shown == left <==> CreatesDistinct(ops) && ReadingsDistinct(current, ops, ss))
                  && (multiset(shown) == multiset(left) <==> CreatesDistinct(ops) && ReadingsDistinct(current, ops, ss)))
  {
    var kept, shown, made := BothEnd(current, institutions, units, ops, ss, now);
    PutAllShape(shown);
    PutAllShape(made);
    if CollideAlike(current, ops, ss) { PutAllAlike(shown, made); }
    ViewsApart(kept, PutAll(shown), PutAll(made));
    hide PutAll, Projected, ApplyAll, CreatesDistinct, ReadingsDistinct, CollideAlike, PlanValid, Passes, ActiveOf, Views, IdsDistinct, Alike;
  }

  /**
   * With the effective dates, the risk scope, the resource scope and the maximum duration, the
   * projection is true exactly when, besides, no changed mandate had limits, which a change resets,
   * and every date left open was filled in at the projection's own reading of the clock.
   */
  lemma LimitsTrueExactly(current: seq<Mandate>, institutions: map<Id, seq<Id>>, units: set<UnitId>,
                          ops: seq<Operation>, ss: seq<Setting>, now: Time)
    requires |ss| == |ops| && PlanValid(current, ops, ss) && Passes(institutions, units, ops, ss)
    requires CreatesDistinct(ops) || ReadingsDistinct(current, ops, ss)
    ensures FullViews(Projected(current, ops, now))
            == FullViews(ActiveOf(ApplyAll(Before(current, institutions, units), ops, ss).g.mandates))
            <==> CreatesDistinct(ops) && ReadingsDistinct(current, ops, ss) && AllFaithful(current, ops, ss, now)
  {
    var kept, shown, made := BothEnd(current, institutions, units, ops, ss, now);
    PutAllShape(shown);
    PutAllShape(made);
    ViewsApart(kept, PutAll(shown), PutAll(made));
    assert |FullViews(PutAll(shown))| == |PutAll(shown)| && |FullViews(PutAll(made))| == |PutAll(made)|;
    hide PutAll, Projected, ApplyAll, CreatesDistinct, ReadingsDistinct, AllFaithful, PlanValid, Passes, ActiveOf, FullViews, Views, IdsDistinct;
  }

  // ----- the calls made -----

  lemma OneOperationCalls(g: Governance, op: Operation, s: Setting, m: Method)
    ensures m in ApplyOne(g, op, s).g.calls ==> m in g.calls || m in Authorizes(op)
    ensures ApplyOne(g, op, s).ok ==> (m in ApplyOne(g, op, s).g.calls <==> m in g.calls || m in Authorizes(op))
  {
    hide Put, Lookup, BodyTerms, Recreated;
  }

  /** Applying the operations calls no method that is not authorised and, when it goes through, every one that is. */
  lemma {:induction false} CallsAreAuthorized(current: seq<Mandate>, institutions: map<Id, seq<Id>>, units: set<UnitId>,
                                              ops: seq<Operation>, ss: seq<Setting>, m: Method)
    requires |ss| == |ops|
    ensures var a := ApplyAll(Before(current, institutions, units), ops, ss);
            && (m in a.g.calls ==> exists op :: op in ops && m in Authorizes(op))
            && (a.ok ==> (m in a.g.calls <==> exists op :: op in ops && m in Authorizes(op)))
    decreases |ops|
  {
    if ops != [] {
      var n := |ops| - 1;
      CallsAreAuthorized(current, institutions, units, ops[..n], ss[..n], m);
      var front := ApplyAll(Before(current, institutions, units), ops[..n], ss[..n]);
      OneOperationCalls(front.g, ops[n], ss[n], m);
      assert forall x :: x in ops <==> x in ops[..n] || x == ops[n];
      hide ApplyOne, Authorizes;
    }
  }

  // ----- continuity -----

  /** Administration scopes name the institution under change, which the projection takes for granted. */
  predicate ScopesOwn(ops: seq<Operation>, own: Id) {
    forall op :: op in ops && op.AdminScope? ==> op.institutionId == own
  }

  lemma ScopeStep(g: Governance, op: Operation, s: Setting, own: Id)
    requires own in g.institutions && ApplyOne(g, op, s).ok && (op.AdminScope? ==> op.institutionId == own)
    ensures own in ApplyOne(g, op, s).g.institutions
    ensures ApplyOne(g, op, s).g.institutions[own] == if op.AdminScope? then op.projects else g.institutions[own]
  {
    hide Put, Lookup, BodyTerms, Recreated;
  }

  lemma {:induction false} ScopeApplied(g: Governance, ops: seq<Operation>, ss: seq<Setting>, own: Id)
    requires |ss| == |ops| && own in g.institutions && ScopesOwn(ops, own) && ApplyAll(g, ops, ss).ok
    ensures own in ApplyAll(g, ops, ss).g.institutions
    ensures ApplyAll(g, ops, ss).g.institutions[own] == ProjectScope(g.institutions[own], ops)
    decreases |ops|
  {
    if ops != [] {
      var n := |ops| - 1;
      assert ops[n] in ops && forall op :: op in ops[..n] ==> op in ops;
      hide ApplyOne;
      ScopeApplied(g, ops[..n], ss[..n], own);
      ScopeStep(ApplyAll(g, ops[..n], ss[..n]).g, ops[n], ss[n], own);
    }
  }

  /** The continuity check answers for the state that the operations really lead to. */
  lemma ContinuityIsTrue(current: seq<Mandate>, institutions: map<Id, seq<Id>>, units: set<UnitId>, own: Id,
                         ops: seq<Operation>, ss: seq<Setting>, grants: seq<Grant>, now: Time)
    requires |ss| == |ops| && PlanValid(current, ops, ss) && Passes(institutions, units, ops, ss)
    requires own in institutions && ScopesOwn(ops, own) && CollideAlike(current, ops, ss)
    ensures var g := ApplyAll(Before(current, institutions, units), ops, ss).g;
            && own in g.institutions
            && (Continuous(ProjectScope(institutions[own], ops), Views(Projected(current, ops, now)), grants) <==>
                Continuous(g.institutions[own], Views(ActiveOf(g.mandates)), grants))
  {
    PassesExactly(current, institutions, units, ops, ss);
    ProjectionTrueExactly(current, institutions, units, ops, ss, now);
    ScopeApplied(Before(current, institutions, units), ops, ss, own);
    hide PlanValid, Passes, Projected, ApplyAll, Views, ActiveOf, ProjectScope, CollideAlike, ScopesOwn, HasConstitutional, HasHolder;
  }

  /** Colliding clock readings make the check too strict at worst: where it passes, there is no lockout. */
  lemma ContinuityIsSafe(current: seq<Mandate>, institutions: map<Id, seq<Id>>, units: set<UnitId>, own: Id,
                         ops: seq<Operation>, ss: seq<Setting>, grants: seq<Grant>, now: Time)
    requires |ss| == |ops| && PlanValid(current, ops, ss) && Passes(institutions, units, ops, ss)
    requires own in institutions && ScopesOwn(ops, own) && CreatesDistinct(ops)
    requires Continuous(ProjectScope(institutions[own], ops), Views(Projected(current, ops, now)), grants)
    ensures var g := ApplyAll(Before(current, institutions, units), ops, ss).g;
            own in g.institutions && Continuous(g.institutions[own], Views(ActiveOf(g.mandates)), grants)
  {
    PassesExactly(current, institutions, units, ops, ss);
    ScopeApplied(Before(current, institutions, units), ops, ss, own);
    var kept, shown, made := BothEnd(current, institutions, units, ops, ss, now);
    PutAllShape(shown);
    PutAllShape(made);
    hide PlanValid, Passes, Projected, ApplyAll, Views, ActiveOf, ProjectScope, CreatesDistinct, ReadingsDistinct, ScopesOwn, HasConstitutional, HasHolder, PutAll;
    ConstitutionalShown(kept, shown, made);
  }

  lemma ConstitutionalShown(kept: seq<Mandate>, shown: seq<Mandate>, made: seq<Mandate>)
    requires Views(shown) == Views(made) && (forall m :: m in PutAll(made) ==> m in made)
    ensures HasConstitutional(Views(kept + PutAll(made))) ==> HasConstitutional(Views(kept + shown))
  {
    ViewsPoint(shown, made);
    ViewsMembers(kept + PutAll(made));
    ViewsMembers(kept + shown);
    hide Views, PutAll;
    if m :| m in kept + PutAll(made) && ConstitutionalChange() in m.terms.subjectClasses {
      if m in kept {
        assert m in kept + shown;
      } else {
        var i :| 0 <= i < |made| && made[i] == m;
        assert shown[i] in kept + shown;
      }
    }
  }

  // ----- runs that break the conditions -----

  /** Two CREATE operations for institution 1, which nothing refuses. */
  function TwoCreates(v: nat, w: nat, a: Body, b: Body): seq<Operation> {
    [CreateVersion(1, Some(v), a), CreateVersion(1, Some(w), b)]
  }

  function TwoReadings(t: Time, u: Time): seq<Setting> {
    [Setting(t, {}), Setting(u, {})]
  }

  lemma TwoCreatesPass(v: nat, w: nat, a: Body, b: Body, t: Time, u: Time, scope: seq<Id>)
    ensures var ops, ss := TwoCreates(v, w, a, b), TwoReadings(t, u);
            && PlanValid([], ops, ss) && Passes(map[1 := scope], {}, ops, ss) && ScopesOwn(ops, 1)
            && (SameVersion(ops[0], ops[1]) <==> v == w) && (SameReading([], ops, ss, 0, 1) <==> t == u)
  {}

  lemma FoldTwo(x: Mandate, y: Mandate)
    ensures PutAll([x, y]) == if x.mandateId == y.mandateId then [y] else [x, y]
  {
    assert [] + [x] == [x] && [x] + [y] == [x, y] && [x][1..] == [];
    PutAllSnoc([], x);
    PutAllSnoc([x], y);
  }

  lemma TwoLists(v: nat, w: nat, a: Body, b: Body, t: Time, u: Time, now: Time)
    ensures var ops, ss := TwoCreates(v, w, a, b), TwoReadings(t, u);
            && ShownAll([], ops, now) == [Shown([], ops[0], now), Shown([], ops[1], now)]
            && MadeAll([], ops, ss) == [Made([], ops[0], ss[0]), Made([], ops[1], ss[1])]
            && Targets(ops) == {}
  {
    var ops, ss := TwoCreates(v, w, a, b), TwoReadings(t, u);
    assert ops[..1] == [ops[0]] && ss[..1] == [ss[0]] && [ops[0]][..0] == [] && [ss[0]][..0] == [];
    assert ShownAll([], [ops[0]], now) == [Shown([], ops[0], now)] && MadeAll([], [ops[0]], [ss[0]]) == [Made([], ops[0], ss[0])];
  }

  lemma ScopeKept(v: nat, w: nat, a: Body, b: Body, t: Time, u: Time, scope: seq<Id>)
    ensures var ops, end := TwoCreates(v, w, a, b), ApplyAll(Before([], map[1 := scope], {}), TwoCreates(v, w, a, b), TwoReadings(t, u));
            end.ok && 1 in end.g.institutions && end.g.institutions[1] == ProjectScope(scope, ops) == scope
  {
    var ops, ss := TwoCreates(v, w, a, b), TwoReadings(t, u);
    TwoCreatesPass(v, w, a, b, t, u, scope);
    PassesExactly([], map[1 := scope], {}, ops, ss);
    assert ops[..1] == [ops[0]] && [ops[0]][..0] == [] && ProjectScope(scope, [ops[0]]) == scope;
    hide ApplyAll, PlanValid, Passes;
    ScopeApplied(Before([], map[1 := scope], {}), ops, ss, 1);
  }

  lemma ViewsOfTwo(x: Mandate, y: Mandate)
    ensures Views(PutAll([x, y])) ==
            (if x.mandateId == y.mandateId then [] else [View(x.version, x.terms)]) + [View(y.version, y.terms)]
  {
    FoldTwo(x, y);
    hide PutAll;
  }

  /** Where the two end: each keeps both mandates, or the second in the place of the first. */
  lemma TwoCreatesEnd(v: nat, w: nat, a: Body, b: Body, t: Time, u: Time, scope: seq<Id>, now: Time)
    ensures var ops, ss := TwoCreates(v, w, a, b), TwoReadings(t, u);
            var end := ApplyAll(Before([], map[1 := scope], {}), ops, ss);
            && end.ok && 1 in end.g.institutions && end.g.institutions[1] == ProjectScope(scope, ops) == scope
            && Views(Projected([], ops, now)) == (if v == w then [] else [View(v, BodyTerms(1, a))]) + [View(w, BodyTerms(1, b))]
            && Views(ActiveOf(end.g.mandates)) == (if t == u then [] else [View(v, BodyTerms(1, a))]) + [View(w, BodyTerms(1, b))]
  {
    var ops, ss := TwoCreates(v, w, a, b), TwoReadings(t, u);
    TwoCreatesPass(v, w, a, b, t, u, scope);
    ScopeKept(v, w, a, b, t, u, scope);
    TwoLists(v, w, a, b, t, u, now);
    ViewsOfTwo(Shown([], ops[0], now), Shown([], ops[1], now));
    ViewsOfTwo(Made([], ops[0], ss[0]), Made([], ops[1], ss[1]));
    assert ActiveOf(Marked([], {})) == [];
    hide ShownAll, MadeAll, PutAll, Projected, ApplyAll, PlanValid, Passes, ActiveOf, Marked, SameVersion, SameReading;
    hide BodyTerms, Targets, ProjectScope, Views, CreatesDistinct, ReadingsDistinct, CollideAlike, AllFaithful, FullViews, Alike, IdsDistinct, ScopesOwn;
    var kept, shown, made := BothEnd([], map[1 := scope], {}, ops, ss, now);
    assert kept == [] && [] + PutAll(shown) == PutAll(shown) && [] + PutAll(made) == PutAll(made);
  }

  lemma ViewsLength(ms: seq<Mandate>)
    ensures |Views(ms)| == |ms|
  {}

  /** Two mandates created at one reading of the clock: the projection shows both, and the second has replaced the first. */
  lemma SameReadingLosesOne(v: nat, w: nat, a: Body, b: Body, t: Time, scope: seq<Id>, now: Time)
    requires v != w
    ensures var ops, ss := TwoCreates(v, w, a, b), TwoReadings(t, t);
            var end := ApplyAll(Before([], map[1 := scope], {}), ops, ss);
            && PlanValid([], ops, ss) && CreatesDistinct(ops) && end.ok
            && |Projected([], ops, now)| == 2 && |ActiveOf(end.g.mandates)| == 1
            && Views(Projected([], ops, now)) != Views(ActiveOf(end.g.mandates))
  {
    var ops, ss := TwoCreates(v, w, a, b), TwoReadings(t, t);
    var end := ApplyAll(Before([], map[1 := scope], {}), ops, ss);
    TwoCreatesPass(v, w, a, b, t, t, scope);
    TwoCreatesEnd(v, w, a, b, t, t, scope, now);
    ViewsLength(Projected([], ops, now));
    ViewsLength(ActiveOf(end.g.mandates));
    hide Projected, ApplyAll, ActiveOf, Views, BodyTerms, PlanValid;
  }

  function PlainBody(subjectClasses: seq<Id>): Body {
    Body(subjectClasses, [], [], [], [], None, None, None, None, None)
  }

  function OneAdmin(project: Id): seq<Grant> {
    [Grant(1, project, GovernanceAdmin, true)]
  }

  lemma AdminAlone(views: seq<View>)
    ensures Continuous([5], views, OneAdmin(5)) <==> !HasConstitutional(views)
  {
    assert OneAdmin(5)[0] in OneAdmin(5) && Viable(OneAdmin(5)[0], [5], GovernanceAdmin);
  }

  /** The lost mandate may be the constitutional one: the check reports a lockout that does not come. */
  lemma SameReadingRefuses(t: Time, now: Time)
    ensures var ops, ss := TwoCreates(1, 2, PlainBody([ConstitutionalChange()]), PlainBody([])), TwoReadings(t, t);
            var end := ApplyAll(Before([], map[1 := [5]], {}), ops, ss);
            && PlanValid([], ops, ss) && end.ok && 1 in end.g.institutions
            && !Continuous(ProjectScope([5], ops), Views(Projected([], ops, now)), OneAdmin(5))
            && Continuous(end.g.institutions[1], Views(ActiveOf(end.g.mandates)), OneAdmin(5))
  {
    var a, b := PlainBody([ConstitutionalChange()]), PlainBody([]);
    var ops, ss := TwoCreates(1, 2, a, b), TwoReadings(t, t);
    TwoCreatesPass(1, 2, a, b, t, t, [5]);
    TwoCreatesEnd(1, 2, a, b, t, t, [5], now);
    var shown, left := Views(Projected([], ops, now)), Views(ActiveOf(ApplyAll(Before([], map[1 := [5]], {}), ops, ss).g.mandates));
    assert shown[0] == View(1, BodyTerms(1, a)) && left == [View(2, BodyTerms(1, b))];
    AdminAlone(shown);
    AdminAlone(left);
  }

  /** One version made twice: the projection forgets the first, and the check passes although there will be a lockout. */
  lemma RepeatedVersionPasses(t: Time, u: Time, now: Time)
    requires t != u
    ensures var ops, ss := TwoCreates(1, 1, PlainBody([ConstitutionalChange()]), PlainBody([])), TwoReadings(t, u);
            var end := ApplyAll(Before([], map[1 := [5]], {}), ops, ss);
            && PlanValid([], ops, ss) && end.ok && 1 in end.g.institutions
            && Continuous(ProjectScope([5], ops), Views(Projected([], ops, now)), OneAdmin(5))
            && !Continuous(end.g.institutions[1], Views(ActiveOf(end.g.mandates)), OneAdmin(5))
  {
    var a, b := PlainBody([ConstitutionalChange()]), PlainBody([]);
    var ops, ss := TwoCreates(1, 1, a, b), TwoReadings(t, u);
    TwoCreatesPass(1, 1, a, b, t, u, [5]);
    TwoCreatesEnd(1, 1, a, b, t, u, [5], now);
    var shown, left := Views(Projected([], ops, now)), Views(ActiveOf(ApplyAll(Before([], map[1 := [5]], {}), ops, ss).g.mandates));
    assert left[0] == View(1, BodyTerms(1, a)) && shown == [View(1, BodyTerms(1, b))];
    AdminAlone(shown);
    AdminAlone(left);
  }

  /** When both collide, the two may still agree, so the condition of `NothingLostExactly` is not one of agreement. */
  lemma BothCollideAgree(v: nat, a: Body, b: Body, t: Time, scope: seq<Id>, now: Time)
    ensures var ops, ss := TwoCreates(v, v, a, b), TwoReadings(t, t);
            && PlanValid([], ops, ss) && !CreatesDistinct(ops) && !ReadingsDistinct([], ops, ss)
            && Views(Projected([], ops, now)) == Views(ActiveOf(ApplyAll(Before([], map[1 := scope], {}), ops, ss).g.mandates))
  {
    TwoCreatesPass(v, v, a, b, t, t, scope);
    TwoCreatesEnd(v, v, a, b, t, t, scope, now);
  }

  /** A scope that names another institution: the projection moves the own one, the application does not. */
  lemma ForeignScopeRefuses(s: Setting, now: Time)
    requires s.refuses == {}
    ensures var ops, scopes := [AdminScope(2, [])], map[1 := [5], 2 := [7]];
            var end := ApplyAll(Before([], scopes, {}), ops, [s]);
            && end.ok && 1 in end.g.institutions && PlanValid([], ops, [s])
            && !Continuous(ProjectScope(scopes[1], ops), Views(Projected([], ops, now)), OneAdmin(5))
            && Continuous(end.g.institutions[1], Views(ActiveOf(end.g.mandates)), OneAdmin(5))
  {
    var ops, scopes := [AdminScope(2, [])], map[1 := [5], 2 := [7]];
    assert ops[..|ops| - 1] == [] && [s][..|ops| - 1] == [];
    var end := ApplyAll(Before([], scopes, {}), ops, [s]);
    assert ApplyAll(Before([], scopes, {}), [], []) == Applied(Before([], scopes, {}), true);
    assert end == ApplyOne(Before([], scopes, {}), ops[0], s);
    AdminAlone(Views(ActiveOf(end.g.mandates)));
  }
}
