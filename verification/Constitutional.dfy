/**
 * Constitutional changes: the write-free projection of mandates, really applying the operations
 * through the governance service, and the continuity check that trusts the projection.
 *
 * The projection reads the clock once, the application once for every mandate it creates. A real
 * identifier is minted from the institution and that reading and nothing else, so it is not fresh
 * by itself.
 */
module Constitutional {
  import opened Wrappers

  type Id = nat
  type Time = int

  /** A minted identifier, and the two kinds of names that the projection makes up. */
  datatype MandateId = MintedAt(mintedFor: Id, createdAt: Time) | NewOf(institutionId: Id, version: nat) | VersionOf(base: MandateId, version: nat)

  datatype Policy = Policy(allowDelegation: bool, maximumDelegationDepth: nat, redelegationForbidden: bool)

  /** What a new version of a mandate carries over or sets. */
  datatype Terms = Terms(
    institutionId: Id, subjectClasses: seq<Id>, requiredAuthorities: seq<Id>,
    projectScope: seq<Id>, environmentScope: seq<Id>, separationRules: seq<Id>,
    quorum: Option<Id>, policy: Policy, depth: Option<nat>, effectiveUntil: Option<Time>)

  /** Limits that `createMandate` resets and the projection of a change keeps. */
  datatype Limits = Limits(riskScope: seq<Id>, resourceScope: map<Id, int>, maximumDuration: Option<nat>)

  datatype Status = Draft | Active | Suspended | Superseded
  datatype Mandate = Mandate(
    mandateId: MandateId, version: nat, terms: Terms, effectiveFrom: Time, limits: Limits, status: Status)

  datatype Patch =
    | Quorum(quorum: Id)
    | Separation(rules: seq<Id>)
    | Scope(projects: seq<Id>, environments: seq<Id>)
    | Delegation(depth: nat, policy: Option<Policy>)

  /** The fields that CREATE and SUPERSEDE operations spell out. */
  datatype Body = Body(
    subjectClasses: seq<Id>, requiredAuthorities: seq<Id>, projectScope: seq<Id>, environmentScope: seq<Id>,
    separationRules: seq<Id>, quorum: Option<Id>, policy: Option<Policy>, depth: Option<nat>,
    effectiveFrom: Option<Time>, effectiveUntil: Option<Time>)

  /** The identifier of a unit is a digest of its institution and its name. */
  datatype UnitId = UnitId(institutionId: Id, name: Id)

  datatype Operation =
    | Change(mandateId: MandateId, patch: Patch)
    | CreateVersion(institutionId: Id, version: Option<nat>, body: Body)
    | SupersedeVersion(mandateId: MandateId, newVersion: nat, body: Body)
    | AdminScope(institutionId: Id, projects: seq<Id>)
    | CreateUnit(newUnit: UnitId)
    | MoveUnit(unit: UnitId)
    | RetireUnit(unit: UnitId)

  function NoLimits(): Limits {
    Limits([], map[], None)
  }

  function DefaultPolicy(): Policy {
    Policy(true, 1, false)
  }

  function BodyTerms(institutionId: Id, b: Body): Terms {
    Terms(institutionId, b.subjectClasses, b.requiredAuthorities, b.projectScope, b.environmentScope, b.separationRules,
          b.quorum, b.policy.GetOr(DefaultPolicy()), b.depth, b.effectiveUntil)
  }

  // ----- the projection -----

  function Patched(t: Terms, p: Patch): Terms {
    match p
    case Quorum(q) => t.(quorum := Some(q))
    case Separation(rules) => t.(separationRules := rules)
    case Scope(projects, environments) => t.(projectScope := projects, environmentScope := environments)
    case Delegation(depth, policy) => t.(depth := Some(depth), policy := policy.GetOr(t.policy))
  }

  function Lookup(ms: seq<Mandate>, id: MandateId): Option<Mandate> {
    Find(ms, (m: Mandate) => m.mandateId == id)
  }

  /** Setting a `Map` entry: in place when the key is there, at the end otherwise. */
  function Put(ms: seq<Mandate>, m: Mandate): seq<Mandate> {
    if ms == [] then [m]
    else if ms[0].mandateId == m.mandateId then [m] + ms[1..]
    else [ms[0]] + Put(ms[1..], m)
  }

  datatype Projection = Projection(byId: seq<Mandate>, superseded: set<MandateId>)

  /** `current` is the list before any operation, which SUPERSEDE reads the institution from. */
  function Project(current: seq<Mandate>, p: Projection, op: Operation, now: Time): Projection {
    match op
    case Change(id, patch) =>
      var found := Lookup(p.byId, id);
      if found.None? then p
      else
        var m := found.value;
        var next := Mandate(VersionOf(id, m.version + 1), m.version + 1, Patched(m.terms, patch), m.effectiveFrom, m.limits, Active);
        Projection(Put(p.byId, next), p.superseded + {id})
    case CreateVersion(institutionId, version, body) =>
      var v := version.GetOr(1);
      var next := Mandate(NewOf(institutionId, v), v, BodyTerms(institutionId, body), body.effectiveFrom.GetOr(now), NoLimits(), Active);
      p.(byId := Put(p.byId, next))
    case SupersedeVersion(id, v, body) =>
      var found := Lookup(current, id);
      var institutionId := if found.Some? then found.value.terms.institutionId else 0;
      var next := Mandate(VersionOf(id, v), v, BodyTerms(institutionId, body), body.effectiveFrom.GetOr(now), NoLimits(), Active);
      Projection(Put(p.byId, next), p.superseded + {id})
    case _ => p
  }

  function ProjectAll(current: seq<Mandate>, ops: seq<Operation>, now: Time): Projection {
    if ops == [] then Projection(current, {})
    else Project(current, ProjectAll(current, ops[..|ops| - 1], now), ops[|ops| - 1], now)
  }

  function Projected(current: seq<Mandate>, ops: seq<Operation>, now: Time): seq<Mandate> {
    var p := ProjectAll(current, ops, now);
    Filter(p.byId, (m: Mandate) => m.status == Active && m.mandateId !in p.superseded)
  }

  /** `projectMandatesAfterOperations`, with its loop. */
  method ProjectMandatesAfterOperations(current: seq<Mandate>, ops: seq<Operation>, now: Time) returns (mandates: seq<Mandate>)
    ensures mandates == Projected(current, ops, now)
  {
    var p := Projection(current, {});
    for i := 0 to |ops|
      invariant p == ProjectAll(current, ops[..i], now)
    {
      assert ops[..i + 1][..i] == ops[..i];
      p := Project(current, p, ops[i], now);
    }
    assert ops[..|ops|] == ops;
    mandates := Filter(p.byId, (m: Mandate) => m.status == Active && m.mandateId !in p.superseded);
  }

  // ----- really applying the operations -----

  datatype Method =
    | CreateMandate | ActivateMandate | SupersedeMandate | SuspendMandate
    | CreateOrganizationalUnit | UpdateOrganizationalUnit | RetireOrganizationalUnit | UpdateInstitutionProjectScope

  /** `institutions` holds the project scopes; `calls` lists the protected methods called. */
  datatype Governance = Governance(
    mandates: seq<Mandate>, institutions: map<Id, seq<Id>>, units: set<UnitId>, calls: seq<Method>)

  /** Around one operation: what the clock shows it, and the protected methods that refuse the caller. */
  datatype Setting = Setting(at: Time, refuses: set<Method>)

  /** `ok` is false when something was thrown; the writes made before that stay. */
  datatype Applied = Applied(g: Governance, ok: bool)

  function Called(g: Governance, m: Method): Governance {
    g.(calls := g.calls + [m])
  }

  function Create(g: Governance, version: nat, terms: Terms, from: Option<Time>, s: Setting): Applied {
    var draft := Mandate(MintedAt(terms.institutionId, s.at), version, terms, from.GetOr(s.at), NoLimits(), Draft);
    var h := Called(g, CreateMandate);
    if CreateMandate in s.refuses then Applied(h, false) else Applied(h.(mandates := Put(g.mandates, draft)), true)
  }

  function Activate(g: Governance, id: MandateId, s: Setting): Applied {
    var found := Lookup(g.mandates, id);
    var h := Called(g, ActivateMandate);
    if found.None? || ActivateMandate in s.refuses || (found.value.status != Draft && found.value.status != Suspended) then Applied(h, false)
    else Applied(h.(mandates := Put(g.mandates, found.value.(status := Active))), true)
  }

  function Supersede(g: Governance, id: MandateId, s: Setting): Applied {
    var found := Lookup(g.mandates, id);
    var h := Called(g, SupersedeMandate);
    if found.None? || SupersedeMandate in s.refuses || found.value.status != Active then Applied(h, false)
    else Applied(h.(mandates := Put(g.mandates, found.value.(status := Superseded))), true)
  }

  function Install(g: Governance, version: nat, terms: Terms, from: Option<Time>, s: Setting): Applied {
    var created := Create(g, version, terms, from, s);
    if created.ok then Activate(created.g, MintedAt(terms.institutionId, s.at), s) else created
  }

  function Replace(g: Governance, id: MandateId, version: nat, terms: Terms, from: Option<Time>, s: Setting): Applied {
    var installed := Install(g, version, terms, from, s);
    if installed.ok then Supersede(installed.g, id, s) else installed
  }

  /** What a changed mandate is created from: the current terms, or the patch where it says something. */
  function Recreated(t: Terms, p: Patch): Terms {
    Terms(t.institutionId, t.subjectClasses, t.requiredAuthorities,
          if p.Scope? then p.projects else t.projectScope,
          if p.Scope? then p.environments else t.environmentScope,
          if p.Separation? then p.rules else t.separationRules,
          if p.Quorum? then Some(p.quorum) else t.quorum,
          if p.Delegation? && p.policy.Some? then p.policy.value else t.policy,
          if p.Delegation? then Some(p.depth) else t.depth,
          t.effectiveUntil)
  }

  /** One operation through the governance service. */
  function ApplyOne(g: Governance, op: Operation, s: Setting): Applied {
    match op
    case Change(id, patch) =>
      var found := Lookup(g.mandates, id);
      if found.None? then Applied(g, false)
      else Replace(g, id, found.value.version + 1, Recreated(found.value.terms, patch), Some(found.value.effectiveFrom), s)
    case CreateVersion(institutionId, version, body) =>
      Install(g, version.GetOr(1), BodyTerms(institutionId, body), body.effectiveFrom, s)
    case SupersedeVersion(id, v, body) =>
      var found := Lookup(g.mandates, id);
      if found.None? then Applied(g, false)
      else Replace(g, id, v, BodyTerms(found.value.terms.institutionId, body), body.effectiveFrom, s)
    case AdminScope(i, projects) =>
      var h := Called(g, UpdateInstitutionProjectScope);
      if UpdateInstitutionProjectScope in s.refuses || i !in g.institutions then Applied(h, false)
      else Applied(h.(institutions := g.institutions[i := projects]), true)
    case CreateUnit(u) =>
      var h := Called(g, CreateOrganizationalUnit);
      if CreateOrganizationalUnit in s.refuses || u.institutionId !in g.institutions then Applied(h, false)
      else Applied(h.(units := g.units + {u}), true)
    case MoveUnit(u) =>
      Applied(Called(g, UpdateOrganizationalUnit), UpdateOrganizationalUnit !in s.refuses && u in g.units)
    case RetireUnit(u) =>
      Applied(Called(g, RetireOrganizationalUnit), RetireOrganizationalUnit !in s.refuses && u in g.units)
  }

  function ApplyAll(g: Governance, ops: seq<Operation>, settings: seq<Setting>): Applied
    requires |settings| == |ops|
  {
    if ops == [] then Applied(g, true)
    else
      var n := |ops| - 1;
      var front := ApplyAll(g, ops[..n], settings[..n]);
      if front.ok then ApplyOne(front.g, ops[n], settings[n]) else front
  }

  function Before(current: seq<Mandate>, institutions: map<Id, seq<Id>>, units: set<UnitId>): Governance {
    Governance(current, institutions, units, [])
  }

  // ----- what the two are compared by -----

  function ActiveOf(ms: seq<Mandate>): seq<Mandate> {
    Filter(ms, (m: Mandate) => m.status == Active)
  }

  datatype View = View(version: nat, terms: Terms)

  function Views(ms: seq<Mandate>): seq<View> {
    seq(|ms|, i requires 0 <= i < |ms| => View(ms[i].version, ms[i].terms))
  }

  datatype FullView = FullView(version: nat, terms: Terms, effectiveFrom: Time, limits: Limits)

  function FullViews(ms: seq<Mandate>): seq<FullView> {
    seq(|ms|, i requires 0 <= i < |ms| => FullView(ms[i].version, ms[i].terms, ms[i].effectiveFrom, ms[i].limits))
  }

  // ----- the authorised methods -----

  function Authorizes(op: Operation): set<Method> {
    match op
    case Change(_, _) => {CreateMandate, ActivateMandate, SupersedeMandate}
    case CreateVersion(_, _, _) => {CreateMandate, ActivateMandate}
    case SupersedeVersion(_, _, _) => {CreateMandate, ActivateMandate, SupersedeMandate}
    case AdminScope(_, _) => {UpdateInstitutionProjectScope}
    case CreateUnit(_) => {CreateOrganizationalUnit}
    case MoveUnit(_) => {UpdateOrganizationalUnit}
    case RetireUnit(_) => {RetireOrganizationalUnit}
  }

  /** `authorizedProtectedMutationsForOperations`, with its loop. */
  method AuthorizedMutations(ops: seq<Operation>) returns (authorized: set<Method>)
    ensures forall m :: m in authorized <==> exists op :: op in ops && m in Authorizes(op)
  {
    authorized := {};
    for i := 0 to |ops|
      invariant forall m :: m in authorized <==> exists op :: op in ops[..i] && m in Authorizes(op)
    {
      assert ops[..i + 1] == ops[..i] + [ops[i]];
      authorized := authorized + Authorizes(ops[i]);
    }
    assert ops[..|ops|] == ops;
  }

  // ----- the continuity check -----

  datatype Role = GovernanceAdmin | ConstitutionalReviewer | ConstitutionalActivator
  datatype Grant = Grant(principalId: Id, projectId: Id, role: Role, enabled: bool)

  predicate Viable(g: Grant, projectIds: seq<Id>, role: Role) {
    g.enabled && g.role == role && g.projectId in projectIds
  }

  /** `countViableRoleHolders`: distinct principals. */
  method CountViableRoleHolders(projectIds: seq<Id>, grants: seq<Grant>, role: Role) returns (count: nat)
    ensures count == |set g | g in grants && Viable(g, projectIds, role) :: g.principalId|
    ensures count == 0 <==> forall g :: g in grants ==> !Viable(g, projectIds, role)
  {
    var principals: set<Id> := {};
    for i := 0 to |grants|
      invariant principals == set g | g in grants[..i] && Viable(g, projectIds, role) :: g.principalId
    {
      assert grants[..i + 1] == grants[..i] + [grants[i]];
      if Viable(grants[i], projectIds, role) { principals := principals + {grants[i].principalId}; }
    }
    assert grants[..|grants|] == grants;
    if g :| g in grants && Viable(g, projectIds, role) { assert g.principalId in principals; }
    if principals != {} { var x :| x in principals; }
    count := |principals|;
  }

  /** The subject class that makes a mandate constitutional. */
  function ConstitutionalChange(): Id {
    0
  }

  predicate HasConstitutional(views: seq<View>) {
    exists v :: v in views && ConstitutionalChange() in v.terms.subjectClasses
  }

  predicate HasHolder(projectIds: seq<Id>, grants: seq<Grant>, role: Role) {
    exists g :: g in grants && Viable(g, projectIds, role)
  }

  /** No lockout: an administrator, and for constitutional mandates a reviewer and an activator. */
  predicate Continuous(projectIds: seq<Id>, views: seq<View>, grants: seq<Grant>) {
    && HasHolder(projectIds, grants, GovernanceAdmin)
    && (HasConstitutional(views) ==>
          HasHolder(projectIds, grants, ConstitutionalReviewer) && HasHolder(projectIds, grants, ConstitutionalActivator))
  }

  /** `projectInstitutionAfterOperations`: the last administration scope wins. */
  function ProjectScope(projectIds: seq<Id>, ops: seq<Operation>): seq<Id> {
    if ops == [] then projectIds
    else if ops[|ops| - 1].AdminScope? then ops[|ops| - 1].projects
    else ProjectScope(projectIds, ops[..|ops| - 1])
  }

  method ProjectInstitution(projectIds: seq<Id>, ops: seq<Operation>) returns (scope: seq<Id>)
    ensures scope == ProjectScope(projectIds, ops)
  {
    scope := projectIds;
    for i := 0 to |ops|
      invariant scope == ProjectScope(projectIds, ops[..i])
    {
      assert ops[..i + 1][..i] == ops[..i];
      if ops[i].AdminScope? { scope := ops[i].projects; }
    }
    assert ops[..|ops|] == ops;
  }

  /** `assertProjectedGovernanceContinuity`; false is a lockout error. */
  method AssertContinuity(controlled: bool, projectIds: seq<Id>, current: seq<Mandate>, ops: seq<Operation>, grants: seq<Grant>, now: Time)
    returns (ok: bool)
    ensures ok <==> !controlled || Continuous(ProjectScope(projectIds, ops), Views(Projected(current, ops, now)), grants)
  {
    if !controlled { return true; }
    var scope := ProjectInstitution(projectIds, ops);
    var mandates := ProjectMandatesAfterOperations(current, ops, now);
    var admins := CountViableRoleHolders(scope, grants, GovernanceAdmin);
    if admins < 1 { return false; }
    var constitutional := exists m :: m in mandates && ConstitutionalChange() in m.terms.subjectClasses;
    ViewsMembers(mandates);
    if constitutional {
      var reviewers := CountViableRoleHolders(scope, grants, ConstitutionalReviewer);
      if reviewers < 1 { return false; }
      var activators := CountViableRoleHolders(scope, grants, ConstitutionalActivator);
      if activators < 1 { return false; }
    }
    return true;
  }

  lemma ViewsMembers(ms: seq<Mandate>)
    ensures HasConstitutional(Views(ms)) <==> exists m :: m in ms && ConstitutionalChange() in m.terms.subjectClasses
  {
    if HasConstitutional(Views(ms)) {
      var v :| v in Views(ms) && ConstitutionalChange() in v.terms.subjectClasses;
      var i :| 0 <= i < |ms| && Views(ms)[i] == v;
      assert ms[i] in ms;
    }
    if m :| m in ms && ConstitutionalChange() in m.terms.subjectClasses {
      var i :| 0 <= i < |ms| && ms[i] == m;
      assert Views(ms)[i] in Views(ms);
    }
  }
}
