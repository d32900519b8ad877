/** Applying a mutation plan through the governance service, which updates its repositories in place. */
module ConstitutionalApply {
  import opened Wrappers
  import opened Constitutional

  class GovernanceService {
    var mandates: seq<Mandate>
    var institutions: map<Id, seq<Id>>
    var units: set<UnitId>
    var calls: seq<Method>

    function Value(): Governance
      reads this
    {
      Governance(mandates, institutions, units, calls)
    }

    constructor (mandates: seq<Mandate>, institutions: map<Id, seq<Id>>, units: set<UnitId>)
      ensures Value() == Before(mandates, institutions, units)
    {
      this.mandates, this.institutions, this.units, this.calls := mandates, institutions, units, [];
    }

    /** A draft named after the institution and the clock, over whatever had that name, without limits. */
    method CreateDraft(version: nat, terms: Terms, from: Option<Time>, s: Setting) returns (id: Option<MandateId>)
      modifies this
      ensures Applied(Value(), id.Some?) == Create(old(Value()), version, terms, from, s)
      ensures id.Some? ==> id.value == MintedAt(terms.institutionId, s.at)
    {
      calls := calls + [CreateMandate];
      if CreateMandate in s.refuses { return None; }
      var name := MintedAt(terms.institutionId, s.at);
      mandates := Put(mandates, Mandate(name, version, terms, from.GetOr(s.at), NoLimits(), Draft));
      return Some(name);
    }

    method ActivateDraft(id: MandateId, s: Setting) returns (ok: bool)
      modifies this
      ensures Applied(Value(), ok) == Activate(old(Value()), id, s)
    {
      calls := calls + [ActivateMandate];
      var found := Lookup(mandates, id);
      if found.None? || ActivateMandate in s.refuses { return false; }
      if found.value.status != Draft && found.value.status != Suspended { return false; }
      mandates := Put(mandates, found.value.(status := Active));
      return true;
    }

    method SupersedeActive(id: MandateId, s: Setting) returns (ok: bool)
      modifies this
      ensures Applied(Value(), ok) == Supersede(old(Value()), id, s)
    {
      calls := calls + [SupersedeMandate];
      var found := Lookup(mandates, id);
      if found.None? || SupersedeMandate in s.refuses || found.value.status != Active { return false; }
      mandates := Put(mandates, found.value.(status := Superseded));
      return true;
    }

    /** `createAndActivateMandate`, and then the old version out when there is one. */
    method InstallVersion(version: nat, terms: Terms, from: Option<Time>, replaced: Option<MandateId>, s: Setting) returns (ok: bool)
      modifies this
      ensures Applied(Value(), ok) == if replaced.None? then Install(old(Value()), version, terms, from, s)
                                      else Replace(old(Value()), replaced.value, version, terms, from, s)
    {
      var id := CreateDraft(version, terms, from, s);
      if id.None? { return false; }
      ok := ActivateDraft(id.value, s);
      hide Create, Activate, Supersede;
      if ok && replaced.Some? { ok := SupersedeActive(replaced.value, s); }
    }

    /** One operation; on a throw the writes already made stay. */
    method Apply(op: Operation, s: Setting) returns (ok: bool)
      modifies this
      ensures Applied(Value(), ok) == ApplyOne(old(Value()), op, s)
    {
      hide Install, Replace;
      match op {
        case Change(id, patch) =>
          var found := Lookup(mandates, id);
          if found.None? { return false; }
          var m := found.value;
          ok := InstallVersion(m.version + 1, Recreated(m.terms, patch), Some(m.effectiveFrom), Some(id), s);
        case CreateVersion(institutionId, version, body) =>
          ok := InstallVersion(version.GetOr(1), BodyTerms(institutionId, body), body.effectiveFrom, None, s);
        case SupersedeVersion(id, v, body) =>
          var found := Lookup(mandates, id);
          if found.None? { return false; }
          ok := InstallVersion(v, BodyTerms(found.value.terms.institutionId, body), body.effectiveFrom, Some(id), s);
        case AdminScope(i, projects) =>
          calls := calls + [UpdateInstitutionProjectScope];
          ok := UpdateInstitutionProjectScope !in s.refuses && i in institutions;
          if ok { institutions := institutions[i := projects]; }
        case CreateUnit(u) =>
          calls := calls + [CreateOrganizationalUnit];
          ok := CreateOrganizationalUnit !in s.refuses && u.institutionId in institutions;
          if ok { units := units + {u}; }
        case MoveUnit(u) =>
          calls := calls + [UpdateOrganizationalUnit];
          ok := u in units && UpdateOrganizationalUnit !in s.refuses;
        case RetireUnit(u) =>
          calls := calls + [RetireOrganizationalUnit];
          ok := u in units && RetireOrganizationalUnit !in s.refuses;
      }
    }

    /** `applyConstitutionalMutationPlan`: stops at the first operation that throws. */
    method ApplyPlan(ops: seq<Operation>, settings: seq<Setting>) returns (ok: bool)
      requires |settings| == |ops|
      modifies this
      ensures Applied(Value(), ok) == ApplyAll(old(Value()), ops, settings)
    {
      ghost var g := Value();
      for i := 0 to |ops|
        invariant ApplyAll(g, ops[..i], settings[..i]) == Applied(Value(), true)
      {
        assert ops[..i + 1][..i] == ops[..i] && settings[..i + 1][..i] == settings[..i];
        var applied := Apply(ops[i], settings[i]);
        if !applied {
          StaysFailed(g, ops, settings, i + 1);
          return false;
        }
      }
      assert ops[..|ops|] == ops && settings[..|ops|] == settings;
      return true;
    }
  }

  lemma {:induction false} StaysFailed(g: Governance, ops: seq<Operation>, settings: seq<Setting>, i: nat)
    requires |settings| == |ops| && i <= |ops| && !ApplyAll(g, ops[..i], settings[..i]).ok
    ensures ApplyAll(g, ops, settings) == ApplyAll(g, ops[..i], settings[..i])
    decreases |ops|
  {
    if i == |ops| {
      assert ops[..i] == ops && settings[..i] == settings;
    } else {
      var n := |ops| - 1;
      assert ops[..n][..i] == ops[..i] && settings[..n][..i] == settings[..i];
      StaysFailed(g, ops[..n], settings[..n], i);
    }
  }
}
