/** The causal service on one question, updating its stores in place; proved equal to `CausalLifecycle.Step`. */
module CausalService {
  import opened Wrappers
  import opened CausalSynthesis
  import opened CausalLifecycle

  class Service {
    const t: real
    const unit: Id
    const estimatorVersion: Id
    var status: QuestionState
    var trace: seq<QuestionState>
    var graphs: seq<Id>
    var analysis: Option<Identification>
    var estimates: seq<Estimate>
    var synthesis: Option<Synthesized>
    var claim: Option<Claim>
    var requests: map<Claim, bool>
    var promotions: seq<Promotion>

    ghost function Value(): Case
      reads this
    {
      Case(t, unit, estimatorVersion, status, trace, graphs, analysis, estimates, synthesis, claim, requests, promotions)
    }

    /** An admitted question. */
    constructor (t: real, unit: Id, estimatorVersion: Id)
      ensures Value() == NewCase(t, unit, estimatorVersion)
    {
      this.t, this.unit, this.estimatorVersion := t, unit, estimatorVersion;
      status, trace := Admitted, [Admitted];
      graphs, analysis, estimates, synthesis, claim := [], None, [], None, None;
      requests, promotions := map[], [];
    }

    method Transition(to: QuestionState) returns (ok: bool)
      modifies `status, `trace
      ensures Value() == Moved(old(Value()), to).c && (ok <==> Moved(old(Value()), to).error.None?)
    {
      if to !in Successors(status) { return false; }
      status, trace := to, trace + [to];
      return true;
    }

    method Propose(funded: bool, graph: Id, valid: bool) returns (ok: bool)
      modifies this
      ensures Value() == Step(old(Value()), ProposeGraph(funded, graph, valid)).c
    {
      if status != Admitted && status != Stale { return status == GraphProposed && graphs != []; }
      if !funded || !valid { return false; }
      graphs := graphs + [graph];
      ok := Transition(GraphProposed);
    }

    method IdentifyEffect(resolved: bool) returns (ok: bool)
      modifies this
      ensures Value() == Step(old(Value()), Identify(resolved)).c
    {
      if (status != GraphProposed && status != IdentificationAnalysis) || graphs == [] { return false; }
      analysis := Some(if resolved then Identified else NotIdentified);
      if status != IdentificationAnalysis { var _ := Transition(IdentificationAnalysis); }
      ok := Transition(if resolved then Estimating else Inconclusive);
    }

    method Estimate(funded: bool, resolved: bool, id: Id, point: real, treated: nat, control: nat) returns (ok: bool)
      modifies this
      ensures Value() == Step(old(Value()), TakeEstimate(funded, resolved, id, point, treated, control)).c
    {
      if status != Estimating || analysis != Some(Identified) || graphs == [] { return false; }
      if !funded || !resolved || treated == 0 || control == 0 { return false; }
      estimates := SaveEstimate(estimates, CausalSynthesis.Estimate(id, unit, estimatorVersion, point, treated, control));
      ok := Transition(Synthesizing);
    }

    method SynthesizeEvidence(funded: bool) returns (ok: bool)
      modifies this
      ensures Value() == Step(old(Value()), RunSynthesis(funded)).c
    {
      if status != Synthesizing || !funded { return false; }
      var result := Synthesize(estimates, t);
      if result.None? { return false; }
      synthesis := Some(Synthesized(result.value, estimates));
      ok := Transition(Validating);
    }

    method Validate() returns (ok: bool)
      modifies this
      ensures Value() == Step(old(Value()), ValidateClaim).c
    {
      if status != Validating || graphs == [] || analysis.None? || synthesis.None? { return false; }
      var effect := if |estimates| > 0 then Some(estimates[0].point) else None;
      var result := synthesis.value.result;
      var claimType := ClassifyClaimType(analysis.value, effect, t, result.status);
      claim := Some(Claim(claimType, effect, analysis.value, graphs[0], result.contradicting));
      ok := Transition(if analysis.value == NotIdentified then Inconclusive else AwaitingCausalReview);
    }

    method RouteClaim() returns (ok: bool)
      modifies this
      ensures Value() == Step(old(Value()), RouteReview).c
    {
      if status != AwaitingCausalReview { return false; }
      if exists k :: k in requests && requests[k] { return true; }
      if claim.None? || synthesis.None? || analysis.None? || graphs == [] { return false; }
      requests := requests[claim.value := true];
      return true;
    }

    /** The request is decided first and stays decided when a later check throws. */
    method Decide(request: Claim, accepted: bool, decision: ReviewDecision) returns (ok: bool)
      modifies this
      ensures Value() == Step(old(Value()), DecideReview(request, accepted, decision)).c
      ensures ok <==> Step(old(Value()), DecideReview(request, accepted, decision)).error.None?
    {
      if request !in requests || !requests[request] || !accepted { return false; }
      requests := requests[request := false];
      if decision == RejectClaim { ok := Transition(Rejected); return; }
      if decision == RequestRevision { ok := Transition(GraphProposed); return; }
      ok := Transition(Reviewed);
      if !ok { return; }
      if claim.None? || synthesis.None? || claim.value != request { return false; }
      if GuardFires(synthesis.value.result.status, claim.value.claimType) { return false; }
      promotions := promotions + [Promotion(claim.value, synthesis.value, trace + [Promoted])];
      ok := Transition(Promoted);
    }
  }
}
