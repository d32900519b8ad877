/**
 * The lifecycle of one causal question, from graph proposal to a promoted claim.
 *
 * `Step` is one service call, errors included. A hash of a claim is the claim itself, so hashes
 * are injective. `trace` and the estimates kept beside a synthesis are history that the service
 * does not store.
 */
module CausalLifecycle {
  import opened Wrappers
  import opened CausalSynthesis

  datatype QuestionState =
    | Draft | Admitted | GraphProposed | IdentificationAnalysis | Estimating | Synthesizing | Validating
    | AwaitingCausalReview | Reviewed | Promoted | Rejected | Inconclusive | Stale | Superseded | Cancelled

  /** The transition table. */
  function Successors(s: QuestionState): set<QuestionState> {
    match s
    case Draft => {Admitted, Cancelled}
    case Admitted => {GraphProposed, Stale, Cancelled}
    case GraphProposed => {IdentificationAnalysis, Stale, Cancelled}
    case IdentificationAnalysis => {Estimating, Inconclusive, Stale, Cancelled}
    case Estimating => {Synthesizing, Inconclusive, Stale, Cancelled}
    case Synthesizing => {Validating, Inconclusive, Stale, Cancelled}
    case Validating => {AwaitingCausalReview, GraphProposed, Inconclusive, Stale, Cancelled}
    case AwaitingCausalReview => {Reviewed, Rejected, GraphProposed, Stale, Cancelled}
    case Reviewed => {Promoted, Rejected, Stale, Cancelled}
    case Promoted => {Stale, Superseded}
    case Stale => {GraphProposed, Cancelled}
    case _ => {}
  }

  datatype Identification = Identified | NotIdentified | PartiallyIdentified | IdentificationInconclusive

  datatype ClaimType = PositiveEffect | NegativeEffect | NoMaterialEffectDetected | PartialClaim | InconclusiveClaim

  function ClassifyClaimType(identification: Identification, effect: Option<real>, t: real, status: Status): ClaimType {
    if status == Mixed || status == Contradictory then
      if identification == PartiallyIdentified then PartialClaim else InconclusiveClaim
    else if identification == NotIdentified || identification == IdentificationInconclusive then InconclusiveClaim
    else if identification == PartiallyIdentified then PartialClaim
    else if effect.None? then InconclusiveClaim
    else if Abs(effect.value) < t then NoMaterialEffectDetected
    else if effect.value >= 0.0 then PositiveEffect
    else NegativeEffect
  }

  predicate Directional(c: ClaimType) {
    c == PositiveEffect || c == NegativeEffect || c == NoMaterialEffectDetected
  }

  /** `assertPromotionCompatibleWithSynthesis` throws. */
  predicate GuardFires(status: Status, c: ClaimType) {
    (status == Mixed || status == Contradictory) && Directional(c)
  }

  datatype Claim = Claim(
    claimType: ClaimType, effect: Option<real>, identification: Identification, graph: Id, contradicting: seq<Id>)

  datatype Synthesized = Synthesized(result: Synthesis, over: seq<Estimate>)

  datatype Promotion = Promotion(claim: Claim, basis: Synthesized, trace: seq<QuestionState>)

  datatype Case = Case(
    t: real, unit: Id, estimatorVersion: Id,
    status: QuestionState, trace: seq<QuestionState>,
    graphs: seq<Id>, analysis: Option<Identification>, estimates: seq<Estimate>,
    synthesis: Option<Synthesized>, claim: Option<Claim>,
    requests: map<Claim, bool>, promotions: seq<Promotion>)

  datatype ReviewDecision = ApproveClaim | RejectClaim | RequestRevision

  datatype Call =
    | ProposeGraph(funded: bool, graph: Id, valid: bool)
    | Identify(resolved: bool)
    | TakeEstimate(funded: bool, resolved: bool, id: Id, point: real, treated: nat, control: nat)
    | RunSynthesis(funded: bool)
    | ValidateClaim
    | RouteReview
    | DecideReview(request: Claim, accepted: bool, decision: ReviewDecision)
    | Outside(to: QuestionState)

  datatype Error = StateConflict | InvalidTransition | Refused | GuardFired | HashMismatch

  datatype Outcome = Outcome(c: Case, error: Option<Error>)

  function Moved(c: Case, to: QuestionState): Outcome {
    if to in Successors(c.status) then Outcome(c.(status := to, trace := c.trace + [to]), None)
    else Outcome(c, Some(InvalidTransition))
  }

  /** Saving under an identifier that exists overwrites in place. */
  function SaveEstimate(es: seq<Estimate>, e: Estimate): (r: seq<Estimate>)
    ensures r != [] && forall x :: x in r ==> x in es || x == e
  {
    if es == [] then [e]
    else if es[0].id == e.id then [e] + es[1..]
    else [es[0]] + SaveEstimate(es[1..], e)
  }

  function NewCase(t: real, unit: Id, estimatorVersion: Id): Case {
    Case(t, unit, estimatorVersion, Admitted, [Admitted], [], None, [], None, None, map[], [])
  }

  predicate PendingExists(c: Case) {
    exists k :: k in c.requests && c.requests[k]
  }

  function Step(c: Case, call: Call): Outcome {
    match call
    case ProposeGraph(funded, graph, valid) =>
      if c.status == GraphProposed && c.graphs != [] then Outcome(c, None)
      else if c.status != Admitted && c.status != Stale then Outcome(c, Some(StateConflict))
      else if !funded || !valid then Outcome(c, Some(Refused))
      else Moved(c.(graphs := c.graphs + [graph]), GraphProposed)
    case Identify(resolved) =>
      if c.status != GraphProposed && c.status != IdentificationAnalysis then Outcome(c, Some(StateConflict))
      else if c.graphs == [] then Outcome(c, Some(Refused))
      else
        var analysis := if resolved then Identified else NotIdentified;
        var d := c.(analysis := Some(analysis));
        var at := if c.status == IdentificationAnalysis then d else Moved(d, IdentificationAnalysis).c;
        Moved(at, if analysis == Identified then Estimating else Inconclusive)
    case TakeEstimate(funded, resolved, id, point, treated, control) =>
      if c.status != Estimating then Outcome(c, Some(StateConflict))
      else if c.analysis != Some(Identified) || c.graphs == [] || !funded || !resolved || treated == 0 || control == 0
      then Outcome(c, Some(Refused))
      else
        var e := Estimate(id, c.unit, c.estimatorVersion, point, treated, control);
        Moved(c.(estimates := SaveEstimate(c.estimates, e)), Synthesizing)
    case RunSynthesis(funded) =>
      if c.status != Synthesizing then Outcome(c, Some(StateConflict))
      else
        var s := SynthesisOf(c.estimates, c.t);
        if !funded || s.None? then Outcome(c, Some(Refused))
        else Moved(c.(synthesis := Some(Synthesized(s.value, c.estimates))), Validating)
    case ValidateClaim =>
      if c.status != Validating then Outcome(c, Some(StateConflict))
      else if c.graphs == [] || c.analysis.None? || c.synthesis.None? then Outcome(c, Some(Refused))
      else
        var claim := ClaimOf(c);
        var d := c.(claim := Some(claim));
        Moved(d, if c.analysis.value == NotIdentified then Inconclusive else AwaitingCausalReview)
    case RouteReview =>
      if c.status != AwaitingCausalReview then Outcome(c, Some(StateConflict))
      else if PendingExists(c) then Outcome(c, None)
      else if c.claim.None? || c.synthesis.None? || c.analysis.None? || c.graphs == [] then Outcome(c, Some(Refused))
      else Outcome(c.(requests := c.requests[c.claim.value := true]), None)
    case DecideReview(request, accepted, decision) =>
      if request !in c.requests || !c.requests[request] || !accepted then Outcome(c, Some(Refused))
      else
        var d := c.(requests := c.requests[request := false]);
        if decision == RejectClaim then Moved(d, Rejected)
        else if decision == RequestRevision then Moved(d, GraphProposed)
        else Promote(d, request)
    case Outside(to) =>
      if to == Stale || to == Cancelled || to == Superseded then Moved(c, to) else Outcome(c, Some(Refused))
  }

  /** The claim that `validate` builds: the effect is that of the first estimate listed. */
  function ClaimOf(c: Case): Claim
    requires c.graphs != [] && c.analysis.Some? && c.synthesis.Some?
  {
    var effect := if c.estimates == [] then None else Some(c.estimates[0].point);
    var result := c.synthesis.value.result;
    Claim(ClassifyClaimType(c.analysis.value, effect, c.t, result.status), effect, c.analysis.value, c.graphs[0],
          result.contradicting)
  }

  /** The approving end of `decideReview`. The move to REVIEWED stays even when a later check throws. */
  function Promote(c: Case, request: Claim): Outcome {
    var reviewed := Moved(c, Reviewed);
    var d := reviewed.c;
    if reviewed.error.Some? then reviewed
    else if d.claim.None? || d.synthesis.None? then Outcome(d, Some(Refused))
    else if d.claim.value != request then Outcome(d, Some(HashMismatch))
    else if GuardFires(d.synthesis.value.result.status, d.claim.value.claimType) then Outcome(d, Some(GuardFired))
    else
      var promoted := Moved(d, Promoted).c;
      Outcome(promoted.(promotions := d.promotions + [Promotion(d.claim.value, d.synthesis.value, promoted.trace)]), None)
  }

  /** The state after a sequence of calls. */
  function After(c: Case, calls: seq<Call>): Case
    decreases |calls|
  {
    if calls == [] then c else Step(After(c, calls[..|calls| - 1]), calls[|calls| - 1]).c
  }

  // ----- the invariant -----

  function Chain(): seq<QuestionState> {
    [GraphProposed, IdentificationAnalysis, Estimating, Synthesizing, Validating, AwaitingCausalReview, Reviewed, Promoted]
  }

  /** How far along the chain a state is; 0 outside it. */
  function Rank(s: QuestionState): (k: nat)
    ensures k <= 8 == |Chain()| && (k > 0 ==> Chain()[k - 1] == s)
  {
    match s
    case GraphProposed => 1
    case IdentificationAnalysis => 2
    case Estimating => 3
    case Synthesizing => 4
    case Validating => 5
    case AwaitingCausalReview => 6
    case Reviewed => 7
    case Promoted => 8
    case _ => 0
  }

  /** An edge of the table starts the chain, goes one further, or leaves it. */
  lemma ChainEdges(from: QuestionState, to: QuestionState)
    requires to in Successors(from)
    ensures Rank(to) <= 1 || Rank(to) == Rank(from) + 1
  {}

  predicate EndsWith(trace: seq<QuestionState>, tail: seq<QuestionState>) {
    |tail| <= |trace| && trace[|trace| - |tail|..] == tail
  }

  /** A question in the chain came to it through all of the chain before. */
  predicate TraceValid(c: Case) {
    EndsWith(c.trace, Chain()[..Rank(c.status)])
  }

  predicate EstimatesComparable(c: Case) {
    forall e :: e in c.estimates ==> e.unit == c.unit && e.estimatorVersion == c.estimatorVersion
  }

  /** The synthesis is that of the estimates stored now, which are some. */
  predicate SynthesisCurrent(c: Case) {
    && c.estimates != [] && c.synthesis.Some?
    && c.synthesis.value.over == c.estimates
    && SynthesisOf(c.estimates, c.t) == Some(c.synthesis.value.result)
  }

  predicate StageValid(c: Case) {
    && (c.status in {Estimating, Synthesizing, Validating, AwaitingCausalReview, Reviewed} ==> c.analysis == Some(Identified))
    && (c.status != Admitted ==> c.graphs != [] || c.status in {Stale, Cancelled})
    && (c.requests != map[] ==> c.graphs != [])
    && (c.status == Synthesizing ==> c.estimates != [])
    && (c.status in {Validating, AwaitingCausalReview, Reviewed} ==> SynthesisCurrent(c))
    && (c.status in {AwaitingCausalReview, Reviewed} ==> c.graphs != [] && c.claim == Some(ClaimOf(c)))
  }

  /** What stands behind a promoted claim. */
  predicate Founded(t: real, p: Promotion) {
    && p.basis.over != []
    && SynthesisOf(p.basis.over, t) == Some(p.basis.result)
    && (Directional(p.claim.claimType) ==> p.basis.result.status == Consistent)
    && p.claim.effect == Some(p.basis.over[0].point)
    && p.claim.claimType == ClassifyClaimType(Identified, p.claim.effect, t, p.basis.result.status)
    && EndsWith(p.trace, Chain())
  }

  predicate CaseValid(c: Case) {
    && TraceValid(c) && EstimatesComparable(c) && StageValid(c)
    && forall p :: p in c.promotions ==> Founded(c.t, p)
  }

  lemma MovedTrace(c: Case, to: QuestionState)
    requires TraceValid(c)
    ensures TraceValid(Moved(c, to).c)
  {
    hide Successors, EndsWith, Chain;
    if to in Successors(c.status) {
      ChainEdges(c.status, to);
      if Rank(to) == 0 {
        EndsWithNothing(c.trace + [to]);
      } else {
        var k := Rank(to) - 1;
        if k == 0 { EndsWithNothing(c.trace); }
        Extend(c.trace, Chain()[..k], to);
        PrefixGrows(Chain(), k);
      }
    }
  }

  lemma PrefixGrows(s: seq<QuestionState>, k: nat)
    requires k < |s|
    ensures s[..k + 1] == s[..k] + [s[k]]
  {}

  lemma EndsWithNothing(trace: seq<QuestionState>)
    ensures EndsWith(trace, Chain()[..0])
  {}

  lemma Extend(trace: seq<QuestionState>, tail: seq<QuestionState>, to: QuestionState)
    requires EndsWith(trace, tail)
    ensures EndsWith(trace + [to], tail + [to])
  {
    assert (trace + [to])[|trace| - |tail|..] == trace[|trace| - |tail|..] + [to];
  }

  lemma SynthesisOfSome(c: Case)
    requires EstimatesComparable(c) && c.estimates != []
    ensures SynthesisOf(c.estimates, c.t).Some? && SynthesisOf(c.estimates, c.t).value.status != Insufficient
  {
    assert forall i :: 0 <= i < |c.estimates| ==> c.estimates[i] in c.estimates;
  }

  lemma MovedValid(c: Case, to: QuestionState)
    requires TraceValid(c) && EstimatesComparable(c) && forall p :: p in c.promotions ==> Founded(c.t, p)
    requires to in Successors(c.status) ==> StageValid(c.(status := to))
    requires to !in Successors(c.status) ==> StageValid(c)
    ensures CaseValid(Moved(c, to).c)
  {
    hide TraceValid, Founded, SynthesisOf;
    MovedTrace(c, to);
  }

  lemma IdentifyValid(c: Case, resolved: bool)
    requires CaseValid(c)
    ensures CaseValid(Step(c, Identify(resolved)).c)
  {
    hide TraceValid, Founded;
    if (c.status == GraphProposed || c.status == IdentificationAnalysis) && c.graphs != [] {
      var analysis := if resolved then Identified else NotIdentified;
      var d := c.(analysis := Some(analysis));
      SameTrace(c, d);
      MovedTrace(d, IdentificationAnalysis);
      var at := if c.status == IdentificationAnalysis then d else Moved(d, IdentificationAnalysis).c;
      MovedValid(at, if analysis == Identified then Estimating else Inconclusive);
    }
  }

  /** What the trace and the estimates say does not depend on the other fields. */
  lemma SameTrace(c: Case, d: Case)
    requires c.status == d.status && c.trace == d.trace && c.unit == d.unit && c.estimatorVersion == d.estimatorVersion
    requires forall e :: e in d.estimates ==> e in c.estimates || (e.unit == c.unit && e.estimatorVersion == c.estimatorVersion)
    ensures TraceValid(c) ==> TraceValid(d)
    ensures EstimatesComparable(c) ==> EstimatesComparable(d)
  {}

  lemma PromoteValid(c: Case, request: Claim)
    requires CaseValid(c)
    ensures CaseValid(Promote(c, request).c) && Promote(c, request).error != Some(GuardFired)
  {
    hide TraceValid, EstimatesComparable, Founded, EndsWith, SynthesisOf;
    if c.status == AwaitingCausalReview {
      MovedValid(c, Reviewed);
      var d := Moved(c, Reviewed).c;
      MovedValid(d, Promoted);
      var e := Moved(d, Promoted).c;
      PromotionFounded(c, d, e);
      AddPromotion(e, Promotion(d.claim.value, d.synthesis.value, e.trace));
    }
  }

  lemma AddPromotion(c: Case, p: Promotion)
    requires CaseValid(c) && c.status == Promoted && Founded(c.t, p)
    ensures CaseValid(c.(promotions := c.promotions + [p]))
  {
    hide Founded, EndsWith, SynthesisOf;
    SameTrace(c, c.(promotions := c.promotions + [p]));
  }

  lemma SynthesisNotInsufficient(c: Case)
    requires EstimatesComparable(c) && SynthesisCurrent(c)
    ensures c.synthesis.value.result.status != Insufficient
  {
    SynthesisOfSome(c);
  }

  lemma PromotionFounded(c: Case, d: Case, e: Case)
    requires CaseValid(c) && c.status == AwaitingCausalReview
    requires d == Moved(c, Reviewed).c && e == Moved(d, Promoted).c && TraceValid(e)
    ensures Founded(c.t, Promotion(d.claim.value, d.synthesis.value, e.trace))
  {
    assert Chain()[..8] == Chain();
    SynthesisNotInsufficient(c);
    hide SynthesisOf;
  }

  lemma ProposeValid(c: Case, funded: bool, graph: Id, valid: bool)
    requires CaseValid(c)
    ensures CaseValid(Step(c, ProposeGraph(funded, graph, valid)).c)
  {
    hide TraceValid, Founded, EstimatesComparable, SynthesisOf;
    var d := c.(graphs := c.graphs + [graph]);
    SameTrace(c, d);
    if c.status == Admitted || c.status == Stale { MovedValid(d, GraphProposed); }
  }

  lemma EstimateValid(c: Case, e: Estimate)
    requires CaseValid(c) && c.status == Estimating && e.unit == c.unit && e.estimatorVersion == c.estimatorVersion
    ensures CaseValid(Moved(c.(estimates := SaveEstimate(c.estimates, e)), Synthesizing).c)
  {
    hide TraceValid, Founded, EstimatesComparable, SynthesisOf;
    var d := c.(estimates := SaveEstimate(c.estimates, e));
    SameTrace(c, d);
    MovedValid(d, Synthesizing);
  }

  lemma SynthesisValid(c: Case, funded: bool)
    requires CaseValid(c)
    ensures CaseValid(Step(c, RunSynthesis(funded)).c)
  {
    hide TraceValid, Founded, EstimatesComparable, SynthesisOf;
    if c.status == Synthesizing && SynthesisOf(c.estimates, c.t).Some? {
      var d := c.(synthesis := Some(Synthesized(SynthesisOf(c.estimates, c.t).value, c.estimates)));
      SameTrace(c, d);
      MovedValid(d, Validating);
    }
  }

  lemma ClaimValid(c: Case)
    requires CaseValid(c)
    ensures CaseValid(Step(c, ValidateClaim).c)
  {
    hide TraceValid, Founded, EstimatesComparable, SynthesisOf;
    if c.status == Validating && c.graphs != [] {
      var d := c.(claim := Some(ClaimOf(c)));
      SameTrace(c, d);
      MovedValid(d, AwaitingCausalReview);
    }
  }

  lemma RouteValid(c: Case)
    requires CaseValid(c)
    ensures CaseValid(Step(c, RouteReview).c)
  {
    hide TraceValid, Founded, EstimatesComparable, SynthesisOf;
    if c.claim.Some? { SameTrace(c, c.(requests := c.requests[c.claim.value := true])); }
  }

  lemma DecideValid(c: Case, request: Claim, accepted: bool, decision: ReviewDecision)
    requires CaseValid(c)
    ensures var o := Step(c, DecideReview(request, accepted, decision)); CaseValid(o.c) && o.error != Some(GuardFired)
  {
    hide TraceValid, Founded, EstimatesComparable, SynthesisOf;
    var d := c.(requests := c.requests[request := false]);
    SameTrace(c, d);
    if request in c.requests {
      MovedValid(d, Rejected);
      MovedValid(d, GraphProposed);
      PromoteValid(d, request);
    }
  }

  lemma StepValid(c: Case, call: Call)
    requires CaseValid(c)
    ensures CaseValid(Step(c, call).c) && Step(c, call).c.t == c.t && Step(c, call).error != Some(GuardFired)
  {
    hide CaseValid, SynthesisOf, ClaimOf;
    match call
    case ProposeGraph(funded, graph, valid) => ProposeValid(c, funded, graph, valid);
    case Identify(resolved) => IdentifyValid(c, resolved);
    case TakeEstimate(funded, resolved, id, point, treated, control) =>
      if c.status == Estimating { EstimateValid(c, Estimate(id, c.unit, c.estimatorVersion, point, treated, control)); }
    case RunSynthesis(funded) => SynthesisValid(c, funded);
    case ValidateClaim => ClaimValid(c);
    case RouteReview => RouteValid(c);
    case DecideReview(request, accepted, decision) => DecideValid(c, request, accepted, decision);
    case Outside(to) => OutsideValid(c, to);
  }

  lemma OutsideValid(c: Case, to: QuestionState)
    requires CaseValid(c)
    ensures CaseValid(Step(c, Outside(to)).c)
  {
    hide TraceValid, Founded, EstimatesComparable, SynthesisOf;
    if to == Stale || to == Cancelled || to == Superseded { MovedValid(c, to); }
  }

  lemma {:induction false} RunValid(t: real, unit: Id, version: Id, calls: seq<Call>)
    ensures CaseValid(After(NewCase(t, unit, version), calls)) && After(NewCase(t, unit, version), calls).t == t
  {
    if calls == [] {
    } else {
      RunValid(t, unit, version, calls[..|calls| - 1]);
      StepValid(After(NewCase(t, unit, version), calls[..|calls| - 1]), calls[|calls| - 1]);
    }
  }

  /** In no run does the promotion guard throw. */
  lemma GuardNeverFires(t: real, unit: Id, version: Id, calls: seq<Call>, call: Call)
    ensures Step(After(NewCase(t, unit, version), calls), call).error != Some(GuardFired)
  {
    RunValid(t, unit, version, calls);
    StepValid(After(NewCase(t, unit, version), calls), call);
  }

  /**
   * Whatever the run, a promoted directional claim rests on a CONSISTENT synthesis of estimates
   * that exist, its effect is one of them, and the question went through the whole chain.
   */
  lemma PromotedRestsOnSynthesis(t: real, unit: Id, version: Id, calls: seq<Call>, p: Promotion)
    requires p in After(NewCase(t, unit, version), calls).promotions
    ensures p.basis.over != [] && SynthesisOf(p.basis.over, t) == Some(p.basis.result)
    ensures Directional(p.claim.claimType) ==> p.basis.result.status == Consistent
    ensures p.claim.effect == Some(p.basis.over[0].point)
    ensures EndsWith(p.trace, Chain())
  {
    RunValid(t, unit, version, calls);
  }

  /** With a positive threshold, a promoted effect has no material estimate against it. */
  lemma PromotedEffectUnopposed(t: real, unit: Id, version: Id, calls: seq<Call>, p: Promotion, e: Estimate)
    requires t > 0.0 && p in After(NewCase(t, unit, version), calls).promotions && e in p.basis.over
    ensures p.claim.claimType == PositiveEffect ==> e.point > -t
    ensures p.claim.claimType == NegativeEffect ==> e.point < t
  {
    RunValid(t, unit, version, calls);
    assert Founded(t, p);
    hide TraceValid, CaseValid, EndsWith, SynthesisOf;
    if p.claim.claimType == PositiveEffect || p.claim.claimType == NegativeEffect {
      ConsistentUnopposed(p.basis.over, t, p.basis.over[0], e);
    }
  }

  /** In a CONSISTENT synthesis no estimate opposes a material one. */
  lemma ConsistentUnopposed(es: seq<Estimate>, t: real, a: Estimate, b: Estimate)
    requires t > 0.0 && a in es && b in es
    requires SynthesisOf(es, t).Some? && SynthesisOf(es, t).value.status == Consistent
    ensures a.point >= t ==> b.point > -t
    ensures a.point <= -t ==> b.point < t
  {
    ConsistentExactly(es, t);
    hide SynthesisOf, StatusOf, Findings, Max, Min;
  }
}
