/**
 * Assurance: how evidence decides a control, and how the controls decide an assessment.
 */
module Assurance {
  import opened Wrappers

  type Id = nat

  datatype Quality = Direct | Reproduced | Partial | Unknown
  datatype Code = CodePass | CodeFail | CodeInconclusive
  datatype Policy = AllDirectOrReproducedPass | AnyFailBlocks | ContradictionIsFail | ContradictionIsInconclusive
  datatype Criticality = Critical | Required | Optional

  datatype Evidence = Evidence(evidenceId: Id, contentHash: Id, controlIds: set<Id>, kind: Id, quality: Quality, code: Code)
  datatype Control = Control(controlId: Id, criticality: Criticality, requiredKinds: seq<Id>, policy: Policy)

  datatype EvaluationResult = Pass | Fail | Inconclusive | NotEvaluated
  datatype ReasonCode =
    | MissingRequiredEvidence | ContradictoryEvidence | EvidenceFail | EvidenceQualityInsufficient
    | EvidenceInconclusive | MissingRequiredEvidenceKind | AllAdmissiblePass | NoAdmissiblePass | RuleDecided
  datatype Evaluation = Evaluation(controlId: Id, result: EvaluationResult, reason: ReasonCode)

  predicate Admissible(e: Evidence) {
    e.quality == Direct || e.quality == Reproduced
  }

  predicate Relevant(c: Control, e: Evidence) {
    c.controlId in e.controlIds
  }

  /** `e` counts for the control, with result `code`. */
  predicate Counts(c: Control, es: seq<Evidence>, code: Code) {
    exists e :: e in es && Relevant(c, e) && Admissible(e) && e.code == code
  }

  predicate HasKind(c: Control, es: seq<Evidence>, kind: Id) {
    exists e :: e in es && Relevant(c, e) && Admissible(e) && e.kind == kind
  }

  /** The result of a control as a decision table over what counts for it. */
  function ResultOf(c: Control, es: seq<Evidence>): EvaluationResult {
    if Counts(c, es, CodeFail) then
      if Counts(c, es, CodePass) && c.policy == ContradictionIsInconclusive then Inconclusive else Fail
    else if Counts(c, es, CodePass) && forall k :: k in c.requiredKinds ==> HasKind(c, es, k) then Pass
    else Inconclusive
  }

  /** `evaluateControl`, with its filters and its locals. */
  method EvaluateControl(c: Control, es: seq<Evidence>) returns (evaluation: Evaluation)
    ensures evaluation.controlId == c.controlId && evaluation.result == ResultOf(c, es)
    ensures evaluation.reason == MissingRequiredEvidence <==> forall e :: e in es ==> !Relevant(c, e)
    ensures evaluation.reason == AllAdmissiblePass <==> evaluation.result == Pass
    ensures evaluation.reason == EvidenceFail <==> Counts(c, es, CodeFail) && !Counts(c, es, CodePass)
    ensures evaluation.reason == ContradictoryEvidence <==> Counts(c, es, CodeFail) && Counts(c, es, CodePass)
  {
    var relevant := Filter(es, (e: Evidence) => Relevant(c, e));
    var result, reason := NotEvaluated, NoAdmissiblePass;
    if |relevant| == 0 {
      result, reason := Inconclusive, MissingRequiredEvidence;
    } else {
      assert relevant[0] in relevant;
      var admissible := Filter(relevant, Admissible);
      var fails := Filter(admissible, (e: Evidence) => e.code == CodeFail);
      var passes := Filter(admissible, (e: Evidence) => e.code == CodePass);
      var inconclusive := Filter(admissible, (e: Evidence) => e.code == CodeInconclusive);
      FilteredCounts(c, es, relevant, admissible, fails, CodeFail);
      FilteredCounts(c, es, relevant, admissible, passes, CodePass);
      FilteredCounts(c, es, relevant, admissible, inconclusive, CodeInconclusive);
      if |fails| > 0 && |passes| > 0 {
        result := if c.policy == ContradictionIsInconclusive then Inconclusive else Fail;
        reason := ContradictoryEvidence;
      } else if |fails| > 0 {
        result, reason := Fail, EvidenceFail;
      } else if |admissible| == 0 {
        result, reason := Inconclusive, EvidenceQualityInsufficient;
      } else if |inconclusive| > 0 && |passes| == 0 {
        result, reason := Inconclusive, EvidenceInconclusive;
      } else if |passes| > 0 {
        var missingKind := exists k :: k in c.requiredKinds && forall e :: e in admissible ==> e.kind != k;
        if missingKind {
          result, reason := Inconclusive, MissingRequiredEvidenceKind;
        } else {
          result, reason := Pass, AllAdmissiblePass;
        }
      } else {
        result, reason := Inconclusive, NoAdmissiblePass;
      }
    }
    return Evaluation(c.controlId, result, reason);
  }

  lemma FilteredCounts(c: Control, es: seq<Evidence>, relevant: seq<Evidence>, admissible: seq<Evidence>, some: seq<Evidence>, code: Code)
    requires forall e :: e in relevant <==> e in es && Relevant(c, e)
    requires forall e :: e in admissible <==> e in relevant && Admissible(e)
    requires forall e :: e in some <==> e in admissible && e.code == code
    ensures |some| > 0 <==> Counts(c, es, code)
    ensures |admissible| == 0 ==> !Counts(c, es, code)
  {
    if |some| > 0 { assert some[0] in some; }
    if Counts(c, es, code) {
      var e :| e in es && Relevant(c, e) && Admissible(e) && e.code == code;
      assert e in some && e in admissible;
    }
  }

  /** The result depends only on which admissible evidence is relevant: not on order, repetition or anything else. */
  lemma ResultByAdmissibleRelevant(c: Control, es: seq<Evidence>, fs: seq<Evidence>)
    requires forall e :: Relevant(c, e) && Admissible(e) ==> (e in es <==> e in fs)
    ensures ResultOf(c, es) == ResultOf(c, fs)
  {
    forall code ensures Counts(c, es, code) <==> Counts(c, fs, code) {}
    forall k ensures HasKind(c, es, k) <==> HasKind(c, fs, k) {}
  }

  // ----- the assessment -----

  datatype AssessmentOutcome = Qualified | NotQualified | OutcomeInconclusive
  datatype FindingCode = ControlNotEvaluated | ControlFailed | ControlInconclusive
  datatype Severity = SeverityCritical | SeverityHigh
  datatype Finding = Finding(controlId: Id, code: FindingCode, severity: Severity)

  /** What the map of evaluations says of a control; a missing entry counts as not evaluated. */
  function Said(evaluations: map<Id, Evaluation>, c: Control): EvaluationResult {
    if c.controlId in evaluations then evaluations[c.controlId].result else NotEvaluated
  }

  function FindingOf(evaluations: map<Id, Evaluation>, c: Control): Finding {
    match Said(evaluations, c)
    case Fail => Finding(c.controlId, ControlFailed, SeverityCritical)
    case Inconclusive => Finding(c.controlId, ControlInconclusive, SeverityHigh)
    case _ => Finding(c.controlId, ControlNotEvaluated, if c.criticality == Critical then SeverityCritical else SeverityHigh)
  }

  /** A required control that does not pass. */
  predicate Lacking(evaluations: map<Id, Evaluation>, c: Control) {
    c.criticality != Optional && Said(evaluations, c) != Pass
  }

  predicate AnyFails(controls: seq<Control>, evaluations: map<Id, Evaluation>) {
    exists c :: c in controls && c.criticality != Optional && Said(evaluations, c) == Fail
  }

  predicate AnyLacks(controls: seq<Control>, evaluations: map<Id, Evaluation>) {
    exists c :: c in controls && Lacking(evaluations, c)
  }

  function FindingsOf(controls: seq<Control>, evaluations: map<Id, Evaluation>): seq<Finding> {
    if controls == [] then []
    else
      var last := controls[|controls| - 1];
      FindingsOf(controls[..|controls| - 1], evaluations)
      + if Lacking(evaluations, last) then [FindingOf(evaluations, last)] else []
  }

  method FinalizeAssessment(controls: seq<Control>, evaluations: map<Id, Evaluation>)
    returns (outcome: AssessmentOutcome, findings: seq<Finding>)
    ensures outcome == OutcomeOf(controls, evaluations)
    ensures findings == FindingsOf(controls, evaluations)
  {
    findings := [];
    var hasFail, hasInconclusive := false, false;
    for i := 0 to |controls|
      invariant hasFail <==> AnyFails(controls[..i], evaluations)
      invariant hasFail || hasInconclusive <==> AnyLacks(controls[..i], evaluations)
      invariant findings == FindingsOf(controls[..i], evaluations)
    {
      hide FindingsOf, AnyFails, AnyLacks;
      var control := controls[i];
      assert controls[..i + 1] == controls[..i] + [control];
      FindingsSnoc(controls[..i], control, evaluations);
      if control.criticality != Optional {
        if control.controlId !in evaluations || evaluations[control.controlId].result == NotEvaluated {
          hasInconclusive := true;
          findings := findings + [Finding(control.controlId, ControlNotEvaluated,
                                          if control.criticality == Critical then SeverityCritical else SeverityHigh)];
        } else if evaluations[control.controlId].result == Fail {
          hasFail := true;
          findings := findings + [Finding(control.controlId, ControlFailed, SeverityCritical)];
        } else if evaluations[control.controlId].result == Inconclusive {
          hasInconclusive := true;
          findings := findings + [Finding(control.controlId, ControlInconclusive, SeverityHigh)];
        }
      }
    }
    assert controls[..|controls|] == controls;
    outcome := if hasFail then NotQualified else if hasInconclusive then OutcomeInconclusive else Qualified;
  }

  lemma FindingsSnoc(controls: seq<Control>, c: Control, evaluations: map<Id, Evaluation>)
    ensures FindingsOf(controls + [c], evaluations) ==
            FindingsOf(controls, evaluations) + if Lacking(evaluations, c) then [FindingOf(evaluations, c)] else []
    ensures AnyFails(controls + [c], evaluations) <==>
              AnyFails(controls, evaluations) || (c.criticality != Optional && Said(evaluations, c) == Fail)
    ensures AnyLacks(controls + [c], evaluations) <==> AnyLacks(controls, evaluations) || Lacking(evaluations, c)
  {
    assert (controls + [c])[..|controls|] == controls;
    assert forall x :: x in controls + [c] <==> x in controls || x == c;
  }

  /** The outcome as a function of controls and evaluations, for the specifications. */
  function OutcomeOf(controls: seq<Control>, evaluations: map<Id, Evaluation>): AssessmentOutcome {
    if AnyFails(controls, evaluations) then NotQualified
    else if AnyLacks(controls, evaluations) then OutcomeInconclusive
    else Qualified
  }

  predicate DistinctControls(controls: seq<Control>) {
    forall i, j :: 0 <= i < j < |controls| ==> controls[i].controlId != controls[j].controlId
  }

  /** A finding is made for exactly the required controls that do not pass, and says why. */
  lemma {:induction false} FindingsExactly(controls: seq<Control>, evaluations: map<Id, Evaluation>, f: Finding)
    ensures f in FindingsOf(controls, evaluations) <==>
              exists c :: c in controls && c.criticality != Optional && Said(evaluations, c) != Pass && f == FindingOf(evaluations, c)
  {
    if controls != [] {
      FindingsExactly(controls[..|controls| - 1], evaluations, f);
      assert forall c :: c in controls <==> c in controls[..|controls| - 1] || c == controls[|controls| - 1];
    }
  }

  /** No control has two findings. */
  lemma {:induction false} FindingsOnce(controls: seq<Control>, evaluations: map<Id, Evaluation>, i: nat, j: nat)
    requires DistinctControls(controls) && i < j < |FindingsOf(controls, evaluations)|
    ensures FindingsOf(controls, evaluations)[i].controlId != FindingsOf(controls, evaluations)[j].controlId
  {
    var front := controls[..|controls| - 1];
    var all := FindingsOf(front, evaluations);
    if j < |all| {
      FindingsOnce(front, evaluations, i, j);
    } else {
      assert all[i] in all;
      FindingsExactly(front, evaluations, all[i]);
    }
  }

  /** The evaluations of a set of evidence, rule-decided controls apart. */
  predicate EvaluatedOn(controls: seq<Control>, ruled: set<Id>, es: seq<Evidence>, evaluations: map<Id, Evaluation>) {
    forall c :: c in controls && c.controlId !in ruled ==>
      c.controlId in evaluations && evaluations[c.controlId].result == ResultOf(c, es)
  }

  /** Once an admissible FAIL counts for a required control, no larger evidence leads to QUALIFIED. */
  lemma FailIsFinal(controls: seq<Control>, ruled: set<Id>, c: Control, es: seq<Evidence>, more: seq<Evidence>,
                    evaluations: map<Id, Evaluation>)
    requires c in controls && c.criticality != Optional && c.controlId !in ruled && Counts(c, es, CodeFail)
    requires (forall e :: e in es ==> e in more) && EvaluatedOn(controls, ruled, more, evaluations)
    ensures OutcomeOf(controls, evaluations) != Qualified
  {
    assert Counts(c, more, CodeFail);
  }

  /** QUALIFIED means that every required control passes on the evidence it was evaluated on. */
  lemma QualifiedMeansPass(controls: seq<Control>, ruled: set<Id>, c: Control, es: seq<Evidence>, evaluations: map<Id, Evaluation>)
    requires OutcomeOf(controls, evaluations) == Qualified && EvaluatedOn(controls, ruled, es, evaluations)
    requires c in controls && c.criticality != Optional && c.controlId !in ruled
    ensures ResultOf(c, es) == Pass
  {
    assert !Lacking(evaluations, c);
  }
}
