/**
 * One assurance run under concurrent calls: recording evidence, evaluating, certifying.
 *
 * A call is a thread that stands between two awaits. The profile is fixed; the controls in `ruled`
 * are decided by architecture rules, whose verdicts come from outside. A fingerprint of evidence
 * is the map from identifier to content hash, which is what is hashed.
 */
module AssuranceRuns {
  import opened Wrappers
  import opened Assurance

  datatype Profile = Profile(controls: seq<Control>, ruled: set<Id>)

  datatype RunStatus = Created | Planned | Evaluating | Evaluated | FailedRun | InconclusiveRun
  datatype RunRecord = RunRecord(status: RunStatus, recordRevision: nat)

  /** `basis`, the evidence that was fingerprinted, is history. */
  datatype Assessment = Assessment(outcome: AssessmentOutcome, fingerprint: map<Id, Id>, basis: seq<Evidence>)

  /** `issued` is history: for each certificate, the evidence stored when its fingerprint was compared. */
  datatype Stores = Stores(
    run: RunRecord, evidence: seq<Evidence>, evaluations: map<Id, Evaluation>,
    assessment: Option<Assessment>, issued: seq<seq<Evidence>>)

  datatype Thread =
    | Done
    | PlanLoad
    | PlanCommit(seen: RunRecord)
    | Record(e: Evidence)
    | EvalLoad
    | EvalBegin(seen: RunRecord)
    | EvalList(seen: RunRecord)
    | EvalSave(seen: RunRecord, es: seq<Evidence>, i: nat)
    | EvalRead(seen: RunRecord, es: seq<Evidence>)
    | EvalStore(seen: RunRecord, assessment: Assessment)
    | EvalFinish(seen: RunRecord, outcome: AssessmentOutcome)
    | CertLoad
    | CertCheck(assessment: Assessment)

  /** `ok` false is a throw; `rule` is the verdict of an architecture rule. */
  datatype Choice = Choice(ok: bool, rule: bool)

  datatype Outcome = Outcome(st: Stores, th: Thread)

  function Fingerprint(es: seq<Evidence>): map<Id, Id> {
    if es == [] then map[] else Fingerprint(es[..|es| - 1])[es[|es| - 1].evidenceId := es[|es| - 1].contentHash]
  }

  /** Stored evidence is immutable: a second save under an identifier changes nothing or throws. */
  function Recorded(es: seq<Evidence>, e: Evidence): seq<Evidence> {
    if exists x :: x in es && x.evidenceId == e.evidenceId then es else es + [e]
  }

  function Moved(st: Stores, seen: RunRecord, to: RunStatus): Option<Stores> {
    if st.run == seen then Some(st.(run := RunRecord(to, seen.recordRevision + 1))) else None
  }

  function EvaluationFor(p: Profile, c: Control, es: seq<Evidence>, rule: bool): Evaluation {
    if c.controlId in p.ruled then Evaluation(c.controlId, if rule then Pass else Fail, RuleDecided)
    else Evaluation(c.controlId, ResultOf(c, es), NoAdmissiblePass)
  }

  function Next(p: Profile, st: Stores, th: Thread, ch: Choice): Outcome {
    if !ch.ok then Outcome(st, Done)
    else
      match th
      case Done => Outcome(st, Done)
      case PlanLoad => Outcome(st, if st.run.status == Created || st.run.status == Planned then PlanCommit(st.run) else Done)
      case PlanCommit(seen) => Outcome(Moved(st, seen, Planned).GetOr(st), Done)
      case Record(e) => Outcome(st.(evidence := Recorded(st.evidence, e)), Done)
      case EvalLoad =>
        Outcome(st, if st.run.status == Planned then EvalBegin(st.run)
                    else if st.run.status == Evaluating then EvalList(st.run) else Done)
      case EvalBegin(seen) =>
        var moved := Moved(st, seen, Evaluating);
        if moved.None? then Outcome(st, Done) else Outcome(moved.value, EvalList(moved.value.run))
      case EvalList(seen) => Outcome(st, EvalSave(seen, st.evidence, 0))
      case EvalSave(seen, es, i) =>
        if i >= |p.controls| then Outcome(st, EvalRead(seen, es))
        else
          var c := p.controls[i];
          Outcome(st.(evaluations := st.evaluations[c.controlId := EvaluationFor(p, c, es, ch.rule)]), EvalSave(seen, es, i + 1))
      case EvalRead(seen, es) =>
        Outcome(st, EvalStore(seen, Assessment(OutcomeOf(p.controls, st.evaluations), Fingerprint(es), es)))
      case EvalStore(seen, a) => Outcome(st.(assessment := Some(a)), EvalFinish(seen, a.outcome))
      case EvalFinish(seen, outcome) =>
        var to := match outcome case Qualified => Evaluated case NotQualified => FailedRun case OutcomeInconclusive => InconclusiveRun;
        Outcome(Moved(st, seen, to).GetOr(st), Done)
      case CertLoad =>
        Outcome(st, if st.assessment.Some? && st.assessment.value.outcome == Qualified then CertCheck(st.assessment.value) else Done)
      case CertCheck(a) =>
        if Fingerprint(st.evidence) != a.fingerprint then Outcome(st, Done)
        else Outcome(st.(issued := st.issued + [st.evidence]), Done)
  }

  predicate Starts(th: Thread) {
    th.PlanLoad? || th.Record? || th.EvalLoad? || th.CertLoad?
  }

  datatype System = System(st: Stores, threads: map<nat, Thread>)
  datatype Label = Start(t: nat, th: Thread) | Move(t: nat, ch: Choice)

  /** A label that cannot happen changes nothing. */
  function Apply(p: Profile, s: System, l: Label): System {
    match l
    case Start(t, th) => if t !in s.threads && Starts(th) then s.(threads := s.threads[t := th]) else s
    case Move(t, ch) =>
      if t !in s.threads then s
      else var o := Next(p, s.st, s.threads[t], ch); System(o.st, s.threads[t := o.th])
  }

  function Run(p: Profile, s: System, labels: seq<Label>): System
    decreases |labels|
  {
    if labels == [] then s else Run(p, Apply(p, s, labels[0]), labels[1..])
  }

  function NewRun(): System {
    System(Stores(RunRecord(Created, 1), [], map[], None, []), map[])
  }

  /** Between listing its evidence and reading back the evaluations. */
  predicate Collecting(th: Thread) {
    th.EvalSave? || th.EvalRead?
  }

  ghost predicate OneCollects(s: System) {
    forall t, u :: t in s.threads && u in s.threads && Collecting(s.threads[t]) && Collecting(s.threads[u]) ==> t == u
  }

  /** In no state do two evaluations of the run collect at once. */
  ghost predicate Disciplined(p: Profile, s: System, labels: seq<Label>)
    decreases |labels|
  {
    OneCollects(s) && (labels != [] ==> Disciplined(p, Apply(p, s, labels[0]), labels[1..]))
  }

  // ----- what every step keeps -----

  predicate DistinctIds(es: seq<Evidence>) {
    forall i, j :: 0 <= i < j < |es| ==> es[i].evidenceId != es[j].evidenceId
  }

  /** One catalog: an identifier names one control. */
  predicate OneCatalog(p: Profile) {
    forall c, d :: c in p.controls && d in p.controls && c.controlId == d.controlId ==> c == d
  }

  predicate AllPass(p: Profile, es: seq<Evidence>) {
    forall c :: c in p.controls && c.criticality != Optional && c.controlId !in p.ruled ==> ResultOf(c, es) == Pass
  }

  predicate Sound(p: Profile, st: Stores, a: Assessment) {
    a.basis <= st.evidence && a.fingerprint == Fingerprint(a.basis) && (a.outcome == Qualified ==> AllPass(p, a.basis))
  }

  /** The first `i` controls have their evaluation on `es`. */
  predicate SavedUpTo(p: Profile, st: Stores, es: seq<Evidence>, i: nat) {
    i <= |p.controls| && EvaluatedOn(p.controls[..i], p.ruled, es, st.evaluations)
  }

  predicate Holds(p: Profile, st: Stores, th: Thread) {
    match th
    case EvalSave(_, es, i) => es <= st.evidence && SavedUpTo(p, st, es, i)
    case EvalRead(_, es) => es <= st.evidence && SavedUpTo(p, st, es, |p.controls|)
    case EvalStore(_, a) => Sound(p, st, a)
    case CertCheck(a) => Sound(p, st, a) && a.outcome == Qualified
    case _ => true
  }

  ghost predicate Valid(p: Profile, s: System) {
    && DistinctIds(s.st.evidence)
    && (forall t :: t in s.threads ==> Holds(p, s.st, s.threads[t]))
    && (s.st.assessment.Some? ==> Sound(p, s.st, s.st.assessment.value))
    && (forall es :: es in s.st.issued ==> AllPass(p, es))
  }

  lemma {:induction false} FingerprintKeys(es: seq<Evidence>, id: Id)
    ensures id in Fingerprint(es) <==> exists e :: e in es && e.evidenceId == id
  {
    if es != [] { FingerprintKeys(es[..|es| - 1], id); }
  }

  /** Evidence that is only ever added to keeps its fingerprint exactly while nothing is added. */
  lemma SameFingerprint(basis: seq<Evidence>, es: seq<Evidence>)
    requires basis <= es && DistinctIds(es)
    ensures Fingerprint(basis) == Fingerprint(es) <==> basis == es
  {
    if |basis| < |es| {
      var id := es[|basis|].evidenceId;
      FingerprintKeys(es, id);
      FingerprintKeys(basis, id);
    }
  }

  lemma RecordKeeps(es: seq<Evidence>, e: Evidence)
    requires DistinctIds(es)
    ensures DistinctIds(Recorded(es, e)) && es <= Recorded(es, e)
  {}

  lemma SaveNext(p: Profile, st: Stores, es: seq<Evidence>, i: nat, rule: bool)
    requires OneCatalog(p) && i < |p.controls| && SavedUpTo(p, st, es, i)
    ensures var c := p.controls[i];
            SavedUpTo(p, st.(evaluations := st.evaluations[c.controlId := EvaluationFor(p, c, es, rule)]), es, i + 1)
  {
    assert p.controls[..i + 1] == p.controls[..i] + [p.controls[i]];
  }

  lemma QualifiedAllPass(p: Profile, st: Stores, es: seq<Evidence>)
    requires SavedUpTo(p, st, es, |p.controls|) && OutcomeOf(p.controls, st.evaluations) == Qualified
    ensures AllPass(p, es)
  {
    assert p.controls[..|p.controls|] == p.controls;
    forall c | c in p.controls && c.criticality != Optional && c.controlId !in p.ruled ensures ResultOf(c, es) == Pass {
      QualifiedMeansPass(p.controls, p.ruled, c, es, st.evaluations);
    }
  }

  lemma MoverHolds(p: Profile, st: Stores, th: Thread, ch: Choice)
    requires OneCatalog(p) && DistinctIds(st.evidence) && Holds(p, st, th)
    requires st.assessment.Some? ==> Sound(p, st, st.assessment.value)
    ensures var o := Next(p, st, th, ch); Holds(p, o.st, o.th) && DistinctIds(o.st.evidence) && st.evidence <= o.st.evidence
    ensures Next(p, st, th, ch).st.evaluations == st.evaluations || th.EvalSave?
  {
    hide AllPass, EvaluatedOn, OutcomeOf, Fingerprint, EvaluationFor;
    match th
    case Record(e) => RecordKeeps(st.evidence, e);
    case EvalList(_) => assert EvaluatedOn([], p.ruled, st.evidence, st.evaluations) by { NothingSaved(p, st); }
    case EvalSave(_, es, i) => if i < |p.controls| { SaveNext(p, st, es, i, ch.rule); }
    case EvalRead(_, es) => if OutcomeOf(p.controls, st.evaluations) == Qualified { QualifiedAllPass(p, st, es); }
    case _ =>
  }

  lemma NothingSaved(p: Profile, st: Stores)
    ensures EvaluatedOn(p.controls[..0], p.ruled, st.evidence, st.evaluations)
  {}

  lemma StoresKeep(p: Profile, st: Stores, th: Thread, ch: Choice)
    requires OneCatalog(p) && DistinctIds(st.evidence) && Holds(p, st, th)
    requires st.assessment.Some? ==> Sound(p, st, st.assessment.value)
    requires forall es :: es in st.issued ==> AllPass(p, es)
    ensures var b := Next(p, st, th, ch).st;
            && (b.assessment.Some? ==> Sound(p, b, b.assessment.value))
            && forall es :: es in b.issued ==> AllPass(p, es)
  {
    MoverHolds(p, st, th, ch);
    if th.CertCheck? { SameFingerprint(th.assessment.basis, st.evidence); }
    hide AllPass, EvaluatedOn, OutcomeOf, Fingerprint, EvaluationFor;
  }

  lemma OthersHold(p: Profile, st: Stores, b: Stores, th: Thread)
    requires Holds(p, st, th) && st.evidence <= b.evidence && (b.evaluations == st.evaluations || !Collecting(th))
    ensures Holds(p, b, th)
  {}

  lemma StepValid(p: Profile, s: System, l: Label)
    requires OneCatalog(p) && Valid(p, s) && OneCollects(s)
    ensures Valid(p, Apply(p, s, l))
  {
    if l.Move? && l.t in s.threads {
      var th := s.threads[l.t];
      MoverHolds(p, s.st, th, l.ch);
      StoresKeep(p, s.st, th, l.ch);
      var b := Next(p, s.st, th, l.ch).st;
      forall u | u in s.threads && u != l.t ensures Holds(p, b, s.threads[u]) { OthersHold(p, s.st, b, s.threads[u]); }
    }
    hide Next, Holds, AllPass, Sound;
  }

  lemma {:induction false} RunValid(p: Profile, s: System, labels: seq<Label>)
    requires OneCatalog(p) && Valid(p, s) && Disciplined(p, s, labels)
    ensures Valid(p, Run(p, s, labels))
    decreases |labels|
  {
    if labels != [] {
      StepValid(p, s, labels[0]);
      RunValid(p, Apply(p, s, labels[0]), labels[1..]);
    }
  }

  /**
   * Provided no two evaluations of the run collect at once: for every certificate, evaluating again
   * on the evidence stored when the certificate was decided gives PASS for every required control
   * that no architecture rule decides.
   */
  lemma CertifiedEvidencePasses(p: Profile, labels: seq<Label>, es: seq<Evidence>, c: Control)
    requires OneCatalog(p) && Disciplined(p, NewRun(), labels) && es in Run(p, NewRun(), labels).st.issued
    requires c in p.controls && c.criticality != Optional && c.controlId !in p.ruled
    ensures ResultOf(c, es) == Pass
  {
    RunValid(p, NewRun(), labels);
  }

  // ----- evaluations that enter from PLANNED -----

  /** An evaluation is let in although the run is EVALUATING already. */
  predicate LetsInAnother(s: System, l: Label) {
    l.Move? && l.ch.ok && l.t in s.threads && s.threads[l.t].EvalLoad? && s.st.run.status == Evaluating
  }

  /** No caller starts to evaluate a run that it finds EVALUATING. */
  predicate EntersFromPlanned(p: Profile, s: System, labels: seq<Label>)
    decreases |labels|
  {
    labels != [] ==> !LetsInAnother(s, labels[0]) && EntersFromPlanned(p, Apply(p, s, labels[0]), labels[1..])
  }

  /** Past the move to EVALUATING. */
  predicate Evaluates(th: Thread) {
    th.EvalList? || Collecting(th) || th.EvalStore? || th.EvalFinish?
  }

  /** One evaluation at most, and none before the run is EVALUATING; what a call has read it read before that. */
  ghost predicate OneEvaluates(s: System) {
    && (forall t, u :: t in s.threads && u in s.threads && Evaluates(s.threads[t]) && Evaluates(s.threads[u]) ==> t == u)
    && (s.st.run.status == Created || s.st.run.status == Planned ==> forall t :: t in s.threads ==> !Evaluates(s.threads[t]))
    && (forall t :: t in s.threads && s.threads[t].EvalBegin? ==> s.threads[t].seen.status == Planned)
    && (forall t :: t in s.threads && s.threads[t].PlanCommit? ==> s.threads[t].seen.status == Created || s.threads[t].seen.status == Planned)
  }

  lemma OneEvaluatesNext(p: Profile, s: System, l: Label)
    requires OneEvaluates(s) && !LetsInAnother(s, l)
    ensures OneEvaluates(Apply(p, s, l))
  {
    hide Fingerprint, Recorded, EvaluationFor, OutcomeOf;
  }

  /** The compare-and-set that makes the run EVALUATING lets one evaluation through, so no two collect at once. */
  lemma {:induction false} PlannedIsDisciplined(p: Profile, s: System, labels: seq<Label>)
    requires OneEvaluates(s) && EntersFromPlanned(p, s, labels)
    ensures Disciplined(p, s, labels)
    decreases |labels|
  {
    if labels != [] {
      OneEvaluatesNext(p, s, labels[0]);
      PlannedIsDisciplined(p, Apply(p, s, labels[0]), labels[1..]);
    }
  }

  /** Callers that evaluate PLANNED runs only never see a certificate on failing evidence. */
  lemma PlannedEvidencePasses(p: Profile, labels: seq<Label>, es: seq<Evidence>, c: Control)
    requires OneCatalog(p) && EntersFromPlanned(p, NewRun(), labels) && es in Run(p, NewRun(), labels).st.issued
    requires c in p.controls && c.criticality != Optional && c.controlId !in p.ruled
    ensures ResultOf(c, es) == Pass
  {
    PlannedIsDisciplined(p, NewRun(), labels);
    CertifiedEvidencePasses(p, labels, es, c);
  }

  // ----- overlapping evaluations -----

  function Go(): Choice {
    Choice(true, true)
  }

  function PassingEvidence(): Evidence {
    Evidence(0, 0, {0}, 0, Direct, CodePass)
  }

  function FailingEvidence(): Evidence {
    Evidence(1, 1, {0}, 0, Direct, CodeFail)
  }

  function OneControl(): Profile {
    Profile([Control(0, Required, [0], AnyFailBlocks)], {})
  }

  /** Plan the run and record passing evidence. */
  function Prepare(): seq<Label> {
    [Start(8, PlanLoad), Move(8, Go()), Move(8, Go()), Start(9, Record(PassingEvidence())), Move(9, Go())]
  }

  /** Evaluation 0 lists it. */
  function FirstLists(): seq<Label> {
    [Start(0, EvalLoad), Move(0, Go()), Move(0, Go()), Move(0, Go())]
  }

  /** Failing evidence is recorded, and evaluation 1 lists both and saves. */
  function SecondSaves(): seq<Label> {
    [Start(10, Record(FailingEvidence())), Move(10, Go()),
     Start(1, EvalLoad), Move(1, Go()), Move(1, Go()), Move(1, Go())]
  }

  /** Evaluation 0 saves over it, and evaluation 1 reads back and stores its assessment. */
  function FirstSavesOver(): seq<Label> {
    [Move(0, Go()), Move(1, Go()), Move(1, Go()), Move(1, Go())]
  }

  function Certify(): seq<Label> {
    [Start(2, CertLoad), Move(2, Go()), Move(2, Go())]
  }

  /** The state between these parts: the evidence, the evaluations and the threads that matter. */
  function Midway(es: seq<Evidence>, evaluations: map<Id, Evaluation>, a: Option<Assessment>, threads: map<nat, Thread>): System {
    System(Stores(RunRecord(Evaluating, 3), es, evaluations, a, []), threads)
  }

  function AfterLists(): map<nat, Thread> {
    map[8 := Done, 9 := Done, 0 := EvalSave(RunRecord(Evaluating, 3), [PassingEvidence()], 0)]
  }

  function Both(): seq<Evidence> {
    [PassingEvidence(), FailingEvidence()]
  }

  function AfterSaves(): map<nat, Thread> {
    AfterLists()[10 := Done][1 := EvalSave(RunRecord(Evaluating, 3), Both(), 1)]
  }

  function PlannedWithEvidence(): System {
    System(Stores(RunRecord(Planned, 2), [PassingEvidence()], map[], None, []), map[8 := Done, 9 := Done])
  }

  lemma Prepared()
    ensures Run(OneControl(), NewRun(), Prepare()) == PlannedWithEvidence()
  {}

  lemma Listed()
    ensures Run(OneControl(), PlannedWithEvidence(), FirstLists()) == Midway([PassingEvidence()], map[], None, AfterLists())
  {
    hide PassingEvidence, OneControl;
  }

  lemma PreparedAndListed()
    ensures Run(OneControl(), Run(OneControl(), NewRun(), Prepare()), FirstLists()) == Midway([PassingEvidence()], map[], None, AfterLists())
  {
    Prepared();
    Listed();
    hide Run;
  }

  lemma SecondSaved()
    ensures Run(OneControl(), Midway([PassingEvidence()], map[], None, AfterLists()), SecondSaves())
            == Midway(Both(), map[0 := Evaluation(0, Fail, NoAdmissiblePass)], None, AfterSaves())
  {
    BothFail();
    assert Recorded([PassingEvidence()], FailingEvidence()) == Both();
    hide ResultOf, Recorded;
    var p := OneControl();
    var recorded := Midway(Both(), map[], None, AfterLists()[10 := Done]);
    var s0 := Midway([PassingEvidence()], map[], None, AfterLists());
    var s2 := Run(p, s0, [Start(10, Record(FailingEvidence())), Move(10, Go())]);
    assert s2.st == recorded.st && s2.threads == recorded.threads;
    RunSplit(p, s0, [Start(10, Record(FailingEvidence())), Move(10, Go())], SecondSaves()[2..]);
    assert [Start(10, Record(FailingEvidence())), Move(10, Go())] + SecondSaves()[2..] == SecondSaves();
    SecondEvaluates();
  }

  lemma SecondEvaluates()
    ensures Run(OneControl(), Midway(Both(), map[], None, AfterLists()[10 := Done]), SecondSaves()[2..])
            == Midway(Both(), map[0 := Evaluation(0, Fail, NoAdmissiblePass)], None, AfterSaves())
  {
    BothFail();
    hide ResultOf;
    var t := Run(OneControl(), Midway(Both(), map[], None, AfterLists()[10 := Done]), SecondSaves()[2..]);
    assert SecondSaves()[2..] == [Start(1, EvalLoad), Move(1, Go()), Move(1, Go()), Move(1, Go())];
    assert t.st.evaluations == map[0 := Evaluation(0, Fail, NoAdmissiblePass)];
    assert t.threads == AfterSaves();
  }

  lemma BothFail()
    ensures ResultOf(OneControl().controls[0], Both()) == Fail
    ensures ResultOf(OneControl().controls[0], [PassingEvidence()]) == Pass
  {
    assert FailingEvidence() in Both() && PassingEvidence() in [PassingEvidence()];
  }

  lemma FirstSavedOver()
    ensures var s := Run(OneControl(), Midway(Both(), map[0 := Evaluation(0, Fail, NoAdmissiblePass)], None, AfterSaves()), FirstSavesOver());
            && s.st.evidence == Both() && s.st.assessment == Some(Assessment(Qualified, Fingerprint(Both()), Both())) && s.st.issued == []
            && 2 !in s.threads
  {
    BothFail();
    hide ResultOf, Fingerprint;
  }

  lemma Certified(s: System, es: seq<Evidence>)
    requires s.st.evidence == es && s.st.assessment == Some(Assessment(Qualified, Fingerprint(es), es)) && 2 !in s.threads
    ensures es in Run(OneControl(), s, Certify()).st.issued
  {
    hide Fingerprint;
  }

  /**
   * The proviso is needed: an evaluation may enter while another is collecting, and the older
   * result then overwrites the newer. Here a certificate is issued on evidence that fails.
   */
  lemma OverlapCertifiesFailure() returns (labels: seq<Label>)
    ensures Both() in Run(OneControl(), NewRun(), labels).st.issued
    ensures ResultOf(OneControl().controls[0], Both()) == Fail
  {
    var p := OneControl();
    PreparedAndListed();
    SecondSaved();
    FirstSavedOver();
    BothFail();
    hide Midway, AfterLists, AfterSaves, Prepare, FirstLists, SecondSaves, FirstSavesOver, Certify, ResultOf, Fingerprint, OneControl;
    labels := Prepare() + FirstLists() + SecondSaves() + FirstSavesOver() + Certify();
    RunSplit(p, NewRun(), Prepare(), FirstLists());
    RunSplit(p, NewRun(), Prepare() + FirstLists(), SecondSaves());
    RunSplit(p, NewRun(), Prepare() + FirstLists() + SecondSaves(), FirstSavesOver());
    RunSplit(p, NewRun(), Prepare() + FirstLists() + SecondSaves() + FirstSavesOver(), Certify());
    Certified(Run(p, NewRun(), Prepare() + FirstLists() + SecondSaves() + FirstSavesOver()), Both());
  }

  lemma RunSplit(p: Profile, s: System, a: seq<Label>, b: seq<Label>)
    ensures Run(p, s, a + b) == Run(p, Run(p, s, a), b)
    decreases |a|
  {
    if a == [] {
      assert a + b == b;
    } else {
      assert (a + b)[1..] == a[1..] + b;
      RunSplit(p, Apply(p, s, a[0]), a[1..], b);
    }
  }
}
