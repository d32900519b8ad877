/**
 * Synthesis of causal estimates: the pairwise contradiction scan, the pooled mean, and what both
 * say in terms of the extreme estimates. Numbers are exact reals.
 */
module CausalSynthesis {
  import opened Wrappers

  type Id = nat

  datatype Estimate = Estimate(
    id: Id, unit: Id, estimatorVersion: Id, point: real, treated: nat, control: nat)

  datatype Kind = MeasurementMismatch | DirectionConflict | MagnitudeConflict
  datatype Finding = Finding(kind: Kind, left: Id, right: Id)
  datatype Status = Consistent | Mixed | Contradictory | Insufficient

  datatype Synthesis = Synthesis(
    status: Status, supporting: seq<Id>, contradicting: seq<Id>, findings: seq<Finding>, pooled: Option<real>)

  function Abs(x: real): real {
    if x < 0.0 then -x else x
  }

  function Sign(x: real): int {
    if x < 0.0 then -1 else if x > 0.0 then 1 else 0
  }

  function Bound(t: real): real {
    if t * 2.0 > 0.000000001 then t * 2.0 else 0.000000001
  }

  // ----- the scan -----

  predicate Opposed(a: real, b: real, t: real) {
    Sign(a) != 0 && Sign(b) != 0 && Sign(a) != Sign(b) && Abs(a) >= t && Abs(b) >= t
  }

  /** What one pair contributes. */
  function PairFindings(a: Estimate, b: Estimate, t: real): seq<Finding> {
    if a.unit != b.unit then [Finding(MeasurementMismatch, a.id, b.id)]
    else if Opposed(a.point, b.point, t) then [Finding(DirectionConflict, a.id, b.id)]
    else if Abs(a.point - b.point) > Bound(t) then [Finding(MagnitudeConflict, a.id, b.id)]
    else []
  }

  /** The findings of the pairs from (i, j) on, row by row. */
  function FindingsFrom(es: seq<Estimate>, t: real, i: nat, j: nat): seq<Finding>
    requires i < j
    decreases |es| - i, |es| - j
  {
    if i >= |es| then []
    else if j >= |es| then FindingsFrom(es, t, i + 1, i + 2)
    else PairFindings(es[i], es[j], t) + FindingsFrom(es, t, i, j + 1)
  }

  function Findings(es: seq<Estimate>, t: real): seq<Finding> {
    FindingsFrom(es, t, 0, 1)
  }

  lemma PushPair(before: seq<Finding>, es: seq<Estimate>, t: real, i: nat, j: nat)
    requires i < j < |es|
    ensures before + PairFindings(es[i], es[j], t) + FindingsFrom(es, t, i, j + 1) == before + FindingsFrom(es, t, i, j)
  {}

  lemma RowEnd(es: seq<Estimate>, t: real, i: nat)
    requires i < |es|
    ensures FindingsFrom(es, t, i, |es|) == FindingsFrom(es, t, i + 1, i + 2)
  {}

  /** One pair of the scan. */
  method ScanPair(left: Estimate, right: Estimate, t: real, findings: seq<Finding>) returns (more: seq<Finding>)
    ensures more == findings + PairFindings(left, right, t)
  {
    more := findings;
    if left.unit != right.unit {
      more := more + [Finding(MeasurementMismatch, left.id, right.id)];
    } else if Opposed(left.point, right.point, t) {
      more := more + [Finding(DirectionConflict, left.id, right.id)];
    } else if Abs(left.point - right.point) > Bound(t) {
      more := more + [Finding(MagnitudeConflict, left.id, right.id)];
    }
  }

  /** The inner loop: one row of the scan. */
  method ScanRow(es: seq<Estimate>, t: real, i: nat, findings: seq<Finding>) returns (more: seq<Finding>)
    requires i < |es|
    ensures more + FindingsFrom(es, t, i + 1, i + 2) == findings + FindingsFrom(es, t, i, i + 1)
  {
    more := findings;
    for j := i + 1 to |es|
      invariant more + FindingsFrom(es, t, i, j) == findings + FindingsFrom(es, t, i, i + 1)
    {
      hide FindingsFrom, PairFindings;
      PushPair(more, es, t, i, j);
      more := ScanPair(es[i], es[j], t, more);
    }
    RowEnd(es, t, i);
    hide FindingsFrom;
  }

  method DetectContradictions(es: seq<Estimate>, t: real) returns (findings: seq<Finding>)
    ensures findings == Findings(es, t)
  {
    findings := [];
    for i := 0 to |es|
      invariant findings + FindingsFrom(es, t, i, i + 1) == Findings(es, t)
    {
      hide FindingsFrom, Findings;
      findings := ScanRow(es, t, i, findings);
    }
  }

  /** Every finding comes from a pair. */
  lemma {:induction false} FindingFromPair(es: seq<Estimate>, t: real, i: nat, j: nat, f: Finding) returns (a: nat, b: nat)
    requires i < j && f in FindingsFrom(es, t, i, j)
    ensures a < b < |es| && f in PairFindings(es[a], es[b], t)
    decreases |es| - i, |es| - j
  {
    hide PairFindings;
    if j >= |es| { a, b := FindingFromPair(es, t, i + 1, i + 2, f); }
    else if f in PairFindings(es[i], es[j], t) { a, b := i, j; }
    else { a, b := FindingFromPair(es, t, i, j + 1, f); }
  }

  /** What a pair contributes is found. */
  lemma {:induction false} PairFoundFrom(es: seq<Estimate>, t: real, i: nat, j: nat, a: nat, b: nat, f: Finding)
    requires i < j && a < b < |es| && (i < a || (i == a && j <= b)) && f in PairFindings(es[a], es[b], t)
    ensures f in FindingsFrom(es, t, i, j)
    decreases |es| - i, |es| - j
  {
    hide PairFindings;
    if j >= |es| { PairFoundFrom(es, t, i + 1, i + 2, a, b, f); }
    else if (i, j) != (a, b) { PairFoundFrom(es, t, i, j + 1, a, b, f); }
  }

  // ----- the synthesis -----

  predicate Comparable(es: seq<Estimate>) {
    forall i :: 0 <= i < |es| ==> es[i].unit == es[0].unit && es[i].estimatorVersion == es[0].estimatorVersion
  }

  function StatusOf(findings: seq<Finding>): Status {
    if exists f :: f in findings && f.kind == DirectionConflict then Contradictory
    else if findings != [] then Mixed
    else Consistent
  }

  function EstimateIds(es: seq<Estimate>): seq<Id> {
    seq(|es|, i requires 0 <= i < |es| => es[i].id)
  }

  predicate InConflict(findings: seq<Finding>, id: Id) {
    exists f :: f in findings && f.kind == DirectionConflict && (f.left == id || f.right == id)
  }

  function ConflictIds(findings: seq<Finding>): seq<Id> {
    if findings == [] then []
    else (if findings[0].kind == DirectionConflict then [findings[0].left, findings[0].right] else []) + ConflictIds(findings[1..])
  }

  /** Spreading a `Set` built from the list: each element at its first place. */
  function Dedupe(s: seq<Id>): (r: seq<Id>)
    ensures forall x :: x in r <==> x in s
    ensures forall i, j :: 0 <= i < j < |r| ==> r[i] != r[j]
  {
    if s == [] then []
    else
      var front := Dedupe(s[..|s| - 1]);
      if s[|s| - 1] in front then front else front + [s[|s| - 1]]
  }

  function Weight(e: Estimate): real {
    (e.treated + e.control) as real
  }

  function WeightSum(es: seq<Estimate>): (w: real)
    ensures w >= 0.0
  {
    if es == [] then 0.0 else Weight(es[0]) + WeightSum(es[1..])
  }

  /** The part of the samples that are this estimate's. */
  function Share(e: Estimate, total: real): real
    requires total > 0.0
  {
    Weight(e) / total
  }

  function Times(a: real, b: real): real {
    a * b
  }

  function Weighted(es: seq<Estimate>, total: real): real
    requires total > 0.0
  {
    if es == [] then 0.0 else Times(es[0].point, Share(es[0], total)) + Weighted(es[1..], total)
  }

  function Pooled(es: seq<Estimate>): Option<real> {
    if WeightSum(es) > 0.0 then Some(Weighted(es, WeightSum(es))) else None
  }

  /** `None` is INCOMPARABLE_EFFECTS. */
  function SynthesisOf(es: seq<Estimate>, t: real): Option<Synthesis> {
    if es == [] then Some(Synthesis(Insufficient, [], [], [], None))
    else if !Comparable(es) then None
    else
      var findings := Findings(es, t);
      var status := StatusOf(findings);
      var supporting := if status == Consistent then EstimateIds(es)
                        else EstimateIds(Filter(es, (e: Estimate) => !InConflict(findings, e.id)));
      Some(Synthesis(status, supporting, Dedupe(ConflictIds(findings)), findings,
                     if status == Consistent then Pooled(es) else None))
  }

  method Synthesize(es: seq<Estimate>, t: real) returns (s: Option<Synthesis>)
    ensures s == SynthesisOf(es, t)
  {
    if es == [] { return Some(Synthesis(Insufficient, [], [], [], None)); }
    for i := 1 to |es|
      invariant forall j :: 0 <= j < i ==> es[j].unit == es[0].unit && es[j].estimatorVersion == es[0].estimatorVersion
    {
      if es[0].unit != es[i].unit { return None; }
      if es[i].estimatorVersion != es[0].estimatorVersion { return None; }
    }
    var findings := DetectContradictions(es, t);
    var status := Consistent;
    if exists f :: f in findings && f.kind == DirectionConflict { status := Contradictory; }
    else if |findings| > 0 { status := Mixed; }
    var supporting := EstimateIds(es);
    if status != Consistent { supporting := EstimateIds(Filter(es, (e: Estimate) => !InConflict(findings, e.id))); }
    var pooled := None;
    if status == Consistent { pooled := Pooled(es); }
    return Some(Synthesis(status, supporting, Dedupe(ConflictIds(findings)), findings, pooled));
  }

  // ----- the extreme estimates -----

  function Max(es: seq<Estimate>): (m: real)
    requires es != []
    ensures forall e :: e in es ==> e.point <= m
    ensures exists e :: e in es && e.point == m
  {
    if |es| == 1 then assert es[0] in es; es[0].point
    else
      var rest := Max(es[1..]);
      assert forall e :: e in es <==> e == es[0] || e in es[1..];
      if es[0].point >= rest then es[0].point else rest
  }

  function Min(es: seq<Estimate>): (m: real)
    requires es != []
    ensures forall e :: e in es ==> m <= e.point
    ensures exists e :: e in es && e.point == m
  {
    if |es| == 1 then assert es[0] in es; es[0].point
    else
      var rest := Min(es[1..]);
      assert forall e :: e in es <==> e == es[0] || e in es[1..];
      if es[0].point <= rest then es[0].point else rest
  }

  /** The min/max form of a direction conflict. */
  predicate ExtremesOppose(es: seq<Estimate>, t: real)
    requires es != []
  {
    Max(es) > 0.0 && Max(es) >= t && Min(es) < 0.0 && -Min(es) >= t
  }

  lemma PairIsFound(es: seq<Estimate>, t: real, a: nat, b: nat, f: Finding)
    requires a < b < |es| && f in PairFindings(es[a], es[b], t)
    ensures f in Findings(es, t)
  {
    PairFoundFrom(es, t, 0, 1, a, b, f);
  }

  /** Two opposed members, in whichever order they stand, are found. */
  lemma OpposedIsFound(es: seq<Estimate>, t: real, x: Estimate, y: Estimate)
    requires Comparable(es) && x in es && y in es && Opposed(x.point, y.point, t)
    ensures Finding(DirectionConflict, x.id, y.id) in Findings(es, t) || Finding(DirectionConflict, y.id, x.id) in Findings(es, t)
  {
    var a, b :| 0 <= a < |es| && es[a] == x && 0 <= b < |es| && es[b] == y;
    if a < b { PairIsFound(es, t, a, b, Finding(DirectionConflict, x.id, y.id)); }
    else { PairIsFound(es, t, b, a, Finding(DirectionConflict, y.id, x.id)); }
  }

  /** A direction finding names two opposed members. */
  lemma FoundIsOpposed(es: seq<Estimate>, t: real, f: Finding) returns (x: Estimate, y: Estimate)
    requires f in Findings(es, t) && f.kind == DirectionConflict
    ensures x in es && y in es && Opposed(x.point, y.point, t) && f == Finding(DirectionConflict, x.id, y.id)
  {
    var a, b := FindingFromPair(es, t, 0, 1, f);
    x, y := es[a], es[b];
  }

  /** CONTRADICTORY says exactly that the largest and the smallest estimate are material and opposed. */
  lemma ContradictoryExactly(es: seq<Estimate>, t: real)
    requires es != [] && Comparable(es)
    ensures StatusOf(Findings(es, t)) == Contradictory <==> ExtremesOppose(es, t)
  {
    if StatusOf(Findings(es, t)) == Contradictory {
      var f :| f in Findings(es, t) && f.kind == DirectionConflict;
      var x, y := FoundIsOpposed(es, t, f);
    }
    if ExtremesOppose(es, t) {
      var x, y :| x in es && x.point == Max(es) && y in es && y.point == Min(es);
      OpposedIsFound(es, t, x, y);
    }
  }

  lemma WidestPairIsFound(es: seq<Estimate>, t: real)
    requires es != [] && Comparable(es) && Max(es) - Min(es) > Bound(t)
    ensures Findings(es, t) != []
  {
    var hi, lo :| hi in es && hi.point == Max(es) && lo in es && lo.point == Min(es);
    var a, b :| 0 <= a < |es| && es[a] == hi && 0 <= b < |es| && es[b] == lo;
    hide Findings, FindingsFrom, Max, Min;
    WidePair(hi, lo, t);
    hide PairFindings, Bound;
    if a < b { PairIsFound(es, t, a, b, PairFindings(hi, lo, t)[0]); }
    else { PairIsFound(es, t, b, a, PairFindings(lo, hi, t)[0]); }
  }

  lemma WidePair(hi: Estimate, lo: Estimate, t: real)
    requires hi.point - lo.point > Bound(t)
    ensures PairFindings(hi, lo, t) != [] && PairFindings(lo, hi, t) != [] && hi != lo
  {}

  lemma NarrowPairsAgree(es: seq<Estimate>, t: real, f: Finding)
    requires es != [] && Comparable(es) && f in Findings(es, t)
    ensures f.kind == DirectionConflict || Max(es) - Min(es) > Bound(t)
  {
    var a, b := FindingFromPair(es, t, 0, 1, f);
    hide Findings, FindingsFrom;
    assert es[a] in es && es[b] in es;
  }

  /** CONSISTENT says exactly: not CONTRADICTORY, and the spread stays within the bound. */
  lemma ConsistentExactly(es: seq<Estimate>, t: real)
    requires es != [] && Comparable(es)
    ensures StatusOf(Findings(es, t)) == Consistent <==> !ExtremesOppose(es, t) && Max(es) - Min(es) <= Bound(t)
  {
    hide Findings, ExtremesOppose, Max, Min, Bound;
    ContradictoryExactly(es, t);
    if Max(es) - Min(es) > Bound(t) { WidestPairIsFound(es, t); }
    else if Findings(es, t) != [] { NarrowPairsAgree(es, t, Findings(es, t)[0]); }
  }

  // ----- the pooled mean -----

  function ShareSum(es: seq<Estimate>, total: real): real
    requires total > 0.0
  {
    if es == [] then 0.0 else Share(es[0], total) + ShareSum(es[1..], total)
  }

  lemma {:induction false} SharesAddUp(es: seq<Estimate>, total: real)
    requires total > 0.0
    ensures ShareSum(es, total) == WeightSum(es) / total
  {
    if es == [] {
    } else {
      SharesAddUp(es[1..], total);
      QuotientSum(Weight(es[0]), WeightSum(es[1..]), total);
      hide Weight;
    }
  }

  lemma QuotientSum(a: real, b: real, total: real)
    requires total > 0.0
    ensures (a + b) / total == a / total + b / total
  {}

  lemma QuotientOne(total: real)
    requires total > 0.0
    ensures total / total == 1.0 && forall c :: Times(c, 1.0) == c
  {}

  lemma {:induction false} WeightedBetween(es: seq<Estimate>, total: real, lo: real, hi: real)
    requires total > 0.0 && forall e :: e in es ==> lo <= e.point <= hi
    ensures Times(lo, ShareSum(es, total)) <= Weighted(es, total) <= Times(hi, ShareSum(es, total))
  {
    if es == [] {
    } else {
      hide Times, Share;
      ShareNonNegative(es[0], total);
      WeightedBetween(es[1..], total, lo, hi);
      AddShare(lo, es[0].point, hi, Share(es[0], total), ShareSum(es[1..], total), Weighted(es[1..], total));
    }
  }

  lemma ShareNonNegative(e: Estimate, total: real)
    requires total > 0.0
    ensures Share(e, total) >= 0.0
  {}

  lemma AddShare(lo: real, p: real, hi: real, share: real, shares: real, weighted: real)
    requires lo <= p <= hi && share >= 0.0 && Times(lo, shares) <= weighted <= Times(hi, shares)
    ensures Times(lo, share + shares) <= Times(p, share) + weighted <= Times(hi, share + shares)
  {
    TimesOrdered(lo, p, share);
    TimesOrdered(p, hi, share);
    TimesSpreads(lo, share, shares);
    TimesSpreads(hi, share, shares);
    hide Times;
  }

  lemma TimesOrdered(a: real, b: real, f: real)
    requires a <= b && f >= 0.0
    ensures Times(a, f) <= Times(b, f)
  {}

  lemma TimesSpreads(c: real, a: real, b: real)
    ensures Times(c, a + b) == Times(c, a) + Times(c, b)
  {}

  /**
   * A CONSISTENT synthesis of estimates with any samples at all pools them, inside the range of the
   * estimates and within the bound of each.
   */
  lemma PooledInRange(es: seq<Estimate>, t: real)
    requires es != [] && SynthesisOf(es, t).Some? && SynthesisOf(es, t).value.status == Consistent && WeightSum(es) > 0.0
    ensures var pooled := SynthesisOf(es, t).value.pooled;
            && pooled.Some? && Min(es) <= pooled.value <= Max(es)
            && forall e :: e in es ==> Abs(pooled.value - e.point) <= Bound(t)
  {
    hide Findings, ExtremesOppose, Weighted, WeightSum, ShareSum, Max, Min, Bound;
    ConsistentExactly(es, t);
    WeightedMean(es, Min(es), Max(es));
  }

  lemma WeightedMean(es: seq<Estimate>, lo: real, hi: real)
    requires WeightSum(es) > 0.0 && forall e :: e in es ==> lo <= e.point <= hi
    ensures lo <= Weighted(es, WeightSum(es)) <= hi
  {
    var total := WeightSum(es);
    SharesAddUp(es, total);
    QuotientOne(total);
    WeightedBetween(es, total, lo, hi);
    hide Times, WeightSum, ShareSum, Weighted;
  }

  // ----- who supports, who contradicts -----

  predicate DistinctIds(es: seq<Estimate>) {
    forall i, j :: 0 <= i < j < |es| ==> es[i].id != es[j].id
  }

  lemma ConflictIdsMember(findings: seq<Finding>, id: Id)
    ensures id in ConflictIds(findings) <==> InConflict(findings, id)
  {
    if findings != [] { ConflictIdsMember(findings[1..], id); }
  }

  lemma EstimateIdsMember(es: seq<Estimate>, id: Id)
    ensures id in EstimateIds(es) <==> exists e :: e in es && e.id == id
  {
    if id in EstimateIds(es) { var i :| 0 <= i < |es| && EstimateIds(es)[i] == id; assert es[i] in es; }
    if exists e :: e in es && e.id == id {
      var e :| e in es && e.id == id;
      var i :| 0 <= i < |es| && es[i] == e;
      assert EstimateIds(es)[i] == id;
    }
  }

  /** Every estimate either supports or contradicts, never both, and nothing else is listed. */
  lemma IdsPartition(es: seq<Estimate>, t: real, id: Id)
    requires SynthesisOf(es, t).Some?
    ensures var s := SynthesisOf(es, t).value;
            && !(id in s.supporting && id in s.contradicting)
            && (id in s.supporting || id in s.contradicting <==> id in EstimateIds(es))
            && forall i, j :: 0 <= i < j < |s.contradicting| ==> s.contradicting[i] != s.contradicting[j]
  {
    if es != [] {
      var findings := Findings(es, t);
      ConflictIdsMember(findings, id);
      EstimateIdsMember(es, id);
      EstimateIdsMember(Filter(es, (e: Estimate) => !InConflict(findings, e.id)), id);
      hide Findings;
      if InConflict(findings, id) {
        var f :| f in findings && f.kind == DirectionConflict && (f.left == id || f.right == id);
        var x, y := FoundIsOpposed(es, t, f);
      }
    }
  }

  /** When CONTRADICTORY, the contradicting estimates are exactly the non-zero ones of material size. */
  lemma ContradictingExactly(es: seq<Estimate>, t: real, e: Estimate)
    requires SynthesisOf(es, t).Some? && SynthesisOf(es, t).value.status == Contradictory && DistinctIds(es) && e in es
    ensures e.id in SynthesisOf(es, t).value.contradicting <==> e.point != 0.0 && Abs(e.point) >= t
  {
    var findings := Findings(es, t);
    hide Findings, Max, Min, EstimateIds, Filter;
    ConflictIdsMember(findings, e.id);
    ContradictoryExactly(es, t);
    hide Comparable, StatusOf, ConflictIds;
    if InConflict(findings, e.id) {
      var f :| f in findings && f.kind == DirectionConflict && (f.left == e.id || f.right == e.id);
      var x, y := FoundIsOpposed(es, t, f);
      assert e == x || e == y;
    } else if e.point != 0.0 && Abs(e.point) >= t {
      var x, y :| x in es && x.point == Max(es) && y in es && y.point == Min(es);
      OpposedIsFound(es, t, e, if e.point > 0.0 then y else x);
    }
  }
}
