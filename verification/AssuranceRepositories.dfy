/** The in-memory stores of assurance runs, updated in place. */
module AssuranceRepositories {
  import opened Wrappers
  import opened Assurance
  import opened AssuranceRuns

  class EvidenceRepository {
    var records: seq<Evidence>

    constructor ()
      ensures records == []
    {
      records := [];
    }

    /** Immutable per identifier: a second save returns the first record, or refuses another content. */
    method Save(e: Evidence) returns (saved: Option<Evidence>)
      modifies this
      ensures records == Recorded(old(records), e)
      ensures saved.Some? ==> saved.value in records && saved.value.evidenceId == e.evidenceId
                              && saved.value.contentHash == e.contentHash
      ensures saved.None? ==> exists x :: x in old(records) && x.evidenceId == e.evidenceId && x.contentHash != e.contentHash
    {
      for i := 0 to |records|
        invariant records == old(records)
        invariant forall x :: x in records[..i] ==> x.evidenceId != e.evidenceId
      {
        if records[i].evidenceId == e.evidenceId {
          return if records[i].contentHash != e.contentHash then None else Some(records[i]);
        }
      }
      assert records[..|records|] == records;
      records := records + [e];
      return Some(e);
    }
  }

  class RunRepository {
    var run: RunRecord

    constructor ()
      ensures run == RunRecord(Created, 1)
    {
      run := RunRecord(Created, 1);
    }

    method Transition(from: RunStatus, revision: nat, to: RunStatus) returns (ok: bool)
      modifies this
      ensures ok <==> old(run) == RunRecord(from, revision)
      ensures run == if ok then RunRecord(to, revision + 1) else old(run)
    {
      if run.status != from || run.recordRevision != revision { return false; }
      run := RunRecord(to, run.recordRevision + 1);
      return true;
    }
  }

  /** Certificate identifiers are minted from the material fingerprint alone. */
  datatype CertificateId = Minted(material: Id)
  datatype Certificate = Certificate(certificateId: CertificateId, material: Id, runId: Id)

  class CertificateRepository {
    var byId: map<CertificateId, Certificate>
    var byMaterial: map<Id, CertificateId>
    var byRun: map<Id, CertificateId>

    /** The three indexes agree: a material and a run each have one certificate. */
    ghost predicate Valid()
      reads this
    {
      && (forall c :: c in byId ==>
            byId[c].certificateId == c && c == Minted(byId[c].material)
            && byId[c].material in byMaterial && byMaterial[byId[c].material] == c
            && byId[c].runId in byRun && byRun[byId[c].runId] == c)
      && (forall m :: m in byMaterial ==> byMaterial[m] in byId && byId[byMaterial[m]].material == m)
      && (forall r :: r in byRun ==> byRun[r] in byId && byId[byRun[r]].runId == r)
    }

    constructor ()
      ensures Valid() && byId == map[]
    {
      byId, byMaterial, byRun := map[], map[], map[];
    }

    /** A second certificate for a run, or for a material of another run, is never stored. */
    method Save(c: Certificate) returns (saved: Option<Certificate>)
      requires Valid() && c.certificateId == Minted(c.material)
      modifies this
      ensures Valid()
      ensures saved.Some? <==> c.certificateId in old(byId) || c.runId !in old(byRun)
      ensures byId == if saved.Some? && c.certificateId !in old(byId) then old(byId)[c.certificateId := c] else old(byId)
      ensures saved.Some? ==> c.certificateId in byId && saved.value == byId[c.certificateId]
    {
      if c.material in byMaterial {
        if byMaterial[c.material] != c.certificateId { return None; }
        return Some(byId[c.certificateId]);
      }
      if c.runId in byRun && byRun[c.runId] != c.certificateId {
        var prior := byId[byRun[c.runId]];
        if prior.material != c.material { return None; }
      }
      byId := byId[c.certificateId := c];
      byMaterial := byMaterial[c.material := c.certificateId];
      byRun := byRun[c.runId := c.certificateId];
      return Some(c);
    }
  }
}
