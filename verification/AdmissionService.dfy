/**
 * `admitValidated` uninterrupted, with its flags and its catch block, over the in-memory ports:
 * all of the admission happens, or nothing of it but a dead run.
 */
module AdmissionService {
  import opened Wrappers
  import opened Admission

  class IdempotencyStore {
    var records: map<Key, KeyRecord>

    constructor ()
      ensures records == map[]
    {
      records := map[];
    }

    /** NEW when `reserved`; nothing changes otherwise. */
    method Reserve(key: Key, fingerprint: Id, r: Id) returns (reserved: bool)
      modifies this
      ensures reserved <==> key !in old(records)
      ensures records == if reserved then old(records)[key := KeyRecord(fingerprint, Reserved(r))] else old(records)
    {
      if key in records { return false; }
      records := records[key := KeyRecord(fingerprint, Reserved(r))];
      return true;
    }

    method Complete(key: Key, r: Id) returns (ok: bool)
      modifies this
      ensures ok <==> key in old(records) && old(records)[key].binding.Reserved?
      ensures records == if ok then old(records)[key := old(records)[key].(binding := Active(r))] else old(records)
    {
      if key !in records || !records[key].binding.Reserved? { return false; }
      records := records[key := records[key].(binding := Active(r))];
      return true;
    }

    /** Drops an unbound reservation only. */
    method Release(key: Key)
      modifies this
      ensures records == if key in old(records) && old(records)[key].binding.Reserved? then old(records) - {key} else old(records)
    {
      if key !in records { return; }
      if !records[key].binding.Reserved? { return; }
      records := records - {key};
    }
  }

  class ProjectLockService {
    var locks: map<Id, Id>

    constructor ()
      ensures locks == map[]
    {
      locks := map[];
    }

    method Acquire(project: Id, r: Id) returns (ok: bool)
      modifies this
      ensures ok <==> project !in old(locks) || old(locks)[project] == r
      ensures locks == if ok then old(locks)[project := r] else old(locks)
    {
      if project in locks {
        if locks[project] != r { return false; }
        assert locks[project := r] == locks;
        return true;
      }
      locks := locks[project := r];
      return true;
    }

    method Release(project: Id, r: Id)
      modifies this
      ensures locks == if project in old(locks) && old(locks)[project] == r then old(locks) - {project} else old(locks)
    {
      if project !in locks || locks[project] != r { return; }
      locks := locks - {project};
    }
  }

  class RunRepository {
    var runs: map<Id, Run>

    constructor ()
      ensures runs == map[]
    {
      runs := map[];
    }

    /** Scans all runs for the same key or logical identity. */
    method Create(r: Id, key: Key) returns (ok: bool)
      modifies this
      ensures ok <==> r !in old(runs) && forall x :: x in old(runs) ==> old(runs)[x].key != key
      ensures runs == if ok then old(runs)[r := Run(key, Received)] else old(runs)
    {
      if r in runs { return false; }
      var left := runs.Keys;
      while left != {}
        invariant runs == old(runs) && left <= runs.Keys
        invariant forall x :: x in runs && x !in left ==> runs[x].key != key
        decreases left
      {
        var x :| x in left;
        if runs[x].key == key { return false; }
        left := left - {x};
      }
      runs := runs[r := Run(key, Received)];
      return true;
    }

    method Transition(r: Id, expected: RunState, next: RunState) returns (ok: bool)
      modifies this
      ensures ok <==> r in old(runs) && old(runs)[r].state == expected
      ensures runs == if ok then old(runs)[r := old(runs)[r].(state := next)] else old(runs)
    {
      if r !in runs || runs[r].state != expected { return false; }
      runs := runs[r := runs[r].(state := next)];
      return true;
    }
  }

  /** The port calls of the saga, each of which may throw. */
  predicate Hit(fault: Option<Point>) {
    fault in {Some(LookingUp), Some(Reserving), Some(Acquiring), Some(Locking), Some(Creating), Some(Admitting), Some(Appending),
              Some(Completing), Some(SavingObjective), Some(BindingObjective), Some(Releasing)}
  }

  class Service {
    const idempotency: IdempotencyStore
    const locks: ProjectLockService
    const runs: RunRepository

    constructor (idempotency: IdempotencyStore, locks: ProjectLockService, runs: RunRepository)
      ensures this.idempotency == idempotency && this.locks == locks && this.runs == runs
    {
      this.idempotency, this.locks, this.runs := idempotency, locks, runs;
    }

    /** Nothing stands in the way of admitting the key. */
    static predicate Free(records: map<Key, KeyRecord>, locks: map<Id, Id>, runs: map<Id, Run>, key: Key) {
      key !in records && key.projectId !in locks && forall x :: x in runs ==> runs[x].key != key
    }

    /** The try block. `fault` is the port call that throws, if one does; `threw` sends the caller to the catch block. */
    method Attempt(r: Id, request: Request, fault: Option<Point>)
      returns (threw: bool, reserved: bool, locked: bool, created: Option<RunState>, bound: bool, result: Result)
      requires r !in runs.runs && forall p :: p in locks.locks ==> locks.locks[p] != r
      modifies idempotency, locks, runs
      ensures var key, project := request.key, request.key.projectId;
              && (reserved ==> key !in old(idempotency.records))
              && idempotency.records == (if bound then old(idempotency.records)[key := KeyRecord(request.fingerprint, Active(r))]
                                         else if reserved then old(idempotency.records)[key := KeyRecord(request.fingerprint, Reserved(r))]
                                         else old(idempotency.records))
              && (locked || bound ==> project !in old(locks.locks))
              && locks.locks == (if locked then old(locks.locks)[project := r] else old(locks.locks))
              && runs.runs == (if created.Some? then old(runs.runs)[r := Run(key, created.value)] else old(runs.runs))
              && (bound ==> reserved && created == Some(Admitted))
              && (created.Some? ==> created.value == Received || created.value == Admitted)
              && (threw ==> result == Thrown || result == ConflictResult)
              && (Hit(fault) && fault != Some(LookingUp) ==> result != AdmittedResult)
              && (!Hit(fault) ==> (result == AdmittedResult <==> Free(old(idempotency.records), old(locks.locks), old(runs.runs), key)))
              && (key in old(idempotency.records) && !Hit(fault) ==> result == old(Duplicate(request)))
              && (!threw ==> !locked && (reserved ==> bound) && (bound <==> result == AdmittedResult) && (created.Some? ==> bound))
    {
      threw, reserved, locked, created, bound, result := true, false, false, None, false, Thrown;
      var key, project := request.key, request.key.projectId;
      if fault == Some(Reserving) { return; }
      reserved := idempotency.Reserve(key, request.fingerprint, r);
      if !reserved {
        threw, result := false, Duplicate(request);
        return;
      }
      if fault == Some(Acquiring) || fault == Some(Locking) { result := ConflictResult; return; }
      locked := locks.Acquire(project, r);
      if !locked { result := ConflictResult; return; }
      if fault == Some(Creating) { return; }
      var ok := runs.Create(r, key);
      if !ok { return; }
      created := Some(Received);
      if fault == Some(Admitting) { return; }
      ok := runs.Transition(r, Received, Admitted);
      created := Some(Admitted);
      if fault == Some(Appending) || fault == Some(Completing) { return; }
      ok := idempotency.Complete(key, r);
      bound := true;
      if fault == Some(SavingObjective) || fault == Some(BindingObjective) || fault == Some(Releasing) { return; }
      locks.Release(project, r);
      assert old(locks.locks)[project := r] - {project} == old(locks.locks);
      locked, threw, result := false, false, AdmittedResult;
    }

    /** `duplicateResult` on a key that is taken. */
    function Duplicate(request: Request): (result: Result)
      requires request.key in idempotency.records
      reads idempotency, runs
      ensures result == ConflictResult || result.DuplicateResult?
    {
      var existing := idempotency.records[request.key];
      if existing.fingerprint != request.fingerprint || existing.binding.Reserved? then ConflictResult
      else if existing.binding.runId in runs.runs then DuplicateResult(existing.binding.runId)
      else ConflictResult
    }

    method Compensate(r: Id, request: Request, reserved: bool, locked: bool, created: Option<RunState>, bound: bool)
      requires created.Some? ==> r in runs.runs && runs.runs[r].state == created.value
      requires bound || created.None? || created.value == Received || created.value == Admitted
      modifies idempotency, locks, runs
      ensures runs.runs == if created.None? || bound then old(runs.runs)
                           else old(runs.runs)[r := old(runs.runs)[r].(
                             state := if created.value == Admitted then Cancelled else AdmissionRejected)]
      ensures locks.locks == if locked && request.key.projectId in old(locks.locks) && old(locks.locks)[request.key.projectId] == r
                             then old(locks.locks) - {request.key.projectId} else old(locks.locks)
      ensures idempotency.records == if reserved && !bound && request.key in old(idempotency.records)
                                        && old(idempotency.records)[request.key].binding.Reserved?
                                     then old(idempotency.records) - {request.key} else old(idempotency.records)
    {
      if created.Some? && !bound {
        var _ := runs.Transition(r, created.value, if created.value == Admitted then Cancelled else AdmissionRejected);
      }
      if locked { locks.Release(request.key.projectId, r); }
      if reserved && !bound { idempotency.Release(request.key); }
    }

    /**
     * ADMITTED exactly when nothing throws and nothing stands in the way. Whatever one call throws,
     * the locks end as they began, and either the key is bound to the admitted run, or the keys end
     * as they began and no new run is alive.
     */
    method Admit(r: Id, request: Request, fault: Option<Point>) returns (result: Result)
      requires r !in runs.runs && forall p :: p in locks.locks ==> locks.locks[p] != r
      modifies idempotency, locks, runs
      ensures locks.locks == old(locks.locks)
      ensures result == AdmittedResult <==>
                !Hit(fault) && Free(old(idempotency.records), old(locks.locks), old(runs.runs), request.key)
      ensures request.key in old(idempotency.records) && !Hit(fault) ==> result == old(Duplicate(request))
      ensures
        || (&& idempotency.records == old(idempotency.records)[request.key := KeyRecord(request.fingerprint, Active(r))]
            && runs.runs == old(runs.runs)[r := Run(request.key, Admitted)])
        || (&& result != AdmittedResult
            && idempotency.records == old(idempotency.records)
            && runs.runs - {r} == old(runs.runs)
            && (r in runs.runs ==> runs.runs[r].state == AdmissionRejected || runs.runs[r].state == Cancelled))
    {
      if fault == Some(LookingUp) { return Thrown; }
      if request.key in idempotency.records {
        var existing := idempotency.records[request.key];
        if existing.fingerprint != request.fingerprint || existing.binding.Active? { return Duplicate(request); }
      }
      var threw, reserved, locked, created, bound, outcome := Attempt(r, request, fault);
      if threw {
        Compensate(r, request, reserved, locked, created, bound);
        assert locks.locks == old(locks.locks);
        assert !bound ==> idempotency.records == old(idempotency.records);
      }
      assert !bound ==> runs.runs - {r} == old(runs.runs);
      return outcome;
    }
  }
}
