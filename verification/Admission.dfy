/**
 * The admission saga without a transaction manager: reserve a key, lock the project, create and
 * admit a run, bind the key, release the lock; a failure is compensated.
 *
 * Any number of admissions interleave, one step per port call, and two for the acquisition of the
 * lock, which awaits between its read and its write. A port call may throw, and then has no effect;
 * the calls of the compensation do not throw. An admission is named by its run identifier, which is
 * fresh.
 */
module Admission {
  import opened Wrappers

  type Id = nat

  /** The idempotency key: a hash of exactly the logical identity of a first run attempt. */
  datatype Key = Key(projectId: Id, objectiveId: Id, objectiveVersion: nat, environment: Id)
  datatype Request = Request(key: Key, fingerprint: Id)

  datatype RunState = Received | Admitted | AdmissionRejected | Cancelled
  datatype Run = Run(key: Key, state: RunState)

  /** `owner`, the admission that reserved the key, is history. */
  datatype Binding = Reserved(owner: Id) | Active(runId: Id)
  datatype KeyRecord = KeyRecord(fingerprint: Id, binding: Binding)

  datatype Stores = Stores(keys: map<Key, KeyRecord>, locks: map<Id, Id>, runs: map<Id, Run>)

  datatype Result = AdmittedResult | DuplicateResult(of: Id) | ConflictResult | Thrown

  datatype Point =
    | LookingUp | ReadingDuplicate(of: Id) | Reserving | Acquiring | Locking | Creating | Admitting | Appending | Completing
    | SavingObjective | BindingObjective | Releasing
    | UndoingRun(cause: Result) | UndoingLock(cause: Result) | UndoingKey(cause: Result)
    | Finished(result: Result)

  /** The locals of `admitValidated`. */
  datatype Saga = Saga(
    request: Request, at: Point, reserved: bool, locked: bool, created: Option<RunState>, bound: bool) {

    predicate HoldsKey() {
      reserved && !bound
    }
  }

  datatype Outcome = Outcome(st: Stores, saga: Saga)

  function Begin(request: Request): Saga {
    Saga(request, LookingUp, false, false, None, false)
  }

  /** The catch block. */
  function Failed(saga: Saga, cause: Result): Saga {
    saga.(at := UndoingRun(cause))
  }

  /** The next port call of admission `r`; `ok` false is a throw of that port or a refusal before it. */
  function Next(st: Stores, r: Id, saga: Saga, ok: bool): Outcome {
    var key, project := saga.request.key, saga.request.key.projectId;
    match saga.at
    case LookingUp =>
      if !ok then Outcome(st, saga.(at := Finished(Thrown)))
      else if key !in st.keys then Outcome(st, saga.(at := Reserving))
      else if st.keys[key].fingerprint != saga.request.fingerprint then Outcome(st, saga.(at := Finished(ConflictResult)))
      else if st.keys[key].binding.Active? then Outcome(st, saga.(at := ReadingDuplicate(st.keys[key].binding.runId)))
      else Outcome(st, saga.(at := Reserving))
    case ReadingDuplicate(of) =>
      Outcome(st, saga.(at := Finished(if !ok then Thrown else if of in st.runs then DuplicateResult(of) else ConflictResult)))
    case Reserving =>
      if !ok then Outcome(st, Failed(saga, Thrown))
      else if key !in st.keys then
        Outcome(st.(keys := st.keys[key := KeyRecord(saga.request.fingerprint, Reserved(r))]), saga.(at := Acquiring, reserved := true))
      else if st.keys[key].fingerprint != saga.request.fingerprint || st.keys[key].binding.Reserved?
      then Outcome(st, saga.(at := Finished(ConflictResult)))
      else Outcome(st, saga.(at := ReadingDuplicate(st.keys[key].binding.runId)))
    case Acquiring =>
      // a lookup that fails is reported as a conflict
      if !ok then Outcome(st, Failed(saga, ConflictResult))
      else if project !in st.locks then Outcome(st, saga.(at := Locking))
      else if st.locks[project] != r then Outcome(st, Failed(saga, ConflictResult))
      else Outcome(st, saga.(at := Creating, locked := true))
    case Locking =>
      // set without looking again
      if !ok then Outcome(st, Failed(saga, ConflictResult))
      else Outcome(st.(locks := st.locks[project := r]), saga.(at := Creating, locked := true))
    case Creating =>
      if !ok || r in st.runs || (exists x :: x in st.runs && st.runs[x].key == key) then Outcome(st, Failed(saga, Thrown))
      else Outcome(st.(runs := st.runs[r := Run(key, Received)]), saga.(at := Admitting, created := Some(Received)))
    case Admitting =>
      if !ok || r !in st.runs || st.runs[r].state != Received then Outcome(st, Failed(saga, Thrown))
      else Outcome(st.(runs := st.runs[r := st.runs[r].(state := Admitted)]), saga.(at := Appending, created := Some(Admitted)))
    case Appending =>
      Outcome(st, if ok then saga.(at := Completing) else Failed(saga, Thrown))
    case Completing =>
      if !ok || key !in st.keys || st.keys[key].binding.Active? then Outcome(st, Failed(saga, Thrown))
      else Outcome(st.(keys := st.keys[key := st.keys[key].(binding := Active(r))]), saga.(at := SavingObjective, bound := true))
    case SavingObjective => Outcome(st, if ok then saga.(at := BindingObjective) else Failed(saga, Thrown))
    case BindingObjective => Outcome(st, if ok then saga.(at := Releasing) else Failed(saga, Thrown))
    case Releasing =>
      if !ok then Outcome(st, Failed(saga, Thrown))
      else Outcome(Unlocked(st, project, r), saga.(at := Finished(AdmittedResult), locked := false))
    case UndoingRun(cause) =>
      if saga.created.None? || saga.bound then Outcome(st, saga.(at := UndoingLock(cause)))
      else
        var dead := if saga.created.value == Admitted then Cancelled else AdmissionRejected;
        if r !in st.runs || st.runs[r].state != saga.created.value then Outcome(st, saga.(at := Finished(Thrown)))
        else Outcome(st.(runs := st.runs[r := st.runs[r].(state := dead)]), saga.(at := UndoingLock(cause), created := Some(dead)))
    case UndoingLock(cause) =>
      Outcome(if saga.locked then Unlocked(st, project, r) else st, saga.(at := UndoingKey(cause), locked := false))
    case UndoingKey(cause) =>
      if saga.HoldsKey() && key in st.keys && st.keys[key].binding.Reserved?
      then Outcome(st.(keys := st.keys - {key}), saga.(at := Finished(cause), reserved := false))
      else Outcome(st, saga.(at := Finished(cause)))
    case Finished(_) => Outcome(st, saga)
  }

  /** `release`: only the run that holds the lock frees it. */
  function Unlocked(st: Stores, project: Id, r: Id): Stores {
    if project in st.locks && st.locks[project] == r then st.(locks := st.locks - {project}) else st
  }

  datatype System = System(st: Stores, sagas: map<Id, Saga>)

  datatype Label = Start(r: Id, request: Request) | Move(r: Id, ok: bool)

  predicate Enabled(s: System, l: Label) {
    if l.Start? then l.r !in s.sagas && l.r !in s.st.runs else l.r in s.sagas
  }

  function Apply(s: System, l: Label): System
    requires Enabled(s, l)
  {
    match l
    case Start(r, request) => s.(sagas := s.sagas[r := Begin(request)])
    case Move(r, ok) => var o := Next(s.st, r, s.sagas[r], ok); System(o.st, s.sagas[r := o.saga])
  }

  const EmptySystem := System(Stores(map[], map[], map[]), map[])

  predicate Schedule(labels: seq<Label>)
    decreases |labels|, 0
  {
    labels == [] || (Schedule(labels[..|labels| - 1])
                     && Enabled(After(labels[..|labels| - 1]), labels[|labels| - 1]))
  }

  function After(labels: seq<Label>): System
    requires Schedule(labels)
    decreases |labels|, 1
  {
    if labels == [] then EmptySystem
    else Apply(After(labels[..|labels| - 1]), labels[|labels| - 1])
  }

  // ----- what every step keeps -----

  /** The flags that each point of the saga implies. */
  predicate FlagsValid(saga: Saga) {
    match saga.at
    case LookingUp => !saga.reserved && !saga.locked && saga.created.None? && !saga.bound
    case ReadingDuplicate(_) => !saga.reserved && !saga.locked && saga.created.None? && !saga.bound
    case Reserving => !saga.reserved && !saga.locked && saga.created.None? && !saga.bound
    case Acquiring => saga.reserved && !saga.locked && saga.created.None? && !saga.bound
    case Locking => saga.reserved && !saga.locked && saga.created.None? && !saga.bound
    case Creating => saga.reserved && saga.locked && saga.created.None? && !saga.bound
    case Admitting => saga.reserved && saga.locked && saga.created == Some(Received) && !saga.bound
    case Appending => saga.reserved && saga.locked && saga.created == Some(Admitted) && !saga.bound
    case Completing => saga.reserved && saga.locked && saga.created == Some(Admitted) && !saga.bound
    case UndoingRun(cause) =>
      && cause != AdmittedResult && (saga.bound ==> saga.created == Some(Admitted))
      && (saga.created.Some? ==> saga.created.value == Received || saga.created.value == Admitted)
    case UndoingLock(cause) => Settled(saga) && cause != AdmittedResult
    case UndoingKey(cause) => Settled(saga) && !saga.locked && cause != AdmittedResult
    case Finished(result) => Settled(saga) && !saga.locked && !saga.HoldsKey() && (result == AdmittedResult ==> saga.bound)
    case _ => saga.bound && saga.locked && saga.created == Some(Admitted)
  }

  /** The run of the saga is admitted with its key bound, or dead, or was never created. */
  predicate Settled(saga: Saga) {
    if saga.bound then saga.created == Some(Admitted)
    else saga.created.None? || saga.created.value == AdmissionRejected || saga.created.value == Cancelled
  }

  /** The stores hold for admission `r` exactly what its flags say, but a lock that it set may be another's by now. */
  predicate Mirrored(st: Stores, r: Id, saga: Saga) {
    var key, project := saga.request.key, saga.request.key.projectId;
    && (saga.HoldsKey() <==> key in st.keys && st.keys[key].binding == Reserved(r))
    && (saga.bound <==> key in st.keys && st.keys[key].binding == Active(r))
    && (Owns(st, r, project) ==> saga.locked)
    && (saga.created.Some? <==> r in st.runs)
    && (saga.created.Some? ==> st.runs[r] == Run(key, saga.created.value))
  }

  predicate Owns(st: Stores, r: Id, project: Id) {
    project in st.locks && st.locks[project] == r
  }

  function OwnerOf(b: Binding): Id {
    if b.Reserved? then b.owner else b.runId
  }

  /** Nothing in the stores is without its admission. */
  ghost predicate Owned(s: System) {
    && (forall k :: k in s.st.keys ==>
          OwnerOf(s.st.keys[k].binding) in s.sagas && s.sagas[OwnerOf(s.st.keys[k].binding)].request.key == k)
    && (forall p :: p in s.st.locks ==> s.st.locks[p] in s.sagas && s.sagas[s.st.locks[p]].request.key.projectId == p)
    && (forall r :: r in s.st.runs ==> r in s.sagas)
  }

  predicate OneRunPerKey(st: Stores) {
    forall x, y :: x in st.runs && y in st.runs && st.runs[x].key == st.runs[y].key ==> x == y
  }

  ghost predicate Valid(s: System) {
    && (forall r :: r in s.sagas ==> FlagsValid(s.sagas[r]) && Mirrored(s.st, r, s.sagas[r]))
    && Owned(s)
    && OneRunPerKey(s.st)
  }

  lemma MoverMirrored(st: Stores, r: Id, saga: Saga, ok: bool)
    requires FlagsValid(saga) && Mirrored(st, r, saga)
    ensures var o := Next(st, r, saga, ok); FlagsValid(o.saga) && Mirrored(o.st, r, o.saga) && o.saga.request == saga.request
  {}

  /** A step writes only what its own flags cover. */
  lemma OthersMirrored(st: Stores, r: Id, saga: Saga, ok: bool, q: Id, other: Saga)
    requires FlagsValid(saga) && Mirrored(st, r, saga) && Mirrored(st, q, other) && q != r
    ensures Mirrored(Next(st, r, saga, ok).st, q, other)
  {}

  /** Whatever a step adds to the stores belongs to the admission that makes it. */
  lemma StepWritesKeys(st: Stores, r: Id, saga: Saga, ok: bool, k: Key)
    requires k in Next(st, r, saga, ok).st.keys
    ensures var b := Next(st, r, saga, ok).st;
            || (k in st.keys && OwnerOf(b.keys[k].binding) == OwnerOf(st.keys[k].binding))
            || (k == saga.request.key && OwnerOf(b.keys[k].binding) == r)
  {}

  lemma StepWritesLocks(st: Stores, r: Id, saga: Saga, ok: bool, p: Id)
    requires p in Next(st, r, saga, ok).st.locks
    ensures var b := Next(st, r, saga, ok).st;
            (p in st.locks && b.locks[p] == st.locks[p]) || (p == saga.request.key.projectId && b.locks[p] == r)
  {}

  lemma StepWritesRuns(st: Stores, r: Id, saga: Saga, ok: bool)
    ensures var b := Next(st, r, saga, ok).st; forall x :: x in b.runs ==> x in st.runs || x == r
    ensures Next(st, r, saga, ok).saga.request == saga.request
  {}

  lemma StepOwned(s: System, r: Id, ok: bool)
    requires Owned(s) && r in s.sagas
    ensures Owned(Apply(s, Move(r, ok)))
  {
    var b := Next(s.st, r, s.sagas[r], ok).st;
    StepWritesRuns(s.st, r, s.sagas[r], ok);
    forall k | k in b.keys
      ensures OwnerOf(b.keys[k].binding) in s.sagas && s.sagas[OwnerOf(b.keys[k].binding)].request.key == k
    {
      StepWritesKeys(s.st, r, s.sagas[r], ok, k);
    }
    forall p | p in b.locks ensures b.locks[p] in s.sagas && s.sagas[b.locks[p]].request.key.projectId == p {
      StepWritesLocks(s.st, r, s.sagas[r], ok, p);
    }
    hide Next;
  }

  lemma StepOneRun(st: Stores, r: Id, saga: Saga, ok: bool)
    requires OneRunPerKey(st)
    ensures OneRunPerKey(Next(st, r, saga, ok).st)
  {}

  lemma StepValid(s: System, l: Label)
    requires Valid(s) && Enabled(s, l)
    ensures Valid(Apply(s, l))
  {
    match l
    case Start(r, request) =>
    case Move(r, ok) =>
      MoverMirrored(s.st, r, s.sagas[r], ok);
      StepOwned(s, r, ok);
      StepOneRun(s.st, r, s.sagas[r], ok);
      forall q | q in s.sagas && q != r ensures Mirrored(Apply(s, l).st, q, s.sagas[q]) {
        OthersMirrored(s.st, r, s.sagas[r], ok, q, s.sagas[q]);
      }
      hide Next, FlagsValid, Mirrored, Owned, OneRunPerKey;
  }

  lemma {:induction false} RunValid(labels: seq<Label>)
    requires Schedule(labels)
    ensures Valid(After(labels))
  {
    if labels != [] {
      RunValid(labels[..|labels| - 1]);
      StepValid(After(labels[..|labels| - 1]), labels[|labels| - 1]);
    }
  }

  ghost predicate Quiet(s: System) {
    forall r :: r in s.sagas ==> s.sagas[r].at.Finished?
  }

  /**
   * Once no admission is in progress, no lock and no reserved key is left, and a key is bound to a
   * run exactly when that run is ADMITTED under the key, which then is the only run of the key.
   */
  lemma QuietIsClean(labels: seq<Label>, k: Key, r: Id)
    requires Schedule(labels) && Quiet(After(labels))
    ensures var st := After(labels).st;
            && st.locks == map[]
            && (k in st.keys ==> st.keys[k].binding.Active?)
            && ((k in st.keys && st.keys[k].binding == Active(r)) <==> (r in st.runs && st.runs[r] == Run(k, Admitted)))
            && forall x, y :: x in st.runs && y in st.runs && st.runs[x].key == k && st.runs[y].key == k ==> x == y
  {
    RunValid(labels);
    hide Schedule, After;
    QuietOwners(After(labels), k);
    if r in After(labels).st.runs { FinishedClean(After(labels), r); }
  }

  lemma FinishedClean(s: System, q: Id)
    requires Valid(s) && Quiet(s) && q in s.sagas
    ensures var saga := s.sagas[q];
            && !saga.HoldsKey() && !saga.locked && Mirrored(s.st, q, saga)
            && (saga.created == Some(Admitted) <==> saga.bound)
  {
    assert FlagsValid(s.sagas[q]);
  }

  lemma QuietOwners(s: System, k: Key)
    requires Valid(s) && Quiet(s)
    ensures s.st.locks == map[]
    ensures k in s.st.keys ==> s.st.keys[k].binding.Active? && s.st.keys[k].binding.runId in s.sagas
                               && s.st.keys[k].binding.runId in s.st.runs
                               && s.st.runs[s.st.keys[k].binding.runId] == Run(k, Admitted)
  {
    hide Mirrored, FlagsValid, OneRunPerKey;
    LocksFreed(s);
    if k in s.st.keys { KeyHolder(s, k); }
  }

  lemma LocksFreed(s: System)
    requires Valid(s) && Quiet(s)
    ensures s.st.locks == map[]
  {
    forall p ensures p !in s.st.locks {
      if p in s.st.locks { FinishedClean(s, s.st.locks[p]); }
    }
  }

  lemma KeyHolder(s: System, k: Key)
    requires Valid(s) && Quiet(s) && k in s.st.keys
    ensures var q := OwnerOf(s.st.keys[k].binding);
            s.st.keys[k].binding == Active(q) && q in s.sagas && q in s.st.runs && s.st.runs[q] == Run(k, Admitted)
  {
    var q := OwnerOf(s.st.keys[k].binding);
    FinishedClean(s, q);
  }

  /** In any run at most one admission of a key returns ADMITTED. */
  lemma AdmittedAtMostOnce(labels: seq<Label>, a: Id, b: Id)
    requires Schedule(labels) && a in After(labels).sagas && b in After(labels).sagas
    requires After(labels).sagas[a].at == Finished(AdmittedResult) && After(labels).sagas[b].at == Finished(AdmittedResult)
    requires After(labels).sagas[a].request.key == After(labels).sagas[b].request.key
    ensures a == b
  {
    RunValid(labels);
    var s := After(labels);
    assert Mirrored(s.st, a, s.sagas[a]) && Mirrored(s.st, b, s.sagas[b]);
    assert FlagsValid(s.sagas[a]) && FlagsValid(s.sagas[b]);
  }

  predicate Dead(st: Stores, r: Id, k: Key) {
    r in st.runs && st.runs[r].key == k && (st.runs[r].state == Cancelled || st.runs[r].state == AdmissionRejected)
  }

  lemma DeadStays(s: System, l: Label, r: Id, k: Key)
    requires Valid(s) && Enabled(s, l) && Dead(s.st, r, k)
    ensures Dead(Apply(s, l).st, r, k)
  {
    if l.Move? { assert FlagsValid(s.sagas[l.r]); }
  }

  lemma {:induction false} DeadStaysOver(labels: seq<Label>, i: nat, r: Id, k: Key)
    requires Schedule(labels) && i <= |labels| && Schedule(labels[..i]) && Dead(After(labels[..i]).st, r, k)
    ensures Dead(After(labels).st, r, k)
    decreases |labels|
  {
    if i == |labels| {
      assert labels[..i] == labels;
    } else {
      var front := labels[..|labels| - 1];
      assert front[..i] == labels[..i];
      DeadStaysOver(front, i, r, k);
      RunValid(front);
      DeadStays(After(front), labels[|labels| - 1], r, k);
    }
  }

  /**
   * A run that was created and then compensated keeps its key for ever: the run repository refuses
   * a second run under it, so no later admission of that key returns ADMITTED.
   */
  lemma CompensatedKeyNeverAdmitted(labels: seq<Label>, i: nat, r: Id, a: Id)
    requires Schedule(labels) && i <= |labels| && Schedule(labels[..i])
    requires a in After(labels).sagas && Dead(After(labels[..i]).st, r, After(labels).sagas[a].request.key)
    ensures After(labels).sagas[a].at != Finished(AdmittedResult)
  {
    var s := After(labels);
    RunValid(labels);
    DeadStaysOver(labels, i, r, s.sagas[a].request.key);
    assert FlagsValid(s.sagas[a]) && Mirrored(s.st, a, s.sagas[a]);
  }

  // ----- the lock -----

  /** Both think that they have the lock of one project. */
  predicate Shared(a: Saga, b: Saga) {
    a.locked && b.locked && a.request.key.projectId == b.request.key.projectId
  }

  /** A project is locked by one admission at a time. */
  ghost predicate OneHolder(s: System) {
    forall a, b :: a in s.sagas && b in s.sagas && Shared(s.sagas[a], s.sagas[b]) ==> a == b
  }

  /** A lock is set over another one that was set after this admission looked. */
  predicate Overwrites(s: System, l: Label) {
    && l.Move? && l.ok && l.r in s.sagas && s.sagas[l.r].at == Locking
    && s.sagas[l.r].request.key.projectId in s.st.locks
  }

  ghost predicate AllOneHolder(labels: seq<Label>)
    requires Schedule(labels)
    decreases |labels|
  {
    OneHolder(After(labels)) && (labels != [] ==> AllOneHolder(labels[..|labels| - 1]))
  }

  ghost predicate NeverOverwrites(labels: seq<Label>)
    requires Schedule(labels)
    decreases |labels|
  {
    labels != [] ==>
      var n := |labels| - 1;
      !Overwrites(After(labels[..n]), labels[n]) && NeverOverwrites(labels[..n])
  }

  /** Every admission that thinks it has the lock has it. */
  ghost predicate AllOwn(s: System) {
    forall r :: r in s.sagas && s.sagas[r].locked ==> Owns(s.st, r, s.sagas[r].request.key.projectId)
  }

  lemma MoverOwns(st: Stores, r: Id, saga: Saga, ok: bool)
    requires FlagsValid(saga) && (saga.locked ==> Owns(st, r, saga.request.key.projectId))
    ensures var o := Next(st, r, saga, ok); o.saga.locked ==> Owns(o.st, r, saga.request.key.projectId)
  {}

  lemma OtherOwns(st: Stores, r: Id, saga: Saga, ok: bool, q: Id, project: Id)
    requires q != r && Owns(st, q, project) && !(saga.at == Locking && ok && saga.request.key.projectId in st.locks)
    ensures Owns(Next(st, r, saga, ok).st, q, project)
  {}

  lemma AllOwnKept(s: System, l: Label)
    requires Valid(s) && Enabled(s, l) && AllOwn(s) && !Overwrites(s, l)
    ensures AllOwn(Apply(s, l))
  {
    if l.Move? {
      var r, saga := l.r, s.sagas[l.r];
      MoverOwns(s.st, r, saga, l.ok);
      StepWritesRuns(s.st, r, saga, l.ok);
      forall q | q in s.sagas && q != r && s.sagas[q].locked ensures Owns(Apply(s, l).st, q, s.sagas[q].request.key.projectId) {
        OtherOwns(s.st, r, saga, l.ok, q, s.sagas[q].request.key.projectId);
      }
      hide Next, Owns, Mirrored, FlagsValid, Owned, OneRunPerKey;
    }
  }

  lemma OverwrittenShared(s: System, l: Label)
    requires Valid(s) && Enabled(s, l) && Overwrites(s, l)
    ensures !OneHolder(Apply(s, l))
  {
    var project := s.sagas[l.r].request.key.projectId;
    var q := s.st.locks[project];
    assert FlagsValid(s.sagas[l.r]) && Mirrored(s.st, l.r, s.sagas[l.r]) && Mirrored(s.st, q, s.sagas[q]);
    var b := Apply(s, l);
    assert b.sagas[l.r].locked && b.sagas[q].locked && q != l.r;
  }

  lemma {:induction false} AllOwnOver(labels: seq<Label>)
    requires Schedule(labels) && NeverOverwrites(labels)
    ensures AllOwn(After(labels)) && AllOneHolder(labels)
    decreases |labels|
  {
    if labels != [] {
      var front := labels[..|labels| - 1];
      RunValid(front);
      AllOwnOver(front);
      AllOwnKept(After(front), labels[|labels| - 1]);
    }
  }

  /** The lock excludes throughout a run exactly when it is never set over another, that is, exactly when setting it compared. */
  lemma {:induction false} LockExcludesExactly(labels: seq<Label>)
    requires Schedule(labels)
    ensures AllOneHolder(labels) <==> NeverOverwrites(labels)
    decreases |labels|
  {
    if NeverOverwrites(labels) {
      AllOwnOver(labels);
    } else {
      var front := labels[..|labels| - 1];
      RunValid(front);
      LockExcludesExactly(front);
      if Overwrites(After(front), labels[|labels| - 1]) { OverwrittenShared(After(front), labels[|labels| - 1]); }
      hide Enabled, Apply, Overwrites, OneHolder, Valid;
    }
  }

  /** Admission `r` for project 0, at one of its first points. */
  function Begun(r: Id, at: Point): Saga {
    Saga(Request(Key(0, 0, 0, r), 0), at, at != LookingUp && at != Reserving, false, None, false)
  }

  lemma Then(labels: seq<Label>, s: System, l: Label) returns (more: seq<Label>, b: System)
    requires Schedule(labels) && After(labels) == s && Enabled(s, l)
    ensures b == Apply(s, l) && Schedule(more) && After(more) == b
  {
    more, b := labels + [l], Apply(s, l);
    assert more[..|more| - 1] == labels;
  }

  /** An admission for a free key of an unlocked project comes to the setting of its lock. */
  lemma ReachesLocking(labels: seq<Label>, s: System, r: Id) returns (more: seq<Label>, b: System)
    requires Schedule(labels) && After(labels) == s && r !in s.sagas && r !in s.st.runs
    requires Begun(r, LookingUp).request.key !in s.st.keys && s.st.locks == map[]
    ensures Schedule(more) && After(more) == b
    ensures b == System(s.st.(keys := s.st.keys[Key(0, 0, 0, r) := KeyRecord(0, Reserved(r))]), s.sagas[r := Begun(r, Locking)])
  {
    hide Schedule, After;
    more, b := Then(labels, s, Start(r, Request(Key(0, 0, 0, r), 0)));
    more, b := Then(more, b, Move(r, true));
    assert b.sagas[r] == Begun(r, Reserving);
    more, b := Then(more, b, Move(r, true));
    assert b.sagas[r] == Begun(r, Acquiring);
    more, b := Then(more, b, Move(r, true));
  }

  /** Two admissions for one project look before either sets, and both go on with the lock. */
  lemma OverlappingAcquires() returns (labels: seq<Label>)
    ensures Schedule(labels) && 1 in After(labels).sagas && 2 in After(labels).sagas
    ensures After(labels).sagas[1].at == Creating && After(labels).sagas[2].at == Creating
    ensures !OneHolder(After(labels))
  {
    var s;
    labels, s := ReachesLocking([], EmptySystem, 1);
    labels, s := ReachesLocking(labels, s, 2);
    hide Schedule, After;
    labels, s := Then(labels, s, Move(1, true));
    labels, s := Then(labels, s, Move(2, true));
    assert Shared(s.sagas[1], s.sagas[2]);
  }
}
