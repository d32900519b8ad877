/**
 * The usage ledger of a causal question: compare-and-set rows, and reservations that read, check
 * the budget and write in two awaits.
 */
module CausalLedger {
  import opened Wrappers

  datatype Usage = Usage(graphModelCalls: int, modelTokens: int, estimators: int, synthesisOperations: int)

  function Nothing(): Usage {
    Usage(0, 0, 0, 0)
  }

  function Plus(a: Usage, b: Usage): Usage {
    Usage(a.graphModelCalls + b.graphModelCalls, a.modelTokens + b.modelTokens,
          a.estimators + b.estimators, a.synthesisOperations + b.synthesisOperations)
  }

  predicate Within(a: Usage, budget: Usage) {
    && a.graphModelCalls <= budget.graphModelCalls && a.modelTokens <= budget.modelTokens
    && a.estimators <= budget.estimators && a.synthesisOperations <= budget.synthesisOperations
  }

  datatype Row = Row(usage: Usage, recordRevision: nat)

  /** `save`: with a revision it is a compare-and-set, without one it overwrites. `None` is a conflict. */
  function Saved(row: Option<Row>, usage: Usage, expected: Option<nat>): Option<Row> {
    if expected.Some? && (row.None? || row.value.recordRevision != expected.value) then None
    else Some(Row(usage, (if row.None? then 0 else row.value.recordRevision) + 1))
  }

  class UsageLedger {
    var byId: map<nat, Row>

    constructor ()
      ensures byId == map[]
    {
      byId := map[];
    }

    function Lookup(id: nat): Option<Row>
      reads this
    {
      if id in byId then Some(byId[id]) else None
    }

    method Save(id: nat, usage: Usage, expected: Option<nat>) returns (saved: Option<Row>)
      modifies this
      ensures saved == Saved(old(Lookup(id)), usage, expected)
      ensures byId == if saved.Some? then old(byId)[id := saved.value] else old(byId)
    {
      if expected.Some? {
        if id !in byId || byId[id].recordRevision != expected.value { return None; }
      }
      var revision := if id in byId then byId[id].recordRevision else 0;
      var next := Row(usage, revision + 1);
      byId := byId[id := next];
      return Some(next);
    }

    method Ensure(id: nat) returns (row: Row)
      modifies this
      ensures byId == if id in old(byId) then old(byId) else old(byId)[id := Row(Nothing(), 1)]
      ensures id in byId && row == byId[id]
    {
      if id in byId { return byId[id]; }
      row := Row(Nothing(), 1);
      byId := byId[id := row];
    }

    /** `reserveCausalUsage`, uninterrupted: both its halves. */
    method Reserve(id: nat, budget: Usage, delta: Usage) returns (granted: bool)
      modifies this
      ensures var was := old(Lookup(id));
              var read := Run(Begun(was, budget), [Get(0, delta), Put(0)]);
              Lookup(id) == read.row && (granted <==> read.granted == delta && 0 in read.done)
      ensures forall other :: other != id ==> Lookup(other) == old(Lookup(other))
    {
      ghost var s0 := Begun(Lookup(id), budget);
      ghost var s1 := Next(s0, Get(0, delta));
      assert Run(s0, [Get(0, delta), Put(0)]) == Next(s1, Put(0)) by {
        assert [Get(0, delta), Put(0)][..1] == [Get(0, delta)] && [Get(0, delta)][..0] == [];
        assert Run(s0, []) == s0 && Run(s0, [Get(0, delta)]) == s1;
      }
      var existing := Lookup(id);
      var current := if existing.Some? then existing.value.usage else Nothing();
      var next := Plus(current, delta);
      if !Within(next, budget) { return false; }
      var saved := Save(id, next, if existing.Some? then Some(existing.value.recordRevision) else None);
      return saved.Some?;
    }
  }

  // ----- interleaved reservations on one row -----

  datatype Reservation = Reservation(delta: Usage, existing: Option<Row>)

  /** `granted` and `lost` are history: what was granted, and what overwriting saves threw away. */
  datatype Ledger = Ledger(
    budget: Usage, row: Option<Row>, reading: map<nat, Reservation>, done: set<nat>, granted: Usage, lost: Usage)

  datatype Event =
    | Get(t: nat, delta: Usage)
    | Put(t: nat)
    | EnsureRow

  function Begun(row: Option<Row>, budget: Usage): Ledger {
    Ledger(budget, row, map[], {}, Nothing(), Nothing())
  }

  function CurrentOf(row: Option<Row>): Usage {
    if row.None? then Nothing() else row.value.usage
  }

  /** The save of reservation `t` overwrites a row that it did not see. */
  predicate Blind(s: Ledger, t: nat) {
    t in s.reading && s.reading[t].existing.None? && s.row.Some?
  }

  function Next(s: Ledger, e: Event): Ledger {
    match e
    case EnsureRow => if s.row.Some? then s else s.(row := Some(Row(Nothing(), 1)))
    case Get(t, delta) => s.(reading := s.reading[t := Reservation(delta, s.row)])
    case Put(t) =>
      if t !in s.reading then s
      else
        var r := s.reading[t];
        var rest := s.(reading := s.reading - {t});
        var next := Plus(CurrentOf(r.existing), r.delta);
        if !Within(next, s.budget) then rest
        else
          var saved := Saved(s.row, next, if r.existing.Some? then Some(r.existing.value.recordRevision) else None);
          if saved.None? then rest
          else rest.(row := saved, done := s.done + {t}, granted := Plus(s.granted, r.delta),
                     lost := if Blind(s, t) then Plus(s.lost, s.row.value.usage) else s.lost)
  }

  function Run(s: Ledger, events: seq<Event>): Ledger {
    if events == [] then s else Next(Run(s, events[..|events| - 1]), events[|events| - 1])
  }

  /** What a reservation has read is an earlier version of the row; an equal revision is an equal row. */
  predicate ReadsValid(s: Ledger) {
    forall t :: t in s.reading && s.reading[t].existing.Some? ==>
      && s.row.Some? && s.reading[t].existing.value.recordRevision <= s.row.value.recordRevision
      && (s.reading[t].existing.value.recordRevision == s.row.value.recordRevision ==> s.reading[t].existing == s.row)
  }

  predicate LedgerValid(s: Ledger) {
    && (s.row.Some? ==> Within(s.row.value.usage, s.budget))
    && ReadsValid(s)
    && s.granted == Plus(CurrentOf(s.row), s.lost)
  }

  lemma NextValid(s: Ledger, e: Event)
    requires LedgerValid(s) && Within(Nothing(), s.budget)
    ensures LedgerValid(Next(s, e)) && Next(s, e).budget == s.budget
  {
    if e.Put? && e.t in s.reading && s.reading[e.t].existing.Some? && s.row.Some? {
      assert s.reading[e.t].existing.value.recordRevision == s.row.value.recordRevision ==> s.reading[e.t].existing == s.row;
    }
  }

  lemma {:induction false} RunValid(budget: Usage, events: seq<Event>)
    requires Within(Nothing(), budget)
    ensures LedgerValid(Run(Begun(None, budget), events)) && Run(Begun(None, budget), events).budget == budget
  {
    if events == [] {
    } else {
      hide LedgerValid, Next;
      RunValid(budget, events[..|events| - 1]);
      NextValid(Run(Begun(None, budget), events[..|events| - 1]), events[|events| - 1]);
    }
  }

  /** In every interleaving the stored counters stay within the budget. */
  lemma StoredWithinBudget(budget: Usage, events: seq<Event>)
    requires Within(Nothing(), budget)
    ensures Within(CurrentOf(Run(Begun(None, budget), events).row), budget)
  {
    RunValid(budget, events);
  }

  /**
   * Conservation: what was granted is what is stored plus what saves that had seen no row threw
   * away. So the stored counters are the sum of the grants exactly when nothing was thrown away.
   */
  lemma GrantsAccounted(budget: Usage, events: seq<Event>)
    requires Within(Nothing(), budget)
    ensures var s := Run(Begun(None, budget), events);
            && s.granted == Plus(CurrentOf(s.row), s.lost)
            && (s.granted == CurrentOf(s.row) <==> s.lost == Nothing())
  {
    RunValid(budget, events);
    hide Run, ReadsValid;
  }

  /** The row exists before any reservation reads it. */
  predicate EnsuredFirst(events: seq<Event>) {
    forall i :: 0 <= i < |events| && events[i].Get? ==> EnsureRow in events[..i]
  }

  lemma {:induction false} EnsuredRow(s: Ledger, events: seq<Event>)
    requires EnsureRow in events || s.row.Some?
    ensures Run(s, events).row.Some?
  {
    if events != [] {
      var front := events[..|events| - 1];
      if EnsureRow in front || s.row.Some? { EnsuredRow(s, front); }
    }
  }

  lemma {:induction false} NothingLost(budget: Usage, events: seq<Event>)
    requires EnsuredFirst(events)
    ensures var s := Run(Begun(None, budget), events);
            s.lost == Nothing() && forall t :: t in s.reading ==> s.reading[t].existing.Some?
  {
    if events != [] {
      var n := |events| - 1;
      var front := events[..n];
      assert forall i :: 0 <= i < n ==> front[..i] == events[..i];
      NothingLost(budget, front);
      if events[n].Get? { EnsuredRow(Begun(None, budget), front); }
    }
  }

  /** With the row ensured before any reader, all grants together stay within the budget. */
  lemma GrantsWithinBudget(budget: Usage, events: seq<Event>)
    requires Within(Nothing(), budget) && EnsuredFirst(events)
    ensures var s := Run(Begun(None, budget), events); s.granted == CurrentOf(s.row) && Within(s.granted, budget)
  {
    NothingLost(budget, events);
    GrantsAccounted(budget, events);
    StoredWithinBudget(budget, events);
    hide Run, Plus, Within, CurrentOf;
  }

  /** Without that, two first reservations are both granted and only the later one is counted. */
  lemma FirstInsertsOverwrite(budget: Usage, a: Usage, b: Usage)
    requires Within(a, budget) && Within(b, budget) && a != Nothing()
    ensures var s := Run(Begun(None, budget), [Get(0, a), Get(1, b), Put(0), Put(1)]);
            s.done == {0, 1} && s.granted == Plus(a, b) && CurrentOf(s.row) == b && s.lost == a
  {
    var s0 := Begun(None, budget);
    var events := [Get(0, a), Get(1, b), Put(0), Put(1)];
    assert events[..3] == [Get(0, a), Get(1, b), Put(0)] && events[..3][..2] == [Get(0, a), Get(1, b)];
    assert events[..3][..2][..1] == [Get(0, a)] && events[..3][..2][..1][..0] == [];
    var s1 := Next(s0, Get(0, a));
    assert Run(s0, []) == s0 && Run(s0, [Get(0, a)]) == s1;
    var s2 := Next(s1, Get(1, b));
    assert Run(s0, [Get(0, a), Get(1, b)]) == s2;
    var s3 := Next(s2, Put(0));
    assert Run(s0, events[..3]) == s3;
    assert Run(s0, events) == Next(s3, Put(1));
  }
}
