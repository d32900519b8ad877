/**
 * Causal graphs and their validator: a depth-first search for cycles over two mutable sets, and
 * the loops that collect the other reasons to block a graph.
 */
module CausalGraph {
  import opened Wrappers

  type Id = nat

  datatype VariableClass = Intervention | Outcome | OtherClass(name: Id)

  datatype Node = Node(variableId: Id, variableClass: VariableClass, unit: Id)
  datatype Edge = Edge(edgeId: Id, from: Id, to: Id, edgeType: Id, provenance: Id)
  datatype EdgeKey = EdgeKey(from: Id, to: Id, edgeType: Id, provenance: Id)
  datatype Graph = Graph(nodes: seq<Node>, edges: seq<Edge>)

  function KeyOf(e: Edge): EdgeKey {
    EdgeKey(e.from, e.to, e.edgeType, e.provenance)
  }

  function NodeIds(g: Graph): set<Id> {
    set n | n in g.nodes :: n.variableId
  }

  // ----- cycles -----

  /** An edge that leaves a known node; where it goes need not be known. */
  ghost predicate Arc(g: Graph, u: Id, v: Id) {
    u in NodeIds(g) && exists e :: e in g.edges && e.from == u && e.to == v
  }

  ghost predicate Path(g: Graph, p: seq<Id>) {
    forall i :: 0 <= i < |p| - 1 ==> Arc(g, p[i], p[i + 1])
  }

  ghost predicate Cycle(g: Graph, p: seq<Id>) {
    |p| >= 2 && p[0] == p[|p| - 1] && Path(g, p)
  }

  ghost predicate Cyclic(g: Graph) {
    exists p :: Cycle(g, p)
  }

  /** Whatever an element points to stands before it: the order in which a search finishes. */
  ghost predicate Finished(g: Graph, order: seq<Id>) {
    Distinct(order) && forall i, v :: 0 <= i < |order| && Arc(g, order[i], v) ==> v in order[..i]
  }

  function Elements(s: seq<Id>): set<Id> {
    set x | x in s
  }

  lemma ArcDescends(g: Graph, order: seq<Id>, u: Id, v: Id)
    requires Finished(g, order) && u in order && Arc(g, u, v)
    ensures v in order && IndexOf(order, v) < IndexOf(order, u)
  {
    var i := IndexOf(order, u);
    assert v in order[..i];
    var j :| 0 <= j < i && order[j] == v;
  }

  lemma {:induction false} PathDescends(g: Graph, order: seq<Id>, p: seq<Id>, k: nat)
    requires Finished(g, order) && 0 < k < |p| && Path(g, p) && p[0] in order
    ensures p[k] in order && IndexOf(order, p[k]) < IndexOf(order, p[0])
    decreases k
  {
    if k > 1 { PathDescends(g, order, p, k - 1); }
    ArcDescends(g, order, p[k - 1], p[k]);
  }

  /** A finishing order of all nodes rules out cycles. */
  lemma FinishedAcyclic(g: Graph, order: seq<Id>)
    requires Finished(g, order) && NodeIds(g) <= Elements(order)
    ensures !Cyclic(g)
  {
    forall p ensures !Cycle(g, p) {
      if Cycle(g, p) {
        assert Arc(g, p[0], p[1]);
        PathDescends(g, order, p, |p| - 1);
      }
    }
  }

  /** `hasDirectedCycle`'s adjacency map: one list per node, filled from the edges. */
  method Adjacency(g: Graph) returns (adj: map<Id, seq<Id>>)
    ensures adj.Keys == NodeIds(g)
    ensures forall u, v :: u in adj ==> (v in adj[u] <==> Arc(g, u, v))
  {
    adj := map[];
    for i := 0 to |g.nodes|
      invariant adj.Keys == set n | n in g.nodes[..i] :: n.variableId
      invariant forall u :: u in adj ==> adj[u] == []
    {
      adj := adj[g.nodes[i].variableId := []];
    }
    assert g.nodes[..|g.nodes|] == g.nodes;
    for i := 0 to |g.edges|
      invariant adj.Keys == NodeIds(g)
      invariant forall u, v :: u in adj ==> (v in adj[u] <==> exists e :: e in g.edges[..i] && e.from == u && e.to == v)
    {
      var e := g.edges[i];
      assert g.edges[..i + 1] == g.edges[..i] + [e];
      if e.from in adj { adj := adj[e.from := adj[e.from] + [e.to]]; }
    }
    assert g.edges[..|g.edges|] == g.edges;
  }

  /** Every node and every edge target. */
  function Universe(g: Graph): set<Id> {
    NodeIds(g) + set e | e in g.edges :: e.to
  }

  lemma BackEdge(g: Graph, stack: seq<Id>, id: Id)
    requires Path(g, stack + [id]) && id in stack
    ensures Cyclic(g)
  {
    assert Cycle(g, (stack + [id])[IndexOf(stack, id)..]);
  }

  lemma LongerPath(g: Graph, stack: seq<Id>, id: Id, next: Id)
    requires Path(g, stack + [id]) && Arc(g, id, next)
    ensures Path(g, stack + [id] + [next])
  {}

  class Search {
    ghost const g: Graph
    const adj: map<Id, seq<Id>>
    var visiting: set<Id>
    var visited: set<Id>
    ghost var order: seq<Id>

    constructor (ghost g: Graph, adj: map<Id, seq<Id>>)
      ensures this.g == g && this.adj == adj && visiting == {} && visited == {} && order == []
    {
      this.g, this.adj := g, adj;
      visiting, visited, order := {}, {}, [];
    }

    ghost predicate Valid()
      reads this
    {
      && (forall u, v :: u in adj ==> (v in adj[u] <==> Arc(g, u, v)))
      && adj.Keys == NodeIds(g)
      && Finished(g, order) && visited == Elements(order) && visited !! visiting && visited <= Universe(g)
    }

    /** The recursive closure. `stack` is the path of nodes being visited. */
    method Dfs(id: Id, ghost stack: seq<Id>) returns (cycle: bool)
      requires Valid() && id in Universe(g)
      requires Path(g, stack + [id]) && visiting == Elements(stack) && visiting <= Universe(g)
      modifies this
      ensures cycle ==> Cyclic(g)
      ensures !cycle ==> Valid() && visiting == old(visiting) && old(visited) <= visited && id in visited
      decreases Universe(g) - visiting
    {
      hide Path, Finished, Arc, Universe;
      if id in visiting {
        BackEdge(g, stack, id);
        return true;
      }
      if id in visited { return false; }
      visiting := visiting + {id};
      assert visiting == Elements(stack + [id]);
      var targets := if id in adj then adj[id] else [];
      for k := 0 to |targets|
        invariant Valid() && visiting == old(visiting) + {id} && old(visited) <= visited
        invariant forall j :: 0 <= j < k ==> targets[j] in visited
      {
        assert Arc(g, id, targets[k]);
        ArcTarget(id, targets[k]);
        LongerPath(g, stack, id, targets[k]);
        var deeper := Dfs(targets[k], stack + [id]);
        if deeper { return true; }
      }
      ArcLeavesNode(id);
      Finish(id);
      visiting := visiting - {id};
      visited := visited + {id};
      order := order + [id];
      return false;
    }

    lemma ArcLeavesNode(u: Id)
      ensures forall v :: Arc(g, u, v) ==> u in NodeIds(g)
    {}

    lemma ArcTarget(u: Id, v: Id)
      requires Arc(g, u, v)
      ensures v in Universe(g)
    {}

    lemma Finish(id: Id)
      requires Finished(g, order) && id !in order
      requires forall v :: Arc(g, id, v) ==> v in order
      ensures Finished(g, order + [id])
      ensures Elements(order + [id]) == Elements(order) + {id}
    {
      var longer := order + [id];
      forall i, v | 0 <= i < |longer| && Arc(g, longer[i], v) ensures v in longer[..i] {
        if i < |order| { assert longer[..i] == order[..i] && longer[i] == order[i]; } else { assert longer[..i] == order; }
      }
    }
  }

  /** True exactly when the edges leaving known nodes contain a directed cycle. */
  method HasDirectedCycle(g: Graph) returns (cycle: bool, ghost order: seq<Id>)
    ensures cycle <==> Cyclic(g)
    ensures !cycle ==> Finished(g, order) && NodeIds(g) <= Elements(order) <= Universe(g)
  {
    var adj := Adjacency(g);
    var search := new Search(g, adj);
    order := [];
    var left := adj.Keys;
    while left != {}
      invariant search.g == g && search.adj == adj && search.Valid() && search.visiting == {}
      invariant left <= adj.Keys && adj.Keys - left <= search.visited
      decreases left
    {
      var id :| id in left;
      left := left - {id};
      cycle := search.Dfs(id, []);
      if cycle { return; }
    }
    order := search.order;
    FinishedAcyclic(g, order);
    return false, order;
  }

  // ----- the validator -----

  datatype Reason =
    | DuplicateNode(variable: Id)
    | UnknownEndpoint(edgeId: Id)
    | SelfEdge(edgeId: Id)
    | DuplicateEdge(key: EdgeKey)
    | InterventionMissing
    | OutcomeMissing
    | InterventionUnit(unit: Id)
    | OutcomeUnit(unit: Id)

  datatype Question = Question(interventionUnit: Id, outcomeUnit: Id)

  /** What each reason says about the graph. */
  ghost predicate Applies(g: Graph, q: Question, r: Reason) {
    match r
    case DuplicateNode(v) => exists i, j :: 0 <= i < j < |g.nodes| && g.nodes[i].variableId == v && g.nodes[j].variableId == v
    case UnknownEndpoint(e) => exists x :: x in g.edges && x.edgeId == e && !(x.from in NodeIds(g) && x.to in NodeIds(g))
    case SelfEdge(e) => exists x :: x in g.edges && x.edgeId == e && x.from == x.to
    case DuplicateEdge(k) => exists i, j :: 0 <= i < j < |g.edges| && KeyOf(g.edges[i]) == k && KeyOf(g.edges[j]) == k
    case InterventionMissing => forall n :: n in g.nodes ==> n.variableClass != Intervention
    case OutcomeMissing => forall n :: n in g.nodes ==> n.variableClass != Outcome
    case InterventionUnit(u) => u != q.interventionUnit && exists n :: n in g.nodes && n.variableClass == Intervention && n.unit == u
    case OutcomeUnit(u) => u != q.outcomeUnit && exists n :: n in g.nodes && n.variableClass == Outcome && n.unit == u
  }

  method NodeReasons(g: Graph, q: Question) returns (nodeIds: set<Id>, reasons: seq<Reason>)
    ensures nodeIds == NodeIds(g)
    ensures forall r :: r in reasons <==> r.DuplicateNode? && Applies(g, q, r)
  {
    nodeIds, reasons := {}, [];
    for i := 0 to |g.nodes|
      invariant forall v :: v in nodeIds <==> exists j :: 0 <= j < i && g.nodes[j].variableId == v
      invariant forall r :: r in reasons ==> r.DuplicateNode?
      invariant forall v :: DuplicateNode(v) in reasons <==>
                  exists j, k :: 0 <= j < k < i && g.nodes[j].variableId == v && g.nodes[k].variableId == v
    {
      var v := g.nodes[i].variableId;
      if v in nodeIds { reasons := reasons + [DuplicateNode(v)]; }
      nodeIds := nodeIds + {v};
    }
    forall v ensures v in nodeIds <==> v in NodeIds(g) {
      if v in nodeIds { var j :| 0 <= j < |g.nodes| && g.nodes[j].variableId == v; assert g.nodes[j] in g.nodes; }
    }
  }

  /** What the loop pushes for the edge at position `i`. */
  function EdgePushes(g: Graph, nodeIds: set<Id>, edgeKeys: set<EdgeKey>, e: Edge): seq<Reason> {
    (if e.from !in nodeIds || e.to !in nodeIds then [UnknownEndpoint(e.edgeId)] else [])
    + (if e.from == e.to then [SelfEdge(e.edgeId)] else [])
    + (if KeyOf(e) in edgeKeys then [DuplicateEdge(KeyOf(e))] else [])
  }

  function KeysTo(g: Graph, i: nat): set<EdgeKey>
    requires i <= |g.edges|
  {
    set j | 0 <= j < i :: KeyOf(g.edges[j])
  }

  function EdgeReasonsTo(g: Graph, nodeIds: set<Id>, i: nat): seq<Reason>
    requires i <= |g.edges|
  {
    if i == 0 then [] else EdgeReasonsTo(g, nodeIds, i - 1) + EdgePushes(g, nodeIds, KeysTo(g, i - 1), g.edges[i - 1])
  }

  lemma {:induction false} EdgeReasonFrom(g: Graph, nodeIds: set<Id>, i: nat, r: Reason)
    requires i <= |g.edges|
    ensures r in EdgeReasonsTo(g, nodeIds, i) <==>
              exists j :: 0 <= j < i && r in EdgePushes(g, nodeIds, KeysTo(g, j), g.edges[j])
  {
    hide EdgePushes, KeysTo;
    if i > 0 { EdgeReasonFrom(g, nodeIds, i - 1, r); }
  }

  lemma PushedApplies(g: Graph, q: Question, r: Reason, j: nat)
    requires j < |g.edges| && r in EdgePushes(g, NodeIds(g), KeysTo(g, j), g.edges[j])
    ensures (r.UnknownEndpoint? || r.SelfEdge? || r.DuplicateEdge?) && Applies(g, q, r)
  {}

  lemma AppliesPushed(g: Graph, q: Question, r: Reason) returns (j: nat)
    requires (r.UnknownEndpoint? || r.SelfEdge? || r.DuplicateEdge?) && Applies(g, q, r)
    ensures j < |g.edges| && r in EdgePushes(g, NodeIds(g), KeysTo(g, j), g.edges[j])
  {
    match r
    case UnknownEndpoint(e) =>
      j :| 0 <= j < |g.edges| && g.edges[j].edgeId == e && !(g.edges[j].from in NodeIds(g) && g.edges[j].to in NodeIds(g));
    case SelfEdge(e) => j :| 0 <= j < |g.edges| && g.edges[j].edgeId == e && g.edges[j].from == g.edges[j].to;
    case DuplicateEdge(k) =>
      var i;
      i, j :| 0 <= i < j < |g.edges| && KeyOf(g.edges[i]) == k && KeyOf(g.edges[j]) == k;
  }

  method EdgeReasons(g: Graph, q: Question, nodeIds: set<Id>) returns (reasons: seq<Reason>)
    requires nodeIds == NodeIds(g)
    ensures forall r :: r in reasons <==> (r.UnknownEndpoint? || r.SelfEdge? || r.DuplicateEdge?) && Applies(g, q, r)
  {
    reasons := [];
    var edgeKeys: set<EdgeKey> := {};
    for i := 0 to |g.edges|
      invariant edgeKeys == KeysTo(g, i)
      invariant reasons == EdgeReasonsTo(g, nodeIds, i)
    {
      var e := g.edges[i];
      ghost var before := reasons;
      if e.from !in nodeIds || e.to !in nodeIds { reasons := reasons + [UnknownEndpoint(e.edgeId)]; }
      if e.from == e.to { reasons := reasons + [SelfEdge(e.edgeId)]; }
      if KeyOf(e) in edgeKeys { reasons := reasons + [DuplicateEdge(KeyOf(e))]; }
      assert reasons == before + EdgePushes(g, nodeIds, edgeKeys, e);
      edgeKeys := edgeKeys + {KeyOf(e)};
    }
    hide Applies, EdgePushes, KeysTo, EdgeReasonsTo;
    forall r ensures r in reasons <==> (r.UnknownEndpoint? || r.SelfEdge? || r.DuplicateEdge?) && Applies(g, q, r) {
      EdgeReasonFrom(g, nodeIds, |g.edges|, r);
      if r in reasons {
        var j :| 0 <= j < |g.edges| && r in EdgePushes(g, nodeIds, KeysTo(g, j), g.edges[j]);
        PushedApplies(g, q, r, j);
      } else if (r.UnknownEndpoint? || r.SelfEdge? || r.DuplicateEdge?) && Applies(g, q, r) {
        var j := AppliesPushed(g, q, r);
        assert false;
      }
    }
  }

  method RoleReasons(g: Graph, q: Question) returns (reasons: seq<Reason>)
    ensures forall r :: r in reasons <==>
              (r.InterventionMissing? || r.OutcomeMissing? || r.InterventionUnit? || r.OutcomeUnit?) && Applies(g, q, r)
  {
    var interventions, outcomes := 0, 0;
    reasons := [];
    for i := 0 to |g.nodes|
      invariant interventions == 0 <==> forall j :: 0 <= j < i ==> g.nodes[j].variableClass != Intervention
      invariant outcomes == 0 <==> forall j :: 0 <= j < i ==> g.nodes[j].variableClass != Outcome
      invariant interventions >= 0 && outcomes >= 0
    {
      if g.nodes[i].variableClass == Intervention { interventions := interventions + 1; }
      if g.nodes[i].variableClass == Outcome { outcomes := outcomes + 1; }
    }
    if interventions < 1 { reasons := reasons + [InterventionMissing]; }
    if outcomes < 1 { reasons := reasons + [OutcomeMissing]; }
    var intervention := UnitReasons(g, q);
    reasons := reasons + intervention;
  }

  method UnitReasons(g: Graph, q: Question) returns (reasons: seq<Reason>)
    ensures forall r :: r in reasons <==> (r.InterventionUnit? || r.OutcomeUnit?) && Applies(g, q, r)
  {
    reasons := [];
    for i := 0 to |g.nodes|
      invariant forall r :: r in reasons ==> r.InterventionUnit?
      invariant forall u :: InterventionUnit(u) in reasons <==>
                  u != q.interventionUnit && exists j :: 0 <= j < i && g.nodes[j].variableClass == Intervention && g.nodes[j].unit == u
    {
      var n := g.nodes[i];
      if n.variableClass == Intervention && n.unit != q.interventionUnit { reasons := reasons + [InterventionUnit(n.unit)]; }
    }
    ghost var before := reasons;
    for i := 0 to |g.nodes|
      invariant forall r :: r in reasons <==> r in before || (r.OutcomeUnit? && r in reasons)
      invariant forall u :: OutcomeUnit(u) in reasons <==>
                  u != q.outcomeUnit && exists j :: 0 <= j < i && g.nodes[j].variableClass == Outcome && g.nodes[j].unit == u
    {
      var n := g.nodes[i];
      if n.variableClass == Outcome && n.unit != q.outcomeUnit { reasons := reasons + [OutcomeUnit(n.unit)]; }
    }
  }

  datatype Validation = CycleUnsupported | Pass | Block(reasons: seq<Reason>)

  /** Every node once, and every edge pointing forward. */
  ghost predicate Topological(g: Graph, order: seq<Id>) {
    && Distinct(order) && Elements(order) == NodeIds(g)
    && forall e :: e in g.edges ==> e.from in order && e.to in order && IndexOf(order, e.from) < IndexOf(order, e.to)
  }

  /**
   * `validateCausalGraph`: throws exactly on a cycle, blocks with exactly the reasons that apply,
   * and passes only a graph whose nodes stand in a topological order.
   */
  method Validate(g: Graph, q: Question) returns (v: Validation)
    ensures v.CycleUnsupported? <==> Cyclic(g)
    ensures v.Pass? <==> !Cyclic(g) && forall r :: !Applies(g, q, r)
    ensures v.Block? ==> forall r :: r in v.reasons <==> Applies(g, q, r)
    ensures v.Pass? ==> exists order :: Topological(g, order)
  {
    var nodeIds, duplicates := NodeReasons(g, q);
    var edges := EdgeReasons(g, q, nodeIds);
    var roles := RoleReasons(g, q);
    var reasons := duplicates + edges + roles;
    assert forall r :: r in reasons <==> Applies(g, q, r) by { hide Applies; }
    var cycle, finished := HasDirectedCycle(g);
    if cycle { return CycleUnsupported; }
    if reasons != [] {
      assert Applies(g, q, reasons[0]);
      return Block(reasons);
    }
    PassTopological(g, q, finished);
    return Pass;
  }

  lemma EndpointsKnown(g: Graph, q: Question)
    requires forall r :: !Applies(g, q, r)
    ensures forall e :: e in g.edges ==> e.from in NodeIds(g) && e.to in NodeIds(g)
    ensures Universe(g) == NodeIds(g)
  {
    forall e | e in g.edges ensures e.from in NodeIds(g) && e.to in NodeIds(g) {
      assert !Applies(g, q, UnknownEndpoint(e.edgeId));
    }
  }

  lemma ReversedElements(s: seq<Id>)
    ensures Elements(Reverse(s)) == Elements(s)
  {
    forall x ensures x in Reverse(s) <==> x in s {
      if x in s { assert Reverse(s)[|s| - 1 - IndexOf(s, x)] == x; }
    }
  }

  lemma FinishedDistinct(g: Graph, s: seq<Id>)
    requires Finished(g, s)
    ensures Distinct(s)
  {}

  lemma ReversedDistinct(s: seq<Id>)
    ensures Distinct(s) ==> Distinct(Reverse(s))
  {}

  /** With every endpoint known, the finishing order read backwards is topological. */
  lemma PassTopological(g: Graph, q: Question, finished: seq<Id>)
    requires Finished(g, finished) && NodeIds(g) <= Elements(finished) <= Universe(g) && forall r :: !Applies(g, q, r)
    ensures Topological(g, Reverse(finished))
  {
    hide IndexOf, Reverse;
    EndpointsKnown(g, q);
    ReversedElements(finished);
    hide Applies, Universe, Finished, Distinct;
    var order := Reverse(finished);
    FinishedDistinct(g, finished);
    ReversedDistinct(finished);
    forall e | e in g.edges
      ensures e.from in order && e.to in order && IndexOf(order, e.from) < IndexOf(order, e.to)
    {
      ForwardEdge(g, finished, e);
    }
  }

  lemma ForwardEdge(g: Graph, finished: seq<Id>, e: Edge)
    requires Finished(g, finished) && NodeIds(g) <= Elements(finished) && e in g.edges && e.from in NodeIds(g)
    ensures e.from in Reverse(finished) && e.to in Reverse(finished)
    ensures IndexOf(Reverse(finished), e.from) < IndexOf(Reverse(finished), e.to)
  {
    assert Arc(g, e.from, e.to);
    ArcDescends(g, finished, e.from, e.to);
    MirrorPosition(finished, e.from);
    MirrorPosition(finished, e.to);
  }

  lemma MirrorPosition(s: seq<Id>, x: Id)
    requires Distinct(s) && x in s
    ensures x in Reverse(s) && IndexOf(Reverse(s), x) == |s| - 1 - IndexOf(s, x)
  {
    var r := Reverse(s);
    assert r[|s| - 1 - IndexOf(s, x)] == x;
  }
}
