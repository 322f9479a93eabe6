/**
 * The two execution planners of the flow validator: a linear order, and levels whose nodes run
 * in parallel. A node list may repeat an id, as the flow schema allows.
 */
module FlowPlanner {
  import opened Wrappers
  import opened Sequences
  import opened Digraph

  /** A `KeyError` from the degree table, or the `ValueError` both planners raise. */
  datatype PlanError = UnknownTarget | CircularDependency

  predicate EndpointsKnown(nodes: seq<Id>, connections: seq<Edge>) {
    forall c :: c in connections ==> c.source in nodes && c.target in nodes
  }

  predicate TargetsKnown(nodes: seq<Id>, connections: seq<Edge>) {
    forall c :: c in connections ==> c.target in nodes
  }

  /** What a flow must satisfy for an execution plan to exist. */
  ghost predicate Plannable(nodes: seq<Id>, connections: seq<Edge>) {
    NoDuplicates(nodes) && EndpointsKnown(nodes, connections) && Acyclic(connections)
  }

  // ---------------------------------------------------------------------------------------
  // Degrees
  // ---------------------------------------------------------------------------------------

  /** How many connections, counted with repetition, lead into `v` from nodes outside `done`. */
  ghost function PendingInto(connections: seq<Edge>, done: set<Id>, v: Id): nat {
    if connections == [] then 0
    else
      var last := connections[|connections| - 1];
      PendingInto(connections[..|connections| - 1], done, v)
      + if last.target == v && last.source !in done then 1 else 0
  }

  /** `graph[u]`: the targets of the connections leaving `u`, in connection order. */
  function Successors(connections: seq<Edge>, u: Id): seq<Id> {
    if connections == [] then []
    else
      var last := connections[|connections| - 1];
      Successors(connections[..|connections| - 1], u)
      + if last.source == u then [last.target] else []
  }

  lemma {:induction false} FinishingNode(connections: seq<Edge>, done: set<Id>, u: Id, v: Id)
    requires u !in done
    ensures PendingInto(connections, done + {u}, v)
         == PendingInto(connections, done, v) - multiset(Successors(connections, u))[v]
  {
    if connections != [] {
      FinishingNode(connections[..|connections| - 1], done, u, v);
    }
  }

  lemma {:induction false} NothingPending(connections: seq<Edge>, done: set<Id>, v: Id)
    ensures PendingInto(connections, done, v) == 0
       <==> forall u :: Edge(u, v) in connections ==> u in done
  {
    if connections != [] {
      var init, last := connections[..|connections| - 1], connections[|connections| - 1];
      assert connections == init + [last];
      NothingPending(init, done, v);
    }
  }

  lemma {:induction false} SuccessorsAreTargets(connections: seq<Edge>, u: Id, v: Id)
    ensures v in Successors(connections, u) <==> Edge(u, v) in connections
  {
    if connections != [] {
      var init, last := connections[..|connections| - 1], connections[|connections| - 1];
      assert connections == init + [last];
      SuccessorsAreTargets(init, u, v);
    }
  }

  /** `graph[u]` of a dictionary whose missing keys read as the empty list. */
  function Lookup(graph: map<Id, seq<Id>>, u: Id): seq<Id> {
    if u in graph then graph[u] else []
  }

  ghost predicate DegreesMatch(connections: seq<Edge>, nodes: set<Id>, done: set<Id>, inDegree: map<Id, int>) {
    && inDegree.Keys == nodes
    && forall v :: v in nodes ==> inDegree[v] == PendingInto(connections, done, v)
  }

  ghost predicate GraphMatches(connections: seq<Edge>, graph: map<Id, seq<Id>>) {
    forall u :: Lookup(graph, u) == Successors(connections, u)
  }

  lemma GraphStep(connections: seq<Edge>, graph: map<Id, seq<Id>>, c: Edge)
    requires GraphMatches(connections, graph)
    ensures GraphMatches(connections + [c], graph[c.source := Lookup(graph, c.source) + [c.target]])
  {
    var next := graph[c.source := Lookup(graph, c.source) + [c.target]];
    assert (connections + [c])[..|connections|] == connections;
    forall u ensures Lookup(next, u) == Successors(connections + [c], u) {
      assert Lookup(graph, u) == Successors(connections, u);
    }
  }

  lemma DegreeStep(connections: seq<Edge>, nodes: set<Id>, inDegree: map<Id, int>, c: Edge)
    requires DegreesMatch(connections, nodes, {}, inDegree) && c.target in nodes
    ensures DegreesMatch(connections + [c], nodes, {}, inDegree[c.target := inDegree[c.target] + 1])
  {
    assert (connections + [c])[..|connections|] == connections;
    var next := inDegree[c.target := inDegree[c.target] + 1];
    assert next.Keys == inDegree.Keys;
  }

  method BuildGraph(nodes: seq<Id>, connections: seq<Edge>)
    returns (r: Result<(map<Id, seq<Id>>, map<Id, int>), PlanError>)
    ensures r.Ok? <==> TargetsKnown(nodes, connections)
    ensures r.Err? ==> r.error == UnknownTarget
    ensures r.Ok? ==> GraphMatches(connections, r.value.0)
    ensures r.Ok? ==> DegreesMatch(connections, Elements(nodes), {}, r.value.1)
  {
    var graph: map<Id, seq<Id>> := map[];
    var inDegree: map<Id, int> := map v | v in nodes :: 0;
    for i := 0 to |connections|
      invariant TargetsKnown(nodes, connections[..i])
      invariant GraphMatches(connections[..i], graph)
      invariant DegreesMatch(connections[..i], Elements(nodes), {}, inDegree)
    {
      var c := connections[i];
      assert connections[..i + 1] == connections[..i] + [c];
      GraphStep(connections[..i], graph, c);
      graph := graph[c.source := Lookup(graph, c.source) + [c.target]];
      if c.target !in inDegree {
        assert c in connections;
        return Err(UnknownTarget);
      }
      DegreeStep(connections[..i], Elements(nodes), inDegree, c);
      inDegree := inDegree[c.target := inDegree[c.target] + 1];
    }
    assert connections[..|connections|] == connections;
    return Ok((graph, inDegree));
  }

  /** The degrees after one connection to each of `successors` is finished. */
  function Lowered(inDegree: map<Id, int>, successors: seq<Id>): map<Id, int> {
    if successors == [] then inDegree
    else
      var before, w := Lowered(inDegree, successors[..|successors| - 1]), successors[|successors| - 1];
      if w in before then before[w := before[w] - 1] else before
  }

  /** The successors whose degree reaches zero on the way, in order. */
  function Freed(inDegree: map<Id, int>, successors: seq<Id>): seq<Id> {
    if successors == [] then []
    else
      var after, w := Lowered(inDegree, successors), successors[|successors| - 1];
      Freed(inDegree, successors[..|successors| - 1]) + if w in after && after[w] == 0 then [w] else []
  }

  lemma {:induction false} LoweredSpec(inDegree: map<Id, int>, successors: seq<Id>, v: Id)
    ensures v in Lowered(inDegree, successors) <==> v in inDegree
    ensures v in inDegree ==> Lowered(inDegree, successors)[v] == inDegree[v] - multiset(successors)[v]
  {
    if successors != [] {
      var init, w := successors[..|successors| - 1], successors[|successors| - 1];
      assert successors == init + [w];
      LoweredSpec(inDegree, init, v);
    }
  }

  lemma {:induction false} FreedSpec(inDegree: map<Id, int>, successors: seq<Id>, v: Id)
    requires forall w :: w in successors ==> w in inDegree && inDegree[w] >= multiset(successors)[w]
    ensures v in Freed(inDegree, successors) <==> v in successors && inDegree[v] == multiset(successors)[v]
    ensures multiset(Freed(inDegree, successors))[v] <= 1
  {
    if successors != [] {
      var init, w := successors[..|successors| - 1], successors[|successors| - 1];
      assert successors == init + [w];
      FreedSpec(inDegree, init, v);
      LoweredSpec(inDegree, successors, w);
    }
  }

  lemma ReleaseFacts(connections: seq<Edge>, nodes: set<Id>, done: set<Id>, u: Id, inDegree: map<Id, int>, v: Id)
    requires (forall c :: c in connections ==> c.target in nodes) && u !in done
    requires DegreesMatch(connections, nodes, done, inDegree)
    ensures var successors := Successors(connections, u);
      && (v in successors ==> v in inDegree && inDegree[v] >= multiset(successors)[v])
      && (v in nodes ==>
            && v in Lowered(inDegree, successors) && Lowered(inDegree, successors)[v] <= inDegree[v]
            && Lowered(inDegree, successors)[v] == PendingInto(connections, done + {u}, v))
      && (v in Lowered(inDegree, successors) ==> v in nodes)
  {
    var successors := Successors(connections, u);
    FinishingNode(connections, done, u, v);
    SuccessorsAreTargets(connections, u, v);
    LoweredSpec(inDegree, successors, v);
  }

  lemma SuccessorHasDegree(connections: seq<Edge>, nodes: set<Id>, done: set<Id>, u: Id, inDegree: map<Id, int>, j: nat)
    requires (forall c :: c in connections ==> c.target in nodes) && u !in done
    requires DegreesMatch(connections, nodes, done, inDegree)
    requires j < |Successors(connections, u)|
    ensures var successors := Successors(connections, u);
      successors[j] in Lowered(inDegree, successors[..j])
  {
    var successors := Successors(connections, u);
    LoweredSpec(inDegree, successors[..j], successors[j]);
    ReleaseFacts(connections, nodes, done, u, inDegree, successors[j]);
  }

  lemma ReleasedDegrees(connections: seq<Edge>, nodes: set<Id>, done: set<Id>, u: Id, inDegree: map<Id, int>)
    requires (forall c :: c in connections ==> c.target in nodes) && u !in done
    requires DegreesMatch(connections, nodes, done, inDegree)
    ensures var lowered := Lowered(inDegree, Successors(connections, u));
      DegreesMatch(connections, nodes, done + {u}, lowered) && forall v :: v in nodes ==> lowered[v] <= inDegree[v]
  {
    var lowered := Lowered(inDegree, Successors(connections, u));
    forall v
      ensures v in lowered <==> v in nodes
      ensures v in nodes ==> lowered[v] <= inDegree[v] && lowered[v] == PendingInto(connections, done + {u}, v)
    {
      ReleaseFacts(connections, nodes, done, u, inDegree, v);
    }
  }

  lemma ReleasedNodes(connections: seq<Edge>, nodes: set<Id>, done: set<Id>, u: Id, inDegree: map<Id, int>)
    requires (forall c :: c in connections ==> c.target in nodes) && u !in done
    requires DegreesMatch(connections, nodes, done, inDegree)
    ensures var successors := Successors(connections, u);
      var freed, lowered := Freed(inDegree, successors), Lowered(inDegree, successors);
      && NoDuplicates(freed)
      && nodes <= lowered.Keys
      && (forall v :: v in freed <==> v in nodes && inDegree[v] > 0 && lowered[v] == 0)
      && (forall v :: v in freed ==> Edge(u, v) in connections)
  {
    var successors := Successors(connections, u);
    var freed, lowered := Freed(inDegree, successors), Lowered(inDegree, successors);
    forall v ensures v in successors ==> v in inDegree && inDegree[v] >= multiset(successors)[v] {
      ReleaseFacts(connections, nodes, done, u, inDegree, v);
    }
    forall v
      ensures v in nodes ==> v in lowered
      ensures v in freed <==> v in nodes && inDegree[v] > 0 && lowered[v] == 0
      ensures v in freed ==> Edge(u, v) in connections
      ensures multiset(freed)[v] <= 1
    {
      ReleaseFacts(connections, nodes, done, u, inDegree, v);
      FreedSpec(inDegree, successors, v);
      LoweredSpec(inDegree, successors, v);
      SuccessorsAreTargets(connections, u, v);
    }
    AtMostOnceIsDistinct(freed);
  }

  /** Lowers the degree of every successor of `u`; `freed` are those that reach zero, in order. */
  method Release(ghost connections: seq<Edge>, ghost nodes: set<Id>, ghost done: set<Id>,
                 u: Id, successors: seq<Id>, inDegree: map<Id, int>)
    returns (lowered: map<Id, int>, freed: seq<Id>)
    requires successors == Successors(connections, u)
    requires forall c :: c in connections ==> c.target in nodes
    requires u !in done
    requires DegreesMatch(connections, nodes, done, inDegree)
    ensures DegreesMatch(connections, nodes, done + {u}, lowered)
    ensures forall v :: v in nodes ==> lowered[v] <= inDegree[v]
    ensures NoDuplicates(freed)
    ensures forall v :: v in freed <==> v in nodes && inDegree[v] > 0 && lowered[v] == 0
    ensures forall v :: v in freed ==> Edge(u, v) in connections
  {
    lowered, freed := inDegree, [];
    for j := 0 to |successors|
      invariant lowered == Lowered(inDegree, successors[..j])
      invariant freed == Freed(inDegree, successors[..j])
    {
      var w := successors[j];
      assert successors[..j + 1][..j] == successors[..j];
      SuccessorHasDegree(connections, nodes, done, u, inDegree, j);
      lowered := lowered[w := lowered[w] - 1];
      if lowered[w] == 0 {
        freed := freed + [w];
      }
    }
    assert successors[..|successors|] == successors;
    ReleasedDegrees(connections, nodes, done, u, inDegree);
    ReleasedNodes(connections, nodes, done, u, inDegree);
  }

  // ---------------------------------------------------------------------------------------
  // Levels
  // ---------------------------------------------------------------------------------------

  function Flatten(levels: seq<seq<Id>>): seq<Id> {
    if levels == [] then [] else Flatten(levels[..|levels| - 1]) + levels[|levels| - 1]
  }

  /** Everything `v` depends on is in an earlier level, and level `k` is the first such level. */
  ghost predicate PlacedAt(connections: seq<Edge>, levels: seq<seq<Id>>, k: nat, v: Id)
    requires k <= |levels|
  {
    && (forall u :: Edge(u, v) in connections ==> u in Flatten(levels[..k]))
    && (k > 0 ==> exists u :: u in levels[k - 1] && Edge(u, v) in connections)
  }

  ghost predicate AllPlaced(connections: seq<Edge>, levels: seq<seq<Id>>) {
    forall k, v {:trigger PlacedAt(connections, levels, k, v)} ::
      0 <= k < |levels| && v in levels[k] ==> PlacedAt(connections, levels, k, v)
  }

  ghost predicate IsLevelPlan(nodes: seq<Id>, connections: seq<Edge>, levels: seq<seq<Id>>) {
    && NoDuplicates(nodes)
    && NoDuplicates(Flatten(levels))
    && Elements(Flatten(levels)) == Elements(nodes)
    && AllPlaced(connections, levels)
    && forall k :: 0 <= k < |levels| ==> levels[k] != []
  }

  ghost function WithDegreeZero(ids: seq<Id>, inDegree: map<Id, int>): seq<Id> {
    if ids == [] then []
    else
      var last := ids[|ids| - 1];
      WithDegreeZero(ids[..|ids| - 1], inDegree) + if last in inDegree && inDegree[last] == 0 then [last] else []
  }

  lemma DegreeZeroStep(ids: seq<Id>, v: Id, inDegree: map<Id, int>)
    ensures WithDegreeZero(FirstOccurrences(ids + [v]), inDegree)
         == WithDegreeZero(FirstOccurrences(ids), inDegree)
            + if v in inDegree && inDegree[v] == 0 && v !in ids then [v] else []
  {
    assert (ids + [v])[..|ids|] == ids;
    var before := FirstOccurrences(ids);
    if v in ids {
      assert FirstOccurrences(ids + [v]) == before;
    } else {
      assert FirstOccurrences(ids + [v]) == before + [v];
      assert (before + [v])[..|before|] == before;
    }
  }

  lemma {:induction false} DegreeZeroSpec(ids: seq<Id>, inDegree: map<Id, int>, v: Id)
    ensures multiset(WithDegreeZero(FirstOccurrences(ids), inDegree))[v]
         == if v in ids && v in inDegree && inDegree[v] == 0 then 1 else 0
  {
    if ids != [] {
      var init, last := ids[..|ids| - 1], ids[|ids| - 1];
      assert ids == init + [last];
      DegreeZeroSpec(init, inDegree, v);
      DegreeZeroStep(init, last, inDegree);
    }
  }

  lemma DegreeZeroMembers(ids: seq<Id>, inDegree: map<Id, int>)
    requires inDegree.Keys == Elements(ids)
    ensures var start := WithDegreeZero(FirstOccurrences(ids), inDegree);
      NoDuplicates(start) && forall v :: v in start <==> v in ids && inDegree[v] == 0
  {
    var start := WithDegreeZero(FirstOccurrences(ids), inDegree);
    forall v
      ensures multiset(start)[v] <= 1
      ensures v in start <==> v in ids && inDegree[v] == 0
    {
      DegreeZeroSpec(ids, inDegree, v);
      assert v in inDegree.Keys <==> v in ids;
    }
    AtMostOnceIsDistinct(start);
  }

  lemma DegreeZeroTurn(nodes: seq<Id>, i: nat, inDegree: map<Id, int>)
    requires inDegree.Keys == Elements(nodes) && i < |nodes|
    ensures nodes[i] in inDegree
    ensures var start := WithDegreeZero(FirstOccurrences(nodes[..i]), inDegree);
      WithDegreeZero(FirstOccurrences(nodes[..i + 1]), inDegree)
      == start + if inDegree[nodes[i]] == 0 && nodes[i] !in start then [nodes[i]] else []
  {
    var before, v := nodes[..i], nodes[i];
    assert v in Elements(nodes);
    assert nodes[..i + 1] == before + [v];
    DegreeZeroSpec(before, inDegree, v);
    DegreeZeroStep(before, v, inDegree);
    assert v in WithDegreeZero(FirstOccurrences(before), inDegree) <==>
           multiset(WithDegreeZero(FirstOccurrences(before), inDegree))[v] > 0;
  }

  /** The nodes the planners start from, in the order their ids first appear. */
  method DegreeZero(nodes: seq<Id>, inDegree: map<Id, int>) returns (start: seq<Id>)
    requires inDegree.Keys == Elements(nodes)
    ensures NoDuplicates(start)
    ensures forall v :: v in start <==> v in nodes && inDegree[v] == 0
    ensures start == WithDegreeZero(FirstOccurrences(nodes), inDegree)
  {
    start := [];
    for i := 0 to |nodes|
      invariant start == WithDegreeZero(FirstOccurrences(nodes[..i]), inDegree)
    {
      DegreeZeroTurn(nodes, i, inDegree);
      if inDegree[nodes[i]] == 0 && nodes[i] !in start {
        start := start + [nodes[i]];
      }
    }
    assert nodes[..|nodes|] == nodes;
    DegreeZeroMembers(nodes, inDegree);
  }

  /** The members of a set, in some order that the set does not determine. */
  method ListOf(s: set<Id>) returns (l: seq<Id>)
    ensures NoDuplicates(l) && Elements(l) == s
  {
    l := [];
    var rest := s;
    while rest != {}
      invariant NoDuplicates(l) && Elements(l) == s - rest && rest <= s
      decreases rest
    {
      var x :| x in rest;
      assert x !in Elements(l);
      assert Elements(l + [x]) == Elements(l) + {x};
      l, rest := l + [x], rest - {x};
    }
  }

  /** Every node that is not finished and has nothing pending. */
  ghost predicate IsFrontier(frontier: set<Id>, nodes: set<Id>, done: set<Id>, inDegree: map<Id, int>)
    requires nodes <= inDegree.Keys
  {
    forall v :: v in frontier <==> v in nodes && v !in done && inDegree[v] == 0
  }

  /** Runs one level: finishes each node of `current` and collects the nodes this frees. */
  method FinishLevel(ghost connections: seq<Edge>, ghost nodes: set<Id>, ghost done: set<Id>,
                     current: seq<Id>, graph: map<Id, seq<Id>>, inDegree: map<Id, int>)
    returns (lowered: map<Id, int>, next: set<Id>)
    requires GraphMatches(connections, graph)
    requires forall c :: c in connections ==> c.target in nodes
    requires DegreesMatch(connections, nodes, done, inDegree)
    requires done <= nodes && forall v :: v in done ==> inDegree[v] == 0
    requires NoDuplicates(current) && IsFrontier(Elements(current), nodes, done, inDegree)
    ensures DegreesMatch(connections, nodes, done + Elements(current), lowered)
    ensures forall v :: v in done + Elements(current) ==> lowered[v] == 0
    ensures IsFrontier(next, nodes, done + Elements(current), lowered)
    ensures forall v :: v in next ==> exists u :: u in current && Edge(u, v) in connections
  {
    lowered, next := inDegree, {};
    assert done + Elements(current[..0]) == done;
    for i := 0 to |current|
      invariant DegreesMatch(connections, nodes, done + Elements(current[..i]), lowered)
      invariant forall v :: v in done + Elements(current) ==> lowered[v] == 0
      invariant IsFrontier(next, nodes, done + Elements(current), lowered)
      invariant forall v :: v in next ==> exists u :: u in current && Edge(u, v) in connections
    {
      var u := current[i];
      ghost var doneNow := done + Elements(current[..i]);
      assert u in Elements(current);
      assert current[..i + 1] == current[..i] + [u];
      assert done + Elements(current[..i + 1]) == doneNow + {u};
      var freed;
      lowered, freed := Release(connections, nodes, doneNow, u, Lookup(graph, u), lowered);
      next := next + Elements(freed);
    }
    assert current[..|current|] == current;
  }

  lemma FlattenAppend(levels: seq<seq<Id>>, level: seq<Id>)
    ensures Flatten(levels + [level]) == Flatten(levels) + level
  {
    assert (levels + [level])[..|levels|] == levels;
  }

  lemma PlacementSurvivesAppend(connections: seq<Edge>, levels: seq<seq<Id>>, level: seq<Id>)
    requires AllPlaced(connections, levels)
    requires forall v :: v in level ==> PlacedAt(connections, levels, |levels|, v)
    ensures AllPlaced(connections, levels + [level])
  {
    var longer := levels + [level];
    forall k, v | 0 <= k < |longer| && v in longer[k] ensures PlacedAt(connections, longer, k, v) {
      assert longer[..k] == levels[..k];
      assert PlacedAt(connections, levels, k, v);
      if k > 0 {
        assert longer[k - 1] == levels[k - 1];
      }
    }
  }

  /** What holds each time the planner is about to run the level `current`. */
  ghost predicate Progress(connections: seq<Edge>, all: set<Id>, done: set<Id>, levels: seq<seq<Id>>,
                           current: seq<Id>, inDegree: map<Id, int>) {
    && DegreesMatch(connections, all, done, inDegree)
    && done <= all && (forall v :: v in done ==> inDegree[v] == 0)
    && NoDuplicates(current) && IsFrontier(Elements(current), all, done, inDegree)
    && NoDuplicates(Flatten(levels)) && Elements(Flatten(levels)) == done
    && AllPlaced(connections, levels)
    && (forall v :: v in current ==> PlacedAt(connections, levels, |levels|, v))
    && (forall k :: 0 <= k < |levels| ==> levels[k] != [])
  }

  lemma FrontierIsPlaced(connections: seq<Edge>, all: set<Id>, done: set<Id>, levels: seq<seq<Id>>,
                         frontier: seq<Id>, inDegree: map<Id, int>)
    requires DegreesMatch(connections, all, done, inDegree)
    requires IsFrontier(Elements(frontier), all, done, inDegree)
    requires Elements(Flatten(levels)) == done
    requires levels != [] ==>
      forall v :: v in Elements(frontier) ==> exists u :: u in levels[|levels| - 1] && Edge(u, v) in connections
    ensures forall v :: v in frontier ==> PlacedAt(connections, levels, |levels|, v)
  {
    assert levels[..|levels|] == levels;
    forall v | v in frontier ensures PlacedAt(connections, levels, |levels|, v) {
      assert v in Elements(frontier);
      NothingPending(connections, done, v);
      forall u | Edge(u, v) in connections ensures u in Flatten(levels) {
        assert u in Elements(Flatten(levels));
      }
    }
  }

  lemma NextLevelKeepsProgress(connections: seq<Edge>, all: set<Id>, done: set<Id>, levels: seq<seq<Id>>,
                               current: seq<Id>, inDegree: map<Id, int>, next: seq<Id>, lowered: map<Id, int>)
    requires Progress(connections, all, done, levels, current, inDegree) && current != []
    requires DegreesMatch(connections, all, done + Elements(current), lowered)
    requires forall v :: v in done + Elements(current) ==> lowered[v] == 0
    requires NoDuplicates(next) && IsFrontier(Elements(next), all, done + Elements(current), lowered)
    requires forall v :: v in Elements(next) ==> exists u :: u in current && Edge(u, v) in connections
    ensures Progress(connections, all, done + Elements(current), levels + [current], next, lowered)
  {
    FlattenAppend(levels, current);
    PlacementSurvivesAppend(connections, levels, current);
    var longer := levels + [current];
    assert Elements(Flatten(longer)) == done + Elements(current);
    assert NoDuplicates(Flatten(longer)) by {
      JoinDistinct(Flatten(levels), current);
    }
    FrontierIsPlaced(connections, all, done + Elements(current), longer, next, lowered);
  }

  /** In a plannable flow the planner cannot get stuck before every node is finished. */
  lemma PlannableFinishes(nodes: seq<Id>, connections: seq<Edge>, done: set<Id>, inDegree: map<Id, int>)
    requires Plannable(nodes, connections)
    requires DegreesMatch(connections, Elements(nodes), done, inDegree)
    requires IsFrontier({}, Elements(nodes), done, inDegree)
    requires done <= Elements(nodes)
    ensures done == Elements(nodes)
  {
    var left := Elements(nodes) - done;
    if left != {} {
      var v := AcyclicHasSource(connections, left);
      NothingPending(connections, done, v);
    }
  }

  /** The planner's final size test tells whether every node was finished exactly once. */
  lemma SizeTestDecides(nodes: seq<Id>, connections: seq<Edge>, done: set<Id>, placed: seq<Id>, inDegree: map<Id, int>)
    requires NoDuplicates(placed) && Elements(placed) == done && done <= Elements(nodes)
    requires DegreesMatch(connections, Elements(nodes), done, inDegree)
    requires IsFrontier({}, Elements(nodes), done, inDegree)
    ensures Plannable(nodes, connections) ==> |placed| == |nodes|
    ensures |placed| == |nodes| ==> NoDuplicates(nodes) && done == Elements(nodes)
  {
    DistinctCount(placed);
    ElementsCountBound(nodes);
    SubsetCount(done, Elements(nodes));
    if Plannable(nodes, connections) {
      PlannableFinishes(nodes, connections, done, inDegree);
      DistinctCount(nodes);
    }
  }

  /** The rank of a node: the index of its level. */
  ghost function LevelRank(levels: seq<seq<Id>>): (rank: map<Id, int>)
    ensures rank.Keys == Elements(Flatten(levels))
    ensures forall v :: v in rank ==> rank[v] >= 0
  {
    if levels == [] then map[]
    else
      var top := levels[|levels| - 1];
      LevelRank(levels[..|levels| - 1]) + map v | v in top :: |levels| - 1
  }

  lemma {:induction false} RankOfLevel(levels: seq<seq<Id>>, k: nat, v: Id)
    requires NoDuplicates(Flatten(levels)) && k < |levels| && v in levels[k]
    ensures v in LevelRank(levels) && LevelRank(levels)[v] == k
    ensures v in Flatten(levels)
  {
    var init, top := levels[..|levels| - 1], levels[|levels| - 1];
    assert Flatten(levels) == Flatten(init) + top;
    DistinctHalves(Flatten(init), top);
    if k < |levels| - 1 {
      assert init[k] == levels[k];
      RankOfLevel(init, k, v);
      assert v !in top;
    }
  }

  lemma {:induction false} FlattenedLevel(levels: seq<seq<Id>>, v: Id) returns (k: nat)
    requires v in Flatten(levels)
    ensures k < |levels| && v in levels[k]
  {
    if v in levels[|levels| - 1] {
      k := |levels| - 1;
    } else {
      k := FlattenedLevel(levels[..|levels| - 1], v);
    }
  }

  lemma PlanRanksUpward(nodes: seq<Id>, connections: seq<Edge>, levels: seq<seq<Id>>)
    requires TargetsKnown(nodes, connections) && IsLevelPlan(nodes, connections, levels)
    ensures RanksUpward(connections, LevelRank(levels))
    ensures EndpointsKnown(nodes, connections)
  {
    forall e | e in connections
      ensures e.source in LevelRank(levels) && e.target in LevelRank(levels)
      ensures LevelRank(levels)[e.source] < LevelRank(levels)[e.target]
      ensures e.source in nodes
    {
      assert e.target in Elements(Flatten(levels));
      var k := FlattenedLevel(levels, e.target);
      assert PlacedAt(connections, levels, k, e.target);
      assert Edge(e.source, e.target) in connections;
      var j := FlattenedLevel(levels[..k], e.source);
      RankOfLevel(levels, k, e.target);
      RankOfLevel(levels, j, e.source);
      assert e.source in Elements(Flatten(levels));
    }
  }

  lemma PlannedIsPlannable(nodes: seq<Id>, connections: seq<Edge>, levels: seq<seq<Id>>)
    requires TargetsKnown(nodes, connections) && IsLevelPlan(nodes, connections, levels)
    ensures Plannable(nodes, connections)
  {
    PlanRanksUpward(nodes, connections, levels);
    RankedIsAcyclic(connections, LevelRank(levels));
  }

  method GetExecutionLevels(nodes: seq<Id>, connections: seq<Edge>)
    returns (r: Result<seq<seq<Id>>, PlanError>)
    ensures r.Ok? <==> Plannable(nodes, connections)
    ensures r.Ok? ==> IsLevelPlan(nodes, connections, r.value)
    ensures r == Err(UnknownTarget) <==> !TargetsKnown(nodes, connections)
  {
    var built := BuildGraph(nodes, connections);
    if built.Err? {
      return Err(built.error);
    }
    var (graph, inDegree) := built.value;
    ghost var all, done: set<Id> := Elements(nodes), {};
    var levels := [];
    var current := DegreeZero(nodes, inDegree);
    FrontierIsPlaced(connections, all, done, levels, current, inDegree);
    while current != []
      invariant Progress(connections, all, done, levels, current, inDegree)
      decreases all - done
    {
      var lowered, freed := FinishLevel(connections, all, done, current, graph, inDegree);
      var next := ListOf(freed);
      NextLevelKeepsProgress(connections, all, done, levels, current, inDegree, next, lowered);
      assert current[0] in Elements(current) && current[0] !in done;
      levels, done := levels + [current], done + Elements(current);
      current, inDegree := next, lowered;
    }
    assert Elements(current) == {};
    SizeTestDecides(nodes, connections, done, Flatten(levels), inDegree);
    if |Flatten(levels)| != |nodes| {
      return Err(CircularDependency);
    }
    PlannedIsPlannable(nodes, connections, levels);
    return Ok(levels);
  }

  lemma {:induction false} WalkThroughLevels(connections: seq<Edge>, levels: seq<seq<Id>>, k: nat, v: Id)
    returns (p: seq<Id>)
    requires AllPlaced(connections, levels) && k < |levels| && v in levels[k]
    ensures IsWalk(connections, p) && p[|p| - 1] == v && |p| == k + 1
  {
    if k == 0 {
      p := [v];
    } else {
      assert PlacedAt(connections, levels, k, v);
      var u :| u in levels[k - 1] && Edge(u, v) in connections;
      var init := WalkThroughLevels(connections, levels, k - 1, u);
      p := init + [v];
      forall i | 0 <= i < |p| - 1 ensures Edge(p[i], p[i + 1]) in connections {
        if i < |init| - 1 {
          assert Edge(init[i], init[i + 1]) in connections;
        }
      }
    }
  }

  lemma WalkFitsLevel(nodes: seq<Id>, connections: seq<Edge>, levels: seq<seq<Id>>, k: nat, p: seq<Id>)
    requires TargetsKnown(nodes, connections) && IsLevelPlan(nodes, connections, levels)
    requires IsWalk(connections, p) && k < |levels| && p[|p| - 1] in levels[k]
    ensures |p| <= k + 1
  {
    PlanRanksUpward(nodes, connections, levels);
    RankOfLevel(levels, k, p[|p| - 1]);
    if |p| > 1 {
      RankRisesAlongWalk(connections, LevelRank(levels), p);
    }
  }

  /** The level of a node is the number of steps on a longest walk that leads to it. */
  lemma LevelIsLongestWalk(nodes: seq<Id>, connections: seq<Edge>, levels: seq<seq<Id>>, k: nat, v: Id)
    requires TargetsKnown(nodes, connections) && IsLevelPlan(nodes, connections, levels)
    requires k < |levels| && v in levels[k]
    ensures exists p :: IsWalk(connections, p) && p[|p| - 1] == v && |p| == k + 1
    ensures forall p :: IsWalk(connections, p) && p[|p| - 1] == v ==> |p| <= k + 1
  {
    var longest := WalkThroughLevels(connections, levels, k, v);
    forall p | IsWalk(connections, p) && p[|p| - 1] == v ensures |p| <= k + 1 {
      WalkFitsLevel(nodes, connections, levels, k, p);
    }
  }

  /** Whatever order a level lists its nodes in, any two plans put a node in the same level. */
  lemma LevelsAreDetermined(nodes: seq<Id>, connections: seq<Edge>, a: seq<seq<Id>>, b: seq<seq<Id>>, k: nat, v: Id)
    requires TargetsKnown(nodes, connections)
    requires IsLevelPlan(nodes, connections, a) && IsLevelPlan(nodes, connections, b)
    requires k < |a| && v in a[k]
    ensures k < |b| && v in b[k]
  {
    RankOfLevel(a, k, v);
    assert v in Elements(Flatten(a));
    assert v in Elements(Flatten(b));
    var j := FlattenedLevel(b, v);
    var inA := WalkThroughLevels(connections, a, k, v);
    var inB := WalkThroughLevels(connections, b, j, v);
    WalkFitsLevel(nodes, connections, a, k, inB);
    WalkFitsLevel(nodes, connections, b, j, inA);
  }

  // ---------------------------------------------------------------------------------------
  // Linear order
  // ---------------------------------------------------------------------------------------

  ghost predicate SourcesFirst(connections: seq<Edge>, order: seq<Id>) {
    forall i, u :: 0 <= i < |order| && Edge(u, order[i]) in connections ==> u in order[..i]
  }

  ghost predicate IsExecutionOrder(nodes: seq<Id>, connections: seq<Edge>, order: seq<Id>) {
    && NoDuplicates(nodes) && NoDuplicates(order)
    && Elements(order) == Elements(nodes)
    && SourcesFirst(connections, order)
  }

  ghost function PositionRank(order: seq<Id>): (rank: map<Id, int>)
    requires NoDuplicates(order)
    ensures rank.Keys == Elements(order)
    ensures forall i :: 0 <= i < |order| ==> rank[order[i]] == i
  {
    map v | v in order :: FirstIndex(order, v)
  }

  lemma OrderedIsPlannable(nodes: seq<Id>, connections: seq<Edge>, order: seq<Id>)
    requires TargetsKnown(nodes, connections) && IsExecutionOrder(nodes, connections, order)
    ensures Plannable(nodes, connections)
  {
    forall e | e in connections
      ensures e.source in PositionRank(order) && e.target in PositionRank(order)
      ensures PositionRank(order)[e.source] < PositionRank(order)[e.target]
      ensures e.source in nodes
    {
      assert e.target in Elements(order);
      var i :| 0 <= i < |order| && order[i] == e.target;
      assert Edge(e.source, order[i]) in connections;
      var j :| 0 <= j < i && order[..i][j] == e.source;
      assert order[j] == e.source && e.source in Elements(order);
    }
    RankedIsAcyclic(connections, PositionRank(order));
  }

  /** What holds each time the linear planner is about to take the head of its queue. */
  ghost predicate OrderProgress(connections: seq<Edge>, all: set<Id>, order: seq<Id>, queue: seq<Id>,
                                inDegree: map<Id, int>) {
    && DegreesMatch(connections, all, Elements(order), inDegree)
    && Elements(order) <= all && (forall v :: v in order ==> inDegree[v] == 0)
    && NoDuplicates(queue) && IsFrontier(Elements(queue), all, Elements(order), inDegree)
    && NoDuplicates(order) && SourcesFirst(connections, order)
  }

  lemma HeadIsNew(connections: seq<Edge>, all: set<Id>, order: seq<Id>, queue: seq<Id>, inDegree: map<Id, int>)
    requires OrderProgress(connections, all, order, queue, inDegree) && queue != []
    ensures queue[0] in all && queue[0] !in Elements(order)
    ensures Elements(order + [queue[0]]) == Elements(order) + {queue[0]}
  {
    assert queue[0] in Elements(queue);
  }

  /** A node served in place `k` or later leads to `v`. */
  ghost predicate FreedFrom(connections: seq<Edge>, order: seq<Id>, k: nat, v: Id) {
    exists m :: k <= m < |order| && Edge(order[m], v) in connections
  }

  /**
   * First in, first out: if a served node leads to a node of the line, then a node served at
   * least as late leads to every node further back. The line is what was served, then the queue.
   */
  ghost predicate ServedInTurn(connections: seq<Edge>, order: seq<Id>, queue: seq<Id>) {
    forall i, j, k :: 0 <= i < j < |order + queue| && 0 <= k < |order| ==>
      Edge(order[k], (order + queue)[i]) in connections ==> FreedFrom(connections, order, k, (order + queue)[j])
  }

  lemma HeadFreesNoneWaiting(connections: seq<Edge>, all: set<Id>, order: seq<Id>, queue: seq<Id>,
                             inDegree: map<Id, int>)
    requires OrderProgress(connections, all, order, queue, inDegree) && queue != []
    ensures forall v :: v in order + queue ==> Edge(queue[0], v) !in connections
  {
    HeadIsNew(connections, all, order, queue, inDegree);
    forall v | v in order + queue ensures Edge(queue[0], v) !in connections {
      assert v in Elements(order) || v in Elements(queue);
      NothingPending(connections, Elements(order), v);
    }
  }

  lemma DequeueServesInTurn(connections: seq<Edge>, order: seq<Id>, queue: seq<Id>, freed: seq<Id>)
    requires ServedInTurn(connections, order, queue) && queue != []
    requires forall v :: v in order + queue ==> Edge(queue[0], v) !in connections
    requires forall v :: v in freed ==> Edge(queue[0], v) in connections
    ensures ServedInTurn(connections, order + [queue[0]], queue[1..] + freed)
  {
    var longer, line := order + [queue[0]], order + queue;
    assert longer + (queue[1..] + freed) == line + freed;
    forall i, j, k |
      0 <= i < j < |line + freed| && 0 <= k < |longer| && Edge(longer[k], (line + freed)[i]) in connections
      ensures FreedFrom(connections, longer, k, (line + freed)[j])
    {
      if j < |line| {
        assert line[i] in line;
        assert FreedFrom(connections, order, k, line[j]);
        var m :| k <= m < |order| && Edge(order[m], line[j]) in connections;
        assert longer[m] == order[m];
      } else {
        assert freed[j - |line|] in freed;
        assert longer[|order|] == queue[0];
      }
    }
  }

  /** Once the queue is empty, the size of the order decides. */
  lemma FinishedOrder(nodes: seq<Id>, connections: seq<Edge>, order: seq<Id>, inDegree: map<Id, int>)
    requires TargetsKnown(nodes, connections)
    requires OrderProgress(connections, Elements(nodes), order, [], inDegree)
    ensures |order| == |nodes| <==> Plannable(nodes, connections)
    ensures |order| == |nodes| ==> IsExecutionOrder(nodes, connections, order)
  {
    var none: seq<Id> := [];
    assert Elements(none) == {};
    SizeTestDecides(nodes, connections, Elements(order), order, inDegree);
    if |order| == |nodes| {
      OrderedIsPlannable(nodes, connections, order);
    }
  }

  lemma DequeueKeepsProgress(connections: seq<Edge>, all: set<Id>, order: seq<Id>, queue: seq<Id>,
                             inDegree: map<Id, int>, freed: seq<Id>, lowered: map<Id, int>)
    requires OrderProgress(connections, all, order, queue, inDegree) && queue != []
    requires DegreesMatch(connections, all, Elements(order) + {queue[0]}, lowered)
    requires forall v :: v in all ==> lowered[v] <= inDegree[v]
    requires NoDuplicates(freed)
    requires forall v :: v in freed <==> v in all && inDegree[v] > 0 && lowered[v] == 0
    ensures OrderProgress(connections, all, order + [queue[0]], queue[1..] + freed, lowered)
  {
    var u, rest := queue[0], queue[1..];
    assert queue == [u] + rest && u in Elements(queue);
    var longer := order + [u];
    assert Elements(longer) == Elements(order) + {u};
    NothingPending(connections, Elements(order), u);
    forall i, w | 0 <= i < |longer| && Edge(w, longer[i]) in connections ensures w in longer[..i] {
      assert longer[..i] == order[..i];
      if i == |order| {
        assert order[..i] == order;
      }
    }
    forall v | v in rest ensures v != u && v in Elements(queue) {
    }
    forall v | v in all ensures lowered[v] >= 0 {
    }
    JoinDistinct(rest, freed);
    forall v ensures v in Elements(rest + freed) <==> v in all && v !in Elements(longer) && lowered[v] == 0 {
      assert v in Elements(queue) <==> v == u || v in rest;
    }
  }

  method GetExecutionOrder(nodes: seq<Id>, connections: seq<Edge>) returns (r: Result<seq<Id>, PlanError>)
    ensures r.Ok? <==> Plannable(nodes, connections)
    ensures r.Ok? ==> IsExecutionOrder(nodes, connections, r.value)
    ensures r.Ok? ==> ServedInTurn(connections, r.value, [])
    ensures r == Err(UnknownTarget) <==> !TargetsKnown(nodes, connections)
  {
    var built := BuildGraph(nodes, connections);
    if built.Err? {
      return Err(built.error);
    }
    var (graph, inDegree) := built.value;
    ghost var all := Elements(nodes);
    var order: seq<Id> := [];
    var queue := DegreeZero(nodes, inDegree);
    assert Elements(order) == {};
    while queue != []
      invariant OrderProgress(connections, all, order, queue, inDegree)
      invariant ServedInTurn(connections, order, queue)
      decreases all - Elements(order)
    {
      var u := queue[0];
      HeadIsNew(connections, all, order, queue, inDegree);
      var lowered, freed := Release(connections, all, Elements(order), u, Lookup(graph, u), inDegree);
      DequeueKeepsProgress(connections, all, order, queue, inDegree, freed, lowered);
      HeadFreesNoneWaiting(connections, all, order, queue, inDegree);
      DequeueServesInTurn(connections, order, queue, freed);
      order, queue, inDegree := order + [u], queue[1..] + freed, lowered;
    }
    FinishedOrder(nodes, connections, order, inDegree);
    if |order| != |nodes| {
      return Err(CircularDependency);
    }
    return Ok(order);
  }

  lemma FreedNoEarlier(connections: seq<Edge>, order: seq<Id>, i: nat, j: nat, k: nat) returns (m: nat)
    requires ServedInTurn(connections, order, []) && i < j < |order| && k < |order|
    requires Edge(order[k], order[i]) in connections
    ensures k <= m < |order| && Edge(order[m], order[j]) in connections
  {
    assert order + [] == order;
    assert FreedFrom(connections, order, k, order[j]);
    m :| k <= m < |order| && Edge(order[m], order[j]) in connections;
  }

  /** A node of a level above the lowest has a source in the level below, which is served before it. */
  lemma SourceServedBefore(nodes: seq<Id>, connections: seq<Edge>, order: seq<Id>, levels: seq<seq<Id>>, i: nat, a: nat)
    returns (k: nat)
    requires IsLevelPlan(nodes, connections, levels) && SourcesFirst(connections, order)
    requires i < |order| && 0 < a < |levels| && order[i] in levels[a]
    ensures k < i && order[k] in levels[a - 1] && Edge(order[k], order[i]) in connections
  {
    assert PlacedAt(connections, levels, a, order[i]);
    var u :| u in levels[a - 1] && Edge(u, order[i]) in connections;
    k :| 0 <= k < i && order[..i][k] == u;
  }

  /** Whatever leads to a node is served before it, and is in an earlier level. */
  lemma SourceIsEarlier(nodes: seq<Id>, connections: seq<Edge>, order: seq<Id>, levels: seq<seq<Id>>,
                        m: nat, j: nat, b: nat) returns (c: nat)
    requires IsLevelPlan(nodes, connections, levels)
    requires NoDuplicates(order) && SourcesFirst(connections, order)
    requires m < |order| && j < |order| && b < |levels|
    requires order[j] in levels[b] && Edge(order[m], order[j]) in connections
    ensures m < j && c < b && order[m] in levels[c]
  {
    var l :| 0 <= l < j && order[..j][l] == order[m];
    assert order[l] == order[m];
    assert PlacedAt(connections, levels, b, order[j]);
    c := FlattenedLevel(levels[..b], order[m]);
  }

  /** The linear order lists nodes level by level: of two nodes, the first is in no later level. */
  lemma {:induction false} OrderFollowsLevels(nodes: seq<Id>, connections: seq<Edge>, order: seq<Id>,
                                              levels: seq<seq<Id>>, i: nat, j: nat, a: nat, b: nat)
    requires IsLevelPlan(nodes, connections, levels)
    requires IsExecutionOrder(nodes, connections, order) && ServedInTurn(connections, order, [])
    requires i < j < |order| && a < |levels| && b < |levels|
    requires order[i] in levels[a] && order[j] in levels[b]
    ensures a <= b
    decreases j
  {
    if a > 0 {
      var k := SourceServedBefore(nodes, connections, order, levels, i, a);
      var m := FreedNoEarlier(connections, order, i, j, k);
      var c := SourceIsEarlier(nodes, connections, order, levels, m, j, b);
      if k < m {
        OrderFollowsLevels(nodes, connections, order, levels, k, m, a - 1, c);
      } else {
        RankOfLevel(levels, a - 1, order[k]);
        RankOfLevel(levels, c, order[m]);
      }
    }
  }
}
