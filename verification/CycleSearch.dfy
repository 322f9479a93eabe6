/**
 * The flow validator's depth-first search for circular dependencies, and how it fits with the
 * two execution planners.
 */
module CycleSearch {
  import opened Sequences
  import opened Digraph
  import opened FlowPlanner

  datatype VisitState = Unvisited | Visiting | Visited

  /** Every connection out of `finished[i]` leads to a node that finished before it. */
  ghost predicate TargetsFirst(connections: seq<Edge>, finished: seq<Id>) {
    forall i, w :: 0 <= i < |finished| && Edge(finished[i], w) in connections ==> w in finished[..i]
  }

  lemma AppendTarget(connections: seq<Edge>, finished: seq<Id>, v: Id)
    requires TargetsFirst(connections, finished)
    requires forall w :: Edge(v, w) in connections ==> w in finished
    ensures TargetsFirst(connections, finished + [v])
  {
    var longer := finished + [v];
    forall i, w | 0 <= i < |longer| && Edge(longer[i], w) in connections ensures w in longer[..i] {
      assert longer[..i] == finished[..i];
      if i == |finished| {
        assert finished[..i] == finished;
      }
    }
  }

  lemma ExtendWalk(connections: seq<Edge>, p: seq<Id>, v: Id)
    requires p != [] ==> IsWalk(connections, p) && Edge(p[|p| - 1], v) in connections
    ensures IsWalk(connections, p + [v])
  {
    forall i | 0 <= i < |p| ensures Edge((p + [v])[i], (p + [v])[i + 1]) in connections {
      if i < |p| - 1 {
        assert Edge(p[i], p[i + 1]) in connections;
      }
    }
  }

  lemma SuffixIsCycle(connections: seq<Edge>, p: seq<Id>, start: nat)
    requires IsWalk(connections, p) && start < |p| && Edge(p[|p| - 1], p[start]) in connections
    ensures IsCycle(connections, p[start..])
  {
    var c := p[start..];
    forall i | 0 <= i < |c| - 1 ensures Edge(c[i], c[i + 1]) in connections {
      assert Edge(p[start + i], p[start + i + 1]) in connections;
    }
  }

  lemma FinishedIsAcyclic(connections: seq<Edge>, finished: seq<Id>)
    requires NoDuplicates(finished) && TargetsFirst(connections, finished)
    requires forall c :: c in connections ==> c.source in finished
    ensures Acyclic(connections)
  {
    var rank: map<Id, int> := map v | v in finished :: 0 - FirstIndex(finished, v);
    forall e | e in connections
      ensures e.source in rank && e.target in rank && rank[e.source] < rank[e.target]
    {
      var i := FirstIndex(finished, e.source);
      assert Edge(finished[i], e.target) in connections;
      var j :| 0 <= j < i && finished[..i][j] == e.target;
      assert finished[j] == e.target && FirstIndex(finished, e.target) == j;
    }
    RankedIsAcyclic(connections, rank);
  }

  ghost predicate IsSearchState(connections: seq<Edge>, visitState: map<Id, VisitState>, path: seq<Id>,
                                finished: seq<Id>) {
    && (forall c :: c in connections ==> c.source in visitState && c.target in visitState)
    && NoDuplicates(path) && (path != [] ==> IsWalk(connections, path))
    && (forall v :: v in path <==> v in visitState && visitState[v] == Visiting)
    && NoDuplicates(finished)
    && (forall v :: v in finished <==> v in visitState && visitState[v] == Visited)
    && TargetsFirst(connections, finished)
  }

  lemma AppendIsDistinct(s: seq<Id>, v: Id)
    requires NoDuplicates(s) && v !in s
    ensures NoDuplicates(s + [v])
  {
  }

  lemma LeaveKeepsState(connections: seq<Edge>, visitState: map<Id, VisitState>, path: seq<Id>, finished: seq<Id>)
    requires IsSearchState(connections, visitState, path, finished) && path != []
    requires forall w :: Edge(path[|path| - 1], w) in connections ==> w in finished
    ensures var init, node := path[..|path| - 1], path[|path| - 1];
      && node in visitState && visitState[node] == Visiting
      && IsSearchState(connections, visitState[node := Visited], init, finished + [node])
  {
    var init, node := path[..|path| - 1], path[|path| - 1];
    assert path == init + [node];
    if init != [] {
      PrefixIsWalk(connections, path, |init|);
    }
    assert node in path && node !in finished;
    AppendTarget(connections, finished, node);
    DistinctHalves(init, [node]);
    AppendIsDistinct(finished, node);
    assert node !in init && forall v :: v in path <==> v in init || v == node;
  }

  /** The state the recursive search shares: the visit states, the current path, the cycle found. */
  class Search {
    const connections: seq<Edge>
    var visitState: map<Id, VisitState>
    var path: seq<Id>
    var cycleNodes: seq<Id>
    /** The nodes in the order they became `Visited`. */
    ghost var finished: seq<Id>

    ghost predicate Valid()
      reads this
    {
      IsSearchState(connections, visitState, path, finished) && cycleNodes == []
    }

    ghost function Untouched(): set<Id>
      reads this
    {
      set v | v in visitState && visitState[v] == Unvisited
    }

    constructor (nodes: seq<Id>, connections: seq<Edge>)
      requires EndpointsKnown(nodes, connections)
      ensures Valid() && path == [] && finished == []
      ensures this.connections == connections && visitState.Keys == Elements(nodes)
    {
      this.connections := connections;
      visitState := map v | v in nodes :: Unvisited;
      path, cycleNodes, finished := [], [], [];
    }

    /** Marks an unvisited node as being visited and puts it on the path. */
    method Enter(node: Id)
      requires Valid() && node in visitState && visitState[node] == Unvisited
      requires path != [] ==> Edge(path[|path| - 1], node) in connections
      modifies this
      ensures Valid() && path == old(path) + [node] && finished == old(finished)
      ensures visitState == old(visitState)[node := Visiting]
      ensures Untouched() == old(Untouched()) - {node}
    {
      visitState := visitState[node := Visiting];
      ExtendWalk(connections, path, node);
      path := path + [node];
    }

    /** Takes the last node off the path once all its successors are visited. */
    method Leave(node: Id)
      requires Valid() && path != [] && path[|path| - 1] == node
      requires forall w :: Edge(node, w) in connections ==> w in finished
      modifies this
      ensures Valid() && path == old(path)[..|old(path)| - 1]
      ensures visitState == old(visitState)[node := Visited]
      ensures finished == old(finished) + [node]
      ensures Untouched() == old(Untouched())
    {
      LeaveKeepsState(connections, visitState, path, finished);
      path := path[..|path| - 1];
      visitState := visitState[node := Visited];
      finished := finished + [node];
    }

    method Visit(node: Id) returns (found: bool)
      requires Valid() && node in visitState
      requires path != [] ==> Edge(path[|path| - 1], node) in connections
      modifies this
      ensures found ==> IsCycle(connections, cycleNodes)
      ensures !found ==> Valid() && path == old(path)
      ensures !found ==> visitState.Keys == old(visitState.Keys) && Untouched() <= old(Untouched())
      ensures !found ==> visitState[node] == Visited
      ensures !found ==> forall v :: v in old(finished) ==> v in finished
      decreases |Untouched()|, 0
    {
      if visitState[node] == Visiting {
        var start := FirstIndex(path, node);
        cycleNodes := cycleNodes + path[start..];
        SuffixIsCycle(connections, path, start);
        return true;
      }
      if visitState[node] == Visited {
        return false;
      }
      SubsetCount(Untouched() - {node}, Untouched());
      Enter(node);
      var inner := VisitAll(node, Successors(connections, node));
      if inner {
        return true;
      }
      forall w | Edge(node, w) in connections ensures w in finished {
        SuccessorsAreTargets(connections, node, w);
      }
      Leave(node);
      return false;
    }

    /** The loop over a node's neighbours, while the node is the last on the path. */
    method VisitAll(node: Id, neighbours: seq<Id>) returns (found: bool)
      requires Valid() && path != [] && path[|path| - 1] == node
      requires neighbours == Successors(connections, node)
      modifies this
      ensures found ==> IsCycle(connections, cycleNodes)
      ensures !found ==> Valid() && path == old(path)
      ensures !found ==> visitState.Keys == old(visitState.Keys) && Untouched() <= old(Untouched())
      ensures !found ==> forall v :: v in old(finished) ==> v in finished
      ensures !found ==> forall w :: w in neighbours ==> w in finished
      decreases |Untouched()|, 1
    {
      for i := 0 to |neighbours|
        invariant Valid() && path == old(path)
        invariant visitState.Keys == old(visitState.Keys) && Untouched() <= old(Untouched())
        invariant forall v :: v in old(finished) ==> v in finished
        invariant forall j :: 0 <= j < i ==> neighbours[j] in finished
      {
        SubsetCount(Untouched(), old(Untouched()));
        SuccessorsAreTargets(connections, node, neighbours[i]);
        assert Edge(node, neighbours[i]) in connections;
        var inner := Visit(neighbours[i]);
        if inner {
          return true;
        }
      }
      return false;
    }
  }

  method DetectCircularDependencies(nodes: seq<Id>, connections: seq<Edge>)
    returns (circular: bool, cycle: seq<Id>)
    requires EndpointsKnown(nodes, connections)
    ensures circular <==> !Acyclic(connections)
    ensures circular ==> IsCycle(connections, cycle)
    ensures !circular ==> cycle == []
  {
    var search := new Search(nodes, connections);
    for i := 0 to |nodes|
      invariant search.Valid() && search.path == [] && search.connections == connections
      invariant search.visitState.Keys == Elements(nodes)
      invariant forall j :: 0 <= j < i ==> nodes[j] in search.finished
    {
      assert nodes[i] in Elements(nodes);
      if search.visitState[nodes[i]] == Unvisited {
        var found := search.Visit(nodes[i]);
        if found {
          return true, search.cycleNodes;
        }
      }
    }
    FinishedIsAcyclic(connections, search.finished);
    return false, [];
  }

  // ---------------------------------------------------------------------------------------
  // The graph checks of flow validation
  // ---------------------------------------------------------------------------------------

  /** The connections whose two ends are nodes of the flow, in order. */
  function Usable(nodes: seq<Id>, connections: seq<Edge>): (usable: seq<Edge>)
    ensures EndpointsKnown(nodes, usable)
    ensures usable == connections <==> EndpointsKnown(nodes, connections)
    ensures |usable| <= |connections|
  {
    if connections == [] then []
    else
      var c := connections[0];
      assert connections == [c] + connections[1..];
      if c.source in nodes && c.target in nodes then [c] + Usable(nodes, connections[1..])
      else Usable(nodes, connections[1..])
  }

  /** Exactly the connections with both ends among the nodes are kept, in order and with repetition. */
  lemma {:induction false} UsableIsFilter(nodes: seq<Id>, connections: seq<Edge>, keep: Edge -> bool)
    requires forall c :: keep(c) <==> c.source in nodes && c.target in nodes
    ensures Usable(nodes, connections) == Filter(connections, keep)
  {
    if connections != [] {
      UsableIsFilter(nodes, connections[1..], keep);
      FilterFromFront(connections[0], connections[1..], keep);
      assert connections == [connections[0]] + connections[1..];
    }
  }

  /** Which flows the graph checks let through: an empty flow passes whatever its connections. */
  ghost predicate PassesGraphChecks(nodes: seq<Id>, connections: seq<Edge>, strict: bool) {
    || nodes == []
    || ((strict ==> EndpointsKnown(nodes, connections)) && Acyclic(Usable(nodes, connections)))
  }

  method ValidateGraph(nodes: seq<Id>, connections: seq<Edge>, strict: bool)
    returns (valid: bool, circular: bool, cycle: seq<Id>)
    ensures valid <==> PassesGraphChecks(nodes, connections, strict)
    ensures circular <==> nodes != [] && !Acyclic(Usable(nodes, connections))
    ensures circular ==> IsCycle(Usable(nodes, connections), cycle)
  {
    if nodes == [] {
      return true, false, [];
    }
    var usable := Usable(nodes, connections);
    circular, cycle := DetectCircularDependencies(nodes, usable);
    valid := !circular && (strict ==> usable == connections);
  }

  /**
   * A strictly valid flow has an execution plan exactly when no node id is repeated and an
   * empty flow has no connections. Validation checks neither.
   */
  lemma ValidatedFlowHasPlan(nodes: seq<Id>, connections: seq<Edge>)
    requires PassesGraphChecks(nodes, connections, true)
    ensures Plannable(nodes, connections)
       <==> NoDuplicates(nodes) && (nodes == [] ==> connections == [])
  {
    if nodes == [] && connections != [] {
      assert connections[0] in connections;
    }
  }

  lemma RepeatedIdPassesValidation(id: Id)
    ensures PassesGraphChecks([id, id], [], true) && !Plannable([id, id], [])
  {
    assert [id, id][0] == [id, id][1];
    assert Usable([id, id], []) == [];
  }
}
