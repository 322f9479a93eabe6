/** Directed graphs given as lists of edges: walks, cycles, and what having no cycle implies or follows from. */
module Digraph {
  import opened Sequences

  type Id = string

  datatype Edge = Edge(source: Id, target: Id)

  ghost predicate IsWalk(edges: seq<Edge>, p: seq<Id>) {
    && p != []
    && forall i :: 0 <= i < |p| - 1 ==> Edge(p[i], p[i + 1]) in edges
  }

  /** `c` lists the nodes of a cycle: each leads to the next, and the last leads to the first. */
  ghost predicate IsCycle(edges: seq<Edge>, c: seq<Id>) {
    IsWalk(edges, c) && Edge(c[|c| - 1], c[0]) in edges
  }

  ghost predicate Acyclic(edges: seq<Edge>) {
    forall c :: !IsCycle(edges, c)
  }

  /** Every edge goes from a lower to a higher rank. */
  ghost predicate RanksUpward(edges: seq<Edge>, rank: map<Id, int>) {
    forall e :: e in edges ==>
      e.source in rank && e.target in rank && rank[e.source] < rank[e.target]
  }

  lemma {:induction false} RankRisesAlongWalk(edges: seq<Edge>, rank: map<Id, int>, p: seq<Id>)
    requires RanksUpward(edges, rank) && IsWalk(edges, p) && |p| > 1
    ensures p[0] in rank && p[|p| - 1] in rank
    ensures rank[p[0]] + |p| - 1 <= rank[p[|p| - 1]]
  {
    assert Edge(p[|p| - 2], p[|p| - 1]) in edges;
    if |p| > 2 {
      var init := p[..|p| - 1];
      RankRisesAlongWalk(edges, rank, init);
    }
  }

  lemma RankedIsAcyclic(edges: seq<Edge>, rank: map<Id, int>)
    requires RanksUpward(edges, rank)
    ensures Acyclic(edges)
  {
    forall c ensures !IsCycle(edges, c) {
      if IsCycle(edges, c) {
        if |c| > 1 {
          RankRisesAlongWalk(edges, rank, c);
        }
      }
    }
  }

  ghost predicate HasPredecessor(edges: seq<Edge>, nodes: set<Id>, v: Id) {
    exists u :: u in nodes && Edge(u, v) in edges
  }

  lemma PrefixIsWalk(edges: seq<Edge>, p: seq<Id>, n: nat)
    requires IsWalk(edges, p) && 0 < n <= |p|
    ensures IsWalk(edges, p[..n])
  {
    forall i | 0 <= i < n - 1 ensures Edge(p[..n][i], p[..n][i + 1]) in edges {
      assert Edge(p[i], p[i + 1]) in edges;
    }
  }

  lemma ExtendBackward(edges: seq<Edge>, nodes: set<Id>, u: Id, p: seq<Id>)
    requires IsWalk(edges, p) && NoDuplicates(p) && Elements(p) <= nodes
    requires u in nodes && u !in p && Edge(u, p[0]) in edges
    ensures IsWalk(edges, [u] + p) && NoDuplicates([u] + p) && Elements([u] + p) <= nodes
  {
    var longer := [u] + p;
    forall i | 0 <= i < |longer| - 1 ensures Edge(longer[i], longer[i + 1]) in edges {
      if i > 0 {
        assert Edge(p[i - 1], p[i]) in edges;
      }
    }
    forall i, j | 0 <= i < j < |longer| ensures longer[i] != longer[j] {
      assert longer[j] == p[j - 1];
      if i > 0 {
        assert longer[i] == p[i - 1];
      }
    }
  }

  /** In a set where every node has a predecessor, walking backwards must repeat a node. */
  lemma {:induction false} BackwardWalkClosesCycle(edges: seq<Edge>, nodes: set<Id>, p: seq<Id>) returns (c: seq<Id>)
    requires IsWalk(edges, p) && NoDuplicates(p) && Elements(p) <= nodes
    requires forall v :: v in nodes ==> HasPredecessor(edges, nodes, v)
    ensures IsCycle(edges, c)
    decreases |nodes| - |p|
  {
    assert p[0] in Elements(p);
    assert p[0] in nodes && HasPredecessor(edges, nodes, p[0]);
    var u :| u in nodes && Edge(u, p[0]) in edges;
    if u in p {
      var k :| 0 <= k < |p| && p[k] == u;
      PrefixIsWalk(edges, p, k + 1);
      c := p[..k + 1];
    } else {
      ExtendBackward(edges, nodes, u, p);
      DistinctFits([u] + p, nodes);
      c := BackwardWalkClosesCycle(edges, nodes, [u] + p);
    }
  }

  /** Any non-empty set of nodes of an acyclic graph has a member nothing in the set leads to. */
  lemma AcyclicHasSource(edges: seq<Edge>, nodes: set<Id>) returns (v: Id)
    requires Acyclic(edges) && nodes != {}
    ensures v in nodes && !HasPredecessor(edges, nodes, v)
  {
    if exists x :: x in nodes && !HasPredecessor(edges, nodes, x) {
      v :| v in nodes && !HasPredecessor(edges, nodes, v);
    } else {
      v :| v in nodes;
      var c := BackwardWalkClosesCycle(edges, nodes, [v]);
      assert false;
    }
  }
}
