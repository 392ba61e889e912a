/** Dependency graphs and the depth-first cycle search over them. */
module TaskGraph {
  import opened Common

  /** Task id to the ids it depends on; an id that is not a key has no dependencies. */
  type Graph = map<Id, seq<Id>>

  predicate Edge(g: Graph, a: Id, b: Id) {
    a in g && b in g[a]
  }

  ghost predicate IsWalk(g: Graph, w: seq<Id>) {
    forall i :: 0 <= i < |w| - 1 ==> Edge(g, w[i], w[i + 1])
  }

  ghost predicate IsCycle(g: Graph, w: seq<Id>) {
    |w| >= 2 && IsWalk(g, w) && w[0] == w[|w| - 1]
  }

  ghost predicate HasCycle(g: Graph) {
    exists w :: IsCycle(g, w)
  }

  /** `order` lists every dependency of an element before the element. */
  ghost predicate Topological(g: Graph, order: seq<Id>) {
    forall k, d :: 0 <= k < |order| && Edge(g, order[k], d) ==> d in order[..k]
  }

  function Position(order: seq<Id>, x: Id): (k: nat)
    requires x in order
    ensures k < |order| && order[k] == x && x !in order[..k]
  {
    if order[0] == x then 0
    else
      assert x in order[1..];
      var k := Position(order[1..], x);
      assert order[..k + 1] == [order[0]] + order[1..][..k];
      k + 1
  }

  lemma StepDescends(g: Graph, order: seq<Id>, a: Id, b: Id)
    requires Topological(g, order) && a in order && Edge(g, a, b)
    ensures b in order && Position(order, b) < Position(order, a)
  {
    var k := Position(order, a);
    assert Edge(g, order[k], b);
    assert b in order[..k];
    var j :| 0 <= j < k && order[j] == b;
    assert order[j] in order[..j + 1];
  }

  lemma {:induction false} WalkDescends(g: Graph, order: seq<Id>, w: seq<Id>, n: nat)
    requires Topological(g, order) && IsWalk(g, w) && n < |w| && w[0] in order
    ensures w[n] in order && Position(order, w[n]) + n <= Position(order, w[0])
  {
    if n > 0 {
      WalkDescends(g, order, w, n - 1);
      assert Edge(g, w[n - 1], w[n]);
      StepDescends(g, order, w[n - 1], w[n]);
    }
  }

  /** A topological listing of all keys rules out cycles. */
  lemma OrderedIsAcyclic(g: Graph, order: seq<Id>)
    requires Topological(g, order) && forall x :: x in g ==> x in order
    ensures !HasCycle(g)
  {
    forall w | IsCycle(g, w) ensures false {
      assert Edge(g, w[0], w[1]);
      WalkDescends(g, order, w, |w| - 1);
    }
  }

  // ---- depth-first search ----

  function Successors(g: Graph, node: Id): seq<Id> {
    if node in g then g[node] else []
  }

  /** Keys and everything they depend on. */
  ghost function Nodes(g: Graph): set<Id> {
    g.Keys + set a, b | a in g && b in g[a] :: b
  }

  ghost predicate ClosedUnder(g: Graph, nodes: set<Id>) {
    forall a, b :: Edge(g, a, b) ==> b in nodes
  }

  class CycleSearch {
    const graph: Graph
    var visiting: set<Id>
    var visited: set<Id>
    /** The nodes being visited, outermost first. */
    ghost var stack: seq<Id>
    /** The visited nodes in the order in which their visits ended. */
    ghost var order: seq<Id>

    constructor (graph: Graph)
      ensures this.graph == graph && Valid() && stack == [] && order == []
    {
      this.graph := graph;
      visiting, visited, stack, order := {}, {}, [], [];
    }

    ghost predicate Valid()
      reads this
    {
      && visiting == (set x | x in stack)
      && visited == (set x | x in order)
      && IsWalk(graph, stack)
      && Topological(graph, order)
    }

    /** `nodes` bounds the nodes not yet seen. */
    method Dfs(node: Id, ghost nodes: set<Id>) returns (cyclic: bool)
      requires Valid() && node in nodes && ClosedUnder(graph, nodes)
      requires stack != [] ==> Edge(graph, stack[|stack| - 1], node)
      modifies this
      ensures cyclic ==> HasCycle(graph)
      ensures !cyclic ==> Valid() && stack == old(stack) && node in visited
      ensures !cyclic ==> visiting == old(visiting) && old(visited) <= visited
      decreases nodes - visiting - visited
    {
      if node in visiting {
        StackCloses(graph, stack, node);
        return true;
      }
      if node in visited {
        return false;
      }
      visiting, stack := visiting + {node}, stack + [node];
      var deps := Successors(graph, node);
      var i := 0;
      while i < |deps|
        invariant 0 <= i <= |deps|
        invariant Valid() && stack == old(stack) + [node]
        invariant visiting == old(visiting) + {node} && old(visited) <= visited
        invariant forall j :: 0 <= j < i ==> deps[j] in visited
      {
        assert Edge(graph, node, deps[i]);
        assert node in old(nodes - visiting - visited) && node !in nodes - visiting - visited;
        var found := Dfs(deps[i], nodes);
        if found {
          return true;
        }
        i := i + 1;
      }
      FinishKeepsOrder(graph, order, node);
      visiting, stack := visiting - {node}, old(stack);
      visited, order := visited + {node}, order + [node];
      return false;
    }
  }

  lemma StackCloses(g: Graph, stack: seq<Id>, node: Id)
    requires IsWalk(g, stack) && node in stack && Edge(g, stack[|stack| - 1], node)
    ensures HasCycle(g)
  {
    var k :| 0 <= k < |stack| && stack[k] == node;
    var w := stack[k..] + [node];
    forall i | 0 <= i < |w| - 1 ensures Edge(g, w[i], w[i + 1]) {
      if i < |w| - 2 {
        assert Edge(g, stack[k + i], stack[k + i + 1]);
      }
    }
    assert IsCycle(g, w);
  }

  lemma FinishKeepsOrder(g: Graph, order: seq<Id>, node: Id)
    requires Topological(g, order) && forall d :: Edge(g, node, d) ==> d in order
    ensures Topological(g, order + [node])
  {
    var longer := order + [node];
    forall k, d | 0 <= k < |longer| && Edge(g, longer[k], d) ensures d in longer[..k] {
      if k < |order| {
        assert Edge(g, order[k], d) && longer[..k] == order[..k];
      } else {
        assert longer[..k] == order;
      }
    }
  }

  /** Starts a search from every key, in any order. */
  method FindCycle(graph: Graph) returns (cyclic: bool)
    ensures cyclic <==> HasCycle(graph)
  {
    var search := new CycleSearch(graph);
    var rest := graph.Keys;
    while rest != {}
      invariant search.Valid() && search.stack == [] && search.graph == graph
      invariant fresh(search) && rest <= graph.Keys
      invariant forall x :: x in graph && x !in rest ==> x in search.visited
      decreases |rest|
    {
      var node :| node in rest;
      var found := search.Dfs(node, Nodes(graph));
      if found {
        return true;
      }
      rest := rest - {node};
    }
    OrderedIsAcyclic(graph, search.order);
    return false;
  }
}
