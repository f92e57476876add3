/** The depth-first search of `services/item_dependency_validator.py`.
  *
  * Nodes of type `N` are the item ids of one channel. An edge counts only if its target is
  * an item of the channel.
  */
module DependencyGraph {

  type Graph<N> = map<N, set<N>>

  ghost predicate Edge<N>(g: Graph<N>, a: N, b: N)
  {
    a in g && b in g && b in g[a]
  }

  /** Each node leads to the next. */
  ghost predicate IsPath<N>(g: Graph<N>, p: seq<N>)
  {
    (forall i :: 0 <= i < |p| ==> p[i] in g) &&
    forall i :: 0 <= i < |p| - 1 ==> Edge(g, p[i], p[i + 1])
  }

  /** A cycle as it is reported: the node it starts from ends it again. */
  ghost predicate IsCycle<N>(g: Graph<N>, p: seq<N>)
  {
    |p| >= 2 && p[0] == p[|p| - 1] && IsPath(g, p)
  }

  ghost predicate Cyclic<N(!new)>(g: Graph<N>)
  {
    exists p: seq<N> :: IsCycle(g, p)
  }

  // ---- what a finished search proves ---------------------------------------

  ghost predicate Distinct<N>(p: seq<N>)
  {
    forall i, j :: 0 <= i < j < |p| ==> p[i] != p[j]
  }

  /** The order in which nodes were left: every target before its source. */
  ghost predicate Postorder<N(!new)>(g: Graph<N>, order: seq<N>)
  {
    && Distinct(order)
    && (forall i :: 0 <= i < |order| ==> order[i] in g)
    && forall i, b :: 0 <= i < |order| && Edge(g, order[i], b) ==> b in order[..i]
  }

  lemma PostorderExtends<N(!new)>(g: Graph<N>, order: seq<N>, node: N)
    requires Postorder(g, order) && node in g && node !in order
    requires forall b :: Edge(g, node, b) ==> b in order
    ensures Postorder(g, order + [node])
  {
    var longer := order + [node];
    forall i, b | 0 <= i < |longer| && Edge(g, longer[i], b) ensures b in longer[..i] {
      if i < |order| {
        assert longer[..i] == order[..i];
      } else {
        assert longer[..i] == order;
      }
    }
  }

  /** Along a path, nodes were left in the opposite order. */
  lemma {:induction false} PathDescends<N(!new)>(g: Graph<N>, order: seq<N>, p: seq<N>) returns (from: nat, to: nat)
    requires Postorder(g, order) && IsPath(g, p) && |p| >= 2 && p[0] in order
    ensures from < |order| && order[from] == p[0]
    ensures to < from && order[to] == p[|p| - 1]
  {
    from :| 0 <= from < |order| && order[from] == p[0];
    assert Edge(g, p[0], p[1]);
    assert p[1] in order[..from];
    if |p| == 2 {
      to :| 0 <= to < from && order[to] == p[1];
    } else {
      var tail := p[1..];
      forall i | 0 <= i < |tail| - 1 ensures Edge(g, tail[i], tail[i + 1]) {
        assert Edge(g, p[i + 1], p[i + 1 + 1]);
      }
      var mid: nat;
      mid, to := PathDescends(g, order, tail);
      assert mid < from;
    }
  }

  /** A search that left every node has shown that there is no cycle. */
  lemma CompleteOrderIsAcyclic<N(!new)>(g: Graph<N>, order: seq<N>)
    requires Postorder(g, order) && forall a :: a in g ==> a in order
    ensures !Cyclic(g)
  {
    forall p: seq<N> | IsCycle(g, p) ensures false {
      var from, to := PathDescends(g, order, p);
    }
  }

  /** Fewer edges between fewer nodes cannot make a cycle. */
  lemma SubgraphStaysAcyclic<N(!new)>(g: Graph<N>, h: Graph<N>)
    requires !Cyclic(g)
    requires forall a, b :: Edge(h, a, b) ==> Edge(g, a, b)
    requires forall a :: a in h ==> a in g
    ensures !Cyclic(h)
  {
    forall p: seq<N> | IsCycle(h, p) ensures false {
      assert IsCycle(g, p);
    }
  }

  // ---- the search ----------------------------------------------------------

  /** What a visit returns: the exception's cycle, if it raised one. */
  datatype Outcome<N> = Finished | Raised(cycle: seq<N>)

  /** The variables the nested `visit` shares with its callers. */
  class Search<N(==, !new)> {
    const graph: Graph<N>
    var visiting: set<N>
    var visited: set<N>
    var path: seq<N>
    ghost var order: seq<N>

    /** White, grey, black: grey nodes are exactly the current path, black ones
      * have only black successors, in an order that excludes a cycle.
      */
    ghost predicate Valid()
      reads this
    {
      && (forall a :: a in visiting <==> a in path)
      && Distinct(path) && IsPath(graph, path)
      && (forall a :: a in visited <==> a in order)
      && Postorder(graph, order)
      && visiting !! visited
    }

    constructor (graph: Graph<N>)
      ensures Valid() && this.graph == graph && path == [] && order == []
    {
      this.graph := graph;
      visiting, visited, path, order := {}, {}, [], [];
    }

    /** White to grey. */
    method Enter(node: N)
      requires Valid() && node in graph && node !in visiting && node !in visited
      requires path != [] ==> Edge(graph, path[|path| - 1], node)
      modifies this`visiting, this`path
      ensures Valid() && visiting == old(visiting) + {node} && path == old(path) + [node]
    {
      visiting := visiting + {node};
      path := path + [node];
    }

    /** Grey to black, once every successor is black. */
    method Leave(node: N)
      requires Valid() && path != [] && path[|path| - 1] == node
      requires forall b :: Edge(graph, node, b) ==> b in visited
      modifies this
      ensures Valid() && visiting == old(visiting) - {node} && path == old(path)[..|old(path)| - 1]
      ensures order == old(order) + [node] && visited == old(visited) + {node}
    {
      assert node in visiting;
      PostorderExtends(graph, order, node);
      path := path[..|path| - 1];
      assert old(path) == path + [node];
      visiting := visiting - {node};
      visited := visited + {node};
      order := order + [node];
    }

    /** The path from the first sight of a grey node back to it. */
    method CycleFrom(node: N) returns (cycle: seq<N>)
      requires Valid() && node in visiting && path != [] && Edge(graph, path[|path| - 1], node)
      ensures IsCycle(graph, cycle)
    {
      var start := IndexOf(path, node);
      cycle := path[start..] + [node];
      forall i | 0 <= i < |cycle| - 1 ensures Edge(graph, cycle[i], cycle[i + 1]) {
        if i + 1 < |cycle| - 1 {
          assert Edge(graph, path[start + i], path[start + i + 1]);
        }
      }
    }

    /** `visit`: the cycle of the exception, or every node reachable turns black
      * and the path is as before.
      */
    method Visit(node: N) returns (r: Outcome<N>)
      requires Valid() && node in graph
      requires path != [] ==> Edge(graph, path[|path| - 1], node)
      modifies this
      ensures r.Raised? ==> IsCycle(graph, r.cycle)
      ensures r.Finished? ==> Valid() && visiting == old(visiting) && path == old(path)
      ensures r.Finished? ==> old(visited) <= visited && node in visited
      decreases graph.Keys - visiting
    {
      if node in visiting {
        var cycle := CycleFrom(node);
        return Raised(cycle);
      }
      if node in visited {
        return Finished;
      }
      Enter(node);
      var todo := graph[node];
      while todo != {}
        invariant Valid() && todo <= graph[node]
        invariant visiting == old(visiting) + {node} && path == old(path) + [node]
        invariant old(visited) <= visited
        invariant forall b :: b in graph[node] && b !in todo && b in graph ==> b in visited
        decreases todo
      {
        var dependency :| dependency in todo;
        if dependency in graph {
          r := Visit(dependency);
          if r.Raised? {
            return;
          }
        }
        todo := todo - {dependency};
      }
      Leave(node);
      return Finished;
    }
  }

  /** `list.index`. */
  method IndexOf<N(==)>(p: seq<N>, node: N) returns (i: nat)
    requires node in p
    ensures i < |p| && p[i] == node && node !in p[..i]
  {
    i := 0;
    while p[i] != node
      invariant i < |p| && node !in p[..i]
      decreases |p| - i
    {
      assert node in p[i + 1..];
      i := i + 1;
    }
  }

  /** `validate_item_dependency_graph` on the graph it has built: it raises
    * exactly when the graph has a cycle, and names a real one.
    */
  method Validate<N(==, !new)>(g: Graph<N>) returns (r: Outcome<N>)
    ensures r.Raised? <==> Cyclic(g)
    ensures r.Raised? ==> IsCycle(g, r.cycle)
  {
    var search := new Search(g);
    var todo := g.Keys;
    while todo != {}
      invariant search.Valid() && search.graph == g && search.path == []
      invariant fresh(search)
      invariant todo <= g.Keys && forall a :: a in g && a !in todo ==> a in search.visited
      decreases todo
    {
      var node :| node in todo;
      r := search.Visit(node);
      if r.Raised? {
        return;
      }
      todo := todo - {node};
    }
    forall a | a in g ensures a in search.order {
      assert a in search.visited;
    }
    CompleteOrderIsAcyclic(g, search.order);
    return Finished;
  }
}
