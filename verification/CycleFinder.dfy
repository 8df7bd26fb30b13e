/** The depth-first search for cycles in the wait-for graph. */
module CycleFinders {
  import opened Graphs
  import opened Sequences

  function Vertices(g: Graph): set<string> {
    g.Keys + set u, v | u in g && v in g[u] :: v
  }

  /** Each member of the list points to the one after it. */
  ghost predicate IsPath(g: Graph, p: seq<string>) {
    forall i {:trigger p[i]} :: 0 <= i < |p| - 1 ==> p[i + 1] in Successors(g, p[i])
  }

  /** Some list starts at w and ends at u: the edge from u to w closes it. */
  ghost predicate Closes(cycles: seq<seq<string>>, u: string, w: string) {
    exists r :: r in cycles && r != [] && r[|r| - 1] == u && r[0] == w
  }

  /** A finish order: every successor of a listed vertex comes earlier in the list, or the edge to it closes a cycle. */
  ghost predicate IsRanked(g: Graph, order: seq<string>, cycles: seq<seq<string>>) {
    forall k, w :: 0 <= k < |order| && w in Successors(g, order[k]) ==> w in order[..k] || Closes(cycles, order[k], w)
  }

  /** One of the edges of c closes one of the cycles. */
  ghost predicate Caught(cycles: seq<seq<string>>, c: seq<string>) {
    exists i {:trigger c[i]} :: 0 <= i < |c| && Closes(cycles, c[i], Next(c, i))
  }

  function IndexOf(p: seq<string>, x: string): (i: nat)
    requires x in p
    ensures i < |p| && p[i] == x
    ensures x !in p[..i]
  {
    if p[0] == x then 0 else 1 + IndexOf(p[1..], x)
  }

  /** Walking along a cycle none of whose edges closes one, the position in a finish order would fall for ever. */
  lemma {:induction false} CaughtFrom(
    g: Graph, order: seq<string>, cycles: seq<seq<string>>, c: seq<string>, i: nat, k: nat)
    requires IsRanked(g, order, cycles) && IsCycle(g, c) && i < |c| && k < |order| && c[i] == order[k]
    ensures Caught(cycles, c)
    decreases k
  {
    var w := Next(c, i);
    assert w in Successors(g, order[k]);
    if !Closes(cycles, order[k], w) {
      var k' :| 0 <= k' < k && order[k'] == w;
      CaughtFrom(g, order, cycles, c, if i + 1 < |c| then i + 1 else 0, k');
    }
  }

  lemma RankedCatches(g: Graph, order: seq<string>, cycles: seq<seq<string>>, c: seq<string>)
    requires IsRanked(g, order, cycles) && g.Keys <= Elements(order) && IsCycle(g, c)
    ensures Caught(cycles, c)
  {
    assert Next(c, 0) in Successors(g, c[0]);
    assert c[0] in order;
    var k :| 0 <= k < |order| && order[k] == c[0];
    CaughtFrom(g, order, cycles, c, 0, k);
  }

  lemma RankedAcyclic(g: Graph, order: seq<string>)
    requires IsRanked(g, order, []) && g.Keys <= Elements(order)
    ensures Acyclic(g)
  {
    forall c ensures !IsCycle(g, c) {
      if IsCycle(g, c) { RankedCatches(g, order, [], c); }
    }
  }

  /** More cycles found leave a finish order one. */
  lemma RankedStays(g: Graph, order: seq<string>, cycles: seq<seq<string>>, more: seq<seq<string>>)
    requires IsRanked(g, order, cycles) && cycles <= more
    ensures IsRanked(g, order, more)
  {
    forall u, w | Closes(cycles, u, w) ensures Closes(more, u, w) { ClosesStays(cycles, more, u, w); }
  }

  lemma ClosesStays(cycles: seq<seq<string>>, more: seq<seq<string>>, u: string, w: string)
    requires Closes(cycles, u, w) && cycles <= more
    ensures Closes(more, u, w)
  {
    var r :| r in cycles && r != [] && r[|r| - 1] == u && r[0] == w;
    assert r in more;
  }

  /** The part of the path from a vertex on, if its end points back to that vertex, is a simple cycle. */
  lemma PathClosesCycle(g: Graph, p: seq<string>, nb: string)
    requires IsPath(g, p) && Distinct(p) && nb in p && nb in Successors(g, p[|p| - 1])
    ensures IsSimpleCycle(g, p[IndexOf(p, nb)..])
  {
    var i := IndexOf(p, nb);
    var c := p[i..];
    forall j | 0 <= j < |c|
      ensures Next(c, j) in Successors(g, c[j])
    {
      assert c[j] == p[i + j];
      if j + 1 < |c| { assert c[j + 1] == p[i + j + 1]; }
    }
  }

  class CycleFinder {
    const graph: Graph

    var visited: set<string>
    var rec: set<string>
    var path: seq<string>
    var cycles: seq<seq<string>>
    ghost var finished: seq<string>

    ghost predicate Searching()
      reads this
    {
      && rec == Elements(path) && rec <= visited <= Vertices(graph)
      && Distinct(path) && IsPath(graph, path)
      && Elements(finished) == visited - rec
      && (forall c :: c in cycles ==> IsSimpleCycle(graph, c))
      && IsRanked(graph, finished, cycles)
    }

    constructor (graph: Graph)
      ensures this.graph == graph && Searching() && path == [] && visited == {}
    {
      this.graph := graph;
      visited, rec, path, cycles, finished := {}, {}, [], [], [];
    }

    method Dfs(node: string)
      requires Searching() && node in Vertices(graph) && node !in visited
      requires path != [] ==> node in Successors(graph, path[|path| - 1])
      modifies this
      ensures Searching() && path == old(path) && node in visited
      ensures old(visited) <= visited && old(cycles) <= cycles
      decreases Vertices(graph) - visited
    {
      Enter(node);
      var todo := Successors(graph, node);
      while todo != {}
        invariant Searching() && path == old(path) + [node]
        invariant old(visited) + {node} <= visited && old(cycles) <= cycles
        invariant todo <= Successors(graph, node)
        invariant forall w :: w in Successors(graph, node) - todo ==> w in visited - rec || Closes(cycles, node, w)
        decreases todo
      {
        var nb :| nb in todo;
        ghost var seen, onPath, before, done := visited, rec, cycles, Successors(graph, node) - todo;
        todo := todo - {nb};
        assert path[|path| - 1] == node;
        if nb !in visited {
          Dfs(nb);
          assert rec == onPath;
        } else if nb in rec {
          Close(nb);
        }
        forall w | w in Successors(graph, node) - todo ensures w in visited - rec || Closes(cycles, node, w) {
          if w != nb {
            assert w in done;
            if Closes(before, node, w) { ClosesStays(before, cycles, node, w); }
          }
        }
      }
      Finish(node);
    }

    /** Puts a vertex on the path. */
    method Enter(node: string)
      requires Searching() && node in Vertices(graph) && node !in visited
      requires path != [] ==> node in Successors(graph, path[|path| - 1])
      modifies this`visited, this`rec, this`path
      ensures Searching() && path == old(path) + [node] && visited == old(visited) + {node}
    {
      visited := visited + {node};
      rec := rec + {node};
      path := path + [node];
    }

    /** Reports the cycle that an edge back to the path closes. */
    method Close(nb: string)
      requires Searching() && nb in rec && nb in Successors(graph, path[|path| - 1])
      modifies this`cycles
      ensures Searching() && |cycles| == |old(cycles)| + 1 && old(cycles) <= cycles
      ensures Closes(cycles, path[|path| - 1], nb)
    {
      PathClosesCycle(graph, path, nb);
      var cycle := path[IndexOf(path, nb)..];
      cycles := cycles + [cycle];
      RankedStays(graph, finished, old(cycles), cycles);
      assert cycle in cycles && cycle[|cycle| - 1] == path[|path| - 1] && cycle[0] == nb;
    }

    /** Leaves a vertex all of whose successors have been looked at. */
    method Finish(node: string)
      requires Searching() && path != [] && path[|path| - 1] == node
      requires forall w :: w in Successors(graph, node) ==> w in finished || Closes(cycles, node, w)
      modifies this`rec, this`path, this`finished
      ensures Searching() && path == old(path)[..|old(path)| - 1]
    {
      var shorter := path[..|path| - 1];
      assert path == shorter + [node];
      assert node !in shorter;
      assert Elements(path) == Elements(shorter) + {node};
      assert Elements(finished + [node]) == Elements(finished) + {node};
      path := shorter;
      rec := rec - {node};
      ghost var before := finished;
      finished := finished + [node];
      forall k, w | 0 <= k < |finished| && w in Successors(graph, finished[k])
        ensures w in finished[..k] || Closes(cycles, finished[k], w)
      {
        if k < |before| { assert finished[..k] == before[..k]; } else { assert finished[..k] == before; }
      }
    }

    /** The search from every vertex that waits for somebody. */
    method FindCycles() returns (found: seq<seq<string>>)
      requires Searching() && path == [] && visited == {}
      modifies this
      ensures found == [] <==> Acyclic(graph)
      ensures forall c :: c in found ==> IsSimpleCycle(graph, c)
      ensures forall c :: IsCycle(graph, c) ==> Caught(found, c)
    {
      var todo := graph.Keys;
      while todo != {}
        invariant Searching() && path == []
        invariant todo <= graph.Keys && graph.Keys - todo <= visited
        decreases todo
      {
        var c :| c in todo;
        todo := todo - {c};
        if c !in visited {
          Dfs(c);
        }
      }
      found := cycles;
      forall c | IsCycle(graph, c) ensures Caught(found, c) {
        RankedCatches(graph, finished, found, c);
      }
      if found != [] {
        assert IsSimpleCycle(graph, found[0]);
      }
    }
  }
}
