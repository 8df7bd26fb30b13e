/** Finite directed graphs, given as successor sets. */
module Graphs {
  import opened Sequences

  type Graph = map<string, set<string>>

  function Successors(g: Graph, u: string): set<string> {
    if u in g then g[u] else {}
  }

  function Next<T>(c: seq<T>, i: nat): T
    requires i < |c|
  {
    if i + 1 < |c| then c[i + 1] else c[0]
  }

  /** Every member of the list points to the next, and the last to the first. */
  ghost predicate IsCycle(g: Graph, c: seq<string>) {
    c != [] && forall i {:trigger c[i]} :: 0 <= i < |c| ==> Next(c, i) in Successors(g, c[i])
  }

  ghost predicate IsSimpleCycle(g: Graph, c: seq<string>) {
    IsCycle(g, c) && Distinct(c)
  }

  ghost predicate Acyclic(g: Graph) {
    forall c :: !IsCycle(g, c)
  }
}
