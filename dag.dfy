/**
 The part of the dependency graph the expansion transform uses: a vertex
 collection that `Add` appends to, and the edges, which it leaves alone.
 */
module Dag {

  class Graph<V> {
    var vertices: seq<V>
    var edges: seq<(V, V)>

    /** Registers one vertex; no edge is added or removed. */
    method Add(v: V)
      modifies this
      ensures vertices == old(vertices) + [v]
      ensures edges == old(edges)
    {
      vertices := vertices + [v];
    }
  }

}
