/**
 Graph vertices for resource instances.

 `NodeAbstractResourceInstance` is the base vertex for one instance: its
 address and the schema of the resource. A caller-supplied construction
 function may wrap it into a richer vertex, whose type the expansion does
 not know; `Vertex` keeps the two apart.
 */
module Nodes {
  import opened Wrappers
  import opened Addrs

  /** The abstract node of one instance; `Schema` is `None` until set. */
  datatype NodeAbstractResourceInstance<S> =
    NodeAbstractResourceInstance(Addr: AbsResourceInstance, Schema: Option<S>)

  /** A freshly built abstract node records its address and nothing else. */
  function NewNodeAbstractResourceInstance<S>(addr: AbsResourceInstance): NodeAbstractResourceInstance<S>
  {
    NodeAbstractResourceInstance(addr, None)
  }

  /** What the graph holds: the abstract node itself or the output of a construction function. */
  datatype Vertex<S, C> =
    | AbstractNode(node: NodeAbstractResourceInstance<S>)
    | ConcreteNode(wrapped: C)

}
