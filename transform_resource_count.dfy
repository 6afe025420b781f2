/**
 The resource-expansion transform.

 A `ResourceCountTransformer` holds one resource's address, schema, count
 and for-each map, and an optional node-construction function. `Transform`
 adds one vertex per resulting instance to a graph: a single no-key vertex
 when neither count nor for-each is set, otherwise one string-keyed vertex
 per for-each key followed by one integer-keyed vertex per index below the
 count.
 */
module ResourceCountTransform {
  import opened Wrappers
  import opened Addrs
  import opened Nodes
  import opened Expansion
  import Dag

  /** The error a transform may return; this one never returns any. */
  datatype TransformError = TransformError(message: string)

  /**
   S is the schema type, C the type of vertices built by `Concrete`, X the
   type of the for-each values (which the transform never looks at).
   */
  class ResourceCountTransformer<S, C, X> {
    /** Optional node-construction function; `None` inserts the abstract node itself. */
    const Concrete: Option<NodeAbstractResourceInstance<S> -> C>
    /** The resource's schema (a possibly nil reference), shared by every instance. */
    const Schema: Option<S>
    /** The number of indexed instances, or a negative value when count is not set. */
    const Count: int
    /** The for-each map, `None` when it is nil. */
    const ForEach: Option<map<string, X>>
    /** The resource being expanded. */
    const Addr: AbsResource

    constructor (concrete: Option<NodeAbstractResourceInstance<S> -> C>, schema: Option<S>,
                 count: int, forEach: Option<map<string, X>>, addr: AbsResource)
      ensures Concrete == concrete && Schema == schema && Count == count
      ensures ForEach == forEach && Addr == addr
    {
      Concrete := concrete;
      Schema := schema;
      Count := count;
      ForEach := forEach;
      Addr := addr;
    }

    /** The abstract node built for one instance key. */
    function Abstract(key: InstanceKey): (node: NodeAbstractResourceInstance<S>)
      ensures node.Addr.resource == Addr && node.Addr.key == key
      ensures node.Schema == Schema
    {
      NewNodeAbstractResourceInstance(Addr.Instance(key)).(Schema := Schema)
    }

    /** The vertex added for one instance key. */
    function Emit(key: InstanceKey): (v: Vertex<S, C>)
      ensures v.AbstractNode? <==> Concrete.None?
      ensures v.AbstractNode? ==> v.node == Abstract(key)
      ensures v.ConcreteNode? ==> v.wrapped == Concrete.value(Abstract(key))
    {
      match Concrete
      case None => AbstractNode(Abstract(key))
      case Some(f) => ConcreteNode(f(Abstract(key)))
    }

    /** The vertices added for a sequence of instance keys, in that order. */
    function EmitAll(keys: seq<InstanceKey>): seq<Vertex<S, C>>
    {
      seq(|keys|, j requires 0 <= j < |keys| => Emit(keys[j]))
    }

    /** Emitting two runs of keys one after the other appends their vertices. */
    lemma EmitAllConcat(a: seq<InstanceKey>, b: seq<InstanceKey>)
      ensures EmitAll(a + b) == EmitAll(a) + EmitAll(b)
    {
    }

    /** Emitting a permutation of some keys adds a permutation of their vertices. */
    lemma {:induction false} EmitAllPermutation(a: seq<InstanceKey>, b: seq<InstanceKey>)
      requires multiset(a) == multiset(b)
      ensures multiset(EmitAll(a)) == multiset(EmitAll(b))
      decreases |a|
    {
      if a == [] {
        assert |b| == |multiset(b)| == 0;
      } else {
        var x := a[0];
        assert x in multiset(b);
        var k :| 0 <= k < |b| && b[k] == x;
        var rest := b[..k] + b[k + 1..];
        assert a == [x] + a[1..];
        assert b == b[..k] + [x] + b[k + 1..];
        calc {
          multiset(a[1..]);
          multiset(a) - multiset{x};
          multiset(b) - multiset{x};
          multiset(b[..k]) + multiset(b[k + 1..]);
          multiset(rest);
        }
        EmitAllPermutation(a[1..], rest);
        EmitAllConcat([x], a[1..]);
        EmitAllConcat(b[..k] + [x], b[k + 1..]);
        EmitAllConcat(b[..k], [x]);
        EmitAllConcat(b[..k], b[k + 1..]);
        assert EmitAll([x]) == [Emit(x)];
      }
    }

    /**
     Whatever order the for-each map is visited in, the vertices added are
     the same up to order: two correct expansions emit permutations of the
     same vertices.
     */
    lemma ExpansionOrderIndependent(a: seq<InstanceKey>, b: seq<InstanceKey>)
      requires IsExpansion(a, Count, ForEach) && IsExpansion(b, Count, ForEach)
      ensures multiset(EmitAll(a)) == multiset(EmitAll(b))
    {
      KeyOrderIndependent(a, b);
      EmitAllPermutation(a, b);
    }

    /**
     Builds the vertex for one instance: an abstract node with the
     instance's address and the shared schema, passed through `Concrete`
     when there is one.
     */
    method NewVertex(key: InstanceKey) returns (node: Vertex<S, C>)
      ensures node == Emit(key)
    {
      var addr := Addr.Instance(key);
      var abstractNode := NewNodeAbstractResourceInstance(addr);
      abstractNode := abstractNode.(Schema := Schema);
      node := AbstractNode(abstractNode);
      if Concrete.Some? {
        node := ConcreteNode(Concrete.value(abstractNode));
      }
    }

    /** Instances with different keys get different addresses. */
    lemma DistinctKeysDistinctAddresses(keys: seq<InstanceKey>)
      requires Distinct(keys)
      ensures forall i, j :: 0 <= i < j < |keys| ==> Abstract(keys[i]).Addr != Abstract(keys[j]).Addr
    {
    }

    /**
     Adds one vertex per key of the for-each map (none when the map is nil
     or empty), visiting the keys in no particular order. `keys` (ghost)
     lists the instance keys in the order their vertices were appended.
     */
    method AddForEachInstances(g: Dag.Graph<Vertex<S, C>>) returns (ghost keys: seq<InstanceKey>)
      modifies g
      ensures g.edges == old(g.edges)
      ensures g.vertices == old(g.vertices) + EmitAll(keys)
      ensures ForEachEmitted(keys, ForEachKeys(ForEach))
    {
      var pending: set<string> := if ForEach.Some? then ForEach.value.Keys else {};
      ghost var visited: set<string> := {};
      keys := [];
      while pending != {}
        invariant visited !! pending
        invariant visited + pending == ForEachKeys(ForEach)
        invariant ForEachEmitted(keys, visited)
        invariant g.edges == old(g.edges)
        invariant g.vertices == old(g.vertices) + EmitAll(keys)
        decreases pending
      {
        var key :| key in pending;
        var node := NewVertex(StringKey(key));
        g.Add(node);
        EmitAllConcat(keys, [StringKey(key)]);
        ForEachStep(keys, visited, key);
        keys := keys + [StringKey(key)];
        visited := visited + {key};
        pending := pending - {key};
      }
      assert visited == ForEachKeys(ForEach);
    }

    /**
     Adds one vertex per index 0, 1, ..., Count - 1, in that order (none
     when Count <= 0). `keys` (ghost) lists the instance keys appended.
     */
    method AddCountInstances(g: Dag.Graph<Vertex<S, C>>) returns (ghost keys: seq<InstanceKey>)
      modifies g
      ensures g.edges == old(g.edges)
      ensures g.vertices == old(g.vertices) + EmitAll(keys)
      ensures keys == CountKeys(Count)
    {
      keys := [];
      var i := 0;
      while i < Count
        invariant 0 <= i <= if Count > 0 then Count else 0
        invariant keys == CountKeys(i)
        invariant g.edges == old(g.edges)
        invariant g.vertices == old(g.vertices) + EmitAll(keys)
      {
        var key := IntKey(i);
        var node := NewVertex(key);
        g.Add(node);
        EmitAllConcat(keys, [key]);
        assert CountKeys(i + 1) == CountKeys(i) + [key];
        keys := keys + [key];
        i := i + 1;
      }
      assert CountKeys(i) == CountKeys(Count);
    }

    /**
     Expands the resource into `g`. `keys` (ghost) lists the instance keys
     in the order their vertices were appended. The source never fails, so
     the returned error is always `None`.
     */
    method Transform(g: Dag.Graph<Vertex<S, C>>) returns (err: Option<TransformError>, ghost keys: seq<InstanceKey>)
      modifies g
      ensures err == None
      ensures g.edges == old(g.edges)
      ensures g.vertices == old(g.vertices) + EmitAll(keys)
      ensures IsExpansion(keys, Count, ForEach)
      ensures forall i, j :: 0 <= i < j < |keys| ==> Abstract(keys[i]).Addr != Abstract(keys[j]).Addr
    {
      if Count < 0 && ForEach.None? {
        // Negative count: count is not set at all.
        var node := NewVertex(NoKey);
        g.Add(node);
        keys := [NoKey];
        assert EmitAll(keys) == [node];
        NoKeyExpansion(Count, ForEach);
        DistinctKeysDistinctAddresses(keys);
        return None, keys;
      }

      ghost var before := g.vertices;
      var stringKeys := AddForEachInstances(g);
      var countKeys := AddCountInstances(g);
      keys := stringKeys + countKeys;
      calc {
        g.vertices;
        (before + EmitAll(stringKeys)) + EmitAll(countKeys);
        before + (EmitAll(stringKeys) + EmitAll(countKeys));
        { EmitAllConcat(stringKeys, countKeys); }
        before + EmitAll(keys);
      }
      StringThenCountKeys(stringKeys, Count, ForEach);
      DistinctKeysDistinctAddresses(keys);
      return None, keys;
    }
  }

}
