# Resource count expansion

This project models Terraform's `ResourceCountTransformer` and proves properties of the model. It is the graph transform that expands one resource declaration into its instances. It takes a resource address, a `Count` and an optional `ForEach` map. It adds one graph vertex per resulting instance address:

- a single `NoKey` instance when the count is unset (negative) and there is no for-each map at all;
- otherwise one `StringKey(k)` instance per for-each key `k`, followed by one `IntKey(i)` instance for each `0 <= i < Count`.

Each vertex is an abstract instance node. The node carries the instance's address and the resource's shared schema. When a `Concrete` construction function is configured, the node is passed through that function first.

Files:

- `wrappers.dfy`: `Option`. `None` stands for a Go `nil`.
- `addrs.dfy`: instance keys, resource addresses and `AbsResource.Instance`.
- `nodes.dfy`: the abstract instance node, and `Vertex`, which is either the abstract node or the output of `Concrete`.
- `dag.dfy`: the graph. It is a vertex sequence that `Add` appends to, plus edges that `Add` leaves alone.
- `expansion.dfy`: the specification on values. `InstanceKeys` is the set of keys an expansion creates. `Expands` is an independent key-by-key rule. `ExpectedVertexCount` gives the number of vertices. `IsExpansion` describes a correct emission sequence. The lemmas relate these definitions to each other.
- `transform_resource_count.dfy`: the class `ResourceCountTransformer`. Its configuration fields are the Go struct's fields. `Transform` modifies the graph and is proved against the specification.

The no-key branch tests `ForEach == nil`, not "empty". So a negative count with a present but empty for-each map takes the general path, and both loops add nothing. A present but empty map is not treated as unset: see `NegativeCountEmptyForEachGivesNothing`.

## Model

| member | source | states |
|---|---|---|
| `ResourceCountTransform.ResourceCountTransformer.Transform` | vendor/github.com/hashicorp/terraform-plugin-sdk/terraform/transform_resource_count.go:26-71 | always returns no error. The graph's old vertices are kept and one vertex per emitted key is appended. No edge changes. The emitted keys form a correct expansion (`IsExpansion`), and no two emitted instances share an address |
| `ResourceCountTransform.ResourceCountTransformer.AddForEachInstances` | vendor/github.com/hashicorp/terraform-plugin-sdk/terraform/transform_resource_count.go:42-53 | visits the for-each keys in an arbitrary order and appends exactly one string-keyed vertex per key of the map, and nothing when the map is nil or empty. Edges are unchanged |
| `ResourceCountTransform.ResourceCountTransformer.AddCountInstances` | vendor/github.com/hashicorp/terraform-plugin-sdk/terraform/transform_resource_count.go:55-68 | appends the vertices for `IntKey(0)`, ..., `IntKey(Count-1)` in that order, and nothing when `Count <= 0`. Edges are unchanged |
| `ResourceCountTransform.ResourceCountTransformer.NewVertex` | vendor/github.com/hashicorp/terraform-plugin-sdk/terraform/transform_resource_count.go:29-36 | the vertex built for a key is the one specified by `Emit` |
| `ResourceCountTransform.ResourceCountTransformer.Abstract` | vendor/github.com/hashicorp/terraform-plugin-sdk/terraform/transform_resource_count.go:44-46 | the abstract node's address is the configured `Addr`, unchanged, paired with the key. Its schema is the transformer's `Schema` |
| `ResourceCountTransform.ResourceCountTransformer.Emit` | vendor/github.com/hashicorp/terraform-plugin-sdk/terraform/transform_resource_count.go:47-50 | the vertex is the abstract node itself exactly when `Concrete` is nil. Otherwise it is `Concrete` applied to the abstract node |
| `ResourceCountTransform.ResourceCountTransformer.DistinctKeysDistinctAddresses` | vendor/github.com/hashicorp/terraform-plugin-sdk/terraform/transform_resource_count.go:57-58 | instances with different keys get different (resource address, key) pairs |
| `ResourceCountTransform.ResourceCountTransformer.constructor` | vendor/github.com/hashicorp/terraform-plugin-sdk/terraform/transform_resource_count.go:14-24 | the configuration fields hold the given values |
| `Dag.Graph.Add` | vendor/github.com/hashicorp/terraform-plugin-sdk/terraform/transform_resource_count.go:38 | appends the vertex and touches no edge |
| `Expansion.InstanceKeysMembership` | vendor/github.com/hashicorp/terraform-plugin-sdk/terraform/transform_resource_count.go:27-68 | a key is created if and only if one of these holds: it is `NoKey` with count negative and for-each nil; it is `IntKey(i)` with `0 <= i < Count`; or it is `StringKey(k)` with `k` a key of a non-nil map |
| `Expansion.InstanceKeysCardinality` | vendor/github.com/hashicorp/terraform-plugin-sdk/terraform/transform_resource_count.go:27-68 | the number of instances is 1 in the no-key case. Otherwise it is the size of the for-each map plus `max(Count, 0)`, which covers the union of both expansions |
| `Expansion.IntKeysCardinality` | vendor/github.com/hashicorp/terraform-plugin-sdk/terraform/transform_resource_count.go:56 | the count loop's key set has `max(Count, 0)` elements |
| `Expansion.StringKeysCardinality` | vendor/github.com/hashicorp/terraform-plugin-sdk/terraform/transform_resource_count.go:43-44 | there are as many string keys as for-each map keys |
| `Expansion.CountKeysEnumerateIntKeys` | vendor/github.com/hashicorp/terraform-plugin-sdk/terraform/transform_resource_count.go:56-57 | the count loop emits each integer key below `Count` exactly once and no other key |
| `Expansion.ForEachStep` | vendor/github.com/hashicorp/terraform-plugin-sdk/terraform/transform_resource_count.go:43-44 | adding the string key of one more unvisited map key keeps the emitted keys distinct and equal to the visited keys |
| `Expansion.StringThenCountKeys` | vendor/github.com/hashicorp/terraform-plugin-sdk/terraform/transform_resource_count.go:42-68 | for-each keys, each once and in any order, followed by the count keys form a correct expansion outside the no-key case |
| `Expansion.NoKeyExpansion` | vendor/github.com/hashicorp/terraform-plugin-sdk/terraform/transform_resource_count.go:27-39 | in the no-key case the single `NoKey` instance is a correct expansion |
| `Expansion.KeyOrderIndependent` | vendor/github.com/hashicorp/terraform-plugin-sdk/terraform/transform_resource_count.go:43 | two emission orders without repeats that cover the same keys are permutations of each other |
| `ResourceCountTransform.ResourceCountTransformer.EmitAllPermutation` | vendor/github.com/hashicorp/terraform-plugin-sdk/terraform/transform_resource_count.go:43-52 | emitting a permutation of some keys appends a permutation of the same vertices |
| `ResourceCountTransform.ResourceCountTransformer.ExpansionOrderIndependent` | vendor/github.com/hashicorp/terraform-plugin-sdk/terraform/transform_resource_count.go:43-68 | any two correct expansions, such as two runs of `Transform` that visit the for-each map in different orders, add the same vertices up to order |
| `Expansion.NoRepetitionGivesNoKey` | vendor/github.com/hashicorp/terraform-plugin-sdk/terraform/transform_resource_count.go:27-29 | a negative count with a nil map gives exactly the `NoKey` instance |
| `Expansion.NegativeCountEmptyForEachGivesNothing` | vendor/github.com/hashicorp/terraform-plugin-sdk/terraform/transform_resource_count.go:27 | a negative count with a present but empty map gives no instance and zero vertices |
| `Expansion.ZeroCountGivesNothing` | vendor/github.com/hashicorp/terraform-plugin-sdk/terraform/transform_resource_count.go:56 | a count of 0 with a nil map gives no instance |
| `Expansion.CountWithForEachGivesUnion` | vendor/github.com/hashicorp/terraform-plugin-sdk/terraform/transform_resource_count.go:43-68 | count 2 with the map `{"x": v}` gives `StringKey("x")`, `IntKey(0)` and `IntKey(1)`, so 3 vertices |

## Left out

- Go map iteration order is unspecified. The for-each loop picks its next key with an arbitrary choice (`:|`), so properties of string keys are stated as sets, and order independence is proved separately.
- The for-each values (`cty.Value`) are a type parameter that is never inspected, because only the keys are used.
- The graph's internals (hashing, edges, walks) are not modelled, and the vertex that `Add` returns, which the source ignores, is not modelled either.
- Dag.Graph.Add: the graph in the source is a set of vertices, and the model's graph is a sequence. Every abstract node the source builds is a freshly allocated pointer, so without `Concrete` no two added vertices are ever merged. With `Concrete`, the model assumes that each call returns a distinct vertex. If `Concrete` returned the same vertex twice, the source's graph would keep one copy and the model keeps both.
- The schema is an opaque type parameter. A nil schema pointer is `None`. Schema contents are never read.
- What `Concrete` does internally is not modelled. It is an optional total function from abstract node to an opaque vertex type.
- `NewNodeAbstractResourceInstance` records only the address; its other fields are not set here. Its source file, node_resource_abstract.go, is not part of this model. The node is a value rather than a pointer: the source does not change the node after handing it to `Concrete` or the graph, so aliasing makes no difference.
- The addrs package is not part of this model. `AbsResource` keeps a module path, a resource type and a name, and only equality of addresses is used.
- `Count` is Go's 64-bit `int`. It is modelled as an unbounded integer: the loop index never exceeds `Count`, so no wrap-around can happen.
- The two source loops of `Transform` are helper methods (`AddForEachInstances`, `AddCountInstances`). The node construction that the source repeats three times is `NewVertex`. The order of effects on the graph is the same.
