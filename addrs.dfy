/**
 Resource addresses and instance keys.

 An `AbsResource` names a resource declaration independently of repetition;
 `Instance` pairs it with one key to give the address of a single instance.
 Only equality of addresses matters to the expansion transform, so the
 address is kept to the parts that make two declarations different.
 */
module Addrs {

  /** The key that tells one instance of a resource from another. */
  datatype InstanceKey =
    | NoKey                  // the resource has no repetition at all
    | IntKey(index: int)     // an instance created by `count`
    | StringKey(name: string) // an instance created by `for_each`

  /** A resource declaration inside a module path. */
  datatype AbsResource = AbsResource(modulePath: seq<string>, resourceType: string, name: string)
  {
    /** The address of this resource's instance with the given key. */
    function Instance(key: InstanceKey): AbsResourceInstance
    {
      AbsResourceInstance(this, key)
    }
  }

  /** The address of one instance: a resource and a key. */
  datatype AbsResourceInstance = AbsResourceInstance(resource: AbsResource, key: InstanceKey)

}
