/** The lock-guarded map of DataStructs/threadsafe.h; each method is one critical section. */
module ThreadSafe {
  import opened Vertices

  class UnorderedMap<K(==), V> {
    var content: map<K, V>

    constructor ()
      ensures content == map[]
    {
      content := map[];
    }

    method Insert(key: K, value: V)
      modifies this
      ensures content == old(content)[key := value]
    {
      content := content[key := value];
    }

    method Find(key: K) returns (value: Option<V>)
      ensures value == if key in content then Some(content[key]) else None
    {
      if key in content {
        value := Some(content[key]);
      } else {
        value := None;
      }
    }
  }
}
