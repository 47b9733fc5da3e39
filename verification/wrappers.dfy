/** Optional values, standing in for Swift's `Optional`, and map lookup into them. */
module Wrappers {

  datatype Option<+T> = None | Some(value: T)

  /** Swift's `dict[key]`: the entry for `k`, or `None` when the key is absent. */
  function Lookup<K, V>(m: map<K, V>, k: K): (r: Option<V>)
    ensures r.Some? <==> k in m
    ensures r.Some? ==> r.value == m[k]
  {
    if k in m then Some(m[k]) else None
  }
}
