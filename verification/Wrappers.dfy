/** Stock datatypes shared by the other modules. */
module Wrappers {
  datatype Option<+T> = None | Some(value: T)

  /** The map lookup of the source's `v, ok := m[k]`. */
  function Get<K, V>(m: map<K, V>, k: K): Option<V> {
    if k in m then Some(m[k]) else None
  }
}
