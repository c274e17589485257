/** The optional value used wherever the program has a nil pointer or a missing map entry. */
module Options {
  datatype Option<+T> = None | Some(value: T)

  /** `Option` over a map lookup. */
  function Get<K, V>(m: map<K, V>, k: K): Option<V> {
    if k in m then Some(m[k]) else None
  }
}
