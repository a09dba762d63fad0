/** Option and Result, as the Rust code uses them.

    Result has a third outcome, Panic, for a call that unwinds instead of
    returning (an `unwrap` or `expect` on the failure path).  Modelling the
    panic as a value lets the contracts say exactly when it happens. */
module Wrappers {

  datatype Option<T> = None | Some(value: T)

  datatype Result<T, E> = Ok(value: T) | Err(error: E) | Panic(message: string)

  /** `map.get(&k)`: the stored value, if any. */
  function Get<K, V>(m: map<K, V>, k: K): Option<V>
  {
    if k in m then Some(m[k]) else None
  }
}
