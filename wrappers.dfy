/** Optional values and fallible results, shared by every module of the model. */
module Wrappers {

  /** A Go pointer or slice that may be nil: `None` is "unset", never a sentinel value. */
  datatype Option<+T> = None | Some(value: T)

  /** A Go `(value, error)` pair with exactly one side meaningful. */
  datatype Result<+T, +E> = Ok(value: T) | Err(error: E)

  /** The gap-filling rule of every Inherit: an unset child facet takes the ancestor's value. */
  function Adopt<T>(child: Option<T>, parent: Option<T>): Option<T>
  {
    if child.None? then parent else child
  }

  /** Looks a key up in a map, as an optional value. */
  function Lookup<K, V>(m: map<K, V>, k: K): Option<V>
  {
    if k in m then Some(m[k]) else None
  }
}
