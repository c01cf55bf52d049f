/** The two failure-carrying shapes the downloader model uses in place of
    Python's `None` results and raised exceptions. */
module Wrappers {

  /** A value that may be absent, as Python's `Optional[...]`. */
  datatype Option<+T> = None | Some(value: T)

  /** Either a result or the error that the source would have raised. */
  datatype Result<+T, +E> = Success(value: T) | Failure(error: E)

  /** `dict.get(key)`: the value stored under `key`, or None when the key is
      absent. */
  function Get<K, V>(m: map<K, V>, key: K): (r: Option<V>)
    ensures r.Some? <==> key in m
    ensures r.Some? ==> r.value == m[key]
  {
    if key in m then Some(m[key]) else None
  }
}
