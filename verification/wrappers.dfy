/** Missing values: Python's `None` and pandas' `NaN` are both `None` here. */
module Wrappers {

  datatype Option<+T> = None | Some(value: T) {

    /** The wrapped value, or `default` when missing (`dict.get(k, default)`). */
    function GetOr(default: T): T {
      match this
      case Some(v) => v
      case None => default
    }
  }

  /** `d.get(k, default)` on a Python dictionary. */
  function Get<K, V>(m: map<K, V>, k: K, default: V): (v: V)
    ensures k in m ==> v == m[k]
    ensures k !in m ==> v == default
  {
    if k in m then m[k] else default
  }
}
