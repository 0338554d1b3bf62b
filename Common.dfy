/** Optional values: Python's `None` or a present value. */
module Common {

  datatype Option<+T> = None | Some(value: T) {

    /** `x if x is not None else default` */
    function GetOr(default: T): T {
      match this
      case Some(v) => v
      case None => default
    }
  }

  /** Number of pairs `zip(s, s[1:])` yields for a list of length n. */
  function NumPairs(n: nat): nat {
    if n == 0 then 0 else n - 1
  }
}
