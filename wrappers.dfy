/** Optional values: PHP's nullable parameters and fields (`?int`, `?string`, `null`). */
module Wrappers {

  datatype Option<+T> = None | Some(value: T) {

    /** The value, or the given default when absent (PHP's `??`). */
    function GetOr(default: T): T
    {
      match this
      case Some(v) => v
      case None => default
    }
  }
}

/** PHP truthiness of the scalar values the core tests with a bare `if ($x)` or `empty($x)`. */
module Php {
  import opened Wrappers

  /** `null`, `""` and `"0"` are falsy; every other string is truthy. */
  predicate TruthyString(s: Option<string>)
  {
    s.Some? && s.value != "" && s.value != "0"
  }

  /** `null` and `0` are falsy. */
  predicate TruthyInt(x: Option<int>)
  {
    x.Some? && x.value != 0
  }

  /** `null` and `0.0` are falsy. */
  predicate TruthyReal(x: Option<real>)
  {
    x.Some? && x.value != 0.0
  }
}
