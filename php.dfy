/** The parts of PHP's value semantics that the client's tests depend on. */
module Php {
  import opened Wrappers

  /** PHP's conversion of a string to bool: only "" and "0" are false
      (so `!$x`, `empty($x)` and `if ($x)` agree on strings). */
  predicate Truthy(s: string) {
    s != "" && s != "0"
  }

  /** The same conversion for a value that may be null (unset). */
  predicate TruthyOpt(v: Option<string>) {
    v.Some? && Truthy(v.value)
  }
}
