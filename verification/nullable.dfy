/** Python's `None`-or-value and the truthiness test `if not x` applied to
    optional strings (form fields, the household column). */
module Nullable {

  datatype Option<+T> = None | Some(value: T)

  /** `bool(x)` for an optional string: `None` and `""` are false. */
  predicate Truthy(s: Option<string>) {
    s.Some? && s.value != ""
  }
}
