/** The absent-or-present value used for SQL NULL, Python None and optional arguments. */
module Options {
  datatype Option<+T> = None | Some(value: T)

  /** `v or default` where only absence counts as missing. */
  function OrElse<T>(v: Option<T>, default: T): T {
    if v.Some? then v.value else default
  }

  /** Python truthiness of an optional string: present and non-empty. */
  predicate Truthy(v: Option<string>) {
    v.Some? && v.value != ""
  }
}
