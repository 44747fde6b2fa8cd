/** A value that may be absent: JavaScript's `undefined`/`null` beside a
    present value. */
module Optional {

  datatype Option<+T> = None | Some(value: T)

  /** JavaScript truthiness of an optional string: absent and "" are falsy. */
  predicate Truthy(s: Option<string>)
  {
    s.Some? && s.value != ""
  }
}
