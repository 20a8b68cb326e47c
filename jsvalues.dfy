/** Values as JavaScript hands them to the catalog: a string property that
    may be `undefined`, and the truthiness test that `filter(Boolean)` and
    `if (x)` apply to it. */
module JsValues {

  /** A property read that may find nothing (`undefined`). */
  datatype Option<+T> = None | Some(value: T)

  /** JavaScript truthiness of a possibly-undefined string: `undefined` and
      the empty string are falsy, every other string is truthy. */
  predicate Truthy(v: Option<string>)
  {
    v.Some? && v.value != ""
  }
}
