/** Possibly missing values: an option property left `undefined`, or the
    `null` a lookup yields when nothing matches. */
module Optional {

  datatype Option<T> = None | Some(value: T)

  /** The present value of `o`, or `fallback` when it is missing: the
      destructuring default `{ name = fallback }`. */
  function ValueOr<T>(o: Option<T>, fallback: T): T {
    if o.Some? then o.value else fallback
  }
}
