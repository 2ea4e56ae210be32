/** The optional value used for JavaScript's `undefined`/`null` and for `Array.prototype.find` results. */
module Options {
  datatype Option<+T> = None | Some(value: T)

  /** One key of a spread merge `{ ...current, ...update }`: a present key wins. */
  function Override<T>(current: T, update: Option<T>): T {
    if update.Some? then update.value else current
  }
}
