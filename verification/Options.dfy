/** Optional values: the source's `Option<T>` in Rust, and `undefined`/`null` in TypeScript. */
module Options {

  datatype Option<+T> = None | Some(value: T) {

    /** The value held, or else the alternative (`??` in TypeScript, `or` in Rust). */
    function Or(alternative: Option<T>): Option<T> {
      if Some? then this else alternative
    }
  }
}
