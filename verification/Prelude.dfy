/** Result types shared by the components. */
module Prelude {

  datatype Option<+T> = None | Some(value: T)

  /** The outcome of an operation that the program may abandon by raising. */
  datatype Result<+T, +E> = Ok(value: T) | Err(error: E)

  /** Whitespace as Python's `str.strip` and the regular expression class `\s` see it. */
  predicate IsSpace(c: char) {
    '\t' <= c <= '\r' || '\U{1c}' <= c <= ' ' || c == '\U{85}' || c == '\U{a0}' || c == '\U{1680}'
    || '\U{2000}' <= c <= '\U{200a}' || c == '\U{2028}' || c == '\U{2029}' || c == '\U{202f}'
    || c == '\U{205f}' || c == '\U{3000}'
  }
}
