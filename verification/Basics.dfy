/** Result types, and small functions, shared by the other modules. */
module Basics {

  datatype Option<+T> = None | Some(value: T) {
    /** The value inside, or `default` when there is none. */
    function GetOr(default: T): T {
      match this
      case Some(v) => v
      case None => default
    }
  }

  datatype Result<+T, +E> = Ok(value: T) | Err(error: E)

  function Min(a: int, b: int): int { if a < b then a else b }

  function Lookup<V>(m: map<string, V>, key: string): Option<V> { if key in m then Some(m[key]) else None }

  /** White space by the Unicode property. */
  predicate IsWhitespace(c: char) {
    var code := c as int;
    || 9 <= code <= 13 || code == 0x20 || code == 0x85 || code == 0xa0 || code == 0x1680
    || 0x2000 <= code <= 0x200a || code == 0x2028 || code == 0x2029 || code == 0x202f
    || code == 0x205f || code == 0x3000
  }
}
