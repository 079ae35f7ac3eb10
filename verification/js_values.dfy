/**
 Values as the bot's JavaScript sees them once JSON parsing and `Number(...)`
 coercion are abstracted away: optional fields, coerced numbers and truthiness.
 */
module JsValues {

  /** A field that may be `null`/`undefined` (None) or hold a value. */
  datatype Option<+T> = None | Some(value: T) {

    /** JavaScript's `x ?? d`: the value when present, otherwise the default. */
    function GetOr(default: T): T {
      match this
      case Some(v) => v
      case None => default
    }
  }

  /** The result of `Number(x)` restricted to what the bot compares: a finite
      integer, NaN, or an infinity (`positive` tells which one). Only the
      first passes `Number.isFinite`. */
  datatype Num = Finite(n: int) | NaN | Infinity(positive: bool)

  /** JavaScript truthiness of an optional string: present and non-empty. */
  predicate Truthy(s: Option<string>) {
    s.Some? && s.value != ""
  }

  /** `a || b` on optional strings: the first truthy one, else the fallback. */
  function OrElse(a: Option<string>, fallback: string): (r: string)
    ensures Truthy(a) ==> r == a.value
    ensures !Truthy(a) ==> r == fallback
  {
    if Truthy(a) then a.value else fallback
  }

  function Max(a: int, b: int): int {
    if a < b then b else a
  }
}
