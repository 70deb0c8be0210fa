/**
 * The JavaScript value shapes that the modelled TypeScript inspects at run time:
 * an optional value (`undefined` versus present) and the handful of primitive
 * values whose `typeof` or truthiness decides a branch.
 */
module Js {

  /** A value that may be absent (`undefined` / `null` in the source). */
  datatype Option<+T> = None | Some(value: T) {

    /** The present value, or `default` when absent (the source's `??`). */
    function GetOr(default: T): T {
      match this
      case Some(v) => v
      case None => default
    }
  }

  /**
   * A primitive JavaScript value. Numbers are modelled as integers: every
   * number the modelled code receives is a count, an id or a port.
   */
  datatype JsValue =
    | Undefined
    | Null
    | Bool(b: bool)
    | Number(n: int)
    | Str(s: string)

  /** JavaScript truthiness: `false`, `0`, `""`, `null` and `undefined` are falsy. */
  predicate Truthy(v: JsValue) {
    match v
    case Undefined => false
    case Null => false
    case Bool(b) => b
    case Number(n) => n != 0
    case Str(s) => s != ""
  }

  /** The truthiness of an optional string (`undefined` and `""` are falsy). */
  predicate Filled(s: Option<string>) {
    s.Some? && s.value != ""
  }

  /** `s ? s : fallback` on an optional string: the value when truthy, else the fallback. */
  function FilledOr(s: Option<string>, fallback: string): (r: string)
    ensures Filled(s) ==> r == s.value
    ensures !Filled(s) ==> r == fallback
    ensures r == fallback || Filled(Some(r))
  {
    if Filled(s) then s.value else fallback
  }
}
