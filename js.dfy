/** The dynamically typed values the validators and the data layer inspect,
    JavaScript truthiness, and the results of operations that may throw. */
module Js {

  /** The hex string of a MongoDB ObjectId. */
  type Id = string

  /** A `new Date()` reading, in milliseconds. */
  type Time = int

  /** The error MongoDB raises when an insert reuses an `_id`. */
  const DuplicateKey := "E11000 duplicate key error"

  /** A JavaScript number: a finite value, an infinity, or NaN. */
  datatype Num = Finite(x: real) | PosInfinity | NegInfinity | NaN

  /** A JavaScript value as far as `typeof` and truthiness can tell. `Object`
      stands for every object, arrays included, where only its kind matters. */
  datatype Value =
    | Undefined
    | Null
    | Bool(b: bool)
    | Number(n: Num)
    | Str(s: string)
    | Object

  /** JavaScript truthiness: everything except undefined, null, false, 0, NaN
      and the empty string. */
  predicate Truthy(v: Value)
  {
    match v
    case Undefined => false
    case Null => false
    case Bool(b) => b
    case Number(n) => !(n == Finite(0.0) || n == NaN)
    case Str(s) => s != []
    case Object => true
  }

  /** A page's `sanitize`: `filterXSS` when that library is loaded, the input
      itself otherwise. The model takes the page without the library. */
  function Sanitize(input: string): string
  {
    input
  }

  datatype Option<T> = None | Some(value: T)

  /** The outcome of an operation that either returns a value or throws an
      error carrying a message. */
  datatype Result<T> = Ok(value: T) | Err(msg: string)
}
