/** The values a request carries, and the framework checks the model takes as given.

    Request input is a map from field name to a decoded value. Email syntax and
    PHP's `is_numeric` are not modelled: they are parameters (an Oracles value),
    so every property holds whatever those checks decide.
 */
module Request {

  datatype Option<T> = None | Some(value: T)

  /** A decoded input value: null, a string, a number, a boolean or an array of `size` elements. */
  datatype Value = Null | Str(s: string) | Num(x: real) | Bool(b: bool) | List(size: nat)

  type Input = map<string, Value>

  /** The framework checks the model does not define: the `email` rule's syntax
      test, and the reading of a numeric string (`is_numeric` and its value). */
  datatype Oracles = Oracles(isEmail: string -> bool, parseNumeric: string -> Option<real>)

  function Get(input: Input, field: string): Option<Value> {
    if field in input then Some(input[field]) else None
  }

  /** The characters PHP's `trim` removes by default. */
  predicate IsTrimmed(c: char) {
    c == ' ' || c == '\t' || c == '\n' || c == '\r' || c == '\0' || c == '\U{0B}'
  }

  /** A string that is empty once trimmed. */
  predicate IsBlank(s: string) {
    forall i :: 0 <= i < |s| ==> IsTrimmed(s[i])
  }

  /** Laravel's test for a present value under the `required` rule. */
  predicate Filled(v: Value) {
    match v
    case Null => false
    case Str(s) => !IsBlank(s)
    case List(n) => n > 0
    case _ => true
  }

  /** The number a value stands for, when it is numeric. */
  function NumericValue(oracles: Oracles, v: Value): Option<real> {
    match v
    case Num(x) => Some(x)
    case Str(s) => oracles.parseNumeric(s)
    case _ => None
  }
}
