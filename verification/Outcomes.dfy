/** What an evaluator operation gives: a value, or the error it raises. */
module Outcomes {

  datatype Raised =
    | ConstantError
    | DataError
    | DomainError
    | NullError
    | OverflowError

  datatype Outcome<+T> = Value(value: T) | Raise(error: Raised)
}
