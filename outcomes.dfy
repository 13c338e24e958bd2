/** Failure-compatible wrappers and the kinds of Python exception the core raises.
    A Python exception that escapes a function is modelled as an `Err` carrying its kind. */
module Outcomes {

  /** The exceptions the matchers can raise.
      - `Mismatch` is `PDFLTMatchException("PDF is not in the expected format")`.
      - `TypeError` is `len(None)` after a row iterator ran out (`next(it, None)`).
      - `AttributeError` is `.text` or `.children` on a curve or figure.
      - `KeyError`, `IndexError`, `ValueError`, `UnboundLocalError` and `ZeroDivisionError` are
        Python's own; `RecursionError` is an `add` that would descend for ever. */
  datatype PyError =
    | Mismatch
    | TypeError
    | AttributeError
    | KeyError
    | IndexError
    | ValueError
    | UnboundLocalError
    | ZeroDivisionError
    | RecursionError

  datatype Option<+T> = None | Some(value: T) {
    function GetOr(default: T): T {
      match this
      case Some(v) => v
      case None => default
    }
  }

  datatype Result<+T> = Ok(value: T) | Err(error: PyError) {
    predicate IsFailure() {
      Err?
    }

    function PropagateFailure<U>(): Result<U>
      requires Err?
    {
      Err(error)
    }

    function Extract(): T
      requires Ok?
    {
      value
    }
  }
}
