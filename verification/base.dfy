/** Shared value types of the calculator model: optional values, the errors
    the pipeline can end in, and results that carry either a value or an error. */
module Base {

  datatype Option<+T> = None | Some(value: T)

  /** Why the pipeline produced no number. The source either panics or prints a
      floating-point infinity in these situations; the model names them instead. */
  datatype Error =
    | BadNumber(text: string)   // a run of digits and dots that is not a number, e.g. "1.2.3"
    | MissingOperand            // the postfix sequence ran out while building the tree
    | DivisionByZero            // the right operand of '/' evaluated to zero

  datatype Result<+T> = Ok(value: T) | Err(error: Error)

  /** The top element of a stack kept as a sequence (top at the end). */
  function Top<T>(s: seq<T>): T
    requires |s| > 0
  {
    s[|s| - 1]
  }

  /** The stack without its top element. */
  function Pop<T>(s: seq<T>): (r: seq<T>)
    requires |s| > 0
    ensures |r| == |s| - 1
  {
    s[..|s| - 1]
  }
}
