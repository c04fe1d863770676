/** Option and Result, used wherever the analyses return `null` or throw, and a set witness for loops. */
module Wrappers {

  datatype Option<+T> = None | Some(value: T)

  /** The Java exceptions the modelled code can raise and does not catch. */
  datatype Failure =
    | IllegalArgument(reason: string)
    | AssertionFailed(reason: string)
    | DataflowError(reason: string)

  datatype Result<+T> = Ok(value: T) | Err(failure: Failure)

  /** A witness for a non-empty set, so that a loop can pick one of its elements. */
  lemma SomeElement<T>(s: set<T>) returns (x: T)
    requires s != {}
    ensures x in s
  {
    x :| x in s;
  }
}
