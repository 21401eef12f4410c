/**
 * Option and Result, the values that stand for Java's exceptions in this model:
 * None for a NumberFormatException, Err for an IllegalArgumentException.
 */
module Wrappers {

  datatype Option<+T> = None | Some(value: T)

  datatype Result<+T, +E> = Ok(value: T) | Err(error: E)
}
