/** Optional values, results, and the .NET exceptions the engine can throw. */
module Wrappers {
  datatype Option<T> = None | Some(value: T)

  /** The kind of exception a source operation throws. */
  datatype Fault =
    | ArgumentException
    | ArgumentNullException
    | ArgumentOutOfRangeException
    | IndexOutOfRangeException
    | NullReferenceException
    | InvalidOperationException
    | NotImplementedException
    | KeyNotFoundException

  /** A value, or the exception that replaced it. */
  datatype Result<T> = Ok(value: T) | Err(fault: Fault)
}
