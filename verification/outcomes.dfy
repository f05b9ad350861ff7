/** Failure-carrying wrappers shared by every module of the model.
    The .NET exceptions that the modelled code can raise become `Failure`
    values; `Option.None` stands for C#'s `null` where the code hands one out. */
module Outcomes {

  /** A value that may be absent; `None` models a C# `null` reference. */
  datatype Option<+T> = None | Some(value: T)

  /** The exceptions the modelled C# code can raise. */
  datatype Exception =
    | KeyNotFound         // Dictionary<K,V> indexer on a missing key
    | DuplicateKey        // Dictionary<K,V>.Add on a key already present (an ArgumentException)
    | ArgumentOutOfRange  // String.Substring with a bad start or length
    | IndexOutOfRange     // string indexer past the end
    | NullReference       // a member called through a `null` reference

  /** Either a value or the exception that was thrown instead. */
  datatype Result<+T> = Success(value: T) | Failure(error: Exception)
}
