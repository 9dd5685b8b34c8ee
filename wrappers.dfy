/** Option and Result types, and the .NET exceptions the modelled code can raise. */
module Wrappers {

  datatype Option<T> = None | Some(value: T)

  /** The exceptions that escape the modelled operations (named after their .NET types). */
  datatype Exception =
    | NullReference        // dereference of a missing test, variant or collaborator result
    | InvalidOperation     // Enumerable.First with no matching element
    | ArgumentOutOfRange   // List indexer or Substring out of range
    | IndexOutOfRange      // array indexer out of range (String.Split(...)[1])
    | DuplicateKey         // Dictionary.Add of a key that is already present
    | Format               // DateTime.Parse / Guid.Parse of malformed text

  datatype Result<T> = Ok(value: T) | Err(error: Exception)

  /** The outcome of an operation that returns nothing in the source. */
  datatype Outcome = Pass | Fail(error: Exception)
}
