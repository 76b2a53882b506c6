/** Optional values and the .NET exceptions that escape the episode resolution engine. */
module Wrappers {

  /** A nullable reference or `Nullable<T>`: `None` stands for C#'s `null`. */
  datatype Option<+T> = None | Some(value: T) {

    /** The `??` operator. */
    function GetOr(default: T): T {
      if Some? then value else default
    }
  }

  /** The exceptions the modelled code can let escape. `NoTermination` is not a .NET
      exception: it marks a computation cut off by the model's fuel bound, where the
      source would still be looping. */
  datatype Exception =
    | FormatException            // double.Parse / int.Parse on text that is not a number
    | InvalidOperationException  // First(), Last() or Max() on an empty sequence; JsonElement misuse
    | KeyNotFoundException       // JsonElement.GetProperty on a missing property
    | OverflowException          // a checked 32-bit sum that leaves the range
    | OperationCanceledException // a cancelled request
    | NoTermination

  /** The outcome of a call that may throw. */
  datatype Result<+T> = Ok(value: T) | Err(error: Exception)
}
