/** Option and Result, with the exceptions the modelled Java code can raise. */
module Wrappers {

  datatype Option<+T> = None | Some(value: T)

  /** The Java exceptions a modelled operation can end in. */
  datatype Exception =
    | BufferUnderflow        // a ByteBuffer read past its limit
    | ParserFailure          // Parse.string / Parse.buffer refused the bytes
    | NegativeArraySize      // new T[n] with n < 0
    | ArrayIndexOutOfBounds  // split(...)[0] on an array of length 0
    | NullPointer            // a field dereferenced while null
    | ClassCast              // compareTo / equals / Key(...) on a foreign type
    | UnknownFormat          // String.format with a malformed conversion

  datatype Result<+T> = Ok(value: T) | Err(error: Exception) {
    predicate IsFailure() {
      Err?
    }

    function PropagateFailure<U>(): Result<U>
      requires Err?
    {
      Err(error)
    }

    function Extract(): T
      requires Ok?
    {
      value
    }
  }
}
