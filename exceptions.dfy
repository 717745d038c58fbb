/** The Python exceptions the library raises or lets escape, as values.
    `HaikerError` is the library's own umbrella exception (haiker/error.py);
    every other exception is a built-in one, identified by its class and
    the text `str()` gives for it. */
module Exceptions {

  datatype Kind =
    | KeyError        // `d[k]` on a dict without `k`
    | TypeError       // wrong operand type: subscripting a non-dict, iterating a non-iterable, `int(None)`
    | ValueError      // a well-typed but unacceptable value: `int('abc')`, `strptime` mismatch, suspicious path
    | AttributeError  // `.replace` on a value that is not a str
    | OverflowError   // a datetime moved outside years 1..9999
    | HTTPError       // a non-success HTTP status reported by the transport
    | Unmodelled      // a computation the model does not carry out (Python's repr of a container)

  datatype Exception =
    | Builtin(kind: Kind, message: string)
    | HaikerError(error: Exception)

  /** The KeyError raised by `d[key]`; `str()` of it is the key's repr. */
  function MissingKey(key: string): (e: Exception)
    ensures e.Builtin? && e.kind == KeyError
  {
    Builtin(KeyError, "'" + key + "'")
  }
}
