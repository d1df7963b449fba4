/**
 * Exceptions raised by the emulation kernel and by the Python containers it
 * uses, and the Option/Result wrappers through which the model reports them.
 */
module Errors {

  /** The Python exception a call would raise. */
  datatype Error =
    | EmulicaError(message: string)   // emulica's own exception
    | KeyError                        // missing dict key / set element
    | IndexError                      // pop or index on an empty list
    | AttributeError                  // method missing on a plain module
    | ZeroDivisionError
    | UnboundLocalError               // a local read before assignment

  datatype Option<T> = None | Some(value: T)

  datatype Result<T> = Ok(value: T) | Err(error: Error)

  datatype Unit = Unit
}
