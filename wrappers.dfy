/** Bytes and the failure-carrying datatypes shared by the whole model. */
module Wrappers {

  /** A byte, as the hash, hex and UTF-16 code see it. */
  type Byte = x: int | 0 <= x < 0x100

  datatype Option<T> = None | Some(value: T)

  /** The error values the client produces. Go compares them only by their
      text; the model keeps their origin apart so that outcomes the source
      treats as different stay different. */
  datatype Error =
    | Transport(detail: string)  // an HTTP round trip failed
    | Decode(detail: string)     // an XML, JSON or HTML decoder rejected its input
    | Failure(text: string)      // an error the client builds itself (errors.New, fmt.Errorf)

  /** A Go `(T, error)` return; the zero value that accompanies an error is not kept. */
  datatype Result<T> = Ok(value: T) | Err(error: Error)

  /** A Go return of a bare `error`. */
  datatype Outcome = Pass | Fail(error: Error)

  /** What an abstract decoder (encoding/json, encoding/xml, golang.org/x/net/html) hands back. */
  datatype Decoded<T> = Parsed(value: T) | Malformed(detail: string)
}
