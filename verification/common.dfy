/** Small value types shared by the load balancer's components. */
module Common {

  /** A value that may be absent: Go's nil pointer or nil interface. */
  datatype Option<+T> = None | Some(value: T)

  /** The outcome of a library call that returns a value or an error. */
  datatype Result<+T> = Ok(value: T) | Err(error: Error)

  /** A Go `error` value; only its text is kept. */
  datatype Error = Error(message: string)

  /** A parsed `*url.URL`; the parser itself is a parameter of the operations that need one. */
  datatype Url = Url(raw: string)

  /** `url.Parse`, abstracted: whether the raw string parses, and to what. */
  type UrlParser = string -> Result<Url>
}
