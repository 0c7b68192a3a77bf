/** The errors the service raises. */
module Errors {

  /** An HTTP exception with its status code and detail text, the
      missing-file error of `open`, or an exception raised by a database
      backend and passed through unchanged. */
  datatype Failure =
    | Http(status: int, detail: string)
    | FileNotFound
    | BackendRaised(error: string)
}
