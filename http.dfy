/** The parts of an HTTP exchange the handlers look at: cookies, headers and status codes. */
module Http {
  /** An incoming request: its parsed cookies and its headers, header names in lower case. */
  datatype Request = Request(cookies: map<string, string>, headers: map<string, string>)

  const Ok := 200
  const Created := 201
  const BadRequest := 400
  const Unauthorized := 401
  const Forbidden := 403
  const NotFound := 404
  const Conflict := 409
  const TooManyRequests := 429
  const InternalServerError := 500

  /** A JSON value of a request body; arrays and objects are lumped together. */
  datatype Json = JNull | JBool(b: bool) | JNumber(n: real) | JString(s: string) | JCompound

  /** A thrown `HttpException`: the status it answers with and its message. */
  datatype HttpError = HttpError(status: int, message: string)
}
