// What the HTTP handlers answer with when they refuse a request.
module Http {
  /** An `HTTPException`: status code and detail text. */
  datatype HttpError = HttpError(status: int, detail: string)

  const BadRequest := 400
  const NotFound := 404
  /** An exception a handler does not catch reaches the client as a 500. */
  const InternalError := 500
  const BadGateway := 502

  /** The protocols a router may be stored with. */
  predicate ValidProto(proto: string) {
    proto in {"rest", "rest-http", "api", "api-plain"}
  }
}
