/** Classifying the service's answer to a login request. The request itself is
    not modelled: its response comes in as a value. */
module Login {

  import opened Wrappers

  /** The `error` object of a rejected login, with its optional message. */
  datatype ErrorBody = ErrorBody(message: Option<string>)

  /** The parts of a login response the client reads: the HTTP status code and
      the body's `error`, `userId` and `sessionId` keys (None when absent). */
  datatype LoginResponse = LoginResponse(
    statusCode: int,
    error: Option<ErrorBody>,
    userId: Option<string>,
    sessionId: Option<string>)

  /** The identity a successful login stores. */
  datatype Session = Session(userId: string, sessionId: string)

  datatype LoginError =
    | HttpStatusError(statusCode: int)       // the status check raised before the body was read
    | LoginRejected(message: Option<string>) // the body carries an `error` key
    | MissingField(field: string)            // the body lacks `userId` or `sessionId`

  /** A response is "ok" unless its status is a client or server error (400-599). */
  predicate StatusOk(statusCode: int) {
    !(400 <= statusCode < 600)
  }

  /** The outcome of a login: the status check comes first, then the `error`
      key (the `not ok` half of that test can no longer hold there), then the
      two identity keys are read. */
  function ClassifyLogin(response: LoginResponse): (r: Result<Session, LoginError>)
    ensures r.Success? <==>
              StatusOk(response.statusCode) && response.error.None? &&
              response.userId.Some? && response.sessionId.Some?
    ensures r.Success? ==>
              r.value.userId == response.userId.value && r.value.sessionId == response.sessionId.value
    ensures !StatusOk(response.statusCode) ==> r == Failure(HttpStatusError(response.statusCode))
    ensures StatusOk(response.statusCode) && response.error.Some? ==>
              r == Failure(LoginRejected(response.error.value.message))
  {
    if !StatusOk(response.statusCode) then Failure(HttpStatusError(response.statusCode))
    else if response.error.Some? then Failure(LoginRejected(response.error.value.message))
    else if response.userId.None? then Failure(MissingField("userId"))
    else if response.sessionId.None? then Failure(MissingField("sessionId"))
    else Success(Session(response.userId.value, response.sessionId.value))
  }
}
