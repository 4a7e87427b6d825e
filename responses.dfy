/**
 * How an error becomes an HTTP response (`IntoResponse for AuthAPIError` in
 * auth-service/src/lib.rs): a status code and the text of the `error` field.
 */
module Responses {
  import opened ApiError

  const OK := 200
  const CREATED := 201
  const PARTIAL_CONTENT := 206
  const BAD_REQUEST := 400
  const UNAUTHORIZED := 401
  const CONFLICT := 409
  const INTERNAL_SERVER_ERROR := 500

  datatype ErrorResponse = ErrorResponse(status: nat, error: string)

  /** Bad input answers 400, a refused identity or token 401, a duplicate 409, and an
      internal failure 500 with a fixed text that carries no detail. */
  function IntoResponse(e: AuthAPIError): (r: ErrorResponse)
    ensures r.status == BAD_REQUEST <==> e.InvalidCredentials? || e.MissingToken? || e.BadInput?
    ensures r.status == UNAUTHORIZED <==> e.IncorrectCredentials? || e.InvalidToken?
    ensures r.status == CONFLICT <==> e.UserAlreadyExists?
    ensures r.status == INTERNAL_SERVER_ERROR <==> e.UnexpectedError? || e.GenerateTokenError?
    ensures e.InvalidCredentials? ==> r.error == "Invalid credentials: " + e.details
    ensures r.status == INTERNAL_SERVER_ERROR ==> r.error == "Unexpected error"
  {
    match e
    case InvalidCredentials(details) => ErrorResponse(BAD_REQUEST, "Invalid credentials: " + details)
    case UserAlreadyExists => ErrorResponse(CONFLICT, "User already exists")
    case IncorrectCredentials => ErrorResponse(UNAUTHORIZED, "Access to server limitted or no access granted.")
    case MissingToken => ErrorResponse(BAD_REQUEST, "Missing token")
    case InvalidToken => ErrorResponse(UNAUTHORIZED, "Invalid token")
    case UnexpectedError => ErrorResponse(INTERNAL_SERVER_ERROR, "Unexpected error")
    case GenerateTokenError(_) => ErrorResponse(INTERNAL_SERVER_ERROR, "Unexpected error")
    case BadInput(reason) => ErrorResponse(BAD_REQUEST, reason)
  }
}
