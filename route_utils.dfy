/**
 * The shared error mapping of the routes (auth-service/src/routes/utils.rs).
 */
module RouteUtils {
  import SE = UserStoreTypes
  import opened ApiError
  import opened Responses

  /** `map_user_store_error_to_api_error`: an unknown address becomes the generic
      IncorrectCredentials; a credential error keeps its detail; a duplicate stays a
      duplicate; anything else becomes UnexpectedError. */
  function MapUserStoreError(e: SE.UserStoreError): (r: AuthAPIError)
    ensures r.IncorrectCredentials? <==> e.UserNotFound?
    ensures r.InvalidCredentials? <==> e.InvalidCredentials?
    ensures r.InvalidCredentials? ==> r.details == e.details
    ensures r.UserAlreadyExists? <==> e.UserAlreadyExists?
    ensures r.UnexpectedError? <==> e.UnexpectedError?
  {
    match e
    case InvalidCredentials(details) => InvalidCredentials(details)
    case UserNotFound => IncorrectCredentials
    case UserAlreadyExists => UserAlreadyExists
    case _ => UnexpectedError
  }

  /** `map_string_error_to_bad_input_error`, which routes/utils.rs does not define: a parse
      message becomes BadInput carrying that message, which answers 400 with the message
      as its text. */
  function MapStringErrorToBadInput(message: string): (r: AuthAPIError)
    ensures r.BadInput? && r.reason == message
    ensures IntoResponse(r) == ErrorResponse(BAD_REQUEST, message)
  {
    BadInput(message)
  }
}
