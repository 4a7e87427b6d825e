/**
 * The errors a handler answers with (auth-service/src/domain/error.rs), together with
 * `GenerateTokenError`, which the login and verify-2FA handlers construct when the token
 * codec fails, and `BadInput`, which the verify-2FA handler constructs when the login
 * attempt id or the 2FA code does not parse.
 */
module ApiError {

  datatype AuthAPIError =
    | UserAlreadyExists
    | InvalidCredentials(details: string)
    | IncorrectCredentials
    | MissingToken
    | InvalidToken
    | UnexpectedError
    | GenerateTokenError(reason: string)
    | BadInput(reason: string)
}
