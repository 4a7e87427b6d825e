/**
 * The error type of the user-store contract (auth-service/src/domain/data_stores/user.rs).
 * `InvalidCredentials` carries a detail string, as the route mappers destructure it.
 */
module UserStoreTypes {

  datatype UserStoreError =
    | UserAlreadyExists
    | UserNotFound
    | InvalidCredentials(details: string)
    | UnexpectedError
}
