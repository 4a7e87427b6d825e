/**
 * The signup handler (auth-service/src/routes/signup.rs): parse the address, then the
 * password, then add the user, answering 201 with a fixed message.
 */
module Signup {
  import opened Wrappers
  import SE = UserStoreTypes
  import opened ApiError
  import opened Users
  import opened Responses
  import opened App

  datatype SignupRequest = SignupRequest(email: string, password: string, requires2fa: bool)

  datatype SignupResponse = SignupResponse(status: nat, message: string)

  const USER_CREATED := "User created successfully!"

  /** The handler's own error mapping: unlike the shared one, it turns UserNotFound (which
      `add_user` never returns) into UnexpectedError. */
  function SignupMapUserStoreError(e: SE.UserStoreError): (r: AuthAPIError)
    ensures r.InvalidCredentials? <==> e.InvalidCredentials?
    ensures r.InvalidCredentials? ==> r.details == e.details
    ensures r.UserAlreadyExists? <==> e.UserAlreadyExists?
    ensures r.UnexpectedError? <==> e.UserNotFound? || e.UnexpectedError?
  {
    match e
    case InvalidCredentials(details) => InvalidCredentials(details)
    case UserAlreadyExists => UserAlreadyExists
    case _ => UnexpectedError
  }

  /** `signup`: invalid input fails before the store is touched; otherwise the user built
      from the request (as `User::new` would build it) is added, or the address is already
      taken and nothing changes. */
  method Signup(state: AppState, request: SignupRequest) returns (r: Result<SignupResponse, AuthAPIError>)
    requires state.Valid()
    modifies state.userStore
    ensures state.Valid()
    ensures ParseEmail(request.email).Failure? ==>
              r == Failure(InvalidCredentials(INVALID_EMAIL_DETAIL)) && unchanged(state.userStore)
    ensures ParseEmail(request.email).Success? && ParsePassword(request.password).Failure? ==>
              r == Failure(InvalidCredentials(INVALID_PASSWORD_DETAIL)) && unchanged(state.userStore)
    ensures NewUser(request.email, request.password, request.requires2fa).Some? ==>
              var user := NewUser(request.email, request.password, request.requires2fa).value;
              && (user.email in old(state.userStore.users) ==>
                    r == Failure(UserAlreadyExists) && state.userStore.users == old(state.userStore.users))
              && (user.email !in old(state.userStore.users) ==>
                    r == Success(SignupResponse(CREATED, USER_CREATED))
                    && state.userStore.users == old(state.userStore.users)[user.email := user])
  {
    var email := ParseEmail(request.email);
    if email.Failure? {
      return Failure(SignupMapUserStoreError(email.error));
    }
    var password := ParsePassword(request.password);
    if password.Failure? {
      return Failure(SignupMapUserStoreError(password.error));
    }
    NewUserAgreesWithParsers(request.email, request.password, request.requires2fa);
    var user := User(email.value.address, password.value.secret, request.requires2fa);
    var added := state.userStore.AddUser(user);
    if added.Failure? {
      return Failure(SignupMapUserStoreError(added.error));
    }
    r := Success(SignupResponse(CREATED, USER_CREATED));
  }

  /** Signing up twice with the same address: the second call answers 409 and the store
      still holds the one user the first call added. */
  method SignupTwice(state: AppState, request: SignupRequest)
      returns (first: Result<SignupResponse, AuthAPIError>, second: Result<SignupResponse, AuthAPIError>)
    requires state.Valid()
    requires NewUser(request.email, request.password, request.requires2fa).Some?
    requires Trim(request.email) !in state.userStore.users
    modifies state.userStore
    ensures first == Success(SignupResponse(CREATED, USER_CREATED))
    ensures second == Failure(UserAlreadyExists) && IntoResponse(second.error).status == CONFLICT
    ensures state.userStore.users
            == old(state.userStore.users)[Trim(request.email) := User(Trim(request.email), request.password, request.requires2fa)]
  {
    first := Signup(state, request);
    second := Signup(state, request);
  }
}
