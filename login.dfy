/**
 * The login handler (auth-service/src/routes/login.rs): parse the credentials, check them
 * against the user store, then either issue a session cookie or, for a user who requires
 * 2FA, store a fresh challenge and answer 206 with its login attempt id. The random UUID
 * and shuffle draws of the fresh challenge are parameters.
 */
module Login {
  import opened Wrappers
  import SE = UserStoreTypes
  import opened ApiError
  import opened Users
  import opened TwoFa
  import opened Auth
  import opened Responses
  import opened RouteUtils
  import opened HashmapUserStores
  import opened App

  datatype LoginRequest = LoginRequest(email: string, password: string)

  /** The body of a successful login: no body for a regular login; for 2FA a message and
      the login attempt id, and never the code. */
  datatype LoginResponse = RegularAuth | TwoFactorAuth(message: string, loginAttemptId: string)

  datatype LoginReply = LoginReply(jar: CookieJar, status: nat, body: LoginResponse)

  const TWO_FA_REQUIRED := "2FA required"

  /** `LoginRequest::parse_email`. */
  function ParseRequestEmail(request: LoginRequest): (r: Result<Email, AuthAPIError>)
    ensures r.Success? <==> ParseEmail(request.email).Success?
    ensures r.Success? ==> r.value.address == Trim(request.email)
    ensures r.Failure? ==> r.error == InvalidCredentials(INVALID_EMAIL_DETAIL)
  {
    var parsed := ParseEmail(request.email);
    if parsed.Success? then Success(parsed.value) else Failure(MapUserStoreError(parsed.error))
  }

  /** `LoginRequest::parse_password`. */
  function ParseRequestPassword(request: LoginRequest): (r: Result<Password, AuthAPIError>)
    ensures r.Success? <==> ParsePassword(request.password).Success?
    ensures r.Success? ==> r.value.secret == request.password
    ensures r.Failure? ==> r.error == InvalidCredentials(INVALID_PASSWORD_DETAIL)
  {
    var parsed := ParsePassword(request.password);
    if parsed.Success? then Success(parsed.value) else Failure(MapUserStoreError(parsed.error))
  }

  /** Both credentials parse. */
  predicate CredentialsParse(request: LoginRequest) {
    ParseEmail(request.email).Success? && ParsePassword(request.password).Success?
  }

  /** The credentials parse and name a stored user with exactly this password. */
  predicate Authenticates(users: map<string, User>, request: LoginRequest) {
    && CredentialsParse(request)
    && Trim(request.email) in users
    && users[Trim(request.email)].password == request.password
  }

  /** `handle_regular`: a session cookie for `email` is added to the jar and the answer is
      200; if the codec cannot issue one, GenerateTokenError with its reason. */
  function HandleRegular(email: Email, jar: CookieJar, codec: TokenCodec): (r: Result<LoginReply, AuthAPIError>)
    ensures r.Success? <==> codec.issue(email).Success?
    ensures r.Success? ==> r.value.status == OK && r.value.body == RegularAuth
                           && r.value.jar == jar[JWT_COOKIE_NAME := codec.issue(email).value]
    ensures r.Failure? ==> r.error == GenerateTokenError(codec.issue(email).error)
  {
    var token := codec.issue(email);
    if token.Failure? then Failure(GenerateTokenError(token.error))
    else Success(LoginReply(jar[JWT_COOKIE_NAME := token.value], OK, RegularAuth))
  }

  /** `handle_2fa`: a fresh challenge replaces any earlier one for `email` (no other entry
      changes), and the answer is 206 with the challenge's id; the jar is unchanged. */
  method Handle2fa(email: Email, state: AppState, jar: CookieJar, uuid: seq<byte>, draws: seq<nat>)
      returns (r: Result<LoginReply, AuthAPIError>)
    requires |uuid| == 16 && ValidShuffleDraws(draws)
    modifies state.twoFaCodeStore
    ensures email in state.twoFaCodeStore.codes
    ensures var challenge := state.twoFaCodeStore.codes[email];
            && state.twoFaCodeStore.codes == old(state.twoFaCodeStore.codes)[email := challenge]
            && challenge.0 == DefaultLoginAttemptId(uuid)
            && IsGeneratedCode(challenge.1.code)
            && r == Success(LoginReply(jar, PARTIAL_CONTENT, TwoFactorAuth(TWO_FA_REQUIRED, challenge.0.id)))
  {
    var loginAttemptId := DefaultLoginAttemptId(uuid);
    var code := DefaultTwoFACode(draws);
    var stored := state.twoFaCodeStore.AddCode(email, loginAttemptId, code);
    if stored.Failure? {
      return Failure(AuthAPIError.UnexpectedError);
    }
    r := Success(LoginReply(jar, PARTIAL_CONTENT, TwoFactorAuth(TWO_FA_REQUIRED, loginAttemptId.id)));
  }

  /** The first half of `login`: parse the credentials, `validate_user` them and
      `get_user` the user. Malformed credentials answer InvalidCredentials, an unknown
      address the generic IncorrectCredentials, and a wrong password InvalidCredentials;
      it succeeds exactly when the credentials authenticate, with the stored user. */
  method AuthenticatedUser(store: HashmapUserStore, request: LoginRequest) returns (r: Result<User, AuthAPIError>)
    requires store.Valid()
    ensures ParseEmail(request.email).Failure? ==> r == Failure(InvalidCredentials(INVALID_EMAIL_DETAIL))
    ensures ParseEmail(request.email).Success? && ParsePassword(request.password).Failure? ==>
              r == Failure(InvalidCredentials(INVALID_PASSWORD_DETAIL))
    ensures CredentialsParse(request) && Trim(request.email) !in store.users ==>
              r == Failure(IncorrectCredentials)
    ensures CredentialsParse(request) && Trim(request.email) in store.users
            && store.users[Trim(request.email)].password != request.password ==>
              r == Failure(InvalidCredentials(WRONG_PASSWORD_DETAIL))
    ensures r.Success? <==> Authenticates(store.users, request)
    ensures r.Success? ==> r.value == store.users[Trim(request.email)] && r.value.email == Trim(request.email)
  {
    var email := ParseRequestEmail(request);
    if email.Failure? {
      return Failure(email.error);
    }
    var password := ParseRequestPassword(request);
    if password.Failure? {
      return Failure(password.error);
    }
    var validated := store.ValidateUser(email.value.address, password.value.secret);
    if validated.Failure? {
      return Failure(MapUserStoreError(validated.error));
    }
    var user := store.GetUser(email.value.address);
    if user.Failure? {
      // `validate_user` has just found this user, so `get_user` cannot fail here.
      assert false;
    }
    r := Success(user.value);
  }

  /** `login`: the credential check's refusals are the answer, with no store changed;
      only an accepted 2FA login changes the challenge store, and login never changes the
      user store. */
  method Login(state: AppState, jar: CookieJar, request: LoginRequest, codec: TokenCodec,
               uuid: seq<byte>, draws: seq<nat>)
      returns (r: Result<LoginReply, AuthAPIError>)
    requires state.Valid()
    requires |uuid| == 16 && ValidShuffleDraws(draws)
    modifies state.twoFaCodeStore
    ensures ParseEmail(request.email).Failure? ==> r == Failure(InvalidCredentials(INVALID_EMAIL_DETAIL))
    ensures ParseEmail(request.email).Success? && ParsePassword(request.password).Failure? ==>
              r == Failure(InvalidCredentials(INVALID_PASSWORD_DETAIL))
    ensures CredentialsParse(request) && Trim(request.email) !in state.userStore.users ==>
              r == Failure(IncorrectCredentials)
    ensures CredentialsParse(request) && Trim(request.email) in state.userStore.users
            && state.userStore.users[Trim(request.email)].password != request.password ==>
              r == Failure(InvalidCredentials(WRONG_PASSWORD_DETAIL))
    ensures !Authenticates(state.userStore.users, request) ==>
              state.twoFaCodeStore.codes == old(state.twoFaCodeStore.codes)
    ensures Authenticates(state.userStore.users, request)
            && !state.userStore.users[Trim(request.email)].requires2fa ==>
              && r == HandleRegular(Email(Trim(request.email)), jar, codec)
              && state.twoFaCodeStore.codes == old(state.twoFaCodeStore.codes)
    ensures Authenticates(state.userStore.users, request)
            && state.userStore.users[Trim(request.email)].requires2fa ==>
              var email := Email(Trim(request.email));
              && email in state.twoFaCodeStore.codes
              && state.twoFaCodeStore.codes
                 == old(state.twoFaCodeStore.codes)[email := state.twoFaCodeStore.codes[email]]
              && state.twoFaCodeStore.codes[email].0 == DefaultLoginAttemptId(uuid)
              && IsGeneratedCode(state.twoFaCodeStore.codes[email].1.code)
              && r == Success(LoginReply(jar, PARTIAL_CONTENT,
                                         TwoFactorAuth(TWO_FA_REQUIRED, DefaultLoginAttemptId(uuid).id)))
  {
    var user := AuthenticatedUser(state.userStore, request);
    if user.Failure? {
      return Failure(user.error);
    }
    if user.value.requires2fa {
      r := Handle2fa(Email(user.value.email), state, jar, uuid, draws);
    } else {
      r := HandleRegular(Email(user.value.email), jar, codec);
    }
  }

  /** The login outcomes for an unknown address and for a wrong password are told apart
      by their status: 401 for the first, 400 for the second. */
  lemma UnknownAddressAndWrongPasswordDiffer()
    ensures IntoResponse(MapUserStoreError(SE.UserNotFound)).status == UNAUTHORIZED
    ensures IntoResponse(MapUserStoreError(SE.InvalidCredentials(WRONG_PASSWORD_DETAIL))).status
            == BAD_REQUEST
  {
  }
}
