/**
 * The logout handler (auth-service/src/routes/logout.rs): take the session token from the
 * `jwt` cookie, validate it, then drop the cookie and ban the token for the address it
 * names. The answer always carries a jar: the caller's own on failure.
 */
module Logout {
  import opened Wrappers
  import opened ApiError
  import opened Users
  import opened BannedToken
  import opened TwoFa
  import opened Auth
  import opened Responses
  import opened App
  import opened Signup
  import opened Login

  /** The `expect` in `validate_token_from_cookie_jar` does not fire: when the jar's token
      validates, its subject parses as an address. */
  predicate SubjectParses(jar: CookieJar, banned: map<string, Email>, codec: TokenCodec) {
    JWT_COOKIE_NAME in jar && codec.validate(jar[JWT_COOKIE_NAME], banned).Success? ==>
      ParseEmail(codec.validate(jar[JWT_COOKIE_NAME], banned).value.sub).Success?
  }

  /** `validate_token_from_cookie_jar`: MissingToken without a `jwt` cookie, InvalidToken
      when the codec refuses its token; otherwise the token and the address its subject
      parses to. */
  function ValidateTokenFromCookieJar(jar: CookieJar, banned: map<string, Email>, codec: TokenCodec)
      : (r: Result<(string, Email), AuthAPIError>)
    requires SubjectParses(jar, banned, codec)
    ensures JWT_COOKIE_NAME !in jar ==> r == Failure(MissingToken)
    ensures JWT_COOKIE_NAME in jar && codec.validate(jar[JWT_COOKIE_NAME], banned).Failure? ==>
              r == Failure(InvalidToken)
    ensures r.Success? ==>
              && JWT_COOKIE_NAME in jar && r.value.0 == jar[JWT_COOKIE_NAME]
              && codec.validate(r.value.0, banned).Success?
              && Success(r.value.1) == ParseEmail(codec.validate(r.value.0, banned).value.sub)
  {
    if JWT_COOKIE_NAME !in jar then Failure(MissingToken)
    else
      var token := jar[JWT_COOKIE_NAME];
      var claims := codec.validate(token, banned);
      if claims.Failure? then Failure(InvalidToken)
      else Success((token, ParseEmail(claims.value.sub).value))
  }

  /** `logout`: on failure the jar and the banned tokens are unchanged; on success the
      cookie is gone from the jar, the answer is 200, and the only change to the store is
      that the token is banned for its subject. */
  method Logout(state: AppState, jar: CookieJar, codec: TokenCodec)
      returns (newJar: CookieJar, r: Result<nat, AuthAPIError>)
    requires SubjectParses(jar, state.bannedTokenStore.data, codec)
    modifies state.bannedTokenStore
    ensures var checked := ValidateTokenFromCookieJar(jar, old(state.bannedTokenStore.data), codec);
            && (checked.Failure? ==>
                  && newJar == jar && r == Failure(checked.error)
                  && state.bannedTokenStore.data == old(state.bannedTokenStore.data))
            && (checked.Success? ==>
                  && newJar == jar - {JWT_COOKIE_NAME} && r == Success(OK)
                  && state.bannedTokenStore.data
                     == old(state.bannedTokenStore.data)[checked.value.0 := checked.value.1])
  {
    var checked := ValidateTokenFromCookieJar(jar, state.bannedTokenStore.data, codec);
    if checked.Failure? {
      return jar, Failure(checked.error);
    }
    var (token, email) := checked.value;
    newJar := jar - {JWT_COOKIE_NAME};
    state.bannedTokenStore.Add(email, token);
    r := Success(OK);
  }

  /** Logging out twice in a row: the second call finds no cookie in the jar the first one
      returned and answers 400. Sending the same token again instead is refused as an
      invalid token (401) by a codec that honours bans. */
  method LogoutTwice(state: AppState, jar: CookieJar, codec: TokenCodec)
      returns (first: Result<nat, AuthAPIError>, second: Result<nat, AuthAPIError>,
               resent: Result<nat, AuthAPIError>)
    requires HonoursBans(codec) && SubjectParses(jar, state.bannedTokenStore.data, codec)
    requires ValidateTokenFromCookieJar(jar, state.bannedTokenStore.data, codec).Success?
    modifies state.bannedTokenStore
    ensures first == Success(OK)
    ensures second == Failure(MissingToken) && IntoResponse(second.error).status == BAD_REQUEST
    ensures resent == Failure(InvalidToken) && IntoResponse(resent.error).status == UNAUTHORIZED
    ensures JWT_COOKIE_NAME in jar && jar[JWT_COOKIE_NAME] in state.bannedTokenStore.data
  {
    var jar1, jar2, jar3;
    jar1, first := Logout(state, jar, codec);
    jar2, second := Logout(state, jar1, codec);
    jar3, resent := Logout(state, jar, codec);
  }

  /** Login without 2FA, then logout: the login answers 200 with a session cookie, and
      the logout bans that cookie's token. */
  method LoginLogout(state: AppState, jar: CookieJar, request: LoginRequest,
                     codec: TokenCodec, uuid: seq<byte>, draws: seq<nat>)
      returns (loggedIn: Result<LoginReply, AuthAPIError>, token: string, loggedOut: Result<nat, AuthAPIError>)
    requires state.Valid()
    requires Authenticates(state.userStore.users, request)
    requires !state.userStore.users[Trim(request.email)].requires2fa
    requires |uuid| == 16 && ValidShuffleDraws(draws)
    requires codec.issue(Email(Trim(request.email))).Success?
    requires codec.validate(codec.issue(Email(Trim(request.email))).value, state.bannedTokenStore.data)
             == Success(Claims(Trim(request.email)))
    modifies state.twoFaCodeStore, state.bannedTokenStore
    ensures loggedIn.Success? && loggedIn.value.status == OK && loggedIn.value.body == RegularAuth
    ensures token == codec.issue(Email(Trim(request.email))).value
    ensures JWT_COOKIE_NAME in loggedIn.value.jar && loggedIn.value.jar[JWT_COOKIE_NAME] == token
    ensures loggedOut == Success(OK)
    ensures state.bannedTokenStore.data == old(state.bannedTokenStore.data)[token := Email(Trim(request.email))]
  {
    loggedIn := Login.Login(state, jar, request, codec, uuid, draws);
    token := codec.issue(Email(Trim(request.email))).value;
    assert loggedIn.value.jar == jar[JWT_COOKIE_NAME := token];
    ParseEmailIdempotent(request.email);
    var jar1;
    jar1, loggedOut := Logout(state, loggedIn.value.jar, codec);
  }

  /** Signup without 2FA, login, logout: the logout bans the session token the login
      issued, and a codec that honours bans refuses it from then on. */
  method SignupLoginLogout(state: AppState, jar: CookieJar, email: string, password: string,
                           codec: TokenCodec, uuid: seq<byte>, draws: seq<nat>)
      returns (token: string, loggedOut: Result<nat, AuthAPIError>)
    requires state.Valid()
    requires NewUser(email, password, false).Some? && Trim(email) !in state.userStore.users
    requires |uuid| == 16 && ValidShuffleDraws(draws)
    requires HonoursBans(codec)
    requires codec.issue(Email(Trim(email))).Success?
    requires codec.validate(codec.issue(Email(Trim(email))).value, state.bannedTokenStore.data)
             == Success(Claims(Trim(email)))
    modifies state.userStore, state.twoFaCodeStore, state.bannedTokenStore
    ensures loggedOut == Success(OK)
    ensures token == codec.issue(Email(Trim(email))).value
    ensures token in state.bannedTokenStore.data && state.bannedTokenStore.data[token] == Email(Trim(email))
    ensures codec.validate(token, state.bannedTokenStore.data).Failure?
  {
    var request := LoginRequest(email, password);
    var signedUp := Signup.Signup(state, SignupRequest(email, password, false));
    NewUserAgreesWithParsers(email, password, false);
    var loggedIn;
    loggedIn, token, loggedOut := LoginLogout(state, jar, request, codec, uuid, draws);
  }
}
