/**
 * The verify-2FA handler (auth-service/src/routes/verify_2fa.rs): parse the address, the
 * login attempt id and the code, look up the stored challenge, compare both halves, issue
 * a session cookie and consume the challenge.
 */
module Verify2fa {
  import opened Wrappers
  import opened ApiError
  import opened Users
  import opened TwoFa
  import opened Auth
  import opened Responses
  import opened RouteUtils
  import opened App
  import opened Login

  datatype Verify2FARequest = Verify2FARequest(email: string, loginAttemptId: string, twoFaCode: string)

  datatype Verify2FAReply = Verify2FAReply(jar: CookieJar, status: nat)

  /** All three fields parse. */
  predicate FieldsParse(request: Verify2FARequest) {
    && ParseEmail(request.email).Success?
    && ParseLoginAttemptId(request.loginAttemptId).Success?
    && ParseTwoFACode(request.twoFaCode).Success?
  }

  /** The fields parse and are exactly the challenge stored for the address. */
  predicate Matches(codes: map<Email, (LoginAttemptId, TwoFACode)>, request: Verify2FARequest) {
    && FieldsParse(request)
    && Email(Trim(request.email)) in codes
    && codes[Email(Trim(request.email))]
       == (LoginAttemptId(request.loginAttemptId), TwoFACode(request.twoFaCode))
  }

  /** `verify_2fa`: a field that does not parse is refused (the address first, then the id,
      then the code); a missing or different challenge answers IncorrectCredentials; in all
      these cases the store is unchanged. An exact match adds a session cookie, answers 200
      and removes that address's challenge, and no other. */
  method Verify2FA(state: AppState, jar: CookieJar, request: Verify2FARequest, codec: TokenCodec)
      returns (r: Result<Verify2FAReply, AuthAPIError>)
    modifies state.twoFaCodeStore
    ensures ParseEmail(request.email).Failure? ==> r == Failure(InvalidCredentials(INVALID_EMAIL_DETAIL))
    ensures ParseEmail(request.email).Success? && ParseLoginAttemptId(request.loginAttemptId).Failure? ==>
              r == Failure(BadInput(INVALID_LOGIN_ATTEMPT_ID))
    ensures ParseEmail(request.email).Success? && ParseLoginAttemptId(request.loginAttemptId).Success?
            && ParseTwoFACode(request.twoFaCode).Failure? ==>
              r == Failure(BadInput(InvalidCodeMessage(request.twoFaCode)))
    ensures FieldsParse(request) && !Matches(old(state.twoFaCodeStore.codes), request) ==>
              r == Failure(IncorrectCredentials)
    ensures !Matches(old(state.twoFaCodeStore.codes), request) ==>
              state.twoFaCodeStore.codes == old(state.twoFaCodeStore.codes)
    ensures Matches(old(state.twoFaCodeStore.codes), request) ==>
              var email := Email(Trim(request.email));
              && (codec.issue(email).Failure? ==>
                    && r == Failure(GenerateTokenError(codec.issue(email).error))
                    && state.twoFaCodeStore.codes == old(state.twoFaCodeStore.codes))
              && (codec.issue(email).Success? ==>
                    && r == Success(Verify2FAReply(jar[JWT_COOKIE_NAME := codec.issue(email).value], OK))
                    && state.twoFaCodeStore.codes == old(state.twoFaCodeStore.codes) - {email})
  {
    var email := ParseEmail(request.email);
    if email.Failure? {
      return Failure(MapUserStoreError(email.error));
    }
    var loginAttemptId := ParseLoginAttemptId(request.loginAttemptId);
    if loginAttemptId.Failure? {
      return Failure(MapStringErrorToBadInput(loginAttemptId.error));
    }
    var code := ParseTwoFACode(request.twoFaCode);
    if code.Failure? {
      return Failure(MapStringErrorToBadInput(code.error));
    }
    var challenge := state.twoFaCodeStore.GetCode(email.value);
    if challenge.Failure? {
      return Failure(IncorrectCredentials);
    }
    if challenge.value.0 != loginAttemptId.value || challenge.value.1 != code.value {
      return Failure(IncorrectCredentials);
    }
    var token := codec.issue(email.value);
    if token.Failure? {
      return Failure(GenerateTokenError(token.error));
    }
    var newJar := jar[JWT_COOKIE_NAME := token.value];
    var removed := state.twoFaCodeStore.RemoveCode(email.value);
    if removed.Failure? {
      return Failure(AuthAPIError.UnexpectedError);
    }
    r := Success(Verify2FAReply(newJar, OK));
  }

  /** The request a client builds from a 2FA login's answer and the code it received. */
  function RequestFor(email: string, id: LoginAttemptId, code: TwoFACode): Verify2FARequest {
    Verify2FARequest(email, id.id, code.code)
  }

  /** The request built from the challenge stored for a parsable address matches it. */
  lemma ChallengeMatches(codes: map<Email, (LoginAttemptId, TwoFACode)>, email: string,
                         id: LoginAttemptId, code: TwoFACode)
    requires ParseEmail(email).Success?
    requires ParseLoginAttemptId(id.id) == Success(id) && IsGeneratedCode(code.code)
    requires Email(Trim(email)) in codes && codes[Email(Trim(email))] == (id, code)
    ensures Matches(codes, RequestFor(email, id, code))
  {
    SixDigitCodeParses(code);
  }

  /** Once the address has no challenge, no request for it matches. */
  lemma NoChallengeNoMatch(codes: map<Email, (LoginAttemptId, TwoFACode)>, request: Verify2FARequest)
    requires Email(Trim(request.email)) !in codes
    ensures !Matches(codes, request)
  {
  }

  /** A challenge issued by login verifies once: the first attempt with it succeeds and
      consumes it, and the same request a second time answers 401. */
  method VerifyTwice(state: AppState, jar: CookieJar, request: LoginRequest, codec: TokenCodec,
                     uuid: seq<byte>, draws: seq<nat>)
      returns (first: Result<Verify2FAReply, AuthAPIError>, second: Result<Verify2FAReply, AuthAPIError>)
    requires state.Valid()
    requires |uuid| == 16 && ValidShuffleDraws(draws)
    requires Authenticates(state.userStore.users, request)
    requires state.userStore.users[Trim(request.email)].requires2fa
    requires codec.issue(Email(Trim(request.email))).Success?
    modifies state.twoFaCodeStore
    ensures first.Success? && first.value.status == OK
    ensures second == Failure(IncorrectCredentials) && IntoResponse(second.error).status == UNAUTHORIZED
  {
    var email := Email(Trim(request.email));
    var login := Login.Login(state, jar, request, codec, uuid, draws);
    assert email in state.twoFaCodeStore.codes;
    var challenge := state.twoFaCodeStore.codes[email];
    var verify := RequestFor(request.email, challenge.0, challenge.1);
    ChallengeMatches(state.twoFaCodeStore.codes, request.email, challenge.0, challenge.1);
    first := Verify2FA(state, jar, verify, codec);
    assert first.Success?;
    assert email !in state.twoFaCodeStore.codes;
    NoChallengeNoMatch(state.twoFaCodeStore.codes, verify);
    second := Verify2FA(state, jar, verify, codec);
    assert second == Failure(IncorrectCredentials);
  }

  /** A wrong code does not consume the challenge: an attempt with any code that parses
      but differs from the issued one is refused, and the issued code still verifies
      afterwards. */
  method RetryAfterWrongCode(state: AppState, jar: CookieJar, request: LoginRequest, codec: TokenCodec,
                             uuid: seq<byte>, draws: seq<nat>, wrongCode: TwoFACode)
      returns (issued: TwoFACode, refused: Result<Verify2FAReply, AuthAPIError>,
               accepted: Result<Verify2FAReply, AuthAPIError>)
    requires state.Valid()
    requires |uuid| == 16 && ValidShuffleDraws(draws)
    requires Authenticates(state.userStore.users, request)
    requires state.userStore.users[Trim(request.email)].requires2fa
    requires codec.issue(Email(Trim(request.email))).Success?
    requires ParseTwoFACode(wrongCode.code).Success?
    modifies state.twoFaCodeStore
    ensures IsGeneratedCode(issued.code)
    ensures wrongCode != issued ==>
              && refused == Failure(IncorrectCredentials)
              && accepted.Success? && accepted.value.status == OK
  {
    var email := Email(Trim(request.email));
    var login := Login.Login(state, jar, request, codec, uuid, draws);
    var challenge := state.twoFaCodeStore.codes[email];
    issued := challenge.1;
    var wrongRequest := RequestFor(request.email, challenge.0, wrongCode);
    var rightRequest := RequestFor(request.email, challenge.0, issued);
    ChallengeMatches(state.twoFaCodeStore.codes, request.email, challenge.0, issued);
    assert FieldsParse(wrongRequest);
    if wrongCode != issued {
      assert !Matches(state.twoFaCodeStore.codes, wrongRequest);
    }
    refused := Verify2FA(state, jar, wrongRequest, codec);
    if wrongCode != issued {
      assert Matches(state.twoFaCodeStore.codes, rightRequest);
    }
    accepted := Verify2FA(state, jar, rightRequest, codec);
  }

  /** A second login replaces the challenge: the first login's id and code are refused once
      a second login with a different UUID has happened, and the second login's are accepted. */
  method SecondLoginSupersedes(state: AppState, jar: CookieJar, request: LoginRequest, codec: TokenCodec,
                               uuid1: seq<byte>, draws1: seq<nat>, uuid2: seq<byte>, draws2: seq<nat>)
      returns (staleReply: Result<Verify2FAReply, AuthAPIError>, freshReply: Result<Verify2FAReply, AuthAPIError>)
    requires state.Valid()
    requires |uuid1| == 16 && ValidShuffleDraws(draws1) && |uuid2| == 16 && ValidShuffleDraws(draws2)
    requires DefaultLoginAttemptId(uuid1) != DefaultLoginAttemptId(uuid2)
    requires Authenticates(state.userStore.users, request)
    requires state.userStore.users[Trim(request.email)].requires2fa
    requires codec.issue(Email(Trim(request.email))).Success?
    modifies state.twoFaCodeStore
    ensures staleReply == Failure(IncorrectCredentials)
    ensures freshReply.Success? && freshReply.value.status == OK
  {
    var email := Email(Trim(request.email));
    var first := Login.Login(state, jar, request, codec, uuid1, draws1);
    var stale := state.twoFaCodeStore.codes[email];
    var second := Login.Login(state, jar, request, codec, uuid2, draws2);
    var freshChallenge := state.twoFaCodeStore.codes[email];
    TrimIdempotent(request.email);
    SixDigitCodeParses(stale.1);
    SixDigitCodeParses(freshChallenge.1);
    staleReply := Verify2FA(state, jar, RequestFor(request.email, stale.0, stale.1), codec);
    freshReply := Verify2FA(state, jar, RequestFor(request.email, freshChallenge.0, freshChallenge.1), codec);
  }
}
