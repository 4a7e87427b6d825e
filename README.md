# auth-service: credential and session state machine in Dafny

This project models the core of `auth-service`, the authentication backend of the
live-bootcamp project. That core is:

- the value types a request is parsed into: user, address, password, login attempt id
  and 2FA code;
- the three in-memory stores the handlers share. The user store maps each address to its
  user. The 2FA store holds at most one (login attempt id, code) challenge per address.
  The banned-token store maps each revoked session token to the address it was revoked for;
- the four handlers that move a client through the protocol: signup, login (with or
  without a 2FA challenge), verify-2FA and logout;
- the two mappings from store errors to API errors, and the mapping from API errors to
  HTTP status codes and messages.

Each store is a class whose `map` field its methods update in place. Every handler is
modelled as running to completion on its own. The source does not quite guarantee this:
logout validates the token against the banned-token store and only then takes the store's
write lock to ban it, so two concurrent logouts of one token can both succeed. Handlers are methods over
an `AppState` object holding the three stores. Their contracts give the reply and the new
contents of each store they may touch, for every branch of the source. The value types and
the error mappings are functions. Lemmas state the round trips, the invariants and the
rejected test inputs. Several client methods replay sequences of calls from the tests and prove
their outcomes from the handlers' contracts alone: verify twice, login twice and logout
twice follow the integration tests; signup twice follows the user store's unit test of
`add_user`, taken through the signup handler.

Session tokens come from a codec that is outside this model (`generate_auth_cookie` and
`validate_token`). The handlers take it as a `TokenCodec` parameter: an `issue` function
and a `validate` function. Properties that depend on the codec refusing banned tokens
assume this explicitly (`HonoursBans`). The sources of randomness are parameters too: the
bytes of the fresh UUID, and the draws of the shuffle behind the 2FA code.

Module layout: `Users` (`domain/user.rs`), `TwoFa` (`domain/data_stores/twofa.rs`),
`BannedToken` (`domain/data_stores/token.rs`), `UserStoreTypes`
(`domain/data_stores/user.rs`), `ApiError` (`domain/error.rs`), one module per
`services/hashmap_*.rs` store, `RouteUtils` (`routes/utils.rs`), `Signup`, `Login`,
`Verify2fa`, `Logout` (the route files), `Responses` (`lib.rs`), `Auth` (the token codec
and the `jwt` cookie) and `App` (the shared state).

Where the intended design and the code differ, the model follows the code:

- A wrong password is not folded into the generic 401. `validate_user` answers
  `InvalidCredentials`, and the shared mapper keeps that error. So login answers 400 for a
  wrong password and 401 for an unknown address (`Login.UnknownAddressAndWrongPasswordDiffer`).
  A client can therefore tell whether an address is registered.
- The in-memory user store compares plain-text passwords. It does not hash them.
- `TwoFACode::parse` counts the ASCII digits among the characters. It does not require
  the code to consist of six digits, so `12-34-56` is accepted
  (`TwoFa.HyphenatedCodeAccepted`), and so is any six-digit code with one run of non-digits
  after its third digit (`TwoFa.SixDigitsAccepted`).
- The generated 2FA code never repeats a digit. It is the first six entries of a shuffled
  0..9 (`TwoFa.DefaultTwoFACode`).

The source is mid-refactor, so some choices had to be made:

- `User` has string fields, as declared in `domain/user.rs`. `Email::parse` and
  `Password::parse` are not part of this model. They get the rule `User::new` applies:
  the address is trimmed, then must be non-empty and contain `@`; the password must be at
  least 8 bytes long.
- `UserStoreError::InvalidCredentials` carries a detail, as `routes/utils.rs` destructures
  it. The in-memory store's detail is "Invalid password", the text the durable store uses.
- `AuthAPIError` gains `GenerateTokenError`, which `login.rs` constructs, and `BadInput`,
  which `verify_2fa.rs` constructs through `map_string_error_to_bad_input_error`. Neither
  has an arm in `lib.rs`. The model answers 500 for the first and 400 for the second; the
  verify-2FA integration test expects 400 for unparsable input.

## Model

| member | source | states |
|---|---|---|
| `Users.Trim` | auth-service/src/domain/user.rs:12 | `trim` over Unicode White_Space: the result is no longer than the input and has no whitespace at either end |
| `Users.TrimStartSpec` | auth-service/src/domain/user.rs:12 | dropping leading whitespace leaves the suffix after the longest all-whitespace prefix, starting with a non-whitespace character |
| `Users.TrimEndSpec` | auth-service/src/domain/user.rs:12 | dropping trailing whitespace leaves the prefix before the longest all-whitespace suffix, ending with a non-whitespace character |
| `Users.TrimSurrounding` | auth-service/src/domain/user.rs:12 | whitespace added on either side of a string does not change its trim |
| `Users.TrimIdempotent` | auth-service/src/domain/user.rs:12 | trimming twice gives the same result as trimming once |
| `Users.TrimOfTrimmed` | auth-service/src/domain/user.rs:12 | a string with no surrounding whitespace is its own trim |
| `Users.Utf8Len` | auth-service/src/domain/user.rs:15 | `len()` counts UTF-8 bytes: between one and four per character |
| `Users.AsciiUtf8Len` | auth-service/src/domain/user.rs:15 | for ASCII text the byte length equals the number of characters |
| `Users.NewUser` | auth-service/src/domain/user.rs:11-24 | None when the trimmed address is empty, when it has no `@`, or when the password is under 8 bytes, and only then; otherwise the user has the trimmed address, the same password and flag, and is well formed |
| `Users.NewUserIgnoresSurroundingWhitespace` | auth-service/src/domain/user.rs:12 | surrounding whitespace on the address never changes what `User::new` returns |
| `Users.ParseEmail` | auth-service/src/domain/user.rs:12-16 | accepts exactly the addresses whose trim is non-empty with an `@` and keeps the trimmed form; otherwise InvalidCredentials |
| `Users.ParsePassword` | auth-service/src/domain/user.rs:13-16 | accepts exactly the passwords of at least 8 bytes, unchanged; otherwise InvalidCredentials |
| `Users.ParseEmailIdempotent` | auth-service/src/domain/user.rs:12 | a parsed address parses to itself |
| `Users.NewUserAgreesWithParsers` | auth-service/src/routes/signup.rs:22-28 | `User::new` accepts exactly what the two value-type parsers accept, and builds the same user from them |
| `Users.AddressWithoutAtRejected` | auth-service/tests/api/login.rs:25 | the address "invalid" is refused |
| `Users.ShortPasswordRejected` | auth-service/tests/api/login.rs:24 | the 4-byte password "pass" is refused |
| `TwoFa.HyphenatedUuid` | auth-service/src/domain/data_stores/twofa.rs:40 | the text of a UUID is in the hyphenated 8-4-4-4-12 hex form |
| `TwoFa.HexBytes` | auth-service/src/domain/data_stores/twofa.rs:40 | two hex digits per byte |
| `TwoFa.ParseLoginAttemptId` | auth-service/src/domain/data_stores/twofa.rs:31-35 | succeeds iff the string is a UUID in one of the forms the uuid crate parses, keeping the string verbatim; otherwise the fixed message |
| `TwoFa.DefaultLoginAttemptId` | auth-service/src/domain/data_stores/twofa.rs:38-43 | the id of any fresh UUID parses back to itself, so the `expect` never fires |
| `TwoFa.LoginAttemptIdRoundTrip` | auth-service/src/domain/data_stores/twofa.rs:31-49 | `as_ref` of a parsed id gives back the parsed string |
| `TwoFa.BadLoginAttemptIdRejected` | auth-service/tests/api/verify_2fa.rs:28-30 | "bad login attempt" is not a login attempt id |
| `TwoFa.LoginAttemptIdEquality` | auth-service/src/domain/data_stores/twofa.rs:27-28 | two ids are equal iff their strings are |
| `TwoFa.DigitsOf` | auth-service/src/domain/data_stores/twofa.rs:56 | the filter never lengthens the string |
| `TwoFa.DigitsOfOnlyDigits` | auth-service/src/domain/data_stores/twofa.rs:56 | everything the filter keeps is an ASCII digit |
| `TwoFa.DigitsOfAllDigits` | auth-service/src/domain/data_stores/twofa.rs:56 | a string of digits passes the filter whole |
| `TwoFa.DigitsOfNoDigits` | auth-service/src/domain/data_stores/twofa.rs:56 | a string without digits leaves nothing |
| `TwoFa.DigitsOfAppend` | auth-service/src/domain/data_stores/twofa.rs:56 | filtering distributes over concatenation |
| `TwoFa.ParseTwoFACode` | auth-service/src/domain/data_stores/twofa.rs:55-64 | succeeds iff exactly six characters are ASCII digits, keeping the original string; otherwise the message quoting the input |
| `TwoFa.SixDigitsAccepted` | auth-service/src/domain/data_stores/twofa.rs:55-58 | six digits parse to themselves, and so do six digits with one run of non-digits inserted after the third |
| `TwoFa.HyphenatedCodeAccepted` | auth-service/src/domain/data_stores/twofa.rs:55-58 | `12-34-56` parses to the code `12-34-56`: only the digit count is checked |
| `TwoFa.SixDigitCodeParses` | auth-service/src/domain/data_stores/twofa.rs:55-75 | a generated code parses to itself |
| `TwoFa.BadCodeRejected` | auth-service/tests/api/verify_2fa.rs:32-34 | "badcode" is not a 2FA code |
| `TwoFa.TwoFACodeEquality` | auth-service/src/domain/data_stores/twofa.rs:51-52 | two codes are equal iff their strings are |
| `TwoFa.DigitChar` | auth-service/src/domain/data_stores/twofa.rs:73 | `to_string` of a number 0..9 is the one ASCII digit whose value is that number |
| `TwoFa.DefaultTwoFACode` | auth-service/src/domain/data_stores/twofa.rs:67-75 | fill 0..9, Fisher-Yates shuffle in place with any valid draws, take six: six pairwise distinct ASCII digits that `parse` accepts unchanged |
| `BannedToken.BannedTokenState.EmailOf` | auth-service/src/domain/data_stores/token.rs:16-21 | None exactly for Absent, Some(owner) for Exists(owner) |
| `BannedToken.BannedTokenState.IsBanned` | auth-service/src/domain/data_stores/token.rs:23-25 | `exists()` holds iff the state is Exists |
| `BannedToken.BannedTokenState.IsAbsent` | auth-service/src/domain/data_stores/token.rs:27-29 | `is_absent()` holds iff the state is Absent |
| `BannedToken.DefaultState` | auth-service/src/domain/data_stores/token.rs:8-12 | the default state is absent, not banned |
| `BannedToken.AbsentIsNotBanned` | auth-service/src/domain/data_stores/token.rs:23-29 | `is_absent()` is the negation of `exists()` |
| `BannedToken.AfterAdds` | auth-service/src/domain/data_stores/token.rs:32-35 | any sequence of `add` calls keeps every banned token and bans every token it adds |
| `BannedToken.BansArePermanent` | auth-service/src/domain/data_stores/token.rs:32-35 | a banned token stays banned whatever `add` calls follow |
| `BannedToken.AfterAddsAppend` | auth-service/src/services/hashmap_banned_token_store.rs:16-18 | two runs of adds in turn give the same map as their concatenation |
| `BannedToken.OtherAddsKeepOwner` | auth-service/src/services/hashmap_banned_token_store.rs:16-18 | adds of other tokens leave a banned token's owner unchanged |
| `BannedToken.LastAddDecidesOwner` | auth-service/src/services/hashmap_banned_token_store.rs:16-18 | after any run of adds, a token's owner is the address of its last add, whatever adds of other tokens precede or follow it |
| `HashmapUserStores.HashmapUserStore.constructor` | auth-service/src/services/hashmap_user_store.rs:13-16 | the default store is empty and keyed by address |
| `HashmapUserStores.HashmapUserStore.AddUser` | auth-service/src/services/hashmap_user_store.rs:21-29 | a taken address gives UserAlreadyExists and no change; a free one gives Ok and adds exactly that entry; keeps users keyed by their own address |
| `HashmapUserStores.HashmapUserStore.GetUser` | auth-service/src/services/hashmap_user_store.rs:31-36 | Ok with the stored user iff the address is present, otherwise UserNotFound; changes nothing |
| `HashmapUserStores.HashmapUserStore.ValidateUser` | auth-service/src/services/hashmap_user_store.rs:38-44 | UserNotFound for an unknown address, InvalidCredentials for a different password, Ok for an equal one; changes nothing |
| `HashmapUserStores.StoreRoundTrip` | auth-service/src/services/hashmap_user_store.rs:51-106 | the store's unit tests: second add refused, lookup finds the user, validation's three outcomes |
| `HashmapTwoFACodeStores.HashmapTwoFACodeStore.constructor` | auth-service/src/services/hashmap_two_fa_code_store.rs:8-11 | the default store holds no challenge |
| `HashmapTwoFACodeStores.HashmapTwoFACodeStore.AddCode` | auth-service/src/services/hashmap_two_fa_code_store.rs:15-27 | always Ok; the pair replaces any earlier one for the address and nothing else changes |
| `HashmapTwoFACodeStores.HashmapTwoFACodeStore.RemoveCode` | auth-service/src/services/hashmap_two_fa_code_store.rs:29-36 | a present address loses its entry and only it; an absent one gives LoginAttemptIdNotFound and no change |
| `HashmapTwoFACodeStores.HashmapTwoFACodeStore.GetCode` | auth-service/src/services/hashmap_two_fa_code_store.rs:37-45 | the stored pair iff present, otherwise LoginAttemptIdNotFound; changes nothing |
| `HashmapTwoFACodeStores.StoreRoundTrip` | auth-service/src/services/hashmap_two_fa_code_store.rs:52-98 | the store's unit tests, plus last-write-wins and get after remove failing |
| `HashmapBannedTokenStores.HashmapBannedTokenStore.constructor` | auth-service/src/services/hashmap_banned_token_store.rs:8-12 | the default store bans nothing |
| `HashmapBannedTokenStores.HashmapBannedTokenStore.Add` | auth-service/src/services/hashmap_banned_token_store.rs:16-18 | the token now verifies as Exists(email); no other token's state changes; nothing banned becomes unbanned |
| `HashmapBannedTokenStores.HashmapBannedTokenStore.Verify` | auth-service/src/services/hashmap_banned_token_store.rs:20-25 | Exists with the recorded owner iff the token was added, otherwise Absent; changes nothing; the same answer as `Verified` on the store's map |
| `HashmapBannedTokenStores.Verified` | auth-service/src/services/hashmap_banned_token_store.rs:20-25 | what `verify` answers for a given map: banned iff the token is a key, with that key's owner |
| `HashmapBannedTokenStores.StoreRoundTrip` | auth-service/src/services/hashmap_banned_token_store.rs:32-52 | the store's unit tests: Absent before add, banned with the right address after |
| `App.AppState.constructor` | auth-service/src/main.rs:19-23 | three fresh, empty stores; the app invariant holds |
| `RouteUtils.MapUserStoreError` | auth-service/src/routes/utils.rs:3-10 | IncorrectCredentials iff UserNotFound; InvalidCredentials iff InvalidCredentials, same detail; UserAlreadyExists iff UserAlreadyExists; UnexpectedError iff UnexpectedError |
| `RouteUtils.MapStringErrorToBadInput` | auth-service/src/routes/verify_2fa.rs:34-37 | a parse message becomes BadInput carrying that message, answered as 400 with the message as text; the function is imported from routes/utils.rs, which does not define it |
| `Signup.SignupMapUserStoreError` | auth-service/src/routes/signup.rs:42-48 | like the shared mapper, except that UserNotFound becomes UnexpectedError |
| `Signup.Signup` | auth-service/src/routes/signup.rs:18-40 | an invalid address or password fails with the store untouched; otherwise the `User::new` user is added with 201 "User created successfully!", or UserAlreadyExists with no change; stored users stay well formed |
| `Signup.SignupTwice` | auth-service/src/services/hashmap_user_store.rs:52-66 | the `add_user` unit test through the handler: a second signup of the same address answers 409, and the store holds the single user of the first |
| `Login.ParseRequestEmail` | auth-service/src/routes/login.rs:24-26 | `parse_email` succeeds iff the address parses, else InvalidCredentials with its detail |
| `Login.ParseRequestPassword` | auth-service/src/routes/login.rs:28-30 | `parse_password` succeeds iff the password parses, else InvalidCredentials with its detail |
| `Login.HandleRegular` | auth-service/src/routes/login.rs:72-80 | 200 with RegularAuth and the issued token as the `jwt` cookie, other cookies unchanged; GenerateTokenError when issuing fails |
| `Login.Handle2fa` | auth-service/src/routes/login.rs:82-112 | stores a fresh (id, code) for the address, replacing any earlier one and touching no other; 206 "2FA required" with that id and no code; jar unchanged |
| `Login.AuthenticatedUser` | auth-service/src/routes/login.rs:54-63 | malformed input gives InvalidCredentials, an unknown address IncorrectCredentials, a wrong password InvalidCredentials; succeeds exactly when the credentials authenticate, with the stored user under the trimmed address |
| `Login.Login` | auth-service/src/routes/login.rs:47-70 | the same refusals, with no store changed; the 2FA store changes only on an accepted 2FA login; a user without 2FA gets `handle_regular`'s answer, a user with 2FA a fresh stored challenge and 206 |
| `Login.UnknownAddressAndWrongPasswordDiffer` | auth-service/src/lib.rs:31-39 | through the shared mapper, an unknown address answers 401 and a wrong password 400 |
| `Verify2fa.Verify2FA` | auth-service/src/routes/verify_2fa.rs:26-58 | address, then id, then code are parsed; a missing or different challenge gives IncorrectCredentials; any failure leaves the store unchanged; an exact match gives 200 with the cookie and removes only that address's challenge |
| `Verify2fa.VerifyTwice` | auth-service/tests/api/verify_2fa.rs:126-162 | after a 2FA login, the issued pair verifies once; the same request again answers 401 |
| `Verify2fa.RetryAfterWrongCode` | auth-service/src/routes/verify_2fa.rs:45-47 | any code that parses but differs from the issued one is refused, and leaves the challenge in place, so the issued code still verifies |
| `Verify2fa.SecondLoginSupersedes` | auth-service/tests/api/verify_2fa.rs:49-84 | after a second 2FA login, the first login's id and code answer 401 and the second's verify |
| `Logout.ValidateTokenFromCookieJar` | auth-service/src/routes/logout.rs:28-42 | MissingToken without a `jwt` cookie; InvalidToken when the codec refuses it; otherwise the cookie's token and its subject's address |
| `Logout.Logout` | auth-service/src/routes/logout.rs:10-26 | on failure the jar and the banned tokens are unchanged; on success 200, the cookie is dropped, and the token is banned for its subject with no other change |
| `Logout.LogoutTwice` | auth-service/tests/api/logout.rs:54-68 | a second logout with the returned jar answers 400 MissingToken; resending the token answers 401 with a codec that honours bans |
| `Logout.LoginLogout` | auth-service/src/routes/logout.rs:18-23 | a login without 2FA answers 200 with RegularAuth and the issued token in the `jwt` cookie; the logout with the returned jar answers 200 and bans exactly that token, for the user's address |
| `Logout.SignupLoginLogout` | auth-service/src/routes/logout.rs:18-23 | signup without 2FA, then login and logout: the issued token is banned for the signed-up address, and a codec that honours bans refuses it against the store's banned tokens |
| `Responses.IntoResponse` | auth-service/src/lib.rs:28-52 | 400 for InvalidCredentials, MissingToken and BadInput; 401 for IncorrectCredentials and InvalidToken; 409 for UserAlreadyExists; 500 with "Unexpected error" for internal failures; "Invalid credentials: " + detail |

## Left out

- The durable user store (`services/data_stores/postgres_user_store.rs`) and its Argon2 hashing are not part of this model. They are SQL and foreign calls; the in-memory store models the same check-then-insert contract.
- Token issuing and validation (`utils/auth`: JWT signing, expiry, the secret) are not part of this model. They are the `TokenCodec` parameter. Revocation is assumed only where a contract says `HonoursBans`.
- Logout.ValidateTokenFromCookieJar: the handler `expect`s the token's subject to parse as an address and panics otherwise. The model requires this of the token in the jar (`SubjectParses`) rather than modelling the panic.
- Logout.LoginLogout: assumes of the codec that validating the token it just issued yields the address it was issued for. The codec is not part of this model.
- The verify-token route (`routes/verify_token.rs`) is left out. It only maps the codec's answer to 200 or 401.
- Randomness (`Uuid::new_v4`, `thread_rng().shuffle`) is left out: the UUID's bytes and the shuffle's draws are parameters.
- The `Arc<RwLock<…>>` sharing and the lock acquisition are left out. Each handler is modelled as one atomic step. For logout this is stronger than the source: its check of the token and its ban are two separate critical sections (`routes/logout.rs`, lines 14-21), and the race between two logouts is not modelled.
- Configuration loading, `Application::build`/`run`, CORS, static files, migrations and the email client are left out. They are I/O with no decision in the core.
- JSON (de)serialization is left out, and so are the extractor's 422 answers and the JSON body of error responses. The status and message are modelled, not their encoding.
- Users.ParseEmail: the detail string of its error is a placeholder, because `Email::parse` is not part of this model.
- Users.ParsePassword: the detail string of its error is a placeholder, because `Password::parse` is not part of this model.
- TwoFa.ParseLoginAttemptId: the message omits the uuid crate's error detail, which `{e:?}` appends. The accepted forms restate that crate's `parse_str`, which is not part of this model.
- Login.Handle2fa: the `println!` on a failed `add_code` is left out, and that branch is dead anyway, because the in-memory `add_code` always succeeds. The same holds for the `remove_code` failure in `Verify2fa.Verify2FA` and the `get_user` failure after `validate_user` in `Login.AuthenticatedUser`; the model proves the last one unreachable.
- Responses.IntoResponse: the arms for GenerateTokenError (500, "Unexpected error") and BadInput (400, its message) are not in `lib.rs`; their messages are chosen.
- Users.Utf8Len: characters are Unicode scalar values. Invalid UTF-8 cannot occur in a Rust `String`.
