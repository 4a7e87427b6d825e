/**
 * The token codec and the session cookie. `generate_auth_cookie` and `validate_token`
 * (utils/auth) are not part of this model: the handlers receive them as a `TokenCodec`,
 * a pair of functions about which the model assumes nothing unless a lemma says so.
 */
module Auth {
  import opened Wrappers
  import opened Users

  /** The name of the session cookie. */
  const JWT_COOKIE_NAME := "jwt"

  /** The cookies of a request or response, by name. */
  type CookieJar = map<string, string>

  /** What a valid token says: its subject, the address it was issued for. */
  datatype Claims = Claims(sub: string)

  /** `issue` gives the token of a new session cookie for an address, or the reason it
      could not; `validate` checks a token, consulting the banned tokens, and gives its
      claims or the reason it is refused. */
  datatype TokenCodec = TokenCodec(
    issue: Email -> Result<string, string>,
    validate: (string, map<string, Email>) -> Result<Claims, string>)

  /** A codec that never accepts a banned token. */
  ghost predicate HonoursBans(codec: TokenCodec) {
    forall token, banned :: token in banned ==> codec.validate(token, banned).Failure?
  }
}
