/**
 * The user record and the validation of its credentials
 * (auth-service/src/domain/user.rs), together with the `Email` and `Password`
 * value types the handlers parse their input into. Their `parse` functions are not
 * part of this model; they are given the rule `User::new` applies: the trimmed
 * address is non-empty and contains `@`, and the password is at least 8 bytes long.
 */
module Users {
  import opened Wrappers
  import opened UserStoreTypes

  // ---------------------------------------------------------------------------
  // Rust's `str::trim` and `str::len`
  // ---------------------------------------------------------------------------

  /** The Unicode White_Space property, which `char::is_whitespace` and so `str::trim` use. */
  predicate IsWhitespace(c: char) {
    ('\t' <= c <= '\r') || c == ' ' || c == '\U{0085}' || c == '\U{00A0}' || c == '\U{1680}'
    || ('\U{2000}' <= c <= '\U{200A}') || c == '\U{2028}' || c == '\U{2029}'
    || c == '\U{202F}' || c == '\U{205F}' || c == '\U{3000}'
  }

  predicate AllWhitespace(s: string) {
    forall i :: 0 <= i < |s| ==> IsWhitespace(s[i])
  }

  /** No whitespace at either end: what `trim` leaves. */
  predicate Trimmed(s: string) {
    s == [] || (!IsWhitespace(s[0]) && !IsWhitespace(s[|s| - 1]))
  }

  /** Drops leading whitespace. */
  function TrimStart(s: string): string {
    if |s| > 0 && IsWhitespace(s[0]) then TrimStart(s[1..]) else s
  }

  /** Drops trailing whitespace. */
  function TrimEnd(s: string): string {
    if |s| > 0 && IsWhitespace(s[|s| - 1]) then TrimEnd(s[..|s| - 1]) else s
  }

  /** `TrimStart` leaves the suffix after the longest all-whitespace prefix. */
  lemma {:induction false} TrimStartSpec(s: string)
    ensures |TrimStart(s)| <= |s| && TrimStart(s) == s[|s| - |TrimStart(s)|..]
    ensures AllWhitespace(s[..|s| - |TrimStart(s)|])
    ensures TrimStart(s) == [] || !IsWhitespace(TrimStart(s)[0])
  {
    if |s| > 0 && IsWhitespace(s[0]) {
      TrimStartSpec(s[1..]);
      var k := |s| - |TrimStart(s)|;
      assert s[..k] == [s[0]] + s[1..][..k - 1];
    }
  }

  /** `TrimEnd` leaves the prefix before the longest all-whitespace suffix. */
  lemma {:induction false} TrimEndSpec(s: string)
    ensures |TrimEnd(s)| <= |s| && TrimEnd(s) == s[..|TrimEnd(s)|]
    ensures AllWhitespace(s[|TrimEnd(s)|..])
    ensures TrimEnd(s) == [] || !IsWhitespace(TrimEnd(s)[|TrimEnd(s)| - 1])
  {
    if |s| > 0 && IsWhitespace(s[|s| - 1]) {
      var t := s[..|s| - 1];
      TrimEndSpec(t);
      var k := |TrimEnd(s)|;
      assert s[k..] == t[k..] + [s[|s| - 1]];
    }
  }

  /** `str::trim`. */
  function Trim(s: string): (r: string)
    ensures |r| <= |s| && Trimmed(r)
  {
    TrimStartSpec(s);
    TrimEndSpec(TrimStart(s));
    TrimEnd(TrimStart(s))
  }

  /** The number of bytes `c` takes in UTF-8. */
  function Utf8Width(c: char): (n: nat)
    ensures 1 <= n <= 4
    ensures n == 1 <==> c as int < 0x80
  {
    if c as int < 0x80 then 1
    else if c as int < 0x800 then 2
    else if c as int < 0x1_0000 then 3
    else 4
  }

  /** `str::len`: the length in UTF-8 bytes, between one and four bytes per character. */
  function Utf8Len(s: string): (n: nat)
    ensures |s| <= n <= 4 * |s|
  {
    if s == [] then 0 else Utf8Width(s[0]) + Utf8Len(s[1..])
  }

  lemma {:induction false} AsciiUtf8Len(s: string)
    requires forall i :: 0 <= i < |s| ==> s[i] as int < 0x80
    ensures Utf8Len(s) == |s|
  {
    if s != [] {
      AsciiUtf8Len(s[1..]);
    }
  }

  lemma {:induction false} TrimStartPrefix(w: string, s: string)
    requires AllWhitespace(w)
    ensures TrimStart(w + s) == TrimStart(s)
  {
    if w != [] {
      assert (w + s)[1..] == w[1..] + s;
      TrimStartPrefix(w[1..], s);
    } else {
      assert w + s == s;
    }
  }

  lemma {:induction false} TrimEndSuffix(s: string, w: string)
    requires AllWhitespace(w)
    ensures TrimEnd(s + w) == TrimEnd(s)
  {
    if w != [] {
      var n := |w| - 1;
      assert (s + w)[..|s + w| - 1] == s + w[..n];
      TrimEndSuffix(s, w[..n]);
    } else {
      assert s + w == s;
    }
  }

  /** Whitespace appended to a string with a non-blank character survives `TrimStart`. */
  lemma {:induction false} TrimStartAppend(s: string, w: string)
    requires !AllWhitespace(s)
    ensures TrimStart(s + w) == TrimStart(s) + w
  {
    assert s != [];
    if IsWhitespace(s[0]) {
      assert (s + w)[1..] == s[1..] + w;
      assert !AllWhitespace(s[1..]) by {
        var i :| 0 <= i < |s| && !IsWhitespace(s[i]);
        assert s[1..][i - 1] == s[i];
      }
      TrimStartAppend(s[1..], w);
    }
  }

  /** Nothing is left of an all-whitespace string. */
  lemma AllWhitespaceTrimStart(s: string)
    requires AllWhitespace(s)
    ensures TrimStart(s) == []
  {
    TrimStartSpec(s);
  }

  /** Trimming is insensitive to surrounding whitespace. */
  lemma TrimSurrounding(w1: string, s: string, w2: string)
    requires AllWhitespace(w1) && AllWhitespace(w2)
    ensures Trim(w1 + s + w2) == Trim(s)
  {
    assert w1 + s + w2 == w1 + (s + w2);
    TrimStartPrefix(w1, s + w2);
    if AllWhitespace(s) {
      assert AllWhitespace(s + w2) by {
        forall i | 0 <= i < |s + w2| ensures IsWhitespace((s + w2)[i]) {
          if i < |s| { assert (s + w2)[i] == s[i]; } else { assert (s + w2)[i] == w2[i - |s|]; }
        }
      }
      AllWhitespaceTrimStart(s + w2);
      AllWhitespaceTrimStart(s);
    } else {
      TrimStartAppend(s, w2);
      TrimEndSuffix(TrimStart(s), w2);
    }
  }

  /** A string with nothing to trim is its own trim; in particular trimming is idempotent. */
  lemma TrimOfTrimmed(s: string)
    requires Trimmed(s)
    ensures Trim(s) == s
  {
  }

  lemma TrimIdempotent(s: string)
    ensures Trim(Trim(s)) == Trim(s)
  {
    TrimOfTrimmed(Trim(s));
  }

  // ---------------------------------------------------------------------------
  // Users and their credentials
  // ---------------------------------------------------------------------------

  /** A user record as stored (plain-text password, as the in-memory store keeps it). */
  datatype User = User(email: string, password: string, requires2fa: bool)

  /** The address test of `User::new`, applied to an already trimmed address. */
  predicate ValidEmail(address: string) {
    address != [] && '@' in address
  }

  /** The password test of `User::new`: at least 8 bytes. */
  predicate ValidPassword(password: string) {
    Utf8Len(password) >= 8
  }

  /** What every user `User::new` constructs satisfies. */
  predicate WellFormedUser(u: User) {
    Trimmed(u.email) && ValidEmail(u.email) && ValidPassword(u.password)
  }

  /** `User::new`: trims the address and rejects it when it is empty or has no `@`,
      or when the password is shorter than 8 bytes. */
  function NewUser(email: string, password: string, requires2fa: bool): (r: Option<User>)
    ensures Trim(email) == [] ==> r == None
    ensures '@' !in Trim(email) ==> r == None
    ensures Utf8Len(password) < 8 ==> r == None
    ensures r == None ==> Trim(email) == [] || '@' !in Trim(email) || Utf8Len(password) < 8
    ensures r.Some? ==> r.value.email == Trim(email) && r.value.password == password
                        && r.value.requires2fa == requires2fa
    ensures r.Some? ==> WellFormedUser(r.value)
  {
    var address := Trim(email);
    if address == [] || '@' !in address || Utf8Len(password) < 8 then None
    else Some(User(address, password, requires2fa))
  }

  /** Surrounding whitespace on the address never changes what `User::new` builds. */
  lemma NewUserIgnoresSurroundingWhitespace(w1: string, email: string, w2: string, password: string, requires2fa: bool)
    requires AllWhitespace(w1) && AllWhitespace(w2)
    ensures NewUser(w1 + email + w2, password, requires2fa) == NewUser(email, password, requires2fa)
  {
    TrimSurrounding(w1, email, w2);
  }

  // ---------------------------------------------------------------------------
  // The Email and Password value types
  // ---------------------------------------------------------------------------

  datatype Email = Email(address: string)

  datatype Password = Password(secret: string)

  const INVALID_EMAIL_DETAIL := "Invalid email address"
  const INVALID_PASSWORD_DETAIL := "Password must be at least 8 characters long"

  /** `Email::parse`: the trimmed address, when it passes the address test of `User::new`. */
  function ParseEmail(s: string): (r: Result<Email, UserStoreError>)
    ensures r.Success? <==> ValidEmail(Trim(s))
    ensures r.Success? ==> r.value.address == Trim(s) && Trimmed(r.value.address)
    ensures r.Failure? ==> r.error == InvalidCredentials(INVALID_EMAIL_DETAIL)
  {
    var address := Trim(s);
    if ValidEmail(address) then Success(Email(address))
    else Failure(InvalidCredentials(INVALID_EMAIL_DETAIL))
  }

  /** `Password::parse`: the password unchanged, when it is at least 8 bytes long. */
  function ParsePassword(s: string): (r: Result<Password, UserStoreError>)
    ensures r.Success? <==> Utf8Len(s) >= 8
    ensures r.Success? ==> r.value.secret == s
    ensures r.Failure? ==> r.error == InvalidCredentials(INVALID_PASSWORD_DETAIL)
  {
    if Utf8Len(s) >= 8 then Success(Password(s))
    else Failure(InvalidCredentials(INVALID_PASSWORD_DETAIL))
  }

  /** Parsing an address is idempotent: a parsed address parses to itself. */
  lemma ParseEmailIdempotent(s: string)
    requires ParseEmail(s).Success?
    ensures ParseEmail(ParseEmail(s).value.address) == ParseEmail(s)
  {
    TrimIdempotent(s);
  }

  /** `User::new` accepts exactly the credentials both value types accept, and builds the
      user from the parsed values. */
  lemma NewUserAgreesWithParsers(email: string, password: string, requires2fa: bool)
    ensures NewUser(email, password, requires2fa).Some?
            <==> ParseEmail(email).Success? && ParsePassword(password).Success?
    ensures NewUser(email, password, requires2fa).Some? ==>
              NewUser(email, password, requires2fa).value
              == User(ParseEmail(email).value.address, ParsePassword(password).value.secret, requires2fa)
  {
  }

  /** The address the login integration test expects to be refused: "invalid" has no `@`. */
  lemma AddressWithoutAtRejected()
    ensures ParseEmail("invalid").Failure?
  {
    var s := "invalid";
    assert Trimmed(s);
    TrimOfTrimmed(s);
    assert '@' !in s;
  }

  /** The password the login integration test expects to be refused: "pass" is 4 bytes long. */
  lemma ShortPasswordRejected()
    ensures ParsePassword("pass").Failure?
  {
    AsciiUtf8Len("pass");
  }

}
