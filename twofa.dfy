/**
 * The two-factor value types and the challenge-store error type
 * (auth-service/src/domain/data_stores/twofa.rs): a login attempt id is a string that
 * parses as a UUID, a 2FA code is a string among whose characters exactly six are ASCII
 * digits. Both keep the string they were parsed from, and compare as plain strings.
 * The random inputs of the two `default` generators (the UUID's bytes, the draws of the
 * shuffle) are parameters.
 */
module TwoFa {
  import opened Wrappers

  datatype TwoFACodeStoreError = LoginAttemptIdNotFound | UnexpectedError

  // ---------------------------------------------------------------------------
  // UUID text, as the uuid crate's `Uuid::parse_str` accepts and `to_string` writes it
  // ---------------------------------------------------------------------------

  newtype byte = x: int | 0 <= x < 256

  predicate IsHexDigit(c: char) {
    ('0' <= c <= '9') || ('a' <= c <= 'f') || ('A' <= c <= 'F')
  }

  predicate IsHexString(s: string) {
    forall i :: 0 <= i < |s| ==> IsHexDigit(s[i])
  }

  /** The hyphenated form: 8-4-4-4-12 hex digits. */
  predicate IsHyphenated(s: string) {
    && |s| == 36
    && IsHexString(s[..8]) && s[8] == '-'
    && IsHexString(s[9..13]) && s[13] == '-'
    && IsHexString(s[14..18]) && s[18] == '-'
    && IsHexString(s[19..23]) && s[23] == '-'
    && IsHexString(s[24..])
  }

  /** The four textual forms `Uuid::parse_str` accepts: simple (32 hex digits), hyphenated,
      braced and URN. */
  predicate IsUuid(s: string) {
    || (|s| == 32 && IsHexString(s))
    || IsHyphenated(s)
    || (|s| == 38 && s[0] == '{' && s[37] == '}' && IsHyphenated(s[1..37]))
    || (|s| == 45 && s[..9] == "urn:uuid:" && IsHyphenated(s[9..]))
  }

  function HexDigit(n: int): (c: char)
    requires 0 <= n < 16
    ensures IsHexDigit(c)
  {
    if n < 10 then ('0' as int + n) as char else ('a' as int + n - 10) as char
  }

  /** Lower-case hex, two digits per byte. */
  function HexBytes(bs: seq<byte>): (s: string)
    ensures |s| == 2 * |bs| && IsHexString(s)
  {
    if bs == [] then []
    else [HexDigit(bs[0] as int / 16), HexDigit(bs[0] as int % 16)] + HexBytes(bs[1..])
  }

  /** `Uuid::to_string`: the hyphenated lower-case form of the 16 bytes. */
  function HyphenatedUuid(bs: seq<byte>): (s: string)
    requires |bs| == 16
    ensures IsHyphenated(s)
  {
    var a, b, c, d, e := HexBytes(bs[..4]), HexBytes(bs[4..6]), HexBytes(bs[6..8]),
                         HexBytes(bs[8..10]), HexBytes(bs[10..]);
    var s := a + "-" + b + "-" + c + "-" + d + "-" + e;
    assert s[..8] == a;
    assert s[9..13] == b;
    assert s[14..18] == c;
    assert s[19..23] == d;
    assert s[24..] == e;
    s
  }

  // ---------------------------------------------------------------------------
  // LoginAttemptId
  // ---------------------------------------------------------------------------

  datatype LoginAttemptId = LoginAttemptId(id: string)

  const INVALID_LOGIN_ATTEMPT_ID := "Invalid login attempt ID. Expected a valid UUID."

  /** `LoginAttemptId::parse`: keeps the string verbatim when it is a UUID. */
  function ParseLoginAttemptId(s: string): (r: Result<LoginAttemptId, string>)
    ensures r.Success? <==> IsUuid(s)
    ensures r.Success? ==> r.value.id == s
    ensures r.Failure? ==> r.error == INVALID_LOGIN_ATTEMPT_ID
  {
    if IsUuid(s) then Success(LoginAttemptId(s)) else Failure(INVALID_LOGIN_ATTEMPT_ID)
  }

  /** `LoginAttemptId::default`: the text of a fresh UUID, which always parses (so the
      `expect` never fires). */
  function DefaultLoginAttemptId(uuid: seq<byte>): (r: LoginAttemptId)
    requires |uuid| == 16
    ensures ParseLoginAttemptId(r.id) == Success(r)
    ensures IsHyphenated(r.id)
  {
    var parsed := ParseLoginAttemptId(HyphenatedUuid(uuid));
    parsed.value
  }

  /** `as_ref` gives back exactly the string that was parsed. */
  lemma LoginAttemptIdRoundTrip(s: string)
    requires IsUuid(s)
    ensures ParseLoginAttemptId(s).value.id == s
  {
  }

  /** The id the verify-2FA integration test expects to be refused. */
  lemma BadLoginAttemptIdRejected()
    ensures ParseLoginAttemptId("bad login attempt").Failure?
  {
    assert |"bad login attempt"| == 17;
  }

  /** Two ids are equal exactly when their strings are. */
  lemma LoginAttemptIdEquality(a: LoginAttemptId, b: LoginAttemptId)
    ensures a == b <==> a.id == b.id
  {
  }

  // ---------------------------------------------------------------------------
  // TwoFACode
  // ---------------------------------------------------------------------------

  datatype TwoFACode = TwoFACode(code: string)

  predicate IsAsciiDigit(c: char) {
    '0' <= c <= '9'
  }

  /** `code.chars().filter(|c| c.is_ascii_digit())`: the digits of `s`, in order. */
  function DigitsOf(s: string): (r: string)
    ensures |r| <= |s|
  {
    if s == [] then []
    else if IsAsciiDigit(s[0]) then [s[0]] + DigitsOf(s[1..])
    else DigitsOf(s[1..])
  }

  /** The filter keeps nothing but digits. */
  lemma {:induction false} DigitsOfOnlyDigits(s: string)
    ensures forall i :: 0 <= i < |DigitsOf(s)| ==> IsAsciiDigit(DigitsOf(s)[i])
  {
    if s != [] {
      DigitsOfOnlyDigits(s[1..]);
    }
  }

  /** A string of digits passes the filter whole. */
  lemma {:induction false} DigitsOfAllDigits(s: string)
    requires forall i :: 0 <= i < |s| ==> IsAsciiDigit(s[i])
    ensures DigitsOf(s) == s
  {
    if s != [] {
      DigitsOfAllDigits(s[1..]);
      assert s == [s[0]] + s[1..];
    }
  }

  /** Only the length of a string of digits is needed to count its digits. */
  lemma DigitsOfLength(s: string)
    requires forall i :: 0 <= i < |s| ==> IsAsciiDigit(s[i])
    ensures |DigitsOf(s)| == |s|
  {
    DigitsOfAllDigits(s);
  }

  /** A string without digits leaves nothing. */
  lemma {:induction false} DigitsOfNoDigits(s: string)
    requires forall i :: 0 <= i < |s| ==> !IsAsciiDigit(s[i])
    ensures DigitsOf(s) == []
  {
    if s != [] {
      DigitsOfNoDigits(s[1..]);
    }
  }

  /** The digits of a concatenation are the digits of its parts. */
  lemma {:induction false} DigitsOfAppend(s: string, t: string)
    ensures DigitsOf(s + t) == DigitsOf(s) + DigitsOf(t)
  {
    if s == [] {
      assert s + t == t;
    } else {
      assert (s + t)[0] == s[0];
      assert (s + t)[1..] == s[1..] + t;
      DigitsOfAppend(s[1..], t);
    }
  }

  function InvalidCodeMessage(s: string): string {
    "Invalid 2FA code. Expected a 6 digit string. Got: \"" + s + "\""
  }

  /** `TwoFACode::parse`: accepts exactly when six of the characters are ASCII digits
      (every other character is tolerated) and keeps the original string. The digits are
      ASCII, so their count is also their length in bytes. */
  function ParseTwoFACode(s: string): (r: Result<TwoFACode, string>)
    ensures r.Success? <==> |DigitsOf(s)| == 6
    ensures r.Success? ==> r.value.code == s
    ensures r.Failure? ==> r.error == InvalidCodeMessage(s)
  {
    if |DigitsOf(s)| == 6 then Success(TwoFACode(s)) else Failure(InvalidCodeMessage(s))
  }

  /** Six digits are accepted, and so are six digits with one run of non-digits after the third. */
  lemma SixDigitsAccepted(s: string, sep: string)
    requires |s| == 6 && forall i :: 0 <= i < 6 ==> IsAsciiDigit(s[i])
    requires forall i :: 0 <= i < |sep| ==> !IsAsciiDigit(sep[i])
    ensures ParseTwoFACode(s) == Success(TwoFACode(s))
    ensures ParseTwoFACode(s[..3] + sep + s[3..]).Success?
  {
    DigitsOfAllDigits(s);
    var t := s[..3] + sep + s[3..];
    assert t == s[..3] + (sep + s[3..]);
    DigitsOfAppend(s[..3], sep + s[3..]);
    DigitsOfAppend(sep, s[3..]);
    DigitsOfNoDigits(sep);
    DigitsOfLength(s[..3]);
    DigitsOfLength(s[3..]);
    assert |DigitsOf(t)| == 6;
  }

  /** `12-34-56` is accepted as `TwoFACode("12-34-56")`: hyphens between digit pairs are
      skipped by the digit count. */
  lemma HyphenatedCodeAccepted()
    ensures ParseTwoFACode("12-34-56") == Success(TwoFACode("12-34-56"))
  {
    var s: string := "12-34-56";
    assert s == "12" + ("-" + ("34" + ("-" + "56")));
    DigitsOfAllDigits("12"); DigitsOfAllDigits("34"); DigitsOfAllDigits("56");
    DigitsOfNoDigits("-");
    DigitsOfAppend("-", "56");
    DigitsOfAppend("34", "-" + "56");
    DigitsOfAppend("-", "34" + ("-" + "56"));
    DigitsOfAppend("12", "-" + ("34" + ("-" + "56")));
    assert |DigitsOf(s)| == 6;
  }

  /** The code the verify-2FA integration test expects to be refused: "badcode" holds no digit. */
  lemma BadCodeRejected()
    ensures ParseTwoFACode("badcode").Failure?
  {
    var s := "badcode";
    assert forall i :: 0 <= i < |s| ==> !IsAsciiDigit(s[i]);
    DigitsOfNoDigits(s);
  }

  /** Two codes are equal exactly when their strings are. */
  lemma TwoFACodeEquality(a: TwoFACode, b: TwoFACode)
    ensures a == b <==> a.code == b.code
  {
  }

  /** What `TwoFACode::default` produces: six pairwise distinct ASCII digits. */
  predicate IsGeneratedCode(s: string) {
    && |s| == 6
    && (forall i :: 0 <= i < 6 ==> IsAsciiDigit(s[i]))
    && (forall i, j :: 0 <= i < j < 6 ==> s[i] != s[j])
  }

  /** The draws `shuffle` makes on a 10-element slice: for i = 9 down to 1, an index in 0..=i. */
  predicate ValidShuffleDraws(draws: seq<nat>) {
    |draws| == 9 && forall k :: 0 <= k < 9 ==> draws[k] <= 9 - k
  }

  /** `num.to_string()` for a number 0..9. */
  function DigitChar(n: int): (c: char)
    requires 0 <= n < 10
    ensures IsAsciiDigit(c) && c as int - '0' as int == n
  {
    ('0' as int + n) as char
  }

  /** `TwoFACode::default`: collect 0..10 into a vector, shuffle it in place (Fisher-Yates,
      with `draws` as the random indices), and write out the first six numbers. */
  method DefaultTwoFACode(draws: seq<nat>) returns (c: TwoFACode)
    requires ValidShuffleDraws(draws)
    ensures IsGeneratedCode(c.code)
    ensures ParseTwoFACode(c.code) == Success(c)
  {
    var nums := new int[10];
    var i := 0;
    while i < 10
      invariant 0 <= i <= 10
      invariant forall k :: 0 <= k < i ==> nums[k] == k
    {
      nums[i] := i;
      i := i + 1;
    }
    var j := 9;
    while j >= 1
      invariant 0 <= j <= 9
      invariant forall k :: 0 <= k < 10 ==> 0 <= nums[k] < 10
      invariant forall k, l :: 0 <= k < l < 10 ==> nums[k] != nums[l]
    {
      var r := draws[9 - j];
      nums[j], nums[r] := nums[r], nums[j];
      j := j - 1;
    }
    var s := "";
    var t := 0;
    while t < 6
      invariant 0 <= t <= 6 && |s| == t
      invariant forall k :: 0 <= k < t ==> s[k] == DigitChar(nums[k])
    {
      s := s + [DigitChar(nums[t])];
      t := t + 1;
    }
    assert IsGeneratedCode(s) by {
      forall k, l | 0 <= k < l < 6 ensures s[k] != s[l] {
        assert nums[k] != nums[l];
      }
    }
    DigitsOfAllDigits(s);
    c := TwoFACode(s);
  }

  /** A generated code parses as itself. */
  lemma SixDigitCodeParses(code: TwoFACode)
    requires IsGeneratedCode(code.code)
    ensures ParseTwoFACode(code.code) == Success(code)
  {
    assert code.code == code.code[..3] + [] + code.code[3..];
    SixDigitsAccepted(code.code, []);
  }
}
