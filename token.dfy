/**
 * The state of a token in the banned-token store and the store's contract
 * (auth-service/src/domain/data_stores/token.rs). The contract has `add` and `verify`
 * and nothing that removes a ban.
 */
module BannedToken {
  import opened Wrappers
  import opened Users

  datatype BannedTokenStoreError = UnexpectedError

  /** Absent: the token was never banned. Exists(email): it was banned, on behalf of `email`. */
  datatype BannedTokenState = Absent | Exists(owner: Email) {

    /** `email()`: the owner of a banned token, nothing for a token that was not banned. */
    function EmailOf(): (r: Option<Email>)
      ensures r.None? <==> Absent?
      ensures Exists? ==> r == Some(owner)
    {
      match this
      case Absent => None
      case Exists(e) => Some(e)
    }

    /** `exists()`: defined through `email()`. */
    predicate IsBanned()
      ensures IsBanned() <==> Exists?
    {
      EmailOf().Some?
    }

    /** `is_absent()`: defined through `email()`. */
    predicate IsAbsent()
      ensures IsAbsent() <==> Absent?
    {
      EmailOf().None?
    }
  }

  /** The derived `Default`: a token is Absent unless found. */
  function DefaultState(): (s: BannedTokenState)
    ensures s.IsAbsent() && !s.IsBanned()
  {
    Absent
  }

  /** `is_absent()` and `exists()` are complements. */
  lemma AbsentIsNotBanned(s: BannedTokenState)
    ensures s.IsAbsent() <==> !s.IsBanned()
  {
  }

  /** The banned-token map after a sequence of `add(email, token)` calls, the only operation
      of the store contract that changes anything. */
  function AfterAdds(banned: map<string, Email>, adds: seq<(Email, string)>): (r: map<string, Email>)
    ensures banned.Keys <= r.Keys
    ensures forall k :: 0 <= k < |adds| ==> adds[k].1 in r
    decreases |adds|
  {
    if adds == [] then banned
    else
      var r := AfterAdds(banned[adds[0].1 := adds[0].0], adds[1..]);
      assert forall k :: 1 <= k < |adds| ==> adds[k] == adds[1..][k - 1];
      r
  }

  /** Once banned, always banned: no sequence of `add` calls unbans a token. */
  lemma {:induction false} BansArePermanent(banned: map<string, Email>, adds: seq<(Email, string)>, token: string)
    requires token in banned
    ensures token in AfterAdds(banned, adds)
    decreases |adds|
  {
    if adds != [] {
      BansArePermanent(banned[adds[0].1 := adds[0].0], adds[1..], token);
    }
  }

  /** Running two runs of adds one after the other is running their concatenation. */
  lemma {:induction false} AfterAddsAppend(banned: map<string, Email>, a: seq<(Email, string)>, b: seq<(Email, string)>)
    ensures AfterAdds(banned, a + b) == AfterAdds(AfterAdds(banned, a), b)
    decreases |a|
  {
    if a == [] {
      assert a + b == b;
    } else {
      assert (a + b)[1..] == a[1..] + b;
      AfterAddsAppend(banned[a[0].1 := a[0].0], a[1..], b);
    }
  }

  /** Adds of other tokens leave a banned token's owner as it was. */
  lemma {:induction false} OtherAddsKeepOwner(banned: map<string, Email>, adds: seq<(Email, string)>, token: string)
    requires token in banned
    requires forall k :: 0 <= k < |adds| ==> adds[k].1 != token
    ensures token in AfterAdds(banned, adds) && AfterAdds(banned, adds)[token] == banned[token]
    decreases |adds|
  {
    if adds != [] {
      assert forall k :: 0 <= k < |adds[1..]| ==> adds[1..][k] == adds[k + 1];
      OtherAddsKeepOwner(banned[adds[0].1 := adds[0].0], adds[1..], token);
    }
  }

  /** The most recent `add` of a token decides its owner, as `insert` overwrites: whatever
      came before it, and whatever adds of other tokens follow it. */
  lemma LastAddDecidesOwner(banned: map<string, Email>, adds: seq<(Email, string)>, email: Email, token: string, rest: seq<(Email, string)>)
    requires forall k :: 0 <= k < |rest| ==> rest[k].1 != token
    ensures var r := AfterAdds(banned, adds + [(email, token)] + rest); token in r && r[token] == email
  {
    assert adds + [(email, token)] + rest == adds + ([(email, token)] + rest);
    AfterAddsAppend(banned, adds, [(email, token)] + rest);
    var before := AfterAdds(banned, adds);
    assert ([(email, token)] + rest)[1..] == rest;
    assert AfterAdds(before, [(email, token)] + rest) == AfterAdds(before[token := email], rest);
    OtherAddsKeepOwner(before[token := email], rest, token);
  }
}
