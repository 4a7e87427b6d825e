/**
 * The in-memory banned-token store
 * (auth-service/src/services/hashmap_banned_token_store.rs): a map from token to the
 * address it was banned for. `add` inserts or overwrites; nothing removes.
 */
module HashmapBannedTokenStores {
  import opened Wrappers
  import opened Users
  import opened BannedToken

  class HashmapBannedTokenStore {
    var data: map<string, Email>

    /** `HashmapBannedTokenStore::default`: nothing banned. */
    constructor ()
      ensures data == map[]
    {
      data := map[];
    }

    /** `add`: bans `token` for `email`, overwriting an earlier owner of the same token and
        changing no other token's state. */
    method Add(email: Email, token: string)
      modifies this
      ensures data == old(data)[token := email]
      ensures Verified(data, token) == Exists(email)
      ensures forall t :: t != token ==> Verified(data, t) == Verified(old(data), t)
      ensures forall t :: Verified(old(data), t).IsBanned() ==> Verified(data, t).IsBanned()
    {
      data := data[token := email];
    }

    /** `verify`: Exists with the recorded owner for a banned token, Absent otherwise. */
    method Verify(token: string) returns (s: BannedTokenState)
      ensures s.IsBanned() <==> token in data
      ensures token in data ==> s == Exists(data[token])
      ensures token !in data ==> s == DefaultState()
      ensures s == Verified(data, token)
    {
      if token in data {
        s := Exists(data[token]);
      } else {
        s := Absent;
      }
    }
  }

  /** What `verify` answers for `token` when the store holds `data`. */
  function Verified(data: map<string, Email>, token: string): (s: BannedTokenState)
    ensures s.IsBanned() <==> token in data
    ensures s.IsBanned() ==> s.owner == data[token]
  {
    if token in data then Exists(data[token]) else Absent
  }

  /** The unit tests of the store: a token never added is Absent; after `add` it exists,
      owned by the address it was added for. */
  method StoreRoundTrip(email: Email, token: string) returns (before: BannedTokenState, after: BannedTokenState)
    ensures before == Absent
    ensures after.IsBanned() && after.EmailOf() == Some(email)
  {
    var store := new HashmapBannedTokenStore();
    before := store.Verify(token);
    store.Add(email, token);
    after := store.Verify(token);
  }
}
