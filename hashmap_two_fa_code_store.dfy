/**
 * The in-memory 2FA challenge store
 * (auth-service/src/services/hashmap_two_fa_code_store.rs): at most one
 * (login attempt id, code) pair per address; a new pair replaces the old one.
 */
module HashmapTwoFACodeStores {
  import opened Wrappers
  import opened Users
  import opened TwoFa

  class HashmapTwoFACodeStore {
    var codes: map<Email, (LoginAttemptId, TwoFACode)>

    /** `HashmapTwoFACodeStore::default`: no challenges. */
    constructor ()
      ensures codes == map[]
    {
      codes := map[];
    }

    /** `add_code`: always succeeds; the pair replaces any earlier one for `email`, and no
        other address's entry changes. */
    method AddCode(email: Email, loginAttemptId: LoginAttemptId, code: TwoFACode)
        returns (r: Result<(), TwoFACodeStoreError>)
      modifies this
      ensures r == Success(())
      ensures codes == old(codes)[email := (loginAttemptId, code)]
    {
      codes := codes[email := (loginAttemptId, code)];
      r := Success(());
    }

    /** `remove_code`: drops the entry for `email`, or fails with LoginAttemptIdNotFound
        and changes nothing when there is none. */
    method RemoveCode(email: Email) returns (r: Result<(), TwoFACodeStoreError>)
      modifies this
      ensures email in old(codes) ==> r == Success(()) && codes == old(codes) - {email}
      ensures email !in old(codes) ==> r == Failure(LoginAttemptIdNotFound) && codes == old(codes)
    {
      if email in codes {
        codes := codes - {email};
        r := Success(());
      } else {
        r := Failure(LoginAttemptIdNotFound);
      }
    }

    /** `get_code`: the pair stored for `email`, or LoginAttemptIdNotFound. */
    method GetCode(email: Email) returns (r: Result<(LoginAttemptId, TwoFACode), TwoFACodeStoreError>)
      ensures r.Success? <==> email in codes
      ensures r.Success? ==> r.value == codes[email]
      ensures r.Failure? ==> r.error == LoginAttemptIdNotFound
    {
      if email in codes {
        r := Success(codes[email]);
      } else {
        r := Failure(LoginAttemptIdNotFound);
      }
    }
  }

  /** The unit tests of the store: lookups and removals fail on an empty store; after
      `add_code` the pair is found, a second `add_code` replaces it, and after
      `remove_code` it is gone. */
  method StoreRoundTrip(email: Email, id: LoginAttemptId, code: TwoFACode, id2: LoginAttemptId, code2: TwoFACode)
      returns (missing: Result<(LoginAttemptId, TwoFACode), TwoFACodeStoreError>,
               notRemoved: Result<(), TwoFACodeStoreError>,
               found: Result<(LoginAttemptId, TwoFACode), TwoFACodeStoreError>,
               replaced: Result<(LoginAttemptId, TwoFACode), TwoFACodeStoreError>,
               removed: Result<(), TwoFACodeStoreError>,
               gone: Result<(LoginAttemptId, TwoFACode), TwoFACodeStoreError>)
    ensures missing == Failure(LoginAttemptIdNotFound) && notRemoved == Failure(LoginAttemptIdNotFound)
    ensures found == Success((id, code)) && replaced == Success((id2, code2))
    ensures removed == Success(()) && gone == Failure(LoginAttemptIdNotFound)
  {
    var store := new HashmapTwoFACodeStore();
    missing := store.GetCode(email);
    notRemoved := store.RemoveCode(email);
    var _ := store.AddCode(email, id, code);
    found := store.GetCode(email);
    var _ := store.AddCode(email, id2, code2);
    replaced := store.GetCode(email);
    removed := store.RemoveCode(email);
    gone := store.GetCode(email);
  }
}
