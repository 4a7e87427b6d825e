/**
 * The shared state every handler receives: the three stores, as the builder in
 * auth-service/src/main.rs (lines 19-22) wires them. Each handler is modelled as running
 * to completion on its own; for logout, whose token check and ban are two separate
 * critical sections in the source, this is stronger than the source (see README).
 */
module App {
  import opened Users
  import opened HashmapUserStores
  import opened HashmapBannedTokenStores
  import opened HashmapTwoFACodeStores

  class AppState {
    const userStore: HashmapUserStore
    const bannedTokenStore: HashmapBannedTokenStore
    const twoFaCodeStore: HashmapTwoFACodeStore

    /** The user store is keyed by address, and every user in it passed the checks of
        `User::new` (signup is the only way in). */
    ghost predicate Valid()
      reads this, userStore
    {
      && userStore.Valid()
      && forall email :: email in userStore.users ==> WellFormedUser(userStore.users[email])
    }

    constructor ()
      ensures Valid()
      ensures fresh(userStore) && fresh(bannedTokenStore) && fresh(twoFaCodeStore)
      ensures userStore.users == map[] && bannedTokenStore.data == map[] && twoFaCodeStore.codes == map[]
    {
      userStore := new HashmapUserStore();
      bannedTokenStore := new HashmapBannedTokenStore();
      twoFaCodeStore := new HashmapTwoFACodeStore();
    }
  }
}
