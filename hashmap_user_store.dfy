/**
 * The in-memory user store (auth-service/src/services/hashmap_user_store.rs): a map from
 * address to user, filled by `add_user` and read by `get_user` and `validate_user`.
 */
module HashmapUserStores {
  import opened Wrappers
  import opened UserStoreTypes
  import opened Users

  /** The detail the in-memory store gives a wrong password (the text the durable store uses). */
  const WRONG_PASSWORD_DETAIL := "Invalid password"

  class HashmapUserStore {
    var users: map<string, User>

    /** Every user is stored under its own address. */
    ghost predicate Valid()
      reads this
    {
      forall email :: email in users ==> users[email].email == email
    }

    /** `HashmapUserStore::default`: no users. */
    constructor ()
      ensures Valid() && users == map[]
    {
      users := map[];
    }

    /** `add_user`: refuses an address already present (leaving the store as it was),
        otherwise stores the user under its address and changes no other entry. */
    method AddUser(user: User) returns (r: Result<(), UserStoreError>)
      requires Valid()
      modifies this
      ensures Valid()
      ensures user.email in old(users) ==> r == Failure(UserAlreadyExists) && users == old(users)
      ensures user.email !in old(users) ==> r == Success(()) && users == old(users)[user.email := user]
    {
      var existing := GetUser(user.email);
      if existing.Success? {
        return Failure(UserAlreadyExists);
      }
      users := users[user.email := user];
      r := Success(());
    }

    /** `get_user`: the user stored under `email`, or UserNotFound. */
    method GetUser(email: string) returns (r: Result<User, UserStoreError>)
      ensures r.Success? <==> email in users
      ensures r.Success? ==> r.value == users[email]
      ensures r.Failure? ==> r.error == UserNotFound
    {
      if email in users {
        r := Success(users[email]);
      } else {
        r := Failure(UserNotFound);
      }
    }

    /** `validate_user`: UserNotFound for an unknown address, InvalidCredentials when the
        stored password differs from `password`, success when it is equal. */
    method ValidateUser(email: string, password: string) returns (r: Result<(), UserStoreError>)
      ensures email !in users ==> r == Failure(UserNotFound)
      ensures (email in users && users[email].password != password) ==>
                r == Failure(InvalidCredentials(WRONG_PASSWORD_DETAIL))
      ensures (email in users && users[email].password == password) ==> r == Success(())
    {
      var found := GetUser(email);
      if found.Failure? {
        return Failure(found.error);
      }
      if found.value.password != password {
        return Failure(InvalidCredentials(WRONG_PASSWORD_DETAIL));
      }
      r := Success(());
    }
  }

  /** The unit test of the store: add a user, add it again, look it up, and validate it
      with the right password, an unknown address and a wrong password. */
  method StoreRoundTrip(user: User, other: string, wrong: string)
      returns (first: Result<(), UserStoreError>, second: Result<(), UserStoreError>,
               found: Result<User, UserStoreError>, missing: Result<User, UserStoreError>,
               right: Result<(), UserStoreError>, unknown: Result<(), UserStoreError>,
               rejected: Result<(), UserStoreError>)
    requires other != user.email && wrong != user.password
    ensures first == Success(()) && second == Failure(UserAlreadyExists)
    ensures found == Success(user) && missing == Failure(UserNotFound)
    ensures right == Success(()) && unknown == Failure(UserNotFound)
    ensures rejected == Failure(InvalidCredentials(WRONG_PASSWORD_DETAIL))
  {
    var store := new HashmapUserStore();
    first := store.AddUser(user);
    second := store.AddUser(user);
    found := store.GetUser(user.email);
    missing := store.GetUser(other);
    right := store.ValidateUser(user.email, user.password);
    unknown := store.ValidateUser(other, user.password);
    rejected := store.ValidateUser(user.email, wrong);
  }
}
