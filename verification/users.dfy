/** The user store that the authentication controllers use, as a sequence of
    users searched with "first user whose username matches". */
module Users {
  import opened Wrappers

  /** A stored user. The storage-assigned Id is not modelled. */
  datatype User = User(
    username: string,
    hashedPassword: string,
    role: string,
    encryptedSocialSecurityNumber: Option<string>)

  /** `FirstOrDefault(u => u.Username == username)`: the first user with that
      username, or null when there is none. */
  function FindFirst(users: seq<User>, username: string): (r: Option<User>)
    ensures r.Some? <==> exists i :: 0 <= i < |users| && users[i].username == username
    ensures r.Some? ==> exists i :: 0 <= i < |users| && users[i] == r.value && r.value.username == username
                                    && forall j :: 0 <= j < i ==> users[j].username != username
    decreases |users|
  {
    if users == [] then None
    else if users[0].username == username then Some(users[0])
    else
      var r := FindFirst(users[1..], username);
      assert forall i :: 0 < i < |users| ==> users[i] == users[1..][i - 1];
      r
  }

  /** Appending a user never changes which user an earlier match finds. */
  lemma {:induction false} FirstMatchStable(users: seq<User>, user: User, username: string)
    requires FindFirst(users, username).Some?
    ensures FindFirst(users + [user], username) == FindFirst(users, username)
    decreases |users|
  {
    if users[0].username != username {
      assert (users + [user])[1..] == users[1..] + [user];
      FirstMatchStable(users[1..], user, username);
    }
  }

  /** A user appended under a username nobody has is what the lookup then finds. */
  lemma {:induction false} SavedUserFound(users: seq<User>, user: User)
    requires FindFirst(users, user.username).None?
    ensures FindFirst(users + [user], user.username) == Some(user)
    decreases |users|
  {
    if users != [] {
      assert (users + [user])[1..] == users[1..] + [user];
      SavedUserFound(users[1..], user);
    }
  }

  /** In-memory stand-in for the user repository. */
  class UserStore {
    var users: seq<User>

    constructor ()
      ensures users == []
    {
      users := [];
    }

    /** The stored user with that username, the earliest one when several have it. */
    function FindByUsername(username: string): (r: Option<User>)
      reads this
      ensures r.Some? ==> r.value in users && r.value.username == username
      ensures r.None? <==> forall u :: u in users ==> u.username != username
    {
      FindFirst(users, username)
    }

    /** Saves one user at the end of the store and returns it. */
    method Save(user: User) returns (saved: User)
      modifies this
      ensures users == old(users) + [user]
      ensures saved == user
    {
      users := users + [user];
      saved := user;
    }
  }
}

/** The cryptographic collaborators, whose algorithms are not part of this model. */
module Crypto {
  import opened Wrappers

  /** ValueHasher: a one-way password hash and its check. */
  datatype ValueHasher = ValueHasher(
    hashPassword: string -> string,
    verifyPassword: (string, string) -> bool)

  /** A hasher that accepts the password a hash was made from. */
  ghost predicate AcceptsOwnHashes(hasher: ValueHasher) {
    forall password :: hasher.verifyPassword(hasher.hashPassword(password), password)
  }

  /** ValueEncryptor: reversible field encryption. Decrypt receives the stored
      value, null included, and may throw (Failure). */
  datatype ValueEncryptor = ValueEncryptor(
    encrypt: string -> string,
    decrypt: Option<string> -> Result<string>)
}
