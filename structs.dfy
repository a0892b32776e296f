/** Structs, the field-init shorthand, struct update syntax and field assignment. */
module Structs {
  import opened RustInts

  datatype User = User(username: string, email: string, isActive: bool, signInCount: u64)

  /**
   * `build_user`: the fields take the parameters of the same names, and a new
   * user is active with one sign-in.
   */
  function BuildUser(email: string, username: string): (u: User)
    ensures u.email == email && u.username == username
    ensures u.isActive && u.signInCount == 1
  {
    User(username, email, true, 1)
  }

  /** `User { username, ..user }`: a new username, every other field copied. */
  function WithUsername(user: User, username: string): (u: User)
    ensures u.username == username
    ensures u.email == user.email && u.isActive == user.isActive && u.signInCount == user.signInCount
  {
    user.(username := username)
  }

  /** Putting the old username back undoes the update. */
  lemma WithUsernameUndone(user: User, username: string)
    ensures WithUsername(WithUsername(user, username), user.username) == user
  {
  }

  /**
   * `struct_type`. The call of `build_user` passes the username first and the
   * address second, while the parameters are (email, username), so `user1`
   * ends up with "someusername123" as its email. `user2` takes a new
   * username and everything else from `user1`; then `user1.email` is
   * reassigned, which changes nothing else.
   */
  method StructType() returns (user1: User, user2: User, user1After: User)
    ensures user1.email == "someusername123" && user1.username == "someone@example.com"
    ensures user2 == User("anotherusername123", user1.email, true, 1)
    ensures user1After == user1.(email := "another.email@example.com")
  {
    var u := BuildUser("someusername123", "someone@example.com");
    user1 := u;
    user2 := WithUsername(u, "anotherusername123");
    u := u.(email := "another.email@example.com");
    user1After := u;
  }
}
