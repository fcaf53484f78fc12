/**
 * The user table and the two password services the core borrows from the
 * web framework: the hasher (make_password) and the credential check
 * (authenticate).
 */
module Accounts {
  import opened Results

  /** The auto-incremented primary key of a user row. */
  type UserId = nat

  /** A row of the user table; `password` holds the encoded password. */
  datatype User = User(id: UserId, username: string, email: string,
                       firstName: string, lastName: string, password: string)

  /** The table's unique constraint on `username`. */
  ghost predicate UsernamesUnique(users: seq<User>) {
    forall i, j :: 0 <= i < |users| && 0 <= j < |users| && users[i].username == users[j].username ==> i == j
  }

  /** Marks an encoded password; the salt and digest of the real hasher are abstracted away. */
  const HasherPrefix: string := "pbkdf2_sha256$"

  /** The password hasher, as an injective encoding. */
  function MakePassword(raw: string): (encoded: string)
    ensures encoded != raw
  {
    HasherPrefix + raw
  }

  lemma MakePasswordInjective(a: string, b: string)
    requires MakePassword(a) == MakePassword(b)
    ensures a == b
  {
    assert a == MakePassword(a)[|HasherPrefix|..];
    assert b == MakePassword(b)[|HasherPrefix|..];
  }

  /** Whether `raw` is the password that `encoded` encodes. */
  predicate CheckPassword(raw: string, encoded: string) {
    encoded == MakePassword(raw)
  }

  /** The ORM query `User.objects.get(username=username)`, as a search of the rows. */
  function FindByUsername(users: seq<User>, username: string): (r: Option<User>)
    ensures r.Some? <==> exists i :: 0 <= i < |users| && users[i].username == username
    ensures r.Some? ==> r.value in users && r.value.username == username
  {
    if users == [] then None
    else if users[0].username == username then Some(users[0])
    else
      var r := FindByUsername(users[1..], username);
      assert forall i :: 1 <= i < |users| ==> users[i] == users[1..][i - 1];
      r
  }

  /**
   * The credential check: the user with this username whose stored password
   * encodes `password`, or nothing.
   */
  function Authenticate(users: seq<User>, username: string, password: string): (r: Option<User>)
    requires UsernamesUnique(users)
    ensures r.Some? <==> exists u :: u in users && u.username == username && CheckPassword(password, u.password)
    ensures r.Some? ==> r.value in users && r.value.username == username
  {
    match FindByUsername(users, username)
    case None => None
    case Some(u) =>
      if CheckPassword(password, u.password) then Some(u)
      else
        assert forall v :: v in users && v.username == username ==> v == u by {
          forall v | v in users && v.username == username ensures v == u {
            var i :| 0 <= i < |users| && users[i] == v;
            var j :| 0 <= j < |users| && users[j] == u;
          }
        }
        None
  }
}
