/** Lookups of a user row by its username. */
module AuthSelectors {
  import opened Results
  import opened Accounts

  function GetUserByUsername(users: seq<User>, username: string): (r: Result<User>)
    ensures r.Ok? <==> exists i :: 0 <= i < |users| && users[i].username == username
    ensures r.Ok? ==> r.value in users && r.value.username == username
    ensures r.Err? ==> r.error == NoSuchUsername
  {
    match FindByUsername(users, username)
    case None => Err(NoSuchUsername)
    case Some(u) => Ok(u)
  }

  /**
   * Finds a user by email. The query matches the `username` column, not
   * `email`: registration stores the email there.
   */
  function GetUserByEmail(users: seq<User>, email: string): (r: Result<User>)
    ensures r.Ok? <==> exists i :: 0 <= i < |users| && users[i].username == email
    ensures r.Ok? ==> r.value in users && r.value.username == email
    ensures r.Err? ==> r.error == NoSuchEmail
  {
    match FindByUsername(users, email)
    case None => Err(NoSuchEmail)
    case Some(u) => Ok(u)
  }

  /** A user registered with its email as username is the one found by that email. */
  lemma RegisteredUserFoundByEmail(users: seq<User>, u: User)
    requires UsernamesUnique(users)
    requires u in users && u.username == u.email
    ensures GetUserByEmail(users, u.email) == Ok(u)
  {
    var r := GetUserByEmail(users, u.email);
    var i :| 0 <= i < |users| && users[i] == u;
    var j :| 0 <= j < |users| && users[j] == r.value;
  }
}
