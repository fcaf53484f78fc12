/**
 * The persistent state the services work on: the user, profile and token
 * tables, and the outgoing mail.
 */
module Store {
  import opened Accounts
  import opened ProfileModel
  import opened ProfileSelectors
  import opened Verification

  /** A verification mail: the address it goes to and the code it carries. */
  datatype Email = Email(to: string, code: string)

  /** The mail sender; each send is recorded and nothing else is modelled. */
  class Mailer {
    var outbox: seq<Email>

    constructor ()
      ensures outbox == []
    {
      outbox := [];
    }
  }

  /** The three tables as one value. */
  datatype Tables = Tables(users: seq<User>, profiles: seq<ProfileRow>,
                           tokens: map<UserId, string>, nextUserId: UserId)

  /** Some row of the user table has this key. */
  ghost predicate IsUserId(users: seq<User>, id: UserId) {
    exists i :: 0 <= i < |users| && users[i].id == id
  }

  /** Some profile of the user with this id is verified. */
  ghost predicate HasVerifiedProfile(profiles: seq<ProfileRow>, id: UserId) {
    exists k :: 0 <= k < |profiles| && profiles[k].user == id && profiles[k].state.verified
  }

  /**
   * What every service keeps: unique usernames, keys 1, 2, ... in insertion
   * order (an auto-incremented key of a table nothing deletes from),
   * profiles that point at an existing user and hold an issued code, and
   * tokens only for users with a verified profile.
   */
  ghost predicate TablesWellFormed(t: Tables) {
    && UsernamesUnique(t.users)
    && t.nextUserId == |t.users| + 1
    && (forall i :: 0 <= i < |t.users| ==> t.users[i].id == i + 1)
    && (forall k :: 0 <= k < |t.profiles| ==> IsUserId(t.users, t.profiles[k].user))
    && (forall k :: 0 <= k < |t.profiles| ==> IsIssued(t.profiles[k].state))
    && (forall id :: id in t.tokens ==> HasVerifiedProfile(t.profiles, id))
  }

  /** No two users share a key, and every key is below the next one. */
  lemma KeysUnique(t: Tables)
    requires TablesWellFormed(t)
    ensures forall i, j :: 0 <= i < |t.users| && 0 <= j < |t.users| && t.users[i].id == t.users[j].id ==> i == j
    ensures forall i :: 0 <= i < |t.users| ==> t.users[i].id < t.nextUserId
  {
    forall i, j | 0 <= i < |t.users| && 0 <= j < |t.users| && t.users[i].id == t.users[j].id
      ensures i == j
    {
      assert t.users[i].id == i + 1 && t.users[j].id == j + 1;
    }
  }

  /** TablesWellFormed, and no user has two profiles. */
  ghost predicate TablesValid(t: Tables) {
    TablesWellFormed(t) && OneProfilePerUser(t.profiles)
  }

  /** Inserting a user under a free username with the next key keeps the tables valid. */
  lemma InsertUserKeepsValid(t: Tables, u: User)
    requires TablesValid(t)
    requires u.id == t.nextUserId
    requires forall i :: 0 <= i < |t.users| ==> t.users[i].username != u.username
    ensures TablesValid(t.(users := t.users + [u], nextUserId := t.nextUserId + 1))
    ensures !HasProfile(t.profiles, u.id)
  {
    var users := t.users + [u];
    assert forall i :: 0 <= i < |t.users| ==> users[i] == t.users[i];
    forall k | 0 <= k < |t.profiles|
      ensures IsUserId(users, t.profiles[k].user) && t.profiles[k].user != u.id
    {
      var i :| 0 <= i < |t.users| && t.users[i].id == t.profiles[k].user;
      assert users[i].id == t.profiles[k].user;
    }
  }

  /**
   * Adding a profile holding an issued code for an existing user keeps the tables well formed, and valid when the user had no
   * profile.
   */
  lemma AddProfileKeepsValid(t: Tables, row: ProfileRow)
    requires TablesWellFormed(t)
    requires IsUserId(t.users, row.user) && IsIssued(row.state)
    ensures TablesWellFormed(t.(profiles := t.profiles + [row]))
    ensures TablesValid(t) && !HasProfile(t.profiles, row.user) ==> TablesValid(t.(profiles := t.profiles + [row]))
  {
    var rows := t.profiles + [row];
    assert forall k :: 0 <= k < |t.profiles| ==> rows[k] == t.profiles[k];
    forall id | id in t.tokens ensures HasVerifiedProfile(rows, id) {
      var k :| 0 <= k < |t.profiles| && t.profiles[k].user == id && t.profiles[k].state.verified;
      assert rows[k] == t.profiles[k];
    }
  }

  /**
   * Changing the fields of one profile keeps the tables valid when it still
   * holds an issued code and stays verified if it was.
   */
  lemma UpdateProfileKeepsValid(t: Tables, k: nat, s: ProfileState)
    requires TablesValid(t)
    requires k < |t.profiles| && IsIssued(s)
    requires t.profiles[k].state.verified ==> s.verified
    ensures TablesValid(t.(profiles := t.profiles[k := ProfileRow(t.profiles[k].user, s)]))
  {
    var rows := t.profiles[k := ProfileRow(t.profiles[k].user, s)];
    forall id | id in t.tokens ensures HasVerifiedProfile(rows, id) {
      var j :| 0 <= j < |t.profiles| && t.profiles[j].user == id && t.profiles[j].state.verified;
      assert rows[j].user == id && rows[j].state.verified;
    }
  }

  /** Giving a token to the user of a verified profile keeps the tables valid. */
  lemma AddTokenKeepsValid(t: Tables, k: nat, key: string)
    requires TablesValid(t)
    requires k < |t.profiles| && t.profiles[k].state.verified
    ensures TablesValid(t.(tokens := t.tokens[t.profiles[k].user := key]))
  {
  }

  class Database {
    /** The user table, in insertion order. */
    var users: seq<User>
    /** The profile table; a row's primary key is its position. */
    var profiles: seq<ProfileRow>
    /** The token table: a user's id to the key of its one token. */
    var tokens: map<UserId, string>
    /** The next value of the user table's auto-incremented key. */
    var nextUserId: UserId

    constructor ()
      ensures users == [] && profiles == [] && tokens == map[] && nextUserId == 1
      ensures Valid()
    {
      users, profiles, tokens, nextUserId := [], [], map[], 1;
    }

    function View(): Tables
      reads this
    {
      Tables(users, profiles, tokens, nextUserId)
    }

    ghost predicate WellFormed()
      reads this
    {
      TablesWellFormed(View())
    }

    ghost predicate Valid()
      reads this
    {
      TablesValid(View())
    }

    /**
     * The row insert `User.objects.create(...)` for a username not yet taken:
     * the row gets the next key, and no profile points at it yet.
     */
    method InsertUser(username: string, email: string, firstName: string, lastName: string, password: string)
      returns (user: User)
      requires Valid()
      requires FindByUsername(users, username).None?
      modifies this
      ensures Valid()
      ensures user == User(old(nextUserId), username, email, firstName, lastName, password)
      ensures users == old(users) + [user] && nextUserId == old(nextUserId) + 1
      ensures profiles == old(profiles) && tokens == old(tokens)
      ensures !HasProfile(profiles, user.id)
    {
      user := User(nextUserId, username, email, firstName, lastName, password);
      InsertUserKeepsValid(View(), user);
      users := users + [user];
      nextUserId := nextUserId + 1;
    }

    /**
     * The row insert `Profile.objects.create(user=user)`: a row with the
     * column defaults, and an instance of it.
     */
    method CreateProfile(user: UserId) returns (profile: Profile)
      modifies this`profiles
      ensures profiles == old(profiles) + [ProfileRow(user, DefaultState)]
      ensures fresh(profile) && profile.pk == old(|profiles|) && profile.Row() == profiles[profile.pk]
    {
      profiles := profiles + [ProfileRow(user, DefaultState)];
      profile := new Profile(|profiles| - 1, profiles[|profiles| - 1]);
    }

    /** An instance of the row with key `pk`, as the ORM's queries return. */
    method Load(pk: nat) returns (profile: Profile)
      requires pk < |profiles|
      ensures fresh(profile) && profile.pk == pk && profile.Row() == profiles[pk]
    {
      profile := new Profile(pk, profiles[pk]);
    }

    /** `profile.save()`: writes the instance's fields over its row. */
    method Save(profile: Profile)
      requires profile.pk < |profiles| && profiles[profile.pk].user == profile.user
      modifies this`profiles
      ensures profiles == old(profiles)[profile.pk := profile.Row()]
    {
      profiles := profiles[profile.pk := profile.Row()];
    }
  }
}
