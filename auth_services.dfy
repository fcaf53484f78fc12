/**
 * Registration, code resending, email verification and login: the
 * account lifecycle over the user, profile and token tables.
 */
module AuthServices {
  import opened Results
  import opened Accounts
  import opened ProfileModel
  import opened AuthSelectors
  import opened ProfileSelectors
  import opened Verification
  import opened Store
  import opened CodeService
  import opened ProfileServices

  /** The shortest password registration accepts. */
  const MinPasswordLength := 8

  /**
   * The registration fields as validated by the serializer, a dictionary the
   * services update in place; `password` becomes None once popped.
   */
  class SignUpData {
    var username: string
    var email: string
    var firstName: string
    var lastName: string
    var password: Option<string>

    constructor (username: string, email: string, firstName: string, lastName: string, password: string)
      ensures this.username == username && this.email == email
      ensures this.firstName == firstName && this.lastName == lastName
      ensures this.password == Some(password)
    {
      this.username, this.email := username, email;
      this.firstName, this.lastName := firstName, lastName;
      this.password := Some(password);
    }
  }

  /**
   * The two password rules, in order: the confirmation (absent when the
   * request has none) must equal the password, then the password must have
   * at least eight characters.
   */
  function CheckPasswords(password: string, confirmPassword: Option<string>): (r: Option<Error>)
    ensures r == None <==> confirmPassword == Some(password) && |password| >= MinPasswordLength
    ensures confirmPassword != Some(password) ==> r == Some(PasswordMismatch)
    ensures confirmPassword == Some(password) && |password| < MinPasswordLength ==> r == Some(PasswordTooShort)
    ensures confirmPassword == Some(password) && |password| == MinPasswordLength ==> r == None
  {
    if confirmPassword != Some(password) then Some(PasswordMismatch)
    else if |password| < MinPasswordLength then Some(PasswordTooShort)
    else None
  }

  /**
   * Copies the email into the username, whatever the outcome, then applies
   * the password rules; on success returns the very record it was given.
   */
  method ValidateData(data: SignUpData, confirmPassword: Option<string>) returns (r: Result<SignUpData>)
    requires data.password.Some?
    modifies data`username
    ensures data.username == data.email
    ensures r.Ok? <==> CheckPasswords(data.password.value, confirmPassword) == None
    ensures r.Ok? ==> r.value == data
    ensures r.Err? ==> CheckPasswords(data.password.value, confirmPassword) == Some(r.error)
  {
    data.username := data.email;
    if Some(data.password.value) != confirmPassword {
      r := Err(PasswordMismatch);
      return;
    }
    if |data.password.value| < MinPasswordLength {
      r := Err(PasswordTooShort);
      return;
    }
    r := Ok(data);
  }

  /** Hands a verification mail for `code` to the sender. */
  method SendVerificationEmail(mailer: Mailer, to: string, code: string)
    modifies mailer
    ensures mailer.outbox == old(mailer.outbox) + [Email(to, code)]
  {
    mailer.outbox := mailer.outbox + [Email(to, code)];
  }

  /**
   * Registers a user: pops the password, inserts the user row with the
   * encoded password, creates its profile with a first code and mails that
   * code to the user's email. A taken username fails before anything is
   * stored or sent.
   */
  method CreateUser(db: Database, mailer: Mailer, data: SignUpData, draws: seq<int>, now: int)
    returns (r: Result<User>)
    requires db.Valid()
    requires data.password.Some?
    requires ValidDraws(draws)
    modifies db, data`password, mailer
    ensures db.Valid()
    ensures data.password == None
    ensures r.Ok? <==> FindByUsername(old(db.users), data.username).None?
    ensures r.Err? ==>
      && r.error == UsernameTaken
      && db.users == old(db.users) && db.profiles == old(db.profiles)
      && db.nextUserId == old(db.nextUserId) && mailer.outbox == old(mailer.outbox)
    ensures r.Ok? ==>
      var user := r.value;
      && user == User(old(db.nextUserId), data.username, data.email, data.firstName, data.lastName,
                      MakePassword(old(data.password).value))
      && user.password != old(data.password).value
      && db.users == old(db.users) + [user]
      && db.nextUserId == old(db.nextUserId) + 1
      && db.profiles == old(db.profiles) + [ProfileRow(user.id, ProfileState(CodeOf(draws), Some(now + CodeLifetime), false))]
      && GetUserProfile(db.profiles, user) == Ok(|old(db.profiles)|)
      && mailer.outbox == old(mailer.outbox) + [Email(user.email, CodeOf(draws))]
    ensures db.tokens == old(db.tokens)
  {
    var password := data.password.value;
    data.password := None;
    if FindByUsername(db.users, data.username).Some? {
      r := Err(UsernameTaken);
      return;
    }
    var user := db.InsertUser(data.username, data.email, data.firstName, data.lastName,
                              MakePassword(password));
    var profile := CreateUserProfile(db, user, draws, now);
    SendVerificationEmail(mailer, user.email, profile.verificationCode);
    r := Ok(user);
  }

  /**
   * Issues a new code to the profile of the user whose username is `email`
   * and mails it to that user's email. A missing user or profile fails with
   * nothing changed.
   */
  method ReSendVerification(db: Database, mailer: Mailer, email: string, draws: seq<int>, now: int)
    returns (r: Result<()>)
    requires db.Valid()
    requires ValidDraws(draws)
    modifies db`profiles, mailer
    ensures db.Valid()
    ensures |db.profiles| == |old(db.profiles)|
    ensures forall k :: 0 <= k < |db.profiles| ==> db.profiles[k].state.verified == old(db.profiles[k].state.verified)
    ensures GetUserByEmail(db.users, email).Err? ==>
      r == Err(NoSuchEmail) && db.profiles == old(db.profiles) && mailer.outbox == old(mailer.outbox)
    ensures GetUserByEmail(db.users, email).Ok? ==>
      var user := GetUserByEmail(db.users, email).value;
      var lookup := GetUserProfile(old(db.profiles), user);
      && (lookup.Err? ==>
            r == Err(lookup.error) && db.profiles == old(db.profiles) && mailer.outbox == old(mailer.outbox))
      && (lookup.Ok? ==>
            && r == Ok(())
            && db.profiles == old(db.profiles)[lookup.value :=
                 ProfileRow(user.id, Issue(old(db.profiles)[lookup.value].state, CodeOf(draws), now))]
            && mailer.outbox == old(mailer.outbox) + [Email(user.email, CodeOf(draws))])
  {
    var found := GetUserByEmail(db.users, email);
    if found.Err? {
      r := Err(found.error);
      return;
    }
    var user := found.value;
    var lookup := GetUserProfile(db.profiles, user);
    if lookup.Err? {
      r := Err(lookup.error);
      return;
    }
    var profile := db.Load(lookup.value);
    ghost var t := db.View();
    var code := SetVerificationCode(db, profile, draws, now);
    assert profile.Row() == ProfileRow(user.id, Issue(t.profiles[lookup.value].state, code, now));
    UpdateProfileKeepsValid(t, profile.pk, profile.State());
    SendVerificationEmail(mailer, user.email, code);
    r := Ok(());
  }

  /**
   * Checks a submitted code against the user's profile at `now`; an accepted
   * code marks the profile verified, saves it and returns it, a rejected one
   * changes nothing.
   */
  method VerifyEmail(db: Database, user: User, code: string, now: int) returns (r: Result<Profile>)
    requires db.Valid()
    modifies db`profiles
    ensures db.Valid()
    ensures |db.profiles| == |old(db.profiles)|
    ensures forall k :: 0 <= k < |db.profiles| && old(db.profiles[k].state.verified) ==> db.profiles[k].state.verified
    ensures GetUserProfile(old(db.profiles), user).Err? ==>
      r == Err(GetUserProfile(old(db.profiles), user).error) && db.profiles == old(db.profiles)
    ensures GetUserProfile(old(db.profiles), user).Ok? ==>
      var pk := GetUserProfile(old(db.profiles), user).value;
      var outcome := Submit(old(db.profiles)[pk].state, code, now);
      && (outcome.Ok? ==>
            && r.Ok? && fresh(r.value) && r.value.pk == pk && r.value.Row() == db.profiles[pk]
            && db.profiles == old(db.profiles)[pk := ProfileRow(user.id, outcome.value)])
      && (outcome.Err? ==> r == Err(outcome.error) && db.profiles == old(db.profiles))
  {
    var lookup := GetUserProfile(db.profiles, user);
    if lookup.Err? {
      r := Err(lookup.error);
      return;
    }
    var profile := db.Load(lookup.value);
    var isCodeCorrect := profile.verificationCode == code;
    match profile.verificationCodeExpiresAt {
      case None =>
        r := Err(TypeError);
      case Some(expiresAt) =>
        var isCodeNotExpired := expiresAt > now;
        if isCodeCorrect && isCodeNotExpired {
          ghost var t := db.View();
          profile.isVerified := true;
          db.Save(profile);
          UpdateProfileKeepsValid(t, profile.pk, profile.State());
          r := Ok(profile);
        } else {
          r := Err(InvalidCode);
        }
    }
  }

  /**
   * Logs a user in: bad credentials give no token; a user whose profile is
   * not verified is refused; a verified user gets its token, created with
   * `freshKey` on the first login and the same one on every later login.
   */
  method LogInUser(db: Database, username: string, password: string, freshKey: string)
    returns (r: Result<Option<string>>)
    requires db.Valid()
    modifies db`tokens
    ensures db.Valid()
    ensures Authenticate(db.users, username, password).None? ==>
      r == Ok(None) && db.tokens == old(db.tokens)
    ensures Authenticate(db.users, username, password).Some? ==>
      var user := Authenticate(db.users, username, password).value;
      var lookup := GetUserProfile(db.profiles, user);
      && (lookup.Err? ==> r == Err(lookup.error) && db.tokens == old(db.tokens))
      && (lookup.Ok? && !db.profiles[lookup.value].state.verified ==>
            r == Err(NotVerified) && db.tokens == old(db.tokens))
      && (lookup.Ok? && db.profiles[lookup.value].state.verified ==>
            && user.id in db.tokens
            && r == Ok(Some(db.tokens[user.id]))
            && db.tokens == old(db.tokens)[user.id := db.tokens[user.id]]
            && db.tokens[user.id] == if user.id in old(db.tokens) then old(db.tokens)[user.id] else freshKey)
  {
    var authenticated := Authenticate(db.users, username, password);
    if authenticated.None? {
      r := Ok(None);
      return;
    }
    var user := authenticated.value;
    var lookup := GetUserProfile(db.profiles, user);
    if lookup.Err? {
      r := Err(lookup.error);
      return;
    }
    var profile := db.Load(lookup.value);
    if !profile.isVerified {
      r := Err(NotVerified);
      return;
    }
    if user.id !in db.tokens {
      AddTokenKeepsValid(db.View(), profile.pk, freshKey);
      db.tokens := db.tokens[user.id := freshKey];
    }
    r := Ok(Some(db.tokens[user.id]));
  }
}
