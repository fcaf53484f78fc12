/**
 * Clients of the services: account lifecycles reasoned about from the
 * services' contracts alone.
 */
module Scenarios {
  import opened Results
  import opened Accounts
  import opened ProfileModel
  import opened Verification
  import opened Store
  import opened AuthSelectors
  import opened ProfileSelectors
  import opened AuthServices

  /** Registers "a@x.com" with password "password1" and the code 1234 at time 0. */
  method Register() returns (db: Database, mailer: Mailer, user: User)
    ensures fresh(db) && fresh(mailer) && db.Valid()
    ensures db.users == [user] && user.username == "a@x.com" && user.email == "a@x.com"
    ensures user.password == MakePassword("password1") && user.password != "password1"
    ensures db.profiles == [ProfileRow(user.id, ProfileState("1234", Some(CodeLifetime), false))]
    ensures db.tokens == map[] && mailer.outbox == [Email("a@x.com", "1234")]
  {
    db := new Database();
    mailer := new Mailer();
    var data := new SignUpData("someone", "a@x.com", "A", "B", "password1");
    // Validation copies the email into the username.
    assert CheckPasswords("password1", Some("password1")) == None;
    var validated := ValidateData(data, Some("password1"));
    assert validated == Ok(data) && data.username == "a@x.com";
    var created := CreateUser(db, mailer, data, [1, 2, 3, 4], 0);
    user := created.value;
    assert CodeOf([1, 2, 3, 4]) == "1234";
  }

  method RegisterTwice() {
    var db, mailer, user := Register();
    var again := new SignUpData("a@x.com", "a@x.com", "C", "D", "password2");
    var duplicate := CreateUser(db, mailer, again, [5, 6, 7, 8], 10);
    assert duplicate == Err(UsernameTaken);
    assert db.users == [user] && mailer.outbox == [Email("a@x.com", "1234")];
  }

  method LogInBeforeAndAfterVerifying() {
    var db, mailer, user := Register();
    assert Authenticate(db.users, "a@x.com", "password1") == Some(user);

    var early := LogInUser(db, "a@x.com", "password1", "key-1");
    assert early == Err(NotVerified) && db.tokens == map[];

    var wrong := VerifyEmail(db, user, "0000", 20);
    assert wrong == Err(InvalidCode);
    var right := VerifyEmail(db, user, "1234", 30);
    assert right.Ok? && right.value.isVerified && db.profiles[0].state.verified;

    var first := LogInUser(db, "a@x.com", "password1", "key-1");
    assert first == Ok(Some("key-1"));
    var second := LogInUser(db, "a@x.com", "password1", "key-2");
    assert second == Ok(Some("key-1"));

    var bad := LogInUser(db, "a@x.com", "wrong-password", "key-3");
    assert bad == Ok(None);
  }

  method ResendReplacesCode() {
    var db, mailer, user := Register();
    assert GetUserByEmail(db.users, "a@x.com") == Ok(user);
    assert GetUserProfile(db.profiles, user) == Ok(0);
    var resent := ReSendVerification(db, mailer, "a@x.com", [9, 9, 9, 9], 100);
    assert CodeOf([9, 9, 9, 9]) == "9999";
    assert resent == Ok(());
    assert mailer.outbox == [Email("a@x.com", "1234"), Email("a@x.com", "9999")];

    // The first code no longer works, though it has not expired.
    var stale := VerifyEmail(db, user, "1234", 200);
    assert stale == Err(InvalidCode);
    // The new code is rejected at its expiry instant.
    var late := VerifyEmail(db, user, "9999", 100 + CodeLifetime);
    assert late == Err(InvalidCode);
    var inTime := VerifyEmail(db, user, "9999", 100 + CodeLifetime - 1);
    assert inTime.Ok?;
  }

  method UnknownEmail() {
    var db, mailer, user := Register();
    var resent := ReSendVerification(db, mailer, "b@x.com", [9, 9, 9, 9], 100);
    assert resent == Err(NoSuchEmail);
    assert mailer.outbox == [Email("a@x.com", "1234")];
  }
}
