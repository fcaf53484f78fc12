/** Creating a user's profile. */
module ProfileServices {
  import opened Results
  import opened Accounts
  import opened ProfileModel
  import opened ProfileSelectors
  import opened Verification
  import opened Store
  import opened CodeService

  /**
   * Inserts a new profile for `user` and issues its first code. Nothing stops
   * a second profile for the same user: the lookup then reports several.
   */
  method CreateUserProfile(db: Database, user: User, draws: seq<int>, now: int) returns (profile: Profile)
    requires db.WellFormed()
    requires user in db.users
    requires ValidDraws(draws)
    modifies db`profiles
    ensures db.WellFormed()
    ensures fresh(profile) && profile.pk == old(|db.profiles|) && profile.user == user.id
    ensures profile.State() == ProfileState(CodeOf(draws), Some(now + CodeLifetime), false)
    ensures db.profiles == old(db.profiles) + [profile.Row()]
    ensures old(db.Valid()) && !HasProfile(old(db.profiles), user.id) ==>
      db.Valid() && GetUserProfile(db.profiles, user) == Ok(profile.pk)
    ensures HasProfile(old(db.profiles), user.id) ==>
      GetUserProfile(db.profiles, user) == Err(MultipleObjectsReturned)
  {
    ghost var t := db.View();
    profile := db.CreateProfile(user.id);
    var _ := SetVerificationCode(db, profile, draws, now);
    assert db.profiles == t.profiles + [profile.Row()];
    assert IsUserId(t.users, user.id) by {
      var i :| 0 <= i < |db.users| && db.users[i] == user;
    }
    AddProfileKeepsValid(t, profile.Row());
    if HasProfile(t.profiles, user.id) {
      SecondProfileShared(t.profiles, profile.Row(), user);
    } else {
      FirstProfileFound(t.profiles, profile.Row(), user);
    }
  }
}
