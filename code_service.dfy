/**
 * Issuing a code to a profile, the `setVerificationCode` of the
 * authentication services. It is a module of its own because the
 * authentication and profile services call each other, which Dafny modules
 * cannot.
 */
module CodeService {
  import opened Results
  import opened ProfileModel
  import opened Verification
  import opened Store

  /**
   * Sets a new code and an expiry five minutes from `now` on the instance,
   * saves it over its row and returns the code.
   */
  method SetVerificationCode(db: Database, profile: Profile, draws: seq<int>, now: int) returns (code: string)
    requires ValidDraws(draws)
    requires profile.pk < |db.profiles| && db.profiles[profile.pk].user == profile.user
    modifies profile, db`profiles
    ensures code == CodeOf(draws) && IsCode(code)
    ensures profile.State() == Issue(old(profile.State()), code, now)
    ensures db.profiles == old(db.profiles)[profile.pk := profile.Row()]
  {
    code := GenerateCode(draws);
    profile.verificationCode := code;
    profile.verificationCodeExpiresAt := Some(now + CodeLifetime);
    db.Save(profile);
  }
}
