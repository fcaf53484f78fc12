/**
 * The per-user profile: a row of the profile table, and the model instance
 * the services load from a row, update in place and save back.
 */
module ProfileModel {
  import opened Results
  import opened Accounts

  /** The column width of `verificationCode`. */
  const MaxCodeLength := 6

  /** The values a profile holds, as a single value. */
  datatype ProfileState = ProfileState(code: string, expiresAt: Option<int>, verified: bool)

  /** The column defaults: an empty code, a null expiry, not verified. */
  const DefaultState := ProfileState("", None, false)

  /** A stored row: the user it belongs to (a foreign key) and its fields. */
  datatype ProfileRow = ProfileRow(user: UserId, state: ProfileState)

  /** The code fits its column. */
  predicate FitsSchema(s: ProfileState) {
    |s.code| <= MaxCodeLength
  }

  /**
   * A model instance. Its primary key is the position of its row in the
   * table, which never changes since rows are never deleted.
   */
  class Profile {
    const pk: nat
    const user: UserId
    var verificationCode: string
    /** A point in time in microseconds; null until a code is issued. */
    var verificationCodeExpiresAt: Option<int>
    var isVerified: bool

    /** An instance holding the fields of the row with key `pk`. */
    constructor (pk: nat, row: ProfileRow)
      ensures this.pk == pk && Row() == row
    {
      this.pk := pk;
      user := row.user;
      verificationCode := row.state.code;
      verificationCodeExpiresAt := row.state.expiresAt;
      isVerified := row.state.verified;
    }

    function State(): ProfileState
      reads this
    {
      ProfileState(verificationCode, verificationCodeExpiresAt, isVerified)
    }

    /** The row `save()` writes. */
    function Row(): ProfileRow
      reads this
    {
      ProfileRow(user, State())
    }
  }
}
