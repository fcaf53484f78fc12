/** The lookup of a user's profile by the user's identity. */
module ProfileSelectors {
  import opened Results
  import opened Accounts
  import opened ProfileModel

  /** Some row belongs to the user with this id. */
  ghost predicate HasProfile(profiles: seq<ProfileRow>, id: UserId) {
    exists k :: 0 <= k < |profiles| && profiles[k].user == id
  }

  /** Two distinct rows belong to the user with this id. */
  ghost predicate SharedBy(profiles: seq<ProfileRow>, id: UserId) {
    exists j, k :: 0 <= j < k < |profiles| && profiles[j].user == id && profiles[k].user == id
  }

  /** No two rows belong to the same user. */
  ghost predicate OneProfilePerUser(profiles: seq<ProfileRow>) {
    forall j, k :: 0 <= j < k < |profiles| ==> profiles[j].user != profiles[k].user
  }

  /**
   * The rows `Profile.objects.get(user=user)` matches: the keys of exactly
   * the user's rows.
   */
  function ProfilesOf(profiles: seq<ProfileRow>, id: UserId): (r: seq<nat>)
    ensures forall k :: k in r ==> k < |profiles| && profiles[k].user == id
    ensures forall k :: 0 <= k < |profiles| && profiles[k].user == id ==> k in r
    ensures |r| == 0 <==> !HasProfile(profiles, id)
    ensures |r| >= 2 <==> SharedBy(profiles, id)
  {
    if profiles == [] then []
    else
      var n := |profiles| - 1;
      var init := profiles[..n];
      var rest := ProfilesOf(init, id);
      assert forall k :: 0 <= k < n ==> profiles[k] == init[k];
      if profiles[n].user == id then
        assert HasProfile(profiles, id) by { assert profiles[n].user == id; }
        assert |rest| >= 1 <==> SharedBy(profiles, id) by {
          if |rest| >= 1 {
            assert rest[0] in rest;
            assert profiles[rest[0]].user == id;
          }
          if SharedBy(profiles, id) {
            var j, k :| 0 <= j < k < |profiles| && profiles[j].user == id && profiles[k].user == id;
            assert init[j].user == id;
          }
        }
        rest + [n]
      else
        assert HasProfile(profiles, id) ==> HasProfile(init, id) by {
          if HasProfile(profiles, id) {
            var k :| 0 <= k < |profiles| && profiles[k].user == id;
            assert init[k].user == id;
          }
        }
        assert SharedBy(profiles, id) ==> SharedBy(init, id) by {
          if SharedBy(profiles, id) {
            var j, k :| 0 <= j < k < |profiles| && profiles[j].user == id && profiles[k].user == id;
            assert init[j].user == id && init[k].user == id;
          }
        }
        rest
  }

  /**
   * The query `Profile.objects.get(user=user)`: the key of the user's one
   * profile, an error when there is none, and the ORM's own error when there
   * are several. The lookup compares the user's id only.
   */
  function GetUserProfile(profiles: seq<ProfileRow>, user: User): (r: Result<nat>)
    ensures r.Ok? <==> HasProfile(profiles, user.id) && !SharedBy(profiles, user.id)
    ensures r.Ok? ==> r.value < |profiles| && profiles[r.value].user == user.id
    ensures r.Err? ==> r.error == if HasProfile(profiles, user.id) then MultipleObjectsReturned else NoProfile
  {
    var matches := ProfilesOf(profiles, user.id);
    if |matches| == 0 then Err(NoProfile)
    else if |matches| > 1 then Err(MultipleObjectsReturned)
    else
      assert matches[0] in matches;
      Ok(matches[0])
  }

  /** When every user has at most one profile, the lookup never finds several. */
  lemma OneProfileNeverShared(profiles: seq<ProfileRow>, user: User)
    requires OneProfilePerUser(profiles)
    ensures GetUserProfile(profiles, user) != Err(MultipleObjectsReturned)
    ensures GetUserProfile(profiles, user).Ok? <==> HasProfile(profiles, user.id)
  {
  }

  /** Inserting a second profile for a user makes the lookup report several. */
  lemma SecondProfileShared(profiles: seq<ProfileRow>, row: ProfileRow, user: User)
    requires HasProfile(profiles, user.id) && row.user == user.id
    ensures GetUserProfile(profiles + [row], user) == Err(MultipleObjectsReturned)
  {
    var k :| 0 <= k < |profiles| && profiles[k].user == user.id;
    var all := profiles + [row];
    assert all[k].user == user.id && all[|profiles|].user == user.id;
  }

  /** Inserting the first profile of a user makes the lookup find exactly it. */
  lemma FirstProfileFound(profiles: seq<ProfileRow>, row: ProfileRow, user: User)
    requires !HasProfile(profiles, user.id) && row.user == user.id
    ensures GetUserProfile(profiles + [row], user) == Ok(|profiles|)
  {
    var all := profiles + [row];
    assert all[|profiles|].user == user.id;
  }

  /** Two tables whose rows belong to the same users, in the same order. */
  ghost predicate SameOwners(a: seq<ProfileRow>, b: seq<ProfileRow>) {
    |a| == |b| && forall k :: 0 <= k < |a| ==> a[k].user == b[k].user
  }

  /** The lookup reads only the user column: changing other fields changes no lookup. */
  lemma {:induction false} LookupIgnoresFields(a: seq<ProfileRow>, b: seq<ProfileRow>, user: User)
    requires SameOwners(a, b)
    ensures ProfilesOf(a, user.id) == ProfilesOf(b, user.id)
    ensures GetUserProfile(a, user) == GetUserProfile(b, user)
  {
    if a != [] {
      var n := |a| - 1;
      LookupIgnoresFields(a[..n], b[..n], user);
    }
  }
}
