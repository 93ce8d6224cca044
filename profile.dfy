/** The profile endpoints: another user's profile through the privacy
    filter, with its view counter; the caller's own profile, its update,
    the account's deactivation and the caller's statistics. */
module ProfileRoutes {
  import opened Wrappers
  import opened Models
  import opened Database
  import opened Security
  import opened Schemas
  import opened Dependencies

  /** A field shown to other viewers only at the "public" level. */
  function Shown(level: string, v: Option<string>): (r: Option<string>)
    ensures level == "public" ==> r == v
    ensures level != "public" ==> r.None?
  {
    if level == "public" then v else None
  }

  /** The owner or an administrator: they see the stored profile. */
  predicate Privileged(viewer: Option<User>, userId: nat) {
    viewer.Some? && (viewer.value.id == userId || viewer.value.role == RoleAdmin)
  }

  /** What `get_user_profile` answers to everyone else: the four privacy
      controlled fields only when public, and a view count of 0 while
      tracking is off; every other field as stored. */
  function FilteredProfile(p: Profile): (v: Profile)
    ensures v.headline == Shown(p.privacyHeadline, p.headline)
    ensures v.location == Shown(p.privacyLocation, p.location)
    ensures v.bio == Shown(p.privacyBio, p.bio)
    ensures v.profilePictureUrl == Shown(p.privacyProfilePicture, p.profilePictureUrl)
    ensures v.profileViewCount == if p.TrackingAllowed() then p.profileViewCount else 0
    ensures v.(headline := p.headline, location := p.location, bio := p.bio, profilePictureUrl := p.profilePictureUrl,
               profileViewCount := p.profileViewCount) == p
  {
    p.(headline := Shown(p.privacyHeadline, p.headline),
       location := Shown(p.privacyLocation, p.location),
       bio := Shown(p.privacyBio, p.bio),
       profilePictureUrl := Shown(p.privacyProfilePicture, p.profilePictureUrl),
       profileViewCount := if p.TrackingAllowed() then p.profileViewCount else 0)
  }

  /** A view counts when the viewer is signed in, is neither the owner
      nor an administrator, and the profile allows tracking. */
  predicate CountsView(viewer: Option<User>, p: Profile) {
    viewer.Some? && !Privileged(viewer, p.userId) && p.TrackingAllowed()
  }

  /** Anonymous views, the owner's and an administrator's never count, and
      nothing a non-public level guards is ever shown to others. */
  lemma ViewRules(viewer: Option<User>, p: Profile)
    ensures !CountsView(None, p)
    ensures Privileged(viewer, p.userId) ==> !CountsView(viewer, p)
    ensures p.privacyBio != "public" ==> FilteredProfile(p).bio.None?
    ensures !p.TrackingAllowed() ==> FilteredProfile(p).profileViewCount == 0
  {
  }

  /** A fresh profile shows everything it holds, and nothing yet. */
  lemma FreshProfileIsPublic(id: nat, userId: nat, now: nat)
    ensures FilteredProfile(EmptyProfile(id, userId, now)) == EmptyProfile(id, userId, now)
  {
  }

  /** `get_user_profile`: the optional current user, the profile of
      `userId`; the owner or an administrator gets it as stored, anyone
      else the filtered view built before the counter rises. A counted view
      adds one to the counter (and stamps `updated_at`). */
  method GetUserProfile(db: Database, credentials: Option<Jwt>, key: string, now: nat, userId: nat)
    returns (r: Result<Profile>)
    requires db.Valid()
    modifies db
    ensures db.Valid()
    ensures var viewer := OptionalCurrentUser(old(db.users), credentials, key, now);
            var found := ProfileIndexByUser(old(db.profiles), userId);
      && (viewer.Err? ==> r == Err(viewer.error) && unchanged(db))
      && (viewer.Ok? && found.None? ==> r == Err(HttpError(NotFound, "Profile not found")) && unchanged(db))
      && (viewer.Ok? && found.Some? ==>
            var p := old(db.profiles)[found.value];
            && r == Ok(if Privileged(viewer.value, userId) then p else FilteredProfile(p))
            && (CountsView(viewer.value, p) ==>
                  db.profiles == old(db.profiles)[found.value := p.(profileViewCount := p.profileViewCount + 1, updatedAt := now)])
            && (!CountsView(viewer.value, p) ==> db.profiles == old(db.profiles))
            && OnlyProfilesChanged(db))
  {
    var viewer :- OptionalCurrentUser(db.users, credentials, key, now);
    var found := ProfileIndexByUser(db.profiles, userId);
    if found.None? {
      return Err(HttpError(NotFound, "Profile not found"));
    }
    var p := db.profiles[found.value];
    if Privileged(viewer, userId) {
      return Ok(p);
    }
    r := Ok(FilteredProfile(p));
    if p.TrackingAllowed() && viewer.Some? {
      db.SetProfile(found.value, p.(profileViewCount := p.profileViewCount + 1, updatedAt := now));
    }
  }

  /** One field of `setattr` over `dict(exclude_unset=True)`. */
  function Apply<T>(f: Field<T>, current: T): (v: T)
    ensures f.Unset? ==> v == current
    ensures f.Set? ==> v == f.value
  {
    if f.Set? then f.value else current
  }

  /** The profile with exactly the fields the request sets written, an
      explicit null included; no other column is touched. */
  function ApplyUpdate(p: Profile, u: ProfileUpdate): (q: Profile)
    ensures q.id == p.id && q.userId == p.userId && q.profileViewCount == p.profileViewCount
    ensures q.privacyHeadline == p.privacyHeadline && q.privacyLocation == p.privacyLocation
            && q.privacyBio == p.privacyBio && q.privacyProfilePicture == p.privacyProfilePicture
    ensures q.profilePictureUrl == p.profilePictureUrl && q.createdAt == p.createdAt && q.updatedAt == p.updatedAt
    ensures u.headline.Set? ==> q.headline == u.headline.value
    ensures u.headline.Unset? ==> q.headline == p.headline
    ensures u.location.Set? ==> q.location == u.location.value
    ensures u.location.Unset? ==> q.location == p.location
    ensures u.bio.Set? ==> q.bio == u.bio.value
    ensures u.bio.Unset? ==> q.bio == p.bio
    ensures u.privacyShowEmail.Set? ==> q.privacyShowEmail == u.privacyShowEmail.value
    ensures u.privacyShowEmail.Unset? ==> q.privacyShowEmail == p.privacyShowEmail
    ensures u.privacyShowPhone.Set? ==> q.privacyShowPhone == u.privacyShowPhone.value
    ensures u.privacyShowPhone.Unset? ==> q.privacyShowPhone == p.privacyShowPhone
    ensures u.privacyShowLocation.Set? ==> q.privacyShowLocation == u.privacyShowLocation.value
    ensures u.privacyShowLocation.Unset? ==> q.privacyShowLocation == p.privacyShowLocation
    ensures u.allowProfileViewTracking.Set? ==> q.allowProfileViewTracking == u.allowProfileViewTracking.value
    ensures u.allowProfileViewTracking.Unset? ==> q.allowProfileViewTracking == p.allowProfileViewTracking
  {
    p.(headline := Apply(u.headline, p.headline),
       location := Apply(u.location, p.location),
       bio := Apply(u.bio, p.bio),
       privacyShowEmail := Apply(u.privacyShowEmail, p.privacyShowEmail),
       privacyShowPhone := Apply(u.privacyShowPhone, p.privacyShowPhone),
       privacyShowLocation := Apply(u.privacyShowLocation, p.privacyShowLocation),
       allowProfileViewTracking := Apply(u.allowProfileViewTracking, p.allowProfileViewTracking))
  }

  /** An update that sets nothing changes nothing, and applying the same
      update twice is applying it once. */
  lemma ApplyUpdateLaws(p: Profile, u: ProfileUpdate)
    ensures ApplyUpdate(p, ProfileUpdate(Unset, Unset, Unset, Unset, Unset, Unset, Unset)) == p
    ensures ApplyUpdate(ApplyUpdate(p, u), u) == ApplyUpdate(p, u)
  {
  }

  /** Turning tracking off hides the counter from other viewers and stops
      it from counting, until it is turned on again. */
  lemma TrackingOffStopsCounting(p: Profile, u: ProfileUpdate, viewer: Option<User>)
    requires u.allowProfileViewTracking == Set(Some(false))
    ensures !CountsView(viewer, ApplyUpdate(p, u))
    ensures FilteredProfile(ApplyUpdate(p, u)).profileViewCount == 0
  {
  }

  /** `update_my_profile`: the verified current user, the request's
      limits, the caller's profile; then the set fields are written
      (`updated_at` is stamped only when a value actually changes). */
  method UpdateMyProfile(db: Database, credentials: Option<Jwt>, key: string, now: nat, u: ProfileUpdate)
    returns (r: Result<Profile>)
    requires db.Valid()
    modifies db
    ensures db.Valid()
    ensures var cur := CurrentVerifiedUser(old(db.users), credentials, key, now);
      && (cur.Err? ==> r == Err(cur.error) && unchanged(db))
      && (cur.Ok? && ValidateProfileUpdate(u).Err? ==> r == Err(ValidateProfileUpdate(u).error) && unchanged(db))
      && (cur.Ok? && ValidateProfileUpdate(u).Ok? ==>
            var found := ProfileIndexByUser(old(db.profiles), cur.value.id);
            && (found.None? ==> r == Err(HttpError(NotFound, "Profile not found")) && unchanged(db))
            && (found.Some? ==>
                  var p := old(db.profiles)[found.value];
                  var q := ApplyUpdate(p, u);
                  && r == Ok(if q == p then p else q.(updatedAt := now))
                  && db.profiles == old(db.profiles)[found.value := r.value]
                  && OnlyProfilesChanged(db)))
  {
    var user :- CurrentVerifiedUser(db.users, credentials, key, now);
    var valid :- ValidateProfileUpdate(u);
    var found := ProfileIndexByUser(db.profiles, user.id);
    if found.None? {
      return Err(HttpError(NotFound, "Profile not found"));
    }
    var p := db.profiles[found.value];
    var q := ApplyUpdate(p, valid);
    if q != p {
      q := q.(updatedAt := now);
    }
    db.SetProfile(found.value, q);
    r := Ok(q);
  }

  const DeactivatedMessage := "Account deactivated successfully. Contact admin to reactivate."

  /** `delete_my_profile`: a soft delete that only marks the caller
      inactive; no row is removed. */
  method DeleteMyProfile(db: Database, credentials: Option<Jwt>, key: string, now: nat)
    returns (r: Result<string>)
    requires db.Valid()
    modifies db
    ensures db.Valid()
    ensures var cur := CurrentVerifiedUser(old(db.users), credentials, key, now);
      && (cur.Err? ==> r == Err(cur.error) && unchanged(db))
      && (cur.Ok? ==>
            && r == Ok(DeactivatedMessage)
            && db.users == old(db.users)[UserIndexById(old(db.users), cur.value.id).value :=
                                           cur.value.(isActive := false, updatedAt := now)]
            && OnlyUsersChanged(db))
  {
    var user :- CurrentVerifiedUser(db.users, credentials, key, now);
    var i := UserIndexById(db.users, user.id).value;
    db.SetUser(i, user.(isActive := false, updatedAt := now));
    r := Ok(DeactivatedMessage);
  }

  /** After deactivation no credentials act for that user any more, while
      the row itself stays. */
  lemma DeactivatedUserLockedOut(users: seq<User>, i: nat, credentials: Option<Jwt>, key: string, now: nat, t: nat)
    requires i < |users|
    requires forall a, b :: 0 <= a < b < |users| ==> users[a].id != users[b].id
    ensures var after := users[i := users[i].(isActive := false, updatedAt := t)];
            var cur := CurrentUser(after, credentials, key, now);
            cur.Ok? ==> cur.value.id != users[i].id
  {
    DisabledUserLockedOut(users, i, users[i].(isActive := false, updatedAt := t), credentials, key, now);
  }

  /** The answer of `get_my_profile_stats`. */
  datatype Stats = Stats(userId: nat, email: string, fullName: string, accountCreated: nat, isVerified: bool,
                         role: string, profileViews: nat, profileUpdated: Option<nat>)

  /** `get_my_profile_stats`: the caller's own counter, unfiltered, and
      0 and None when the caller has no profile. */
  function GetMyProfileStats(users: seq<User>, profiles: seq<Profile>, credentials: Option<Jwt>, key: string, now: nat)
    : (r: Result<Stats>)
    ensures r.Err? <==> CurrentVerifiedUser(users, credentials, key, now).Err?
    ensures r.Ok? ==> var u := CurrentVerifiedUser(users, credentials, key, now).value;
                      && r.value.userId == u.id && r.value.role == u.role.Value()
                      && r.value.email == u.email && r.value.fullName == u.fullName
                      && r.value.accountCreated == u.createdAt && r.value.isVerified
                      && (ProfileIndexByUser(profiles, u.id).None? ==> r.value.profileViews == 0 && r.value.profileUpdated.None?)
                      && (ProfileIndexByUser(profiles, u.id).Some? ==>
                            var p := profiles[ProfileIndexByUser(profiles, u.id).value];
                            r.value.profileViews == p.profileViewCount && r.value.profileUpdated == Some(p.updatedAt))
  {
    var user :- CurrentVerifiedUser(users, credentials, key, now);
    var found := ProfileIndexByUser(profiles, user.id);
    Ok(Stats(user.id, user.email, user.fullName, user.createdAt, user.isVerified, user.role.Value(),
             if found.Some? then profiles[found.value].profileViewCount else 0,
             if found.Some? then Some(profiles[found.value].updatedAt) else None))
  }

  /** `get_my_profile`: the caller and the caller's profile, if any. */
  function GetMyProfile(users: seq<User>, profiles: seq<Profile>, credentials: Option<Jwt>, key: string, now: nat)
    : (r: Result<(User, Option<Profile>)>)
    ensures r.Err? <==> CurrentVerifiedUser(users, credentials, key, now).Err?
    ensures r.Ok? ==> r.value.0 == CurrentVerifiedUser(users, credentials, key, now).value
    ensures r.Ok? ==> (r.value.1.Some? <==> exists p :: p in profiles && p.userId == r.value.0.id)
    ensures r.Ok? && r.value.1.Some? ==> r.value.1.value in profiles && r.value.1.value.userId == r.value.0.id
  {
    var user :- CurrentVerifiedUser(users, credentials, key, now);
    var found := ProfileIndexByUser(profiles, user.id);
    if found.Some? then
      assert profiles[found.value] in profiles;
      Ok((user, Some(profiles[found.value])))
    else Ok((user, None))
  }
}
