/** The administrator endpoints: the user and resume listings with their
    filters and pages, the recent activity, and the suspend, activate and
    delete transitions on user accounts. Every endpoint first asks for a
    verified administrator; the request's parameters are checked after. */
module AdminRoutes {
  import opened Wrappers
  import opened Strings
  import opened Query
  import opened Models
  import opened Database
  import opened Security
  import opened Schemas
  import opened Dependencies

  const ListDefaultLimit: nat := 100
  const ListMaxLimit: nat := 1000
  const ActivityDefaultLimit: nat := 50
  const ActivityMaxLimit: nat := 500

  /** The `skip` and `limit` a listing was asked for, after their defaults. */
  datatype Window = Window(skip: nat, limit: nat)

  /** `skip: int = Query(0, ge=0)` and `limit: int = Query(d, ge=1, le=m)`. */
  function ValidateWindow(skip: Option<int>, limit: Option<int>, defaultLimit: nat, maxLimit: nat): (r: Result<Window>)
    ensures r.Ok? <==> (skip.None? || 0 <= skip.value) && (limit.None? || 1 <= limit.value <= maxLimit)
    ensures r.Ok? ==> r.value.skip == skip.GetOr(0) && r.value.limit == limit.GetOr(defaultLimit)
    ensures r.Err? ==> r.error.ValidationError?
  {
    var errors := RangeErrors("skip", skip, 0, None) + RangeErrors("limit", limit, 1, Some(maxLimit));
    if errors != [] then Err(ValidationError(errors))
    else Ok(Window(skip.GetOr(0), limit.GetOr(defaultLimit)))
  }

  /** The member name of a role: `Enum(UserRole)` stores names, and binds a
      compared string by its member's name or by its value. */
  function RoleName(role: UserRole): (n: string)
    ensures n != role.Value()
  {
    match role
    case RoleUser => "USER"
    case RoleRecruiter => "RECRUITER"
    case RoleAdmin => "ADMIN"
  }

  /** `User.role == raw`: a string that names no role matches no row. */
  predicate RoleMatches(role: UserRole, raw: string) {
    raw == role.Value() || raw == RoleName(role)
  }

  /** The optional filters of `list_all_users`. */
  datatype UserFilter = UserFilter(role: Option<string>, isActive: Option<bool>, isVerified: Option<bool>,
                                   isSuspended: Option<bool>)

  /** Every supplied filter holds of `u`; an empty role string is ignored
      like an omitted one. */
  predicate Matches(f: UserFilter, u: User) {
    && (f.role.Some? && f.role.value != "" ==> RoleMatches(u.role, f.role.value))
    && (f.isActive.Some? ==> u.isActive == f.isActive.value)
    && (f.isVerified.Some? ==> u.isVerified == f.isVerified.value)
    && (f.isSuspended.Some? ==> u.isSuspended == f.isSuspended.value)
  }

  function MatchesFilter(f: UserFilter): User -> bool {
    (u: User) => Matches(f, u)
  }

  /** A page of rows, with the count of all rows before paging. */
  datatype Listing<T> = Listing(items: seq<T>, total: nat, skip: nat, limit: nat)

  /** The users `f` admits, in table order. */
  function Matching(users: seq<User>, f: UserFilter): (r: seq<User>)
    ensures |r| <= |users|
    ensures forall u :: u in r <==> u in users && Matches(f, u)
  {
    var m := Filter(users, MatchesFilter(f));
    assert forall u :: MatchesFilter(f)(u) == Matches(f, u);
    m
  }

  /** `list_all_users`: the users every supplied filter admits, counted,
      then paged in table order. */
  function ListAllUsers(users: seq<User>, credentials: Option<Jwt>, key: string, now: nat,
                        skip: Option<int>, limit: Option<int>, f: UserFilter): (r: Result<Listing<User>>)
    ensures var admin := CurrentAdmin(users, credentials, key, now);
      && (admin.Err? ==> r == Err(admin.error))
      && (admin.Ok? ==> (r.Ok? <==> ValidateWindow(skip, limit, ListDefaultLimit, ListMaxLimit).Ok?))
    ensures r.Ok? ==>
      && r.value.total == |Matching(users, f)|
      && r.value.skip == skip.GetOr(0) && r.value.limit == limit.GetOr(ListDefaultLimit)
      && |r.value.items| == (if r.value.skip >= r.value.total then 0 else Min(r.value.limit, r.value.total - r.value.skip))
      && (forall u :: u in r.value.items ==> u in users && Matches(f, u))
      && forall i :: 0 <= i < |r.value.items| ==> r.value.items[i] == Matching(users, f)[r.value.skip + i]
  {
    var _ :- CurrentAdmin(users, credentials, key, now);
    var w :- ValidateWindow(skip, limit, ListDefaultLimit, ListMaxLimit);
    var matching := Matching(users, f);
    var items := Page(matching, w.skip, w.limit);
    PageMembers(matching, w.skip, w.limit);
    Ok(Listing(items, |matching|, w.skip, w.limit))
  }

  /** With no filter (or only an empty role) the total is every user and
      the page is a plain window of the table. */
  lemma UnfilteredListsEveryone(users: seq<User>, credentials: Option<Jwt>, key: string, now: nat,
                                skip: nat, limit: nat, role: Option<string>)
    requires role.None? || role == Some("")
    requires 1 <= limit <= ListMaxLimit
    requires CurrentAdmin(users, credentials, key, now).Ok?
    ensures var r := ListAllUsers(users, credentials, key, now, Some(skip), Some(limit), UserFilter(role, None, None, None));
            r.Ok? && r.value.total == |users| && r.value.items == Page(users, skip, limit)
  {
    var f := UserFilter(role, None, None, None);
    FilterAll(users, MatchesFilter(f));
  }

  /** Supplying one more filter never raises the total. */
  lemma MoreFiltersFewerUsers(users: seq<User>, f: UserFilter, g: UserFilter)
    requires forall u :: Matches(g, u) ==> Matches(f, u)
    ensures |Matching(users, g)| <= |Matching(users, f)|
  {
    FilterMonotone(users, MatchesFilter(g), MatchesFilter(f));
  }

  /** The role filter accepts both spellings of a role and nothing else. */
  lemma RoleFilterSpellings(u: User, raw: string)
    requires raw != ""
    ensures Matches(UserFilter(Some(raw), None, None, None), u) <==> raw == u.role.Value() || raw == RoleName(u.role)
    ensures Matches(UserFilter(Some(u.role.Value()), None, None, None), u)
    ensures raw != "user" && raw != "recruiter" && raw != "admin" && raw != "USER" && raw != "RECRUITER" && raw != "ADMIN"
            ==> !Matches(UserFilter(Some(raw), None, None, None), u)
  {
  }

  /** `list_all_resumes`: every resume counted, then paged in table order. */
  function ListAllResumes(users: seq<User>, resumes: seq<Resume>, credentials: Option<Jwt>, key: string, now: nat,
                          skip: Option<int>, limit: Option<int>): (r: Result<Listing<Resume>>)
    ensures var admin := CurrentAdmin(users, credentials, key, now);
      && (admin.Err? ==> r == Err(admin.error))
      && (admin.Ok? ==> (r.Ok? <==> ValidateWindow(skip, limit, ListDefaultLimit, ListMaxLimit).Ok?))
    ensures r.Ok? ==>
      && r.value.total == |resumes|
      && r.value.skip == skip.GetOr(0) && r.value.limit == limit.GetOr(ListDefaultLimit)
      && |r.value.items| == (if r.value.skip >= |resumes| then 0 else Min(r.value.limit, |resumes| - r.value.skip))
      && forall i :: 0 <= i < |r.value.items| ==> r.value.items[i] == resumes[r.value.skip + i]
  {
    var _ :- CurrentAdmin(users, credentials, key, now);
    var w :- ValidateWindow(skip, limit, ListDefaultLimit, ListMaxLimit);
    Ok(Listing(Page(resumes, w.skip, w.limit), |resumes|, w.skip, w.limit))
  }

  /** A recently registered user as the activity answer lists it. */
  datatype RecentUser = RecentUser(id: nat, email: string, fullName: string, role: string, createdAt: nat)

  /** A recently uploaded resume as the activity answer lists it. */
  datatype RecentResume = RecentResume(id: nat, userId: nat, filename: string, uploadedAt: nat)

  function UserEntry(u: User): RecentUser {
    RecentUser(u.id, u.email, u.fullName, u.role.Value(), u.createdAt)
  }

  function ResumeEntry(x: Resume): RecentResume {
    RecentResume(x.id, x.userId, x.originalFilename, x.uploadedAt)
  }

  function CreatedAt(u: User): int {
    u.createdAt
  }

  function UploadedAt(x: Resume): int {
    x.uploadedAt
  }

  /** The `n` newest users, newest first, as the activity lists them. */
  function RecentUsers(users: seq<User>, n: nat): (r: seq<RecentUser>)
    ensures |r| == Min(n, |users|)
    ensures forall i, j :: 0 <= i < j < |r| ==> r[i].createdAt >= r[j].createdAt
    ensures forall i :: 0 <= i < |r| ==> exists u :: u in users && r[i] == UserEntry(u)
    ensures forall u, i :: u in users && UserEntry(u) !in r && 0 <= i < |r| ==> r[i].createdAt >= u.createdAt
  {
    var us := Newest(users, CreatedAt, n);
    NewestMembers(users, CreatedAt, n);
    var r := Project(us, UserEntry);
    assert forall i :: 0 <= i < |r| ==> us[i] in users && r[i] == UserEntry(us[i]) && r[i].createdAt == CreatedAt(us[i]);
    assert forall u, i :: u in users && UserEntry(u) !in r && 0 <= i < |r| ==> r[i].createdAt >= u.createdAt by {
      forall u, i | u in users && UserEntry(u) !in r && 0 <= i < |r| ensures r[i].createdAt >= u.createdAt {
        NewestProjectedIsTop(users, CreatedAt, n, UserEntry, u, i);
      }
    }
    r
  }

  /** The `n` newest resumes, newest first, as the activity lists them. */
  function RecentResumes(resumes: seq<Resume>, n: nat): (r: seq<RecentResume>)
    ensures |r| == Min(n, |resumes|)
    ensures forall i, j :: 0 <= i < j < |r| ==> r[i].uploadedAt >= r[j].uploadedAt
    ensures forall i :: 0 <= i < |r| ==> exists x :: x in resumes && r[i] == ResumeEntry(x)
    ensures forall x, i :: x in resumes && ResumeEntry(x) !in r && 0 <= i < |r| ==> r[i].uploadedAt >= x.uploadedAt
  {
    var xs := Newest(resumes, UploadedAt, n);
    NewestMembers(resumes, UploadedAt, n);
    var r := Project(xs, ResumeEntry);
    assert forall i :: 0 <= i < |r| ==> xs[i] in resumes && r[i] == ResumeEntry(xs[i]) && r[i].uploadedAt == UploadedAt(xs[i]);
    assert forall x, i :: x in resumes && ResumeEntry(x) !in r && 0 <= i < |r| ==> r[i].uploadedAt >= x.uploadedAt by {
      forall x, i | x in resumes && ResumeEntry(x) !in r && 0 <= i < |r| ensures r[i].uploadedAt >= x.uploadedAt {
        NewestProjectedIsTop(resumes, UploadedAt, n, ResumeEntry, x, i);
      }
    }
    r
  }

  datatype Activity = Activity(recentUsers: seq<RecentUser>, recentResumes: seq<RecentResume>)

  /** `get_recent_activity`: the `limit` newest users and the `limit`
      newest resumes. */
  function GetRecentActivity(users: seq<User>, resumes: seq<Resume>, credentials: Option<Jwt>, key: string, now: nat,
                             limit: Option<int>): (r: Result<Activity>)
    ensures var admin := CurrentAdmin(users, credentials, key, now);
      && (admin.Err? ==> r == Err(admin.error))
      && (admin.Ok? ==> (r.Ok? <==> limit.None? || 1 <= limit.value <= ActivityMaxLimit))
    ensures r.Ok? ==> limit.GetOr(ActivityDefaultLimit) >= 1
                      && r.value == Activity(RecentUsers(users, limit.GetOr(ActivityDefaultLimit)),
                                             RecentResumes(resumes, limit.GetOr(ActivityDefaultLimit)))
  {
    var _ :- CurrentAdmin(users, credentials, key, now);
    var errors := RangeErrors("limit", limit, 1, Some(ActivityMaxLimit));
    if errors != [] then Err(ValidationError(errors))
    else
      var n: nat := limit.GetOr(ActivityDefaultLimit);
      Ok(Activity(RecentUsers(users, n), RecentResumes(resumes, n)))
  }

  /** What `suspend_user` does to its target, or why it refuses. */
  function SuspendStep(u: User, now: nat): (r: Result<User>)
    ensures r.Ok? <==> u.role != RoleAdmin && !u.isSuspended
    ensures u.role == RoleAdmin ==> r == Err(HttpError(Forbidden, "Cannot suspend admin users"))
    ensures r.Ok? ==> r.value.isSuspended && r.value.(isSuspended := u.isSuspended, updatedAt := u.updatedAt) == u
  {
    if u.role == RoleAdmin then Err(HttpError(Forbidden, "Cannot suspend admin users"))
    else if u.isSuspended then Err(HttpError(BadRequest, "User is already suspended"))
    else Ok(u.(isSuspended := true, updatedAt := now))
  }

  /** What `activate_user` does to its target, or why it refuses. */
  function ActivateStep(u: User, now: nat): (r: Result<User>)
    ensures r.Ok? <==> u.isSuspended
    ensures r.Ok? ==> !r.value.isSuspended && r.value.isActive
    ensures r.Ok? ==> r.value.(isSuspended := u.isSuspended, isActive := u.isActive, updatedAt := u.updatedAt) == u
  {
    if !u.isSuspended then Err(HttpError(BadRequest, "User is not suspended"))
    else Ok(u.(isSuspended := false, isActive := true, updatedAt := now))
  }

  /** Activation undoes a suspension, and leaves the account active even
      when it was not before. */
  lemma SuspendThenActivate(u: User, t1: nat, t2: nat)
    requires u.role != RoleAdmin && !u.isSuspended
    ensures SuspendStep(u, t1).Ok? && ActivateStep(SuspendStep(u, t1).value, t2).Ok?
    ensures ActivateStep(SuspendStep(u, t1).value, t2).value == u.(isActive := true, updatedAt := t2)
  {
  }

  /** An account its owner deactivated (and nobody suspended) cannot be
      activated by an administrator: `activate_user` only lifts suspensions. */
  lemma SelfDeactivatedStaysInactive(u: User, now: nat)
    requires !u.isActive && !u.isSuspended
    ensures ActivateStep(u, now) == Err(HttpError(BadRequest, "User is not suspended"))
  {
  }

  /** A suspension takes effect at once: the suspended user's tokens stop
      authenticating on the next request. */
  lemma SuspensionEndsSessions(users: seq<User>, i: nat, now: nat, credentials: Option<Jwt>, key: string, t: nat)
    requires i < |users| && SuspendStep(users[i], now).Ok?
    requires forall a, b :: 0 <= a < b < |users| ==> users[a].id != users[b].id
    ensures var cur := CurrentUser(users[i := SuspendStep(users[i], now).value], credentials, key, t);
            cur.Ok? ==> cur.value.id != users[i].id
  {
    DisabledUserLockedOut(users, i, SuspendStep(users[i], now).value, credentials, key, t);
  }

  /** The answer of `suspend_user`. */
  datatype Suspension = Suspension(message: string, reason: string, userId: nat)

  /** The answer of `activate_user` and `delete_user`. */
  datatype Done = Done(message: string, userId: nat)

  /** `suspend_user`: the administrator, the required `reason` (any
      string: its 10 to 500 character schema is not applied), the target;
      an administrator is never suspended, nor a user twice. */
  method SuspendUser(db: Database, credentials: Option<Jwt>, key: string, now: nat, userId: nat, reason: Option<string>)
    returns (r: Result<Suspension>)
    requires db.Valid()
    modifies db
    ensures db.Valid()
    ensures var admin := CurrentAdmin(old(db.users), credentials, key, now);
            var found := UserIndexById(old(db.users), userId);
      && (admin.Err? ==> r == Err(admin.error) && unchanged(db))
      && (admin.Ok? && reason.None? ==> r == Err(ValidationError(MissingErrors("reason", reason))) && unchanged(db))
      && (admin.Ok? && reason.Some? && found.None? ==> r == Err(HttpError(NotFound, "User not found")) && unchanged(db))
      && (admin.Ok? && reason.Some? && found.Some? ==>
            var u := old(db.users)[found.value];
            var step := SuspendStep(u, now);
            && (step.Err? ==> r == Err(step.error) && unchanged(db))
            && (step.Ok? ==>
                  && r == Ok(Suspension("User " + u.email + " suspended successfully", reason.value, userId))
                  && db.users == old(db.users)[found.value := step.value]
                  && OnlyUsersChanged(db)))
  {
    var _ :- CurrentAdmin(db.users, credentials, key, now);
    if reason.None? {
      return Err(ValidationError(MissingErrors("reason", reason)));
    }
    var found := UserIndexById(db.users, userId);
    if found.None? {
      return Err(HttpError(NotFound, "User not found"));
    }
    var u := db.users[found.value];
    var v :- SuspendStep(u, now);
    db.SetUser(found.value, v);
    r := Ok(Suspension("User " + u.email + " suspended successfully", reason.value, userId));
  }

  /** `activate_user`: lifts a suspension and marks the account active. */
  method ActivateUser(db: Database, credentials: Option<Jwt>, key: string, now: nat, userId: nat)
    returns (r: Result<Done>)
    requires db.Valid()
    modifies db
    ensures db.Valid()
    ensures var admin := CurrentAdmin(old(db.users), credentials, key, now);
            var found := UserIndexById(old(db.users), userId);
      && (admin.Err? ==> r == Err(admin.error) && unchanged(db))
      && (admin.Ok? && found.None? ==> r == Err(HttpError(NotFound, "User not found")) && unchanged(db))
      && (admin.Ok? && found.Some? ==>
            var u := old(db.users)[found.value];
            var step := ActivateStep(u, now);
            && (step.Err? ==> r == Err(step.error) && unchanged(db))
            && (step.Ok? ==>
                  && r == Ok(Done("User " + u.email + " activated successfully", userId))
                  && db.users == old(db.users)[found.value := step.value]
                  && OnlyUsersChanged(db)))
  {
    var _ :- CurrentAdmin(db.users, credentials, key, now);
    var found := UserIndexById(db.users, userId);
    if found.None? {
      return Err(HttpError(NotFound, "User not found"));
    }
    var u := db.users[found.value];
    var v :- ActivateStep(u, now);
    db.SetUser(found.value, v);
    r := Ok(Done("User " + u.email + " activated successfully", userId));
  }

  /** `delete_user`: any existing user but the calling administrator is
      removed, with its profile, resumes and OTP tokens; every other row
      stays. */
  method DeleteUser(db: Database, credentials: Option<Jwt>, key: string, now: nat, userId: nat)
    returns (r: Result<Done>)
    requires db.Valid()
    modifies db
    ensures db.Valid()
    ensures var admin := CurrentAdmin(old(db.users), credentials, key, now);
            var found := UserIndexById(old(db.users), userId);
      && (admin.Err? ==> r == Err(admin.error) && unchanged(db))
      && (admin.Ok? && found.None? ==> r == Err(HttpError(NotFound, "User not found")) && unchanged(db))
      && (admin.Ok? && found.Some? && userId == admin.value.id ==>
            r == Err(HttpError(Forbidden, "Cannot delete your own admin account")) && unchanged(db))
      && (admin.Ok? && found.Some? && userId != admin.value.id ==>
            && r == Ok(Done("User " + old(db.users)[found.value].email + " deleted permanently", userId))
            && db.users == RemoveAt(old(db.users), found.value)
            && UserIds(db.users) == UserIds(old(db.users)) - {userId}
            && (forall p :: p in db.profiles <==> p in old(db.profiles) && p.userId != userId)
            && (forall x :: x in db.resumes <==> x in old(db.resumes) && x.userId != userId)
            && (forall t :: t in db.otpTokens <==> t in old(db.otpTokens) && t.userId != userId))
  {
    var admin :- CurrentAdmin(db.users, credentials, key, now);
    var found := UserIndexById(db.users, userId);
    if found.None? {
      return Err(HttpError(NotFound, "User not found"));
    }
    var u := db.users[found.value];
    if u.role == RoleAdmin && u.id == admin.id {
      return Err(HttpError(Forbidden, "Cannot delete your own admin account"));
    }
    assert u.id == userId;
    if userId == admin.id {
      assert false;
    }
    var email := u.email;
    db.RemoveUser(found.value);
    r := Ok(Done("User " + email + " deleted permanently", userId));
  }
}
