/** The authentication dependencies: from the bearer credentials of a
    request to the user it acts for, or the error that ends the request.
    `credentials` is the token of an `Authorization: Bearer` header
    (section 2.1 of RFC 6750), or None when the request has no such header. */
module Dependencies {
  import opened Wrappers
  import opened Strings
  import opened Models
  import opened Database
  import opened Security

  const InvalidCredentials := HttpError(Unauthorized, "Invalid authentication credentials")
  /** What the bearer scheme answers a request without credentials. */
  const NotAuthenticated := HttpError(Forbidden, "Not authenticated")

  const UserNotFound := HttpError(Unauthorized, "User not found")
  const AccountInactive := HttpError(Forbidden, "User account is inactive")
  const AccountSuspended := HttpError(Forbidden, "User account is suspended")

  /** `get_current_user`: the user whose id is the subject of a valid
      access token, when that user exists and is active and unsuspended.
      No header is 403; a token that does not verify or has no subject is
      401; a subject that is not a decimal string raises (500); an unknown
      id is 401; an inactive, then a suspended, account is 403. */
  function CurrentUser(users: seq<User>, credentials: Option<Jwt>, key: string, now: nat): (r: Result<User>)
    ensures r.Ok? ==> r.value in users && r.value.isActive && !r.value.isSuspended
    ensures r.Ok? ==> UserIndexById(users, r.value.id).Some? && users[UserIndexById(users, r.value.id).value] == r.value
    ensures credentials.None? ==> r == Err(NotAuthenticated)
    ensures credentials.Some? && GetTokenSubject(credentials.value, key, now).None? ==> r == Err(InvalidCredentials)
    ensures credentials.Some? && GetTokenSubject(credentials.value, key, now).Some? ==>
      var sid := SubjectId(GetTokenSubject(credentials.value, key, now).value);
      && (sid.Err? ==> r == Err(Crash))
      && (sid.Ok? && UserIndexById(users, sid.value).None? ==> r == Err(UserNotFound))
      && (sid.Ok? && UserIndexById(users, sid.value).Some? ==>
            var u := users[UserIndexById(users, sid.value).value];
            && (!u.isActive ==> r == Err(AccountInactive))
            && (u.isActive && u.isSuspended ==> r == Err(AccountSuspended))
            && (u.isActive && !u.isSuspended ==> r == Ok(u)))
    ensures r.Ok? ==> r.value.id == SubjectId(GetTokenSubject(credentials.value, key, now).value).value
  {
    if credentials.None? then Err(NotAuthenticated)
    else
      var payload := VerifyToken(credentials.value, key, now, "access");
      if payload.None? then Err(InvalidCredentials)
      else if "sub" !in payload.value then Err(InvalidCredentials)
      else
        var id :- SubjectId(payload.value["sub"]);
        match UserIndexById(users, id)
        case None => Err(UserNotFound)
        case Some(i) =>
          if !users[i].isActive then Err(AccountInactive)
          else if users[i].isSuspended then Err(AccountSuspended)
          else Ok(users[i])
  }

  /** `int(sub)`: a decimal subject is the id; anything else raises. */
  function SubjectId(sub: ClaimValue): (r: Result<nat>)
    ensures r.Ok? <==> sub.Text? && ParseDecimal(sub.text).Some?
    ensures r.Ok? ==> r.value == ParseDecimal(sub.text).value
    ensures r.Err? ==> r.error == Crash
  {
    match sub
    case Instant(_) => Err(Crash)
    case Text(s) => if ParseDecimal(s).Some? then Ok(ParseDecimal(s).value) else Err(Crash)
  }

  /** `get_current_verified_user`. */
  function CurrentVerifiedUser(users: seq<User>, credentials: Option<Jwt>, key: string, now: nat): (r: Result<User>)
    ensures r.Ok? ==> r.value in users && r.value.isActive && !r.value.isSuspended && r.value.isVerified
    ensures r.Ok? ==> UserIndexById(users, r.value.id).Some? && users[UserIndexById(users, r.value.id).value] == r.value
    ensures r.Ok? <==> CurrentUser(users, credentials, key, now).Ok? && CurrentUser(users, credentials, key, now).value.isVerified
  {
    var user :- CurrentUser(users, credentials, key, now);
    if !user.isVerified then Err(HttpError(Forbidden, "Email not verified. Please verify your email first."))
    else Ok(user)
  }

  /** `get_current_admin`: a verified administrator. */
  function CurrentAdmin(users: seq<User>, credentials: Option<Jwt>, key: string, now: nat): (r: Result<User>)
    ensures r.Ok? ==> r.value in users && r.value.isActive && !r.value.isSuspended && r.value.isVerified
    ensures r.Ok? ==> r.value.role == RoleAdmin
    ensures r.Ok? <==> CurrentVerifiedUser(users, credentials, key, now).Ok?
                       && CurrentVerifiedUser(users, credentials, key, now).value.role == RoleAdmin
  {
    var user :- CurrentVerifiedUser(users, credentials, key, now);
    if user.role != RoleAdmin then Err(HttpError(Forbidden, "Admin privileges required")) else Ok(user)
  }

  /** `get_current_recruiter`: a verified recruiter or administrator. */
  function CurrentRecruiter(users: seq<User>, credentials: Option<Jwt>, key: string, now: nat): (r: Result<User>)
    ensures r.Ok? ==> r.value in users && r.value.isActive && !r.value.isSuspended && r.value.isVerified
    ensures r.Ok? ==> r.value.role == RoleRecruiter || r.value.role == RoleAdmin
    ensures r.Ok? <==> CurrentVerifiedUser(users, credentials, key, now).Ok?
                       && CurrentVerifiedUser(users, credentials, key, now).value.role in {RoleRecruiter, RoleAdmin}
  {
    var user :- CurrentVerifiedUser(users, credentials, key, now);
    if user.role != RoleRecruiter && user.role != RoleAdmin then
      Err(HttpError(Forbidden, "Recruiter or admin privileges required"))
    else Ok(user)
  }

  /** `get_optional_current_user`: the user when the credentials
      authenticate an active, unsuspended user, verified or not; None for
      anything else. Only a subject that is not a decimal string makes it
      raise. */
  function OptionalCurrentUser(users: seq<User>, credentials: Option<Jwt>, key: string, now: nat): (r: Result<Option<User>>)
    ensures r.Ok? && r.value.Some? ==> r.value.value in users && r.value.value.isActive && !r.value.value.isSuspended
  {
    if credentials.None? then Ok(None)
    else
      var payload := VerifyToken(credentials.value, key, now, "access");
      if payload.None? then Ok(None)
      else if "sub" !in payload.value then Ok(None)
      else
        var id :- SubjectId(payload.value["sub"]);
        match UserIndexById(users, id)
        case None => Ok(None)
        case Some(i) => if users[i].isActive && !users[i].isSuspended then Ok(Some(users[i])) else Ok(None)
  }

  /** The optional dependency agrees with the required one: it yields a
      user exactly when `get_current_user` does, the same user; it yields
      None exactly when `get_current_user` refuses with 401 or 403; and it
      raises exactly when `get_current_user` does. */
  lemma {:induction false} OptionalAgreesWithRequired(users: seq<User>, credentials: Option<Jwt>, key: string, now: nat)
    ensures var opt := OptionalCurrentUser(users, credentials, key, now);
            var req := CurrentUser(users, credentials, key, now);
            && (req.Ok? <==> opt.Ok? && opt.value.Some?)
            && (req.Ok? ==> opt.value.value == req.value)
            && (req.Err? && req.error.Status() in {Unauthorized, Forbidden} <==> opt == Ok(None))
            && (req.Err? && req.error == Crash <==> opt.Err?)
  {
    if credentials.Some? {
      var payload := VerifyToken(credentials.value, key, now, "access");
      if payload.Some? && "sub" in payload.value {
        var sid := SubjectId(payload.value["sub"]);
        if sid.Ok? {
          match UserIndexById(users, sid.value)
          case None =>
          case Some(i) =>
        }
      }
    }
  }

  /** The claims the routers put in an access token for `user`. */
  function AccessData(user: User): Claims {
    map["sub" := Text(DecimalString(user.id)), "email" := Text(user.email)]
  }

  /** An access token issued for a user authenticates that user until it
      expires, as long as the user stays active and unsuspended, and no
      refresh token authenticates anyone. */
  lemma {:induction false} IssuedAccessTokenAuthenticates(users: seq<User>, i: nat, key: string, issuedAt: nat, now: nat)
    requires i < |users|
    requires forall j :: 0 <= j < i ==> users[j].id != users[i].id
    requires users[i].isActive && !users[i].isSuspended
    requires issuedAt <= now <= issuedAt + AccessTokenLifetime
    ensures CurrentUser(users, Some(CreateAccessToken(AccessData(users[i]), None, key, issuedAt)), key, now) == Ok(users[i])
    ensures CurrentUser(users, Some(CreateRefreshToken(AccessData(users[i]), key, issuedAt)), key, now) == Err(InvalidCredentials)
  {
    var data := AccessData(users[i]);
    AccessTokenLifetimeWindow(data, key, issuedAt, now);
    var token := CreateAccessToken(data, None, key, issuedAt);
    var payload := VerifyToken(token, key, now, "access");
    assert payload.Some?;
    assert payload.value["sub"] == Text(DecimalString(users[i].id));
    ParseDecimalString(users[i].id);
    assert SubjectId(payload.value["sub"]) == Ok(users[i].id);
    var found := UserIndexById(users, users[i].id);
    assert found.Some?;
    FirstIndexIsFirst(users, users[i].id, found.value, i);
    assert found.value == i;
  }

  /** Once a user's row is inactive or suspended, no credentials act for
      that user, however recently its tokens were issued. */
  lemma {:induction false} DisabledUserLockedOut(users: seq<User>, i: nat, disabled: User, credentials: Option<Jwt>,
                                                 key: string, now: nat)
    requires i < |users| && disabled.id == users[i].id
    requires !disabled.isActive || disabled.isSuspended
    requires forall a, b :: 0 <= a < b < |users| ==> users[a].id != users[b].id
    ensures var cur := CurrentUser(users[i := disabled], credentials, key, now);
            cur.Ok? ==> cur.value.id != users[i].id
  {
    var after := users[i := disabled];
    var cur := CurrentUser(after, credentials, key, now);
    if cur.Ok? {
      var k :| 0 <= k < |after| && after[k] == cur.value;
      assert k != i;
      assert after[k] == users[k];
      if k < i {
        assert users[k].id != users[i].id;
      } else {
        assert users[i].id != users[k].id;
      }
    }
  }

  /** No row before the one `UserIndexById` finds has the id. */
  lemma FirstIndexIsFirst(users: seq<User>, id: nat, k: nat, i: nat)
    requires UserIndexById(users, id) == Some(k) && i < |users| && users[i].id == id
    ensures k <= i
  {
  }
}
