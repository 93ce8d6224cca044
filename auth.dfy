/** The account endpoints: registration with e-mail verification by OTP,
    login, token refresh, password reset and the TOTP second factor.

    Each handler is a chain of guards, each ending the request with an
    error, followed by field updates on the loaded rows. The clock, the
    password salt, the OTP digits, the TOTP secret and the signing key are
    inputs; the RFC 6238 check of a TOTP code is the parameter
    `verifyTotp(secret, code)`. A row that is updated gets `updatedAt := now`
    (the `onupdate` of the `updated_at` columns). */
module Auth {
  import opened Wrappers
  import opened Strings
  import opened Models
  import opened Database
  import opened Security
  import opened Otp
  import opened Schemas
  import opened Dependencies

  /** The `Token` answer: an access token and a refresh token. */
  datatype TokenPair = TokenPair(accessToken: Jwt, refreshToken: Jwt)

  /** The pair the handlers issue for `user`: the access token carries the
      id and the e-mail, the refresh token only the id. */
  function IssueTokens(user: User, key: string, now: nat): TokenPair {
    TokenPair(CreateAccessToken(AccessData(user), None, key, now),
              CreateRefreshToken(map["sub" := Text(DecimalString(user.id))], key, now))
  }

  const RegistrationPurpose := "registration"
  const PasswordResetPurpose := "password_reset"

  /** The row `register` adds: active, unverified, unsuspended, without a
      second factor, with the role of the request. */
  function NewUser(id: nat, data: RegisterData, salt: string, now: nat): (u: User)
    ensures u.isActive && !u.isVerified && !u.isSuspended && !u.totpEnabled && u.totpSecret.None?
    ensures u.id == id && u.email == data.email && u.role == data.role && u.fullName == data.fullName
    ensures VerifyPassword(data.password, u.hashedPassword)
  {
    User(id, data.email, HashPassword(salt, data.password), data.fullName, data.role,
         true, false, false, now, now, None, false)
  }

  /** With no token of the user in the table, `create_otp_token` has
      nothing to invalidate. */
  lemma InvalidateLiveNothing(tokens: seq<OtpToken>, userId: nat, purpose: string, now: nat)
    requires forall i :: 0 <= i < |tokens| ==> tokens[i].userId != userId
    ensures InvalidateLive(tokens, userId, purpose, now) == tokens
  {
  }

  /** `register`: a valid request for an unknown e-mail adds the user, an
      empty profile and a registration OTP, and answers with the e-mail. */
  method Register(db: Database, email: string, password: string, fullName: string, role: Field<string>,
                  salt: string, draws: seq<Digit>, now: nat)
    returns (r: Result<string>)
    requires db.Valid() && |draws| == OtpLength
    modifies db
    ensures db.Valid()
    ensures ValidateRegister(email, password, fullName, role).Err? ==>
              r == Err(ValidateRegister(email, password, fullName, role).error) && unchanged(db)
    ensures ValidateRegister(email, password, fullName, role).Ok? && UserIndexByEmail(old(db.users), email).Some? ==>
              r == Err(HttpError(BadRequest, "Email already registered")) && unchanged(db)
    ensures r.Ok? <==> ValidateRegister(email, password, fullName, role).Ok? && UserIndexByEmail(old(db.users), email).None?
    ensures r.Ok? ==>
      && r.value == email
      && db.users == old(db.users) + [NewUser(old(db.nextUserId), ValidateRegister(email, password, fullName, role).value, salt, now)]
      && db.profiles == old(db.profiles) + [EmptyProfile(old(db.nextProfileId), old(db.nextUserId), now)]
      && db.otpTokens == old(db.otpTokens) + [NewToken(old(db.nextOtpId), old(db.nextUserId), HashOtp(GenerateOtp(draws)),
                                                       RegistrationPurpose, now, DefaultValidityMinutes)]
      && db.resumes == old(db.resumes)
      && db.nextUserId == old(db.nextUserId) + 1 && db.nextProfileId == old(db.nextProfileId) + 1
      && db.nextOtpId == old(db.nextOtpId) + 1 && db.nextResumeId == old(db.nextResumeId)
  {
    var data :- ValidateRegister(email, password, fullName, role);
    if UserIndexByEmail(db.users, data.email).Some? {
      return Err(HttpError(BadRequest, "Email already registered"));
    }
    var id := db.nextUserId;
    assert id !in UserIds(db.users);
    db.AddUser(NewUser(id, data, salt, now));
    assert forall q | q in db.profiles :: q.userId != id;
    db.AddProfile(EmptyProfile(db.nextProfileId, id, now));
    assert forall j :: 0 <= j < |db.otpTokens| ==> db.otpTokens[j].userId != id;
    InvalidateLiveNothing(db.otpTokens, id, RegistrationPurpose, now);
    var code, token := CreateOtpToken(db, id, RegistrationPurpose, DefaultValidityMinutes, draws, now);
    r := Ok(data.email);
  }

  /** `verify_otp_endpoint`: a well-formed address and a six-character code
      (422 otherwise); then, for a known, unverified
      user goes through `verify_otp` (whose bookkeeping is kept even when it
      fails); only a valid code verifies the user and returns tokens. */
  method VerifyOtpEndpoint(db: Database, email: string, otp: string, key: string, now: nat)
    returns (r: Result<TokenPair>)
    requires db.Valid()
    modifies db
    ensures db.Valid()
    ensures !(ValidEmail(email) && |otp| == OtpLength) ==>
              r == Err(ValidationError(EmailErrors("email", email) + OtpErrors(otp))) && unchanged(db)
    ensures ValidEmail(email) && |otp| == OtpLength && UserIndexByEmail(old(db.users), email).None? ==>
              r == Err(HttpError(NotFound, "User not found")) && unchanged(db)
    ensures ValidEmail(email) && |otp| == OtpLength && UserIndexByEmail(old(db.users), email).Some? ==>
      var i := UserIndexByEmail(old(db.users), email).value;
      var user := old(db.users)[i];
      var outcome := VerifyOtpOutcome(old(db.otpTokens), user.id, otp, RegistrationPurpose, now, DefaultMaxAttempts);
      && (user.isVerified ==> r == Err(HttpError(BadRequest, "Email already verified")) && unchanged(db))
      && (!user.isVerified && !outcome.0.valid ==>
            && r == Err(HttpError(BadRequest, outcome.0.error.value))
            && db.otpTokens == outcome.1 && db.users == old(db.users))
      && (!user.isVerified && outcome.0.valid ==>
            && r == Ok(IssueTokens(user, key, now))
            && db.otpTokens == outcome.1
            && db.users == old(db.users)[i := user.(isVerified := true, updatedAt := now)])
      && (!user.isVerified ==>
            && db.profiles == old(db.profiles) && db.resumes == old(db.resumes)
            && db.nextUserId == old(db.nextUserId) && db.nextProfileId == old(db.nextProfileId)
            && db.nextResumeId == old(db.nextResumeId) && db.nextOtpId == old(db.nextOtpId))
  {
    var errors := EmailErrors("email", email) + OtpErrors(otp);
    if errors != [] {
      return Err(ValidationError(errors));
    }
    var found := UserIndexByEmail(db.users, email);
    if found.None? {
      return Err(HttpError(NotFound, "User not found"));
    }
    var i := found.value;
    var user := db.users[i];
    if user.isVerified {
      return Err(HttpError(BadRequest, "Email already verified"));
    }
    var check := VerifyOtp(db, user.id, otp, RegistrationPurpose, now, DefaultMaxAttempts);
    if !check.valid {
      return Err(HttpError(BadRequest, check.error.value));
    }
    db.SetUser(i, user.(isVerified := true, updatedAt := now));
    r := Ok(IssueTokens(user, key, now));
  }

  const IncorrectCredentials := HttpError(Unauthorized, "Incorrect email or password")

  /** The guards `login` and `login_with_totp` share, in order: an unknown
      e-mail or a wrong password (one answer for both), then inactive,
      suspended and unverified accounts. The index of the user on success. */
  function LoginGuards(users: seq<User>, email: string, password: string): (r: Result<nat>)
    ensures r.Ok? ==> r.value < |users| && users[r.value].email == email
    ensures r.Ok? ==> VerifyPassword(password, users[r.value].hashedPassword)
                      && users[r.value].isActive && !users[r.value].isSuspended && users[r.value].isVerified
    ensures r.Err? ==> r.error.Status() in {Unauthorized, Forbidden}
  {
    match UserIndexByEmail(users, email)
    case None => Err(IncorrectCredentials)
    case Some(i) =>
      if !VerifyPassword(password, users[i].hashedPassword) then Err(IncorrectCredentials)
      else if !users[i].isActive then Err(HttpError(Forbidden, "Account is inactive"))
      else if users[i].isSuspended then Err(HttpError(Forbidden, "Account is suspended"))
      else if !users[i].isVerified then Err(HttpError(Forbidden, "Email not verified. Please verify your email first."))
      else Ok(i)
  }

  /** Login does not tell an unknown e-mail from a wrong password, and it
      reports the account's state only once the password is right. */
  lemma LoginHidesUnknownEmail(users: seq<User>, email: string, password: string)
    ensures UserIndexByEmail(users, email).None? ==> LoginGuards(users, email, password) == Err(IncorrectCredentials)
    ensures UserIndexByEmail(users, email).Some?
            && !VerifyPassword(password, users[UserIndexByEmail(users, email).value].hashedPassword) ==>
              LoginGuards(users, email, password) == Err(IncorrectCredentials)
  {
  }

  /** Login never looks at the second factor: turning TOTP on or off for
      any user changes nothing in its answer. */
  lemma {:induction false} LoginIgnoresTotp(users: seq<User>, k: nat, enabled: bool, secret: Option<string>,
                                            email: string, password: string)
    requires k < |users|
    ensures LoginGuards(users[k := users[k].(totpEnabled := enabled, totpSecret := secret)], email, password)
            == LoginGuards(users, email, password)
  {
    var changed := users[k := users[k].(totpEnabled := enabled, totpSecret := secret)];
    assert forall j :: 0 <= j < |users| ==> changed[j].email == users[j].email;
    var a, b := UserIndexByEmail(changed, email), UserIndexByEmail(users, email);
    if a.Some? {
      assert users[a.value].email == email;
      FirstEmailIsFirst(users, email, a.value);
    }
    if b.Some? {
      assert changed[b.value].email == email;
      FirstEmailIsFirst(changed, email, b.value);
    }
  }

  /** `UserIndexByEmail` finds the first row with the e-mail. */
  lemma FirstEmailIsFirst(users: seq<User>, email: string, i: nat)
    requires i < |users| && users[i].email == email
    ensures UserIndexByEmail(users, email).Some? && UserIndexByEmail(users, email).value <= i
  {
    assert users[i] in users;
  }

  /** `login` as written: once every guard passes it assigns
      `db.func.now()`, which a `Session` does not have, so the request ends
      in an unhandled `AttributeError`. No login succeeds. */
  function LoginAsWritten(users: seq<User>, email: string, password: string, key: string, now: nat): (r: Result<TokenPair>)
    ensures r.Err?
    ensures !ValidEmail(email) ==> r.error.ValidationError?
    ensures ValidEmail(email) && LoginGuards(users, email, password).Ok? ==> r == Err(Crash)
  {
    if !ValidEmail(email) then Err(ValidationError(EmailErrors("email", email))) else
    var i :- LoginGuards(users, email, password);
    Err(Crash)
  }

  /** `login` as intended: a malformed address is refused with 422 before
      the handler runs; otherwise it stamps the user's `updated_at` and
      returns the token pair of the user the guards found. */
  method Login(db: Database, email: string, password: string, key: string, now: nat)
    returns (r: Result<TokenPair>)
    requires db.Valid()
    modifies db
    ensures db.Valid()
    ensures !ValidEmail(email) ==> r == Err(ValidationError(EmailErrors("email", email))) && unchanged(db)
    ensures ValidEmail(email) && LoginGuards(old(db.users), email, password).Err? ==>
              r == Err(LoginGuards(old(db.users), email, password).error) && unchanged(db)
    ensures ValidEmail(email) && LoginGuards(old(db.users), email, password).Ok? ==>
      var i := LoginGuards(old(db.users), email, password).value;
      && r == Ok(IssueTokens(old(db.users)[i], key, now))
      && db.users == old(db.users)[i := old(db.users)[i].(updatedAt := now)]
      && OnlyUsersChanged(db)
  {
    if !ValidEmail(email) {
      return Err(ValidationError(EmailErrors("email", email)));
    }
    var g := LoginGuards(db.users, email, password);
    if g.Err? {
      return Err(g.error);
    }
    var user := db.users[g.value];
    db.SetUser(g.value, user.(updatedAt := now));
    r := Ok(IssueTokens(user, key, now));
  }

  /** A user that logs in gets an access token that authenticates that
      same user for its 30 minutes. */
  lemma {:induction false} LoginTokensAuthenticate(users: seq<User>, email: string, password: string, key: string,
                                                   issuedAt: nat, now: nat)
    requires forall i, j :: 0 <= i < j < |users| ==> users[i].id != users[j].id
    requires LoginGuards(users, email, password).Ok?
    requires issuedAt <= now <= issuedAt + AccessTokenLifetime
    ensures var i := LoginGuards(users, email, password).value;
            CurrentVerifiedUser(users, Some(IssueTokens(users[i], key, issuedAt).accessToken), key, now) == Ok(users[i])
  {
    var i := LoginGuards(users, email, password).value;
    IssuedAccessTokenAuthenticates(users, i, key, issuedAt, now);
  }

  const InvalidRefreshToken := HttpError(Unauthorized, "Invalid refresh token")
  const InvalidTokenPayload := HttpError(Unauthorized, "Invalid token payload")
  const UserGone := HttpError(Unauthorized, "User not found or inactive")

  /** `refresh_token`: a valid refresh token whose subject is an existing,
      active, unsuspended user (verified or not) gets a new pair for that
      user. A token that does not verify, a missing or empty subject, and a
      missing, inactive or suspended user are each refused with 401; a
      subject that is not a decimal string raises. */
  function RefreshTokens(users: seq<User>, refreshToken: Jwt, key: string, now: nat): (r: Result<TokenPair>)
    ensures r.Ok? ==> VerifyToken(refreshToken, key, now, "refresh").Some?
    ensures r.Ok? ==> exists i :: 0 <= i < |users| && users[i].isActive && !users[i].isSuspended
                                  && r.value == IssueTokens(users[i], key, now)
    ensures r.Err? ==> r.error == Crash || r.error.Status() == Unauthorized
    ensures var p := VerifyToken(refreshToken, key, now, "refresh");
      && (p.None? ==> r == Err(InvalidRefreshToken))
      && (p.Some? && ("sub" !in p.value || p.value["sub"] == Text("")) ==> r == Err(InvalidTokenPayload))
      && (p.Some? && "sub" in p.value && p.value["sub"] != Text("") ==>
            var sid := SubjectId(p.value["sub"]);
            && (sid.Err? ==> r == Err(Crash))
            && (sid.Ok? && UserIndexById(users, sid.value).None? ==> r == Err(UserGone))
            && (sid.Ok? && UserIndexById(users, sid.value).Some? ==>
                  var u := users[UserIndexById(users, sid.value).value];
                  && (!u.isActive || u.isSuspended ==> r == Err(UserGone))
                  && (u.isActive && !u.isSuspended ==> r == Ok(IssueTokens(u, key, now)) && u.id == sid.value)))
  {
    var payload := VerifyToken(refreshToken, key, now, "refresh");
    if payload.None? then Err(InvalidRefreshToken)
    else if "sub" !in payload.value || payload.value["sub"] == Text("") then Err(InvalidTokenPayload)
    else
      var id :- SubjectId(payload.value["sub"]);
      match UserIndexById(users, id)
      case None => Err(UserGone)
      case Some(i) =>
        if !users[i].isActive || users[i].isSuspended then Err(UserGone)
        else Ok(IssueTokens(users[i], key, now))
  }

  /** Issue then refresh: the refresh token of a pair gets a fresh pair for
      the same user throughout its seven days, whether or not the user is
      verified, as long as the user stays active and unsuspended; the
      access token of a pair is never accepted for a refresh. */
  lemma {:induction false} RefreshRoundTrip(users: seq<User>, i: nat, key: string, issuedAt: nat, now: nat)
    requires i < |users| && forall j :: 0 <= j < i ==> users[j].id != users[i].id
    requires users[i].isActive && !users[i].isSuspended
    requires issuedAt <= now <= issuedAt + RefreshTokenLifetime
    ensures RefreshTokens(users, IssueTokens(users[i], key, issuedAt).refreshToken, key, now) == Ok(IssueTokens(users[i], key, now))
    ensures RefreshTokens(users, IssueTokens(users[i], key, issuedAt).accessToken, key, now)
            == Err(InvalidRefreshToken)
  {
    var data := map["sub" := Text(DecimalString(users[i].id))];
    RefreshTokenLifetimeWindow(data, key, issuedAt, now);
    var payload := VerifyToken(CreateRefreshToken(data, key, issuedAt), key, now, "refresh");
    assert payload.Some?;
    assert payload.value["sub"] == Text(DecimalString(users[i].id));
    ParseDecimalString(users[i].id);
    assert DecimalString(users[i].id) != "";
    assert SubjectId(payload.value["sub"]) == Ok(users[i].id);
    var found := UserIndexById(users, users[i].id);
    FirstIndexIsFirst(users, users[i].id, found.value, i);
    assert found.value == i;
    TokenTypesDisjoint(AccessData(users[i]), None, key, issuedAt, now);
  }

  const ResetRequestedMessage := "If the email exists, a password reset OTP has been sent."

  /** `request_password_reset`: a malformed address is refused with 422;
      otherwise the same answer whether or not the e-mail is known, and for
      a known one a password-reset OTP is issued. */
  method RequestPasswordReset(db: Database, email: string, draws: seq<Digit>, now: nat)
    returns (r: Result<string>)
    requires db.Valid() && |draws| == OtpLength
    modifies db
    ensures db.Valid()
    ensures !ValidEmail(email) ==> r == Err(ValidationError(EmailErrors("email", email))) && unchanged(db)
    ensures ValidEmail(email) ==> r == Ok(ResetRequestedMessage)
    ensures ValidEmail(email) && UserIndexByEmail(old(db.users), email).None? ==> unchanged(db)
    ensures ValidEmail(email) && UserIndexByEmail(old(db.users), email).Some? ==>
      var userId := old(db.users)[UserIndexByEmail(old(db.users), email).value].id;
      && db.otpTokens == InvalidateLive(old(db.otpTokens), userId, PasswordResetPurpose, now)
                         + [NewToken(old(db.nextOtpId), userId, HashOtp(GenerateOtp(draws)), PasswordResetPurpose,
                                     now, DefaultValidityMinutes)]
      && db.users == old(db.users) && db.profiles == old(db.profiles) && db.resumes == old(db.resumes)
      && db.nextOtpId == old(db.nextOtpId) + 1 && db.nextUserId == old(db.nextUserId)
      && db.nextProfileId == old(db.nextProfileId) && db.nextResumeId == old(db.nextResumeId)
  {
    if !ValidEmail(email) {
      return Err(ValidationError(EmailErrors("email", email)));
    }
    var found := UserIndexByEmail(db.users, email);
    if found.Some? {
      var userId := db.users[found.value].id;
      assert userId in UserIds(db.users);
      var code, token := CreateOtpToken(db, userId, PasswordResetPurpose, DefaultValidityMinutes, draws, now);
    }
    r := Ok(ResetRequestedMessage);
  }

  const ResetDoneMessage := "Password reset successful. You can now login with your new password."

  /** `confirm_password_reset`: the password changes only when a
      password-reset OTP of the user verifies. */
  method ConfirmPasswordReset(db: Database, email: string, otp: string, newPassword: string, salt: string, now: nat)
    returns (r: Result<string>)
    requires db.Valid()
    modifies db
    ensures db.Valid()
    ensures ValidateResetConfirm(email, otp, newPassword).Err? ==>
              r == Err(ValidateResetConfirm(email, otp, newPassword).error) && unchanged(db)
    ensures ValidateResetConfirm(email, otp, newPassword).Ok? && UserIndexByEmail(old(db.users), email).None? ==>
              r == Err(HttpError(NotFound, "User not found")) && unchanged(db)
    ensures ValidateResetConfirm(email, otp, newPassword).Ok? && UserIndexByEmail(old(db.users), email).Some? ==>
      var i := UserIndexByEmail(old(db.users), email).value;
      var user := old(db.users)[i];
      var outcome := VerifyOtpOutcome(old(db.otpTokens), user.id, otp, PasswordResetPurpose, now, DefaultMaxAttempts);
      && db.otpTokens == outcome.1
      && (outcome.0.valid ==>
            && r == Ok(ResetDoneMessage)
            && db.users == old(db.users)[i := user.(hashedPassword := HashPassword(salt, newPassword), updatedAt := now)])
      && (!outcome.0.valid ==> r == Err(HttpError(BadRequest, outcome.0.error.value)) && db.users == old(db.users))
      && db.profiles == old(db.profiles) && db.resumes == old(db.resumes)
      && db.nextUserId == old(db.nextUserId) && db.nextOtpId == old(db.nextOtpId)
      && db.nextProfileId == old(db.nextProfileId) && db.nextResumeId == old(db.nextResumeId)
  {
    var data :- ValidateResetConfirm(email, otp, newPassword);
    var found := UserIndexByEmail(db.users, email);
    if found.None? {
      return Err(HttpError(NotFound, "User not found"));
    }
    var i := found.value;
    var user := db.users[i];
    var check := VerifyOtp(db, user.id, otp, PasswordResetPurpose, now, DefaultMaxAttempts);
    if !check.valid {
      return Err(HttpError(BadRequest, check.error.value));
    }
    db.SetUser(i, user.(hashedPassword := HashPassword(salt, newPassword), updatedAt := now));
    r := Ok(ResetDoneMessage);
  }

  /** The purposes are separate: a user whose only unused codes were
      issued for registration cannot reset the password with any code. */
  lemma {:induction false} PurposesSeparate(tokens: seq<OtpToken>, userId: nat, plain: string, now: nat)
    requires forall j :: 0 <= j < |tokens| && tokens[j].userId == userId && !tokens[j].isUsed ==>
               tokens[j].purpose == RegistrationPurpose
    ensures VerifyOtpOutcome(tokens, userId, plain, PasswordResetPurpose, now, DefaultMaxAttempts)
            == (OtpCheck(false, Some("No valid OTP found")), tokens)
  {
    assert forall j :: 0 <= j < |tokens| ==> !Candidate(tokens[j], userId, PasswordResetPurpose);
  }

  // ---- The TOTP second factor ----

  /** `enable_totp` on the current user: refused when already enabled;
      otherwise stores the new secret, still disabled until verified. */
  function EnableTotpStep(u: User, secret: string, now: nat): (r: Result<User>)
    ensures r.Ok? <==> !u.totpEnabled
    ensures r.Ok? ==> !r.value.totpEnabled && r.value.totpSecret == Some(secret)
                      && r.value == u.(totpSecret := Some(secret), updatedAt := now)
    ensures r.Err? ==> r.error == HttpError(BadRequest, "TOTP is already enabled")
  {
    if u.totpEnabled then Err(HttpError(BadRequest, "TOTP is already enabled"))
    else Ok(u.(totpSecret := Some(secret), updatedAt := now))
  }

  /** `verify_totp_setup` on the current user: needs a stored secret, TOTP
      not yet enabled, and a code that verifies under the secret. */
  function VerifyTotpStep(u: User, token: string, verifyTotp: (string, string) -> bool, now: nat): (r: Result<User>)
    ensures r.Ok? <==> u.HasTotpSecret() && !u.totpEnabled && verifyTotp(u.totpSecret.value, token)
    ensures r.Ok? ==> r.value.totpEnabled && r.value.totpSecret == u.totpSecret
                      && r.value == u.(totpEnabled := true, updatedAt := now)
    ensures r.Err? ==> r.error.Status() == BadRequest
  {
    if !u.HasTotpSecret() then Err(HttpError(BadRequest, "TOTP not initialized. Call /auth/totp/enable first."))
    else if u.totpEnabled then Err(HttpError(BadRequest, "TOTP is already enabled"))
    else if !verifyTotp(u.totpSecret.value, token) then Err(HttpError(BadRequest, "Invalid TOTP code"))
    else Ok(u.(totpEnabled := true, updatedAt := now))
  }

  /** `disable_totp` on the current user: needs TOTP enabled and the
      account's password; clears both fields. */
  function DisableTotpStep(u: User, password: string, now: nat): (r: Result<User>)
    ensures r.Ok? <==> u.totpEnabled && VerifyPassword(password, u.hashedPassword)
    ensures r.Ok? ==> !r.value.totpEnabled && r.value.totpSecret.None?
                      && r.value == u.(totpEnabled := false, totpSecret := None, updatedAt := now)
    ensures r.Err? ==> r.error.Status() in {BadRequest, Unauthorized}
  {
    if !u.totpEnabled then Err(HttpError(BadRequest, "TOTP is not enabled"))
    else if !VerifyPassword(password, u.hashedPassword) then Err(HttpError(Unauthorized, "Incorrect password"))
    else Ok(u.(totpEnabled := false, totpSecret := None, updatedAt := now))
  }

  /** The second factor is on only with a secret to check codes against. */
  predicate TotpConsistent(u: User) {
    u.totpEnabled ==> u.HasTotpSecret()
  }

  /** Each of the three steps keeps a user consistent, given that the
      generated secret is non-empty (a base32 secret always is). */
  lemma TotpStepsKeepConsistent(u: User, secret: string, token: string, verifyTotp: (string, string) -> bool,
                                password: string, now: nat)
    requires TotpConsistent(u) && secret != ""
    ensures EnableTotpStep(u, secret, now).Ok? ==> TotpConsistent(EnableTotpStep(u, secret, now).value)
    ensures VerifyTotpStep(u, token, verifyTotp, now).Ok? ==> TotpConsistent(VerifyTotpStep(u, token, verifyTotp, now).value)
    ensures DisableTotpStep(u, password, now).Ok? ==> TotpConsistent(DisableTotpStep(u, password, now).value)
  {
  }

  /** Enable, then verify with a code the authenticator accepts, then
      disable with the password: the user ends with TOTP off and no
      secret, every other field as before enabling. */
  lemma {:induction false} TotpLifecycle(u: User, secret: string, token: string, verifyTotp: (string, string) -> bool,
                                         password: string, t1: nat, t2: nat, t3: nat)
    requires !u.totpEnabled && secret != "" && verifyTotp(secret, token)
    requires VerifyPassword(password, u.hashedPassword)
    ensures EnableTotpStep(u, secret, t1).Ok?
    ensures var enabled := VerifyTotpStep(EnableTotpStep(u, secret, t1).value, token, verifyTotp, t2);
            && enabled.Ok? && enabled.value.totpEnabled
            && DisableTotpStep(enabled.value, password, t3) == Ok(u.(totpSecret := None, updatedAt := t3))
  {
    var pending := EnableTotpStep(u, secret, t1).value;
    assert pending.HasTotpSecret();
    var enabled := VerifyTotpStep(pending, token, verifyTotp, t2);
    assert enabled.Ok?;
  }

  const TotpConfigurationError := HttpError(InternalServerError, "TOTP configuration error")

  /** The guards of `login_with_totp`: those of `login`, then, only for a
      user with TOTP enabled, a stored secret and a code that verifies. */
  function LoginWithTotpGuards(users: seq<User>, email: string, password: string, totpCode: string,
                               verifyTotp: (string, string) -> bool): (r: Result<nat>)
    ensures r.Ok? <==> LoginGuards(users, email, password).Ok?
                       && var u := users[LoginGuards(users, email, password).value];
                          (u.totpEnabled ==> u.HasTotpSecret() && verifyTotp(u.totpSecret.value, totpCode))
    ensures r.Ok? ==> r == LoginGuards(users, email, password)
  {
    var i :- LoginGuards(users, email, password);
    if users[i].totpEnabled then
      if !users[i].HasTotpSecret() then Err(TotpConfigurationError)
      else if !verifyTotp(users[i].totpSecret.value, totpCode) then Err(HttpError(Unauthorized, "Invalid TOTP code"))
      else Ok(i)
    else Ok(i)
  }

  /** While every user is consistent, the configuration error of
      `login_with_totp` cannot happen, and a user without TOTP logs in
      whatever code is sent. */
  lemma LoginWithTotpNeverMisconfigured(users: seq<User>, email: string, password: string, totpCode: string,
                                        verifyTotp: (string, string) -> bool)
    requires forall i :: 0 <= i < |users| ==> TotpConsistent(users[i])
    ensures LoginWithTotpGuards(users, email, password, totpCode, verifyTotp) != Err(TotpConfigurationError)
    ensures LoginGuards(users, email, password).Ok? && !users[LoginGuards(users, email, password).value].totpEnabled ==>
              LoginWithTotpGuards(users, email, password, totpCode, verifyTotp) == LoginGuards(users, email, password)
  {
  }

  /** `login_with_totp` takes its address as a plain query string, not an
      `EmailStr`: an account stored under an address that `EmailStr` would
      refuse still passes its guards. */
  lemma TotpLoginTakesPlainAddress(u: User, password: string, totpCode: string, verifyTotp: (string, string) -> bool)
    requires u.email == "abc" && VerifyPassword(password, u.hashedPassword)
    requires u.isActive && !u.isSuspended && u.isVerified && !u.totpEnabled
    ensures !ValidEmail("abc")
    ensures LoginWithTotpGuards([u], "abc", password, totpCode, verifyTotp) == Ok(0)
  {
    EmailNeedsAt("abc");
  }

  /** The three query parameters of `login_with_totp`, each required. */
  function LoginTotpParams(email: Option<string>, password: Option<string>, totpCode: Option<string>): (e: seq<string>)
    ensures e == [] <==> email.Some? && password.Some? && totpCode.Some?
  {
    MissingErrors("email", email) + MissingErrors("password", password) + MissingErrors("totp_code", totpCode)
  }

  /** `login_with_totp` as written: it ends in the same `db.func.now()`
      as `login`, so no TOTP login succeeds either. */
  function LoginWithTotpAsWritten(users: seq<User>, email: Option<string>, password: Option<string>, totpCode: Option<string>,
                                  verifyTotp: (string, string) -> bool, key: string, now: nat): (r: Result<TokenPair>)
    ensures r.Err?
    ensures LoginTotpParams(email, password, totpCode) == []
            && LoginWithTotpGuards(users, email.value, password.value, totpCode.value, verifyTotp).Ok? ==>
              r == Err(Crash)
  {
    var errors := LoginTotpParams(email, password, totpCode);
    if errors != [] then Err(ValidationError(errors))
    else
      var i :- LoginWithTotpGuards(users, email.value, password.value, totpCode.value, verifyTotp);
      Err(Crash)
  }

  /** `login_with_totp` as intended: stamps `updated_at` and issues the pair. */
  method LoginWithTotp(db: Database, email: Option<string>, password: Option<string>, totpCode: Option<string>,
                       verifyTotp: (string, string) -> bool, key: string, now: nat)
    returns (r: Result<TokenPair>)
    requires db.Valid()
    modifies db
    ensures db.Valid()
    ensures LoginTotpParams(email, password, totpCode) != [] ==>
              r == Err(ValidationError(LoginTotpParams(email, password, totpCode))) && unchanged(db)
    ensures LoginTotpParams(email, password, totpCode) == [] ==>
      var g := LoginWithTotpGuards(old(db.users), email.value, password.value, totpCode.value, verifyTotp);
      && (g.Err? ==> r == Err(g.error) && unchanged(db))
      && (g.Ok? ==>
            && r == Ok(IssueTokens(old(db.users)[g.value], key, now))
            && db.users == old(db.users)[g.value := old(db.users)[g.value].(updatedAt := now)]
            && OnlyUsersChanged(db))
  {
    var errors := LoginTotpParams(email, password, totpCode);
    if errors != [] {
      return Err(ValidationError(errors));
    }
    var g := LoginWithTotpGuards(db.users, email.value, password.value, totpCode.value, verifyTotp);
    if g.Err? {
      return Err(g.error);
    }
    var user := db.users[g.value];
    db.SetUser(g.value, user.(updatedAt := now));
    r := Ok(IssueTokens(user, key, now));
  }

  /** `enable_totp`: the verified current user, then the enable step; the
      answer carries the secret. */
  method EnableTotp(db: Database, credentials: Option<Jwt>, key: string, now: nat, secret: string)
    returns (r: Result<string>)
    requires db.Valid()
    modifies db
    ensures db.Valid()
    ensures var cur := CurrentVerifiedUser(old(db.users), credentials, key, now);
      && (cur.Err? ==> r == Err(cur.error) && unchanged(db))
      && (cur.Ok? && cur.value.totpEnabled ==> r == Err(HttpError(BadRequest, "TOTP is already enabled")) && unchanged(db))
      && (cur.Ok? && !cur.value.totpEnabled ==>
            && r == Ok(secret)
            && db.users == old(db.users)[UserIndexById(old(db.users), cur.value.id).value :=
                                           EnableTotpStep(cur.value, secret, now).value]
            && OnlyUsersChanged(db))
  {
    var user :- CurrentVerifiedUser(db.users, credentials, key, now);
    var i := UserIndexById(db.users, user.id).value;
    var updated :- EnableTotpStep(user, secret, now);
    db.SetUser(i, updated);
    r := Ok(secret);
  }

  /** `verify_totp_setup`: the verified current user, the required `token`
      query parameter, then the verify step. */
  method VerifyTotpSetup(db: Database, credentials: Option<Jwt>, key: string, now: nat, token: Option<string>,
                         verifyTotp: (string, string) -> bool)
    returns (r: Result<bool>)
    requires db.Valid()
    modifies db
    ensures db.Valid()
    ensures var cur := CurrentVerifiedUser(old(db.users), credentials, key, now);
      && (cur.Err? ==> r == Err(cur.error) && unchanged(db))
      && (cur.Ok? && token.None? ==> r == Err(ValidationError(MissingErrors("token", token))) && unchanged(db))
      && (cur.Ok? && token.Some? ==>
            var step := VerifyTotpStep(cur.value, token.value, verifyTotp, now);
            && (step.Err? ==> r == Err(step.error) && unchanged(db))
            && (step.Ok? ==>
                  && r == Ok(true)
                  && db.users == old(db.users)[UserIndexById(old(db.users), cur.value.id).value := step.value]
                  && OnlyUsersChanged(db)))
  {
    var user :- CurrentVerifiedUser(db.users, credentials, key, now);
    if token.None? {
      return Err(ValidationError(MissingErrors("token", token)));
    }
    var i := UserIndexById(db.users, user.id).value;
    var updated :- VerifyTotpStep(user, token.value, verifyTotp, now);
    db.SetUser(i, updated);
    r := Ok(true);
  }

  /** `disable_totp`: the verified current user, the required `password`
      query parameter, then the disable step. */
  method DisableTotp(db: Database, credentials: Option<Jwt>, key: string, now: nat, password: Option<string>)
    returns (r: Result<bool>)
    requires db.Valid()
    modifies db
    ensures db.Valid()
    ensures var cur := CurrentVerifiedUser(old(db.users), credentials, key, now);
      && (cur.Err? ==> r == Err(cur.error) && unchanged(db))
      && (cur.Ok? && password.None? ==> r == Err(ValidationError(MissingErrors("password", password))) && unchanged(db))
      && (cur.Ok? && password.Some? ==>
            var step := DisableTotpStep(cur.value, password.value, now);
            && (step.Err? ==> r == Err(step.error) && unchanged(db))
            && (step.Ok? ==>
                  && r == Ok(false)
                  && db.users == old(db.users)[UserIndexById(old(db.users), cur.value.id).value := step.value]
                  && OnlyUsersChanged(db)))
  {
    var user :- CurrentVerifiedUser(db.users, credentials, key, now);
    if password.None? {
      return Err(ValidationError(MissingErrors("password", password)));
    }
    var i := UserIndexById(db.users, user.id).value;
    var updated :- DisableTotpStep(user, password.value, now);
    db.SetUser(i, updated);
    r := Ok(false);
  }
}
