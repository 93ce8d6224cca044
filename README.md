# Secure Job Search: a verified model of the account, resume and admin core

This project models, in Dafny, the core of a job platform:

- a FastAPI backend covering:
  - registration with e-mail OTP verification;
  - login with JWT access and refresh tokens;
  - password reset;
  - an optional TOTP second factor;
  - encrypted resume storage;
  - profiles with privacy settings;
  - administrator moderation;
- a React client covering:
  - the axios instance that attaches the bearer token and refreshes once after a 401;
  - the registration, resume and profile pages.

The server's database is the class `Database.Database`. Its tables (users, profiles, resumes, OTP tokens) are sequences in insertion order. Its `Valid()` keeps ids unique and the foreign keys pointing at existing users. Each endpoint is a method on that database. It runs its dependency first (`Dependencies.CurrentVerifiedUser`, `Dependencies.CurrentAdmin`, ...), then the request's validation (the 422 of FastAPI, `ValidationError`), then its guards in the source's order. It states:

- the answer of each branch;
- the new tables;
- that an error leaves the database unchanged.

The pure parts are functions with lemmas about them:

- the guard chains, the token codec and the validators;
- the privacy filter and the access rules;
- the listing queries.

On the client, `ApiClient.Client` holds `localStorage`, the page location and the requests put on the wire. Each page is a class whose fields are its React state. An async handler is given the answer of its one awaited call and returns what it sends.

Modelling choices:

- Time is a `nat` number of seconds, passed in.
- Password hashing, SHA-256, JWT signing and randomness are idealised as injective constructors or inputs.
- The RFC 6238 check of a TOTP code is the function parameter `verifyTotp`.
- The network, the disk and Fernet decryption are inputs: the reply received, whether the file exists, whether it decrypts.

Each module corresponds to one source file:

- `otp.dfy`: `backend/app/utils/otp.py`
- `security.dfy`: `backend/app/utils/security.py`
- `dependencies.dfy`: `backend/app/dependencies.py`
- `schemas.dfy`: `backend/app/schemas/user.py`
- `encryption.dfy`: `generate_unique_filename`
- `auth.dfy`, `resume.dfy`, `profile.dfy`, `admin.dfy`: the four routers
- `api_client.dfy`: `frontend/src/services/api.js`
- `register_page.dfy`, `resume_upload_page.dfy`, `profile_page.dfy`: the three pages

`models.dfy`, `database.dfy`, `query.dfy`, `strings.dfy` and `wrappers.dfy` hold:

- the records of `backend/app/models`;
- the tables;
- the SQL query shapes (filter, first, offset/limit, order by);
- decimal and lower-case strings;
- `Option`/`Result`.

## Model

| member | source | states |
|---|---|---|
| Otp.GenerateOtp | backend/app/utils/otp.py:13-23 | the code has exactly one character per draw, each a decimal digit equal to its draw |
| Otp.GenerateOtpInjective | backend/app/utils/otp.py:13-23 | different draws give different codes |
| Otp.InvalidateLive | backend/app/utils/otp.py:57-66 | every unused, unexpired token of the same user and purpose is marked used; every other token is unchanged; none stays live |
| Otp.NewToken | backend/app/utils/otp.py:73-80 | a new token has 0 attempts, is unused, carries the purpose and user, and expires `validity_minutes` after now |
| Otp.CreateOtpToken | backend/app/utils/otp.py:39-86 | the token table becomes the invalidated table plus the new token for the returned six-digit code; no other table changes |
| Otp.MostRecentUnused | backend/app/utils/otp.py:110-117 | picks an unused token of the user and purpose with the greatest creation time, or none exactly when no such token exists |
| Otp.VerifyOtpOutcome | backend/app/utils/otp.py:89-141 | the table keeps its length; the answer is valid exactly when it carries no error |
| Otp.VerifyOtpBranches | backend/app/utils/otp.py:110-141 | each branch's answer and new table: no unused token "No valid OTP found", an expired token "OTP has expired" (both with the table unchanged), an exhausted token marked used with "Maximum verification attempts exceeded", a match with attempts one higher and the token used, a mismatch with attempts one higher, the token left unused, and "Invalid OTP. n attempts remaining" with n the maximum less the new count |
| Otp.VerifyOtpValidIff | backend/app/utils/otp.py:110-141 | a check succeeds iff the most recent unused token exists, has not expired, has attempts below the maximum and matches the hash |
| Otp.VerifyOtpFrame | backend/app/utils/otp.py:110-141 | no token or an expired one changes nothing; otherwise only the selected token's attempts and used flag change, and attempts rise by at most one |
| Otp.VerifyOtpAttemptsBounded | backend/app/utils/otp.py:124-135 | attempts never exceed the maximum; a success happens below the maximum and raises attempts by exactly one |
| Otp.VerifyOtpConsumes | backend/app/utils/otp.py:133-137 | a success marks the token used, so the same token is never selected again |
| Otp.IssuedCodeVerifies | backend/app/utils/otp.py:39-141 | a freshly issued code verifies at any time within its validity, and any other code fails |
| Otp.VerifyOtp | backend/app/utils/otp.py:89-141 | the answer and the new token table are those of `VerifyOtpOutcome`; no other table changes |
| Otp.CleanupExpiredOtps | backend/app/utils/otp.py:144-159 | exactly the tokens with `expires_at < now` are deleted, and their number is returned |
| Security.HashThenVerify | backend/app/utils/security.py:15-43 | a password verifies against its own hash, and no other password does |
| Security.Decode | backend/app/utils/security.py:96-105 | decoding yields the claims iff the token is signed with the key and has not expired; otherwise None rather than an exception |
| Security.DecodeEncode | backend/app/utils/security.py:46-105 | decoding an encoded set of acceptable claims with the same key gives them back |
| Security.Stamp | backend/app/utils/security.py:57-63 | the copy adds `exp` and `type` and keeps every other claim of the caller's data |
| Security.CreateAccessToken | backend/app/utils/security.py:46-65 | the token is signed, typed "access" and expires after the given delta, or after 30 minutes when the delta is absent or zero |
| Security.CreateRefreshToken | backend/app/utils/security.py:68-82 | the token is signed, typed "refresh" and expires after 7 days |
| Security.VerifyToken | backend/app/utils/security.py:85-105 | a payload is returned only when it decodes and its type is the one asked for |
| Security.GetTokenSubject | backend/app/utils/security.py:108-121 | a subject is returned iff the token verifies as an access token carrying `sub`, and it is that `sub` |
| Security.IssuedTokenSubject | backend/app/utils/security.py:108-121 | the subject of a live access token is the `sub` it was created with; a refresh token has none |
| Security.AccessTokenLifetimeWindow | backend/app/utils/security.py:46-105 | an access token verifies, with its data intact, exactly until 30 minutes after issue |
| Security.RefreshTokenLifetimeWindow | backend/app/utils/security.py:68-105 | a refresh token verifies as a refresh token exactly until 7 days after issue |
| Security.TokenTypesDisjoint | backend/app/utils/security.py:99-101 | a refresh token never passes as an access token, nor an access token as a refresh token |
| Security.ForeignKeyRejected | backend/app/utils/security.py:96-105 | a token signed with another key never verifies |
| Dependencies.CurrentUser | backend/app/dependencies.py:17-72 | the user returned is the row whose id is the access token's `sub`, active and not suspended; no header 403, a bad token or no `sub` 401, a non-decimal `sub` 500, an unknown id 401 "User not found", then 403 for inactive and 403 for suspended |
| Dependencies.SubjectId | backend/app/dependencies.py:52 | `int(sub)` succeeds exactly on a non-empty string of digits, and gives its value; anything else is a server error |
| Dependencies.CurrentVerifiedUser | backend/app/dependencies.py:75-95 | succeeds iff the current user succeeds and is verified |
| Dependencies.CurrentAdmin | backend/app/dependencies.py:98-118 | succeeds iff the verified user is an administrator; the user returned is active, unsuspended and verified |
| Dependencies.CurrentRecruiter | backend/app/dependencies.py:121-141 | succeeds iff the verified user is a recruiter or an administrator |
| Dependencies.OptionalCurrentUser | backend/app/dependencies.py:144-172 | any user returned is active and not suspended |
| Dependencies.OptionalAgreesWithRequired | backend/app/dependencies.py:144-172 | the optional dependency returns the user iff the required one does, and None exactly where the required one would answer 401 or 403 |
| Dependencies.IssuedAccessTokenAuthenticates | backend/app/dependencies.py:17-72 | an issued access token authenticates its user until it expires, and a refresh token authenticates nobody |
| Dependencies.DisabledUserLockedOut | backend/app/dependencies.py:60-72 | once a user is made inactive or suspended, no credentials authenticate that user |
| Schemas.LengthErrors | backend/app/schemas/user.py:15-16 | no error iff the length is within the bounds; a short value gets the "at least" message |
| Schemas.OptionalMaxErrors | backend/app/schemas/user.py:116-133 | an optional text field is refused only when present and longer than its limit |
| Schemas.PasswordRuleBroken | backend/app/schemas/user.py:22-28 | no rule is broken iff the password has a digit, an upper-case letter and a lower-case letter; otherwise the first broken rule in the order digit, upper case, lower case |
| Schemas.PasswordErrors | backend/app/schemas/user.py:15-28 | at most one error per password field |
| Schemas.PasswordErrorsIff | backend/app/schemas/user.py:15-28 | a password is accepted iff it is strong; the length is checked first, then digit, upper case and lower case, each with its own message |
| Schemas.MissingErrors | backend/app/routers/resume.py:227 | a required parameter is refused iff it is missing |
| Schemas.RangeErrors | backend/app/routers/admin.py:66-67 | a bounded integer parameter is refused iff present and out of range; below the minimum gives the "greater than or equal" message |
| Schemas.ParseRole | backend/app/schemas/user.py:18 | a role string is accepted iff it is the value of some role |
| Schemas.ValidateRegister | backend/app/schemas/user.py:12-28 | a registration is accepted iff the e-mail is well formed, the password is strong, the name has 1 to 100 characters and a given role exists; the role defaults to user |
| Schemas.RegisterMayChooseAdmin | backend/app/schemas/user.py:18 | a registration may ask for the administrator role and is accepted |
| Schemas.EmailErrors | backend/app/schemas/user.py:14 | an `EmailStr` field is refused, with one message, iff the address is not well formed |
| Schemas.EmailNeedsAt | backend/app/schemas/user.py:14 | an address without `@` ("abc") is never well formed |
| Schemas.OtpErrors | backend/app/schemas/user.py:37-40 | an OTP field is accepted iff it has exactly 6 characters, digits or not |
| Schemas.ValidateResetConfirm | backend/app/schemas/user.py:53-68 | a reset confirmation is accepted iff the e-mail is well formed, the OTP has 6 characters and the new password is strong |
| Schemas.ValidateProfileUpdate | backend/app/schemas/user.py:116-133 | an update is accepted iff headline ≤ 200, location ≤ 100 and bio ≤ 1000 characters; every field is optional |
| Schemas.ValidateSuspendReason | backend/app/schemas/user.py:155-157 | a reason is accepted iff it has 10 to 500 characters |
| Strings.DecimalString | backend/app/utils/encryption.py:63 | a non-empty string of digits without a leading zero |
| Strings.ParseDecimalString | backend/app/dependencies.py:52 | `int(str(n)) == n` |
| Strings.DecimalStringInjective | backend/app/utils/encryption.py:63 | different numbers print differently |
| Strings.Lower | backend/app/routers/resume.py:44 | each character is lower-cased, and the length is kept |
| Strings.TokenHex | backend/app/utils/encryption.py:61 | two lower-case hexadecimal characters per random byte |
| Encryption.RFind | backend/app/utils/encryption.py:57 | the index of the last occurrence, or -1 when there is none |
| Encryption.SplitExt | backend/app/utils/encryption.py:57 | the extension is empty, or it runs from the last dot of the path to the end and holds no other dot and no slash |
| Encryption.SplitExtNonEmptyIff | backend/app/utils/encryption.py:57 | the extension is non-empty iff the last path component has a dot after some character that is not a dot |
| Encryption.SplitExtOfNameAndSuffix | backend/app/utils/encryption.py:57 | `splitext("name.suffix")` gives ".suffix", with its case kept |
| Encryption.SplitExtOfLeadingDots | backend/app/utils/encryption.py:57 | a name whose only dots lead it has no extension |
| Encryption.GenerateUniqueFilename | backend/app/utils/encryption.py:42-63 | the stored name is `{user_id}_{timestamp}_{random}{ext}.enc` and always ends in ".enc" |
| Encryption.FilenameFields | backend/app/utils/encryption.py:63 | the user id and the timestamp can be read back from the stored name |
| Encryption.UniqueAcrossUsersAndSeconds | backend/app/utils/encryption.py:42-63 | two uploads by different users, or in different seconds, never get the same stored name |
| Database.UserIndexById | backend/app/dependencies.py:52 | finds a row with the id iff one exists |
| Database.UserIndexByEmail | backend/app/routers/auth.py:56 | finds a row with the e-mail, or none iff no row has it |
| Database.ProfileIndexByUser | backend/app/routers/profile.py:56 | finds the profile of the user, or none iff the user has none |
| Database.ResumeIndexById | backend/app/routers/resume.py:133 | finds the resume with the id, or none iff none has it |
| Database.RemoveUserRow | backend/app/routers/admin.py:254 | removing one row of unique ids removes exactly that id |
| Database.Database.constructor | backend/app/models/user.py:18-99 | an empty database is valid |
| Database.Database.SetUser | backend/app/routers/auth.py:130-131 | updating a user's fields in place keeps the ids, and only the users table changes |
| Database.Database.AddUser | backend/app/routers/auth.py:74-76 | a user row is appended and the next id advances |
| Database.Database.AddProfile | backend/app/routers/auth.py:78-81 | a profile row is appended |
| Database.Database.RemoveUser | backend/app/models/user.py:53 | deleting a user cascades to that user's profile, resumes and OTP tokens, and the tables stay valid |
| Database.Database.SetProfile | backend/app/routers/profile.py:121-126 | only the profiles table changes |
| Database.Database.AddResume | backend/app/routers/resume.py:83-95 | a resume row is appended |
| Database.Database.SetResume | backend/app/routers/resume.py:174-176 | only the resumes table changes |
| Database.Database.RemoveResume | backend/app/routers/resume.py:218 | exactly the resume with that id is removed |
| Query.Filter | backend/app/routers/admin.py:86-96 | the rows kept are exactly those satisfying the predicate, in table order |
| Query.FilterMonotone | backend/app/routers/admin.py:86-96 | a stronger filter keeps no more rows |
| Query.Page | backend/app/routers/admin.py:102 | `offset(skip).limit(limit)`: at most `limit` rows, starting at `skip` |
| Query.PagesTile | backend/app/routers/admin.py:102 | two consecutive pages join into the page covering both |
| Query.SortDesc | backend/app/routers/admin.py:301 | the rows sorted by descending key, as a permutation of the input |
| Query.Newest | backend/app/routers/admin.py:299-311 | `order_by(desc).limit(n)`: `min(n, rows)` rows, sorted descending, drawn from the table |
| Query.NewestIsTop | backend/app/routers/admin.py:299-311 | every row left out of the newest `n` is no newer than any row shown |
| Query.NewestProjectedIsTop | backend/app/routers/admin.py:299-311 | the same after projecting each row to its entry: a row whose entry is not listed is no newer than any listed row |
| Models.EmptyProfile | backend/app/routers/auth.py:79 | a new profile has no text, every privacy level "public", zero views and tracking allowed |
| Auth.NewUser | backend/app/routers/auth.py:64-72 | a new user is active, unverified, unsuspended, without TOTP, has the requested role, and its password verifies |
| Auth.Register | backend/app/routers/auth.py:42-90 | succeeds iff the request is valid and the e-mail is new; it then adds the user, an empty profile and a registration OTP; a known e-mail gives 400 and changes nothing |
| Auth.VerifyOtpEndpoint | backend/app/routers/auth.py:93-136 | malformed e-mail or short code 422, unknown e-mail 404, already verified 400, OTP failure 400 with its bookkeeping kept; only a valid code verifies the user and issues tokens |
| Auth.LoginGuards | backend/app/routers/auth.py:184-210 | a login passes only with the right password for an active, unsuspended, verified user; failures are 401 or 403 |
| Auth.LoginHidesUnknownEmail | backend/app/routers/auth.py:184-190 | an unknown e-mail and a wrong password get the same 401 |
| Auth.LoginIgnoresTotp | backend/app/routers/auth.py:172-219 | turning a user's TOTP on or off never changes the login answer |
| Auth.Login | backend/app/routers/auth.py:172-219 | a malformed e-mail 422 with nothing changed; then the guard error, or the token pair of the found user with only that user's `updated_at` stamped |
| Auth.LoginTokensAuthenticate | backend/app/routers/auth.py:172-219 | the access token a login returns authenticates that user for 30 minutes |
| Auth.RefreshTokens | backend/app/routers/auth.py:222-261 | a new pair is issued iff the refresh token verifies and its `sub` names an existing, active, unsuspended user, and it is that user's pair; otherwise "Invalid refresh token", "Invalid token payload" for a missing or empty `sub`, 500 for a non-decimal `sub`, or "User not found or inactive", each 401 except the 500 |
| Auth.RefreshRoundTrip | backend/app/routers/auth.py:222-261 | a pair's refresh token yields a fresh pair for 7 days, verified or not; its access token is refused |
| Auth.RequestPasswordReset | backend/app/routers/auth.py:282-305 | a malformed e-mail 422 with nothing changed; otherwise the same message whether or not the e-mail exists; a known e-mail gets a password-reset OTP and nothing else changes |
| Auth.ConfirmPasswordReset | backend/app/routers/auth.py:308-340 | a malformed request 422; the password changes iff a password-reset OTP of the user verifies; the OTP bookkeeping is kept either way |
| Auth.PurposesSeparate | backend/app/routers/auth.py:325-329 | registration codes never confirm a password reset |
| Auth.EnableTotpStep | backend/app/routers/auth.py:355-366 | refused iff already enabled; otherwise stores the secret and leaves TOTP disabled |
| Auth.VerifyTotpStep | backend/app/routers/auth.py:391-412 | enables TOTP iff a secret is stored, TOTP is off and the code verifies |
| Auth.DisableTotpStep | backend/app/routers/auth.py:430-444 | disables iff TOTP is on and the password is right, clearing the secret |
| Auth.TotpStepsKeepConsistent | backend/app/routers/auth.py:345-450 | "enabled implies a secret" is preserved by all three steps |
| Auth.TotpLifecycle | backend/app/routers/auth.py:345-450 | enable, verify and disable in turn end with TOTP off and no secret, every other field as before |
| Auth.LoginWithTotpGuards | backend/app/routers/auth.py:464-503 | passes iff login's guards pass and, for a user with TOTP on, a stored secret verifies the code |
| Auth.LoginWithTotpNeverMisconfigured | backend/app/routers/auth.py:492-496 | with consistent users the 500 configuration error cannot occur, and a user without TOTP needs no code |
| Auth.LoginTotpParams | backend/app/routers/auth.py:454-458 | the three query parameters are accepted iff all are present |
| Auth.LoginAsWritten | backend/app/routers/auth.py:212 | no login succeeds: a malformed e-mail is 422, and once the guards pass the request ends in a server error |
| Auth.LoginWithTotpAsWritten | backend/app/routers/auth.py:506 | no TOTP login succeeds: once the guards pass, the request ends in a server error |
| Auth.TotpLoginTakesPlainAddress | backend/app/routers/auth.py:454-470 | the TOTP login does not validate its address: an account stored as "abc" passes its guards |
| Auth.LoginWithTotp | backend/app/routers/auth.py:453-513 | 422 for a missing parameter, the guard error, or the found user's token pair with only its `updated_at` stamped |
| Auth.EnableTotp | backend/app/routers/auth.py:345-377 | answers the secret and applies the enable step to the caller's row, or refuses without change |
| Auth.VerifyTotpSetup | backend/app/routers/auth.py:380-417 | 422 without a token; otherwise applies the verify step to the caller's row or refuses without change |
| Auth.DisableTotp | backend/app/routers/auth.py:420-450 | 422 without a password; otherwise applies the disable step to the caller's row or refuses without change |
| ResumeRoutes.ValidateUpload | backend/app/routers/resume.py:43-65 | accepted iff the lower-cased extension is .pdf/.docx/.doc and 0 < size ≤ 10485760; the extension is checked first, then the size limit, then emptiness |
| ResumeRoutes.UploadAcceptsAnyCase | backend/app/routers/resume.py:43-48 | any case of an allowed extension is accepted |
| ResumeRoutes.UploadRefusesDotfile | backend/app/routers/resume.py:43-48 | a dot-file name has no extension and is refused |
| ResumeRoutes.NewResume | backend/app/routers/resume.py:83-93 | the row belongs to the caller, has the content's size and the requested visibility, zero downloads, and is encrypted with "fernet" |
| ResumeRoutes.UploadVisibility | backend/app/routers/resume.py:31 | public exactly when the query sends true; false when it is left out |
| ResumeRoutes.UploadResume | backend/app/routers/resume.py:27-99 | the dependency error, the validation error, or exactly one new row under the generated stored name, with the query's visibility |
| ResumeRoutes.ResumesOf | backend/app/routers/resume.py:110 | exactly the resumes of the user |
| ResumeRoutes.ListMyResumes | backend/app/routers/resume.py:102-115 | exactly the caller's resumes, and a total equal to their count |
| ResumeRoutes.AccessRulesNested | backend/app/routers/resume.py:141-150 | whoever may change visibility may delete, and whoever may delete may download; an admin may delete another's resume but not change its visibility; anonymous callers download exactly the public ones |
| ResumeRoutes.DownloadResume | backend/app/routers/resume.py:118-185 | 404 for an unknown id, 403 unless owner, admin or public, file errors next; a download raises the counter by exactly one and records the access |
| ResumeRoutes.DeleteResume | backend/app/routers/resume.py:188-221 | 404, then 403 unless owner or admin; otherwise exactly that resume is removed |
| ResumeRoutes.UpdateResumeVisibility | backend/app/routers/resume.py:224-253 | 422 without `is_public`, 404, 403 unless owner; otherwise `is_public` is set to the given value |
| ProfileRoutes.Shown | backend/app/routers/profile.py:69-77 | a field is shown iff its privacy level is "public" |
| ProfileRoutes.FilteredProfile | backend/app/routers/profile.py:65-85 | each text field passes its privacy level; the view count is 0 when tracking is off; nothing else changes |
| ProfileRoutes.ViewRules | backend/app/routers/profile.py:64-90 | anonymous and privileged views never count; a private bio is hidden; without tracking the count is hidden |
| ProfileRoutes.FreshProfileIsPublic | backend/app/routers/profile.py:65-85 | a new profile is shown in full to everyone |
| ProfileRoutes.GetUserProfile | backend/app/routers/profile.py:44-95 | 404 for no profile; owner or admin get the stored row, others the filtered view; the counter rises by one exactly for counted views |
| ProfileRoutes.Apply | backend/app/routers/profile.py:121-124 | a field in the request replaces the current value; an absent one keeps it |
| ProfileRoutes.ApplyUpdate | backend/app/routers/profile.py:121-124 | each of the seven updatable fields takes the request's value when present and keeps its value when absent; no other column is touched |
| ProfileRoutes.ApplyUpdateLaws | backend/app/routers/profile.py:121-124 | an empty update changes nothing, and applying the same update twice is like once |
| ProfileRoutes.TrackingOffStopsCounting | backend/app/routers/profile.py:81-90 | after tracking is turned off, no view counts and the shown count is 0 |
| ProfileRoutes.UpdateMyProfile | backend/app/routers/profile.py:98-129 | validation error, 404 without a profile, or the caller's profile with the request's fields written |
| ProfileRoutes.DeleteMyProfile | backend/app/routers/profile.py:132-148 | only the caller's `is_active` becomes false; no row is removed |
| ProfileRoutes.DeactivatedUserLockedOut | backend/app/routers/profile.py:143 | after deactivation no credentials act for that user |
| ProfileRoutes.GetMyProfileStats | backend/app/routers/profile.py:151-175 | the caller's own e-mail, name, creation time and verified flag, with the caller's unfiltered view counter, or 0 and None without a profile |
| ProfileRoutes.GetMyProfile | backend/app/routers/profile.py:16-41 | the caller and the caller's profile iff one exists |
| AdminRoutes.ValidateWindow | backend/app/routers/admin.py:66-67 | accepted iff `skip >= 0` and `1 <= limit <= max`, with defaults 0 and the default limit |
| AdminRoutes.RoleName | backend/app/models/user.py:11-15 | an enum member's name differs from its value |
| AdminRoutes.Matching | backend/app/routers/admin.py:86-96 | exactly the users every supplied filter admits |
| AdminRoutes.ListAllUsers | backend/app/routers/admin.py:64-109 | admin first, then window validation; the total is the filtered count before paging, and the items are the filtered rows from `skip` on, at most `limit` |
| AdminRoutes.UnfilteredListsEveryone | backend/app/routers/admin.py:86-102 | with no filter the total is every user and the page is a window of the table |
| AdminRoutes.MoreFiltersFewerUsers | backend/app/routers/admin.py:86-96 | supplying more filters never raises the total |
| AdminRoutes.RoleFilterSpellings | backend/app/routers/admin.py:86-87 | the role filter accepts a role's value or member name and nothing else |
| AdminRoutes.ListAllResumes | backend/app/routers/admin.py:263-283 | the total is all resumes, and the page is the window from `skip` |
| AdminRoutes.RecentUsers | backend/app/routers/admin.py:299-303 | at most `n` users, newest first, each a row of the table, and no user left out is newer than any listed |
| AdminRoutes.RecentResumes | backend/app/routers/admin.py:306-311 | at most `n` resumes, newest upload first, each a row of the table, and no resume left out was uploaded later than any listed |
| AdminRoutes.GetRecentActivity | backend/app/routers/admin.py:286-333 | admin first; the limit is accepted iff within 1..500; the answer is the newest users and the newest resumes |
| AdminRoutes.SuspendStep | backend/app/routers/admin.py:168-181 | an admin target gives 403, an already suspended one 400; otherwise only `is_suspended` (and the stamp) changes |
| AdminRoutes.ActivateStep | backend/app/routers/admin.py:207-214 | accepted iff suspended; then only `is_suspended` false and `is_active` true (and the stamp) change |
| AdminRoutes.SuspendThenActivate | backend/app/routers/admin.py:146-220 | activating undoes a suspension, leaving the account active |
| AdminRoutes.SelfDeactivatedStaysInactive | backend/app/routers/admin.py:207-211 | an account deactivated by its owner and never suspended cannot be activated |
| AdminRoutes.SuspensionEndsSessions | backend/app/routers/admin.py:146-187 | a suspended user's tokens stop authenticating on the next request |
| AdminRoutes.SuspendUser | backend/app/routers/admin.py:146-187 | admin, 422 without a reason, 404, then the suspend step; only the target's row changes |
| AdminRoutes.ActivateUser | backend/app/routers/admin.py:190-220 | admin, 404, then the activate step; only the target's row changes |
| AdminRoutes.DeleteUser | backend/app/routers/admin.py:223-260 | 404, 403 when the target is the caller; otherwise the user and its profile, resumes and OTP tokens are removed and every other row stays |
| ApiClient.Stored | frontend/src/services/api.js:14-15 | a stored item counts iff present and non-empty |
| ApiClient.BearerHeader | frontend/src/services/api.js:16 | the header is "Bearer " followed by the token |
| ApiClient.RequestConfig.constructor | frontend/src/services/api.js:25-28 | a new request has no header and is not marked for retry |
| ApiClient.Client.constructor | frontend/src/services/api.js:5-10 | a client starts with the given storage and location, having sent nothing |
| ApiClient.Client.AttachToken | frontend/src/services/api.js:13-19 | the bearer header is set iff an access token is stored; nothing else changes |
| ApiClient.Client.OnError | frontend/src/services/api.js:22-52 | only a first 401 with a stored refresh token posts a refresh; success replaces only the access token and replays; failure clears both tokens and goes to /login; everything else is rejected unchanged |
| ApiClient.Client.Request | frontend/src/services/api.js:13-52 | a request is sent at most twice with at most one refresh between the sends; the calls made and the final storage are those of each case |
| ApiClient.ErrorShown | frontend/src/pages/Register.jsx:31 | what the page stores, as written: the server's detail when it has one, else the page's text; for a 422 that detail is the list of problems, which cannot be rendered; an uncaught exception's plain-text 500 (no JSON detail, no CORS headers) stores the page's text; never an empty message when the page has a text |
| ApiClient.ValidationErrorUnrenderable | frontend/src/pages/Register.jsx:31 | whatever the page's text, a 422 stores a detail that `{error}` cannot render |
| ApiClient.JoinProblems | frontend/src/pages/Register.jsx:31 | the joined text starts with the first problem and is as long as all the problems plus one separator between each two |
| ApiClient.ErrorText | frontend/src/pages/Register.jsx:31 | the corrected half of the Register.jsx:31 finding: always renderable; the stored detail when it is a message, the joined problems for a 422; never empty when the page has a text |
| ApiClient.ToggleVisibilityAsWritten | frontend/src/services/api.js:81 | the request carries no `is_public` |
| ApiClient.ToggleVisibility | frontend/src/services/api.js:81 | the request asks for the opposite of the shown visibility |
| RegisterPage.Page.constructor | frontend/src/pages/Register.jsx:6-14 | the page starts on the register step, every field empty |
| RegisterPage.Page.HandleChange | frontend/src/pages/Register.jsx:18-20 | only the named field changes |
| RegisterPage.Page.SetOtp | frontend/src/pages/Register.jsx:151 | only the code changes |
| RegisterPage.Page.HandleRegister | frontend/src/pages/Register.jsx:22-35 | the form is sent; success moves to the verify step, failure stays with the non-empty, renderable `ErrorText` of the Register.jsx:31 finding; `loading` ends false |
| RegisterPage.Page.HandleVerifyOtp | frontend/src/pages/Register.jsx:37-55 | sends the registered e-mail with the code; success stores both tokens and goes to /dashboard, failure stays with the renderable `ErrorText` of the failure |
| RegisterPage.RegisterBodyOf | frontend/src/pages/Register.jsx:6-10 | the body carries the three typed fields and no `role` key |
| RegisterPage.WeakPasswordErrorUnrenderable | frontend/src/pages/Register.jsx:31 | "password" is weak, so the page's body is refused with a 422 whose stored detail cannot be rendered, while the corrected text can |
| RegisterPage.PageRegistersPlainUsers | frontend/src/pages/Register.jsx:22-28 | the body the page sends passes `UserRegister` iff the e-mail, password and name do, and the user `register` then builds from it has the USER role |
| ResumeUploadPage.FileProblem | frontend/src/pages/ResumeUpload.jsx:28-49 | a file is accepted iff its MIME type is PDF or DOCX and its size is at most 10485760; the type is checked before the size |
| ResumeUploadPage.ShownRows | frontend/src/pages/ResumeUpload.jsx:20 | `data.resumes` when present, else `data` |
| ResumeUploadPage.Page.constructor | frontend/src/pages/ResumeUpload.jsx:5-11 | the page starts empty, private and loading |
| ResumeUploadPage.Page.LoadResumes | frontend/src/pages/ResumeUpload.jsx:17-26 | shows the listed rows or the load error; loading ends either way |
| ResumeUploadPage.Page.HandleFileChange | frontend/src/pages/ResumeUpload.jsx:28-49 | no pick changes nothing; a refused file is dropped with its reason; an accepted one is kept and the error cleared |
| ResumeUploadPage.Page.SetPublic | frontend/src/pages/ResumeUpload.jsx:156-160 | only the checkbox state changes |
| ResumeUploadPage.Page.HandleUpload | frontend/src/pages/ResumeUpload.jsx:51-76 | without a file nothing is sent; otherwise `UploadRequestOf` the file and the checkbox is posted; success clears the file and reloads, failure keeps the renderable `ErrorText` of the failure; `uploading` ends false |
| ResumeUploadPage.Page.HandleToggleVisibility | frontend/src/pages/ResumeUpload.jsx:105-113 | the page's handler with the corrected request of the api.js:81 finding, which sends the flipped visibility (the request as written, without `is_public`, is `ApiClient.ToggleVisibilityAsWritten`); success reloads, failure shows the page's error |
| ResumeUploadPage.SizeLimitsAgree | frontend/src/pages/ResumeUpload.jsx:40-44 | page and server agree on the size limit, except that only the server refuses empty files |
| ResumeUploadPage.TextFileSlipsPastPage | frontend/src/pages/ResumeUpload.jsx:32-37 | a ".txt" reported as PDF passes the page and is refused by the server |
| ResumeUploadPage.DocFileRefusedByPage | frontend/src/pages/ResumeUpload.jsx:32-37 | a ".doc" file, which the server accepts, is refused by the page |
| ResumeUploadPage.UploadRequestOf | frontend/src/pages/ResumeUpload.jsx:62-66 | the request carries the picked file |
| ResumeUploadPage.PageUploadsArePrivate | frontend/src/pages/ResumeUpload.jsx:62-66 | the request is the same for either checkbox state and has no `is_public`, so the server's default applies and the row `upload_resume` builds from it is private |
| ResumeUploadPage.ToggleAsWrittenIsRefused | frontend/src/services/api.js:81 | the toggle as written always gets the 422 "is_public: Field required" |
| ResumeUploadPage.ToggleFlips | frontend/src/pages/ResumeUpload.jsx:105-113 | the corrected toggle request carries `is_public`, so it meets no missing-field error, and setting the row's visibility to the value sent, as `update_resume_visibility` does, gives the opposite of the shown state |
| ProfilePage.TextOrEmpty | frontend/src/pages/Profile.jsx:28-30 | a missing text becomes "", any other is kept |
| ProfilePage.FlagOrTrue | frontend/src/pages/Profile.jsx:31-33 | only a missing flag becomes true; a stored false stays false |
| ProfilePage.EmptyForm | frontend/src/pages/Profile.jsx:7-14 | the form has the three text fields and the three privacy flags |
| ProfilePage.FormFrom | frontend/src/pages/Profile.jsx:23-34 | each form field is the profile's value with its default |
| ProfilePage.UpdateOf | frontend/src/pages/Profile.jsx:56 | the server reads the form's text fields and never `allow_profile_view_tracking` |
| ProfilePage.UneditedSaveRoundTrip | frontend/src/pages/Profile.jsx:23-63 | saving the form unedited and reloading shows the same form |
| ProfilePage.UneditedSaveFillsNulls | frontend/src/pages/Profile.jsx:23-63 | an unedited save turns a missing text into "" and a missing flag into true, and leaves tracking alone |
| ProfilePage.Page.constructor | frontend/src/pages/Profile.jsx:5-17 | the page starts with the empty form, loading |
| ProfilePage.Page.LoadProfile | frontend/src/pages/Profile.jsx:23-40 | fills the form from the profile or shows "Failed to load profile"; loading ends either way |
| ProfilePage.Page.HandleChange | frontend/src/pages/Profile.jsx:42-48 | the named input takes its checkbox state or text; every other entry stays |
| ProfilePage.Page.ToggleEditing | frontend/src/pages/Profile.jsx:79 | only edit mode flips |
| ProfilePage.Page.HandleSubmit | frontend/src/pages/Profile.jsx:50-63 | sends the whole form; success shows the message, leaves edit mode and reloads; failure keeps the renderable `ErrorText` of the Profile.jsx:61 finding |
| ProfilePage.LongHeadlineErrorUnrenderable | frontend/src/pages/Profile.jsx:61 | a headline over 200 characters is refused with a 422 whose stored detail cannot be rendered, while the corrected text starts with the headline's limit |

## Left out

- Fernet encryption and decryption, the upload directory, file writes and removals, and the streamed download are not modelled. Whether the file exists and whether it decrypts are inputs. A download answers the updated row.
- Argon2, SHA-256 and the JWT codec are idealised as injective constructors. The signing algorithm and the JWT string form are not modelled.
- `generate_totp_secret`, the QR code and pyotp's RFC 6238 window are not modelled. The TOTP check is the parameter `verifyTotp`. The secret is an input, assumed non-empty where consistency is proved.
- `send_otp_email` and background tasks are left out: they print or send mail.
- `resend_otp`, `get_current_user_info`, `get_platform_stats` and `get_user_details` are not modelled. They are read-only or repeat `create_otp_token`, and sit outside the modelled core.
- The admin client call `suspendUser` sends the reason in a JSON body, while the server reads a query parameter, so it is refused with 422. The admin pages are not modelled.
- Emails are compared as stored, without normalisation. Letter classes are ASCII.
- Schemas.ValidEmail: `EmailStr` is modelled by its outline (one `@`, a dotted local part and a domain of at least two labels, no spaces). The full rules of the `email-validator` package, its reason text in the 422 message, and the normalised address it returns (domain lower-cased) are not modelled.
- `login_with_totp` reads `email` as a plain query string, not an `EmailStr`, so it has no e-mail check (`Auth.TotpLoginTakesPlainAddress`).
- `backend/app/models/resume.py:38` declares `relationship("User", back_populates="resumes")`, but `User` declares no `resumes` property. The ORM mapping error this would raise is not modelled.
- Deleting a user removes its resumes through the database's `ON DELETE CASCADE` on `resumes.user_id` (`backend/app/models/resume.py:17`), not through an ORM cascade. `Database.Database.RemoveUser` models the combined effect.
- `int(sub)` is modelled as parsing a non-empty run of ASCII digits. Signs, spaces and underscores are not accepted.
- A missing bearer header gives HTTPBearer's 403 "Not authenticated"; the model answers exactly that (`Dependencies.NotAuthenticated`). HTTPBearer's other refusals (a header with another scheme) are not modelled, because the model's credentials are the token or nothing.
- Missing required fields of JSON bodies, and a multipart upload without its `file` part (the 422 `upload_resume` answers then), are not modelled; `ResumeRoutes.UploadResume` always receives a file. Missing query parameters are modelled.
- Timestamps are whole seconds.
- Among OTP tokens created in the same second, the one inserted last is taken. A database may order ties differently.
- The extensions listed in the 400 message follow one iteration order of a Python set.
- The unique constraint on `encrypted_filename` is not modelled. `Encryption.UniqueAcrossUsersAndSeconds` shows that names differ across users and seconds. Within one second, names rely on the random bytes.
- The TOTP columns and the privacy_show_* columns used by the routers and pages are not declared in `backend/app/models/user.py`. The model follows the routers.
- Response serialisation (response models, datetime formats) is not modelled.
- Concurrency between awaits is not modelled: each handler is given the answer of its awaited call. React rendering and navigation are reduced to the state fields and `location`; the one rendering fact kept is `ApiClient.Renderable`, whether `{error}` can show the stored detail.
- The refresh response is taken as a new access token or a failure. The new refresh token in it is ignored, as the client does.
- A form value of the wrong JSON type is read as absent.
- Registration may choose any role, including admin (`Schemas.RegisterMayChooseAdmin`). The source does this too.
- verify-otp and password-reset confirmation do not check whether the account is active or suspended. The source does not check either.
- A profile view by a counted viewer stamps `updated_at` through the column's `onupdate`.
- An anonymous caller may download a public resume. The source's docstring says "authenticated"; the code allows it.
- `activate_user` only lifts suspensions. An account deactivated by its owner cannot be reactivated by an administrator (`AdminRoutes.SelfDeactivatedStaysInactive`), although the deactivation message says to contact an admin.
- The docstring of `suspend_user` says existing sessions stay valid. The code refuses a suspended user on the next request (`AdminRoutes.SuspensionEndsSessions`), and the model follows the code.
- The role filter of `list_all_users` matches a role's value or its member name. Any other string matches no user; a native PostgreSQL enum would raise an error instead.
- AdminRoutes.SuspendUser: the 10 to 500 character limit of `UserSuspend.reason` is not applied, because the endpoint reads `reason` as a plain query string. `Schemas.ValidateSuspendReason` states the schema's limit on its own.
- The OTP validity is the 10-minute default of `create_otp_token`. The unused `OTP_EXPIRY_MINUTES=5` of the configuration is not used.
- The refresh logic has no shared lock. Each failing request posts its own refresh (`ApiClient.Client.Request`).

## Findings

| source | as written | input that shows it | evidently intended | confidence | as-written member | corrected member |
|---|---|---|---|---|---|---|
| backend/app/routers/auth.py:212 | after every guard passes, `login` assigns `db.func.now()`; a `Session` has no `func`, so the request ends in a 500 | a verified, active user logging in with the right password | stamp `updated_at` with the current time and return the token pair | medium, not executed | Auth.LoginAsWritten | Auth.Login |
| backend/app/routers/auth.py:506 | `login_with_totp` ends in the same `db.func.now()` | a verified user with TOTP off, or with a valid code | stamp `updated_at` and return the token pair | medium, not executed | Auth.LoginWithTotpAsWritten | Auth.LoginWithTotp |
| frontend/src/pages/Register.jsx:31 | `setError` stores `err.response?.data?.detail`, which for a 422 is FastAPI's detail, a list of error objects, and Register.jsx:80 renders it as `{error}`; React refuses an object as a child and, with no error boundary, the page goes blank (Register.jsx:51 does the same for the OTP step) | registering with the password "password" | show the problems as text | medium, not executed | RegisterPage.WeakPasswordErrorUnrenderable | ApiClient.ErrorText |
| frontend/src/pages/Profile.jsx:61 | the same store of `err.response?.data?.detail`, rendered at Profile.jsx:88 | saving a headline of 201 characters | show the problems as text | medium, not executed | ProfilePage.LongHeadlineErrorUnrenderable | ApiClient.ErrorText |
| frontend/src/services/api.js:81 | `toggleVisibility(id)` sends no `is_public`, which `update_resume_visibility` requires | any toggle by the resume's verified owner: 422 "is_public: Field required" | send the opposite of the shown state, which the server then sets | high, not executed | ApiClient.ToggleVisibilityAsWritten | ApiClient.ToggleVisibility |
