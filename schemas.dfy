/** Request validation: the field constraints and validators of the request
    schemas. A request that breaks any of them is answered 422 with one
    message per failing field, each message prefixed by the field name;
    a field whose length constraint fails is not passed to its validator.
    Character classes are ASCII (see README). */
module Schemas {
  import opened Wrappers
  import opened Strings
  import opened Models

  function MinLengthMessage(field: string, n: nat): string {
    field + ": String should have at least " + DecimalString(n) + " characters"
  }

  function MaxLengthMessage(field: string, n: nat): string {
    field + ": String should have at most " + DecimalString(n) + " characters"
  }

  /** `Field(min_length=lo, max_length=hi)` on a string field. */
  function LengthErrors(field: string, v: string, lo: nat, hi: nat): (e: seq<string>)
    ensures e == [] <==> lo <= |v| <= hi
    ensures |v| < lo ==> e == [MinLengthMessage(field, lo)]
    ensures |e| <= 1
  {
    if |v| < lo then [MinLengthMessage(field, lo)]
    else if |v| > hi then [MaxLengthMessage(field, hi)]
    else []
  }

  /** `Field(max_length=hi)` on an optional string field that may be left
      out (`Unset`), sent as null, or sent as a string. */
  function OptionalMaxErrors(field: string, v: Field<Option<string>>, hi: nat): (e: seq<string>)
    ensures e == [] <==> !(v.Set? && v.value.Some? && |v.value.value| > hi)
  {
    if v.Set? && v.value.Some? && |v.value.value| > hi then [MaxLengthMessage(field, hi)] else []
  }

  predicate HasDigit(v: string) {
    exists i :: 0 <= i < |v| && IsDigit(v[i])
  }

  predicate HasUpper(v: string) {
    exists i :: 0 <= i < |v| && IsUpper(v[i])
  }

  predicate HasLower(v: string) {
    exists i :: 0 <= i < |v| && IsLower(v[i])
  }

  const DigitRule := "Password must contain at least one digit"
  const UpperRule := "Password must contain at least one uppercase letter"
  const LowerRule := "Password must contain at least one lowercase letter"

  /** `validate_password`: the first of the three character rules that the
      password breaks, checked in the order digit, upper case, lower case. */
  function PasswordRuleBroken(v: string): (r: Option<string>)
    ensures r.None? <==> HasDigit(v) && HasUpper(v) && HasLower(v)
    ensures !HasDigit(v) ==> r == Some(DigitRule)
    ensures HasDigit(v) && !HasUpper(v) ==> r == Some(UpperRule)
    ensures HasDigit(v) && HasUpper(v) && !HasLower(v) ==> r == Some(LowerRule)
  {
    if !HasDigit(v) then Some(DigitRule)
    else if !HasUpper(v) then Some(UpperRule)
    else if !HasLower(v) then Some(LowerRule)
    else None
  }

  /** The errors of a password field (`password` at registration,
      `new_password` at reset): its length first, then its validator. */
  function PasswordErrors(field: string, v: string): (e: seq<string>)
    ensures |e| <= 1
  {
    var lengths := LengthErrors(field, v, 8, 100);
    if lengths != [] then lengths
    else match PasswordRuleBroken(v)
      case None => []
      case Some(rule) => [field + ": Value error, " + rule]
  }

  /** A strong password: 8 to 100 characters with a digit, an upper-case
      and a lower-case letter. */
  predicate StrongPassword(v: string) {
    8 <= |v| <= 100 && HasDigit(v) && HasUpper(v) && HasLower(v)
  }

  /** A password field is accepted exactly when it is strong, and a
      rejected password is reported by its length when that is wrong and
      otherwise by the first character rule it breaks. */
  lemma {:induction false} PasswordErrorsIff(field: string, v: string)
    ensures PasswordErrors(field, v) == [] <==> StrongPassword(v)
    ensures !(8 <= |v| <= 100) ==> PasswordErrors(field, v) == LengthErrors(field, v, 8, 100)
    ensures 8 <= |v| <= 100 && !HasDigit(v) ==> PasswordErrors(field, v) == [field + ": Value error, " + DigitRule]
    ensures 8 <= |v| <= 100 && HasDigit(v) && !HasUpper(v) ==>
              PasswordErrors(field, v) == [field + ": Value error, " + UpperRule]
    ensures 8 <= |v| <= 100 && HasDigit(v) && HasUpper(v) && !HasLower(v) ==>
              PasswordErrors(field, v) == [field + ": Value error, " + LowerRule]
  {
    var lengths := LengthErrors(field, v, 8, 100);
    if lengths == [] {
      assert 8 <= |v| <= 100;
    }
  }

  /** A run of characters between dots: `EmailStr` refuses an empty
      part, a leading or trailing dot, two dots in a row, a space and a
      second `@`. */
  predicate DotAtom(s: string) {
    && |s| >= 1 && s[0] != '.' && s[|s| - 1] != '.'
    && (forall k :: 0 <= k < |s| ==> s[k] != '@' && s[k] != ' ')
    && (forall k :: 0 <= k < |s| - 1 ==> s[k] == '.' ==> s[k + 1] != '.')
  }

  /** The addresses `EmailStr` accepts, in outline: a local part, one `@`,
      and a domain of at least two labels. */
  predicate ValidEmail(e: string) {
    exists k :: 0 < k < |e| && e[k] == '@' && DotAtom(e[..k]) && DotAtom(e[k + 1..]) && '.' in e[k + 1..]
  }

  /** An address without an `@` is never accepted ("abc"). */
  lemma EmailNeedsAt(e: string)
    requires '@' !in e
    ensures !ValidEmail(e)
  {
  }

  /** An `EmailStr` field: one message when the address is malformed (the
      validator's own reason is not modelled). */
  function EmailErrors(field: string, e: string): (errs: seq<string>)
    ensures errs == [] <==> ValidEmail(e)
    ensures |errs| <= 1
  {
    if ValidEmail(e) then [] else [field + ": value is not a valid email address"]
  }

  /** A required query parameter that the request leaves out
      (`None`) is reported as missing. */
  function MissingErrors<T>(field: string, v: Option<T>): (e: seq<string>)
    ensures e == [] <==> v.Some?
  {
    if v.None? then [field + ": Field required"] else []
  }

  function AtLeastMessage(field: string, n: nat): string {
    field + ": Input should be greater than or equal to " + DecimalString(n)
  }

  function AtMostMessage(field: string, n: nat): string {
    field + ": Input should be less than or equal to " + DecimalString(n)
  }

  /** `Query(default, ge=lo, le=hi)` on an integer query parameter; a left
      out parameter takes its default and is not checked. */
  function RangeErrors(field: string, v: Option<int>, lo: nat, hi: Option<nat>): (e: seq<string>)
    ensures e == [] <==> v.None? || (lo <= v.value && (hi.None? || v.value <= hi.value))
    ensures v.Some? && v.value < lo ==> e == [AtLeastMessage(field, lo)]
    ensures |e| <= 1
  {
    if v.None? then []
    else if v.value < lo then [AtLeastMessage(field, lo)]
    else if hi.Some? && v.value > hi.value then [AtMostMessage(field, hi.value)]
    else []
  }

  /** A field that the request may leave out (`exclude_unset`). */
  datatype Field<T> = Unset | Set(value: T)

  /** The `role` of `UserRegister`: one of the enumeration's values. */
  function ParseRole(raw: string): (r: Option<UserRole>)
    ensures r.Some? ==> r.value.Value() == raw
    ensures r.None? <==> forall role: UserRole :: role.Value() != raw
  {
    if raw == "user" then Some(RoleUser)
    else if raw == "recruiter" then Some(RoleRecruiter)
    else if raw == "admin" then Some(RoleAdmin)
    else None
  }

  function RoleErrors(raw: Field<string>): seq<string> {
    if raw.Set? && ParseRole(raw.value).None? then ["role: Input should be 'user', 'recruiter' or 'admin'"] else []
  }

  datatype RegisterData = RegisterData(email: string, password: string, fullName: string, role: UserRole)

  /** `UserRegister`. The role defaults to USER when left out; any of the
      three roles may be asked for. */
  function ValidateRegister(email: string, password: string, fullName: string, role: Field<string>): (r: Result<RegisterData>)
    ensures r.Ok? <==> ValidEmail(email) && StrongPassword(password) && 1 <= |fullName| <= 100
                       && (role.Set? ==> ParseRole(role.value).Some?)
    ensures r.Ok? ==> r.value.email == email && r.value.password == password && r.value.fullName == fullName
    ensures r.Ok? ==> r.value.role == (if role.Unset? then RoleUser else ParseRole(role.value).value)
    ensures r.Err? ==> r.error.ValidationError?
  {
    PasswordErrorsIff("password", password);
    var errors := EmailErrors("email", email) + PasswordErrors("password", password)
                  + LengthErrors("full_name", fullName, 1, 100) + RoleErrors(role);
    if errors != [] then Err(ValidationError(errors))
    else Ok(RegisterData(email, password, fullName, if role.Unset? then RoleUser else ParseRole(role.value).value))
  }

  /** A registration may ask for the administrator role. */
  lemma RegisterMayChooseAdmin(email: string, password: string, fullName: string)
    requires ValidEmail(email) && StrongPassword(password) && 1 <= |fullName| <= 100
    ensures ValidateRegister(email, password, fullName, Set("admin")) == Ok(RegisterData(email, password, fullName, RoleAdmin))
  {
  }

  /** `OTPVerify.otp`: exactly six characters, of any kind. */
  function OtpErrors(v: string): (e: seq<string>)
    ensures e == [] <==> |v| == 6
  {
    LengthErrors("otp", v, 6, 6)
  }

  datatype ResetData = ResetData(email: string, otp: string, newPassword: string)

  /** `PasswordResetConfirm`: a well-formed address, a six-character code
      and a strong new password. */
  function ValidateResetConfirm(email: string, otp: string, newPassword: string): (r: Result<ResetData>)
    ensures r.Ok? <==> ValidEmail(email) && |otp| == 6 && StrongPassword(newPassword)
    ensures r.Ok? ==> r.value == ResetData(email, otp, newPassword)
  {
    PasswordErrorsIff("new_password", newPassword);
    var errors := EmailErrors("email", email) + OtpErrors(otp) + PasswordErrors("new_password", newPassword);
    if errors != [] then Err(ValidationError(errors)) else Ok(ResetData(email, otp, newPassword))
  }

  /** `ProfileUpdate`: every field optional; only the fields the request
      sets are written. */
  datatype ProfileUpdate = ProfileUpdate(
    headline: Field<Option<string>>,
    location: Field<Option<string>>,
    bio: Field<Option<string>>,
    privacyShowEmail: Field<Option<bool>>,
    privacyShowPhone: Field<Option<bool>>,
    privacyShowLocation: Field<Option<bool>>,
    allowProfileViewTracking: Field<Option<bool>>)

  predicate Within(v: Field<Option<string>>, hi: nat) {
    v.Set? && v.value.Some? ==> |v.value.value| <= hi
  }

  /** Headline at most 200 characters, location at most 100, bio at most
      1000; an empty update is valid. */
  function ValidateProfileUpdate(u: ProfileUpdate): (r: Result<ProfileUpdate>)
    ensures r.Ok? <==> Within(u.headline, 200) && Within(u.location, 100) && Within(u.bio, 1000)
    ensures r.Ok? ==> r.value == u
  {
    var errors := OptionalMaxErrors("headline", u.headline, 200) + OptionalMaxErrors("location", u.location, 100)
                  + OptionalMaxErrors("bio", u.bio, 1000);
    if errors != [] then Err(ValidationError(errors)) else Ok(u)
  }

  /** `UserSuspend.reason`: 10 to 500 characters. */
  function ValidateSuspendReason(reason: string): (r: Result<string>)
    ensures r.Ok? <==> 10 <= |reason| <= 500
  {
    var errors := LengthErrors("reason", reason, 10, 500);
    if errors != [] then Err(ValidationError(errors)) else Ok(reason)
  }
}
