/** The rows of the four tables (users, profiles, resumes, otp_tokens), the
    enumerations they use, and the settings the routers read.

    Times are whole seconds since the epoch. Password and OTP hashes are
    kept as the value they digest: `Argon2(salt, password)` stands for the
    argon2 encoding of `password` under the random `salt`, and `Sha256Hex(code)`
    for the hexadecimal SHA-256 digest of `code`. Both are taken to be
    collision-free. */
module Models {
  import opened Wrappers

  /** MAX_UPLOAD_SIZE: 10 MiB. */
  const MaxUploadSize: nat := 10485760
  const AccessTokenExpireMinutes: nat := 30
  const RefreshTokenExpireDays: nat := 7
  const SecondsPerMinute: nat := 60
  const SecondsPerDay: nat := 86400

  datatype UserRole = RoleUser | RoleRecruiter | RoleAdmin {
    /** The enumeration's string value. */
    function Value(): string {
      match this
      case RoleUser => "user"
      case RoleRecruiter => "recruiter"
      case RoleAdmin => "admin"
    }
  }

  datatype PasswordHash = Argon2(salt: string, password: string)

  datatype OtpDigest = Sha256Hex(code: string)

  /** A row of `users`. `totpSecret` and `totpEnabled` are the columns the
      two-factor handlers read and write. */
  datatype User = User(
    id: nat,
    email: string,
    hashedPassword: PasswordHash,
    fullName: string,
    role: UserRole,
    isActive: bool,
    isVerified: bool,
    isSuspended: bool,
    createdAt: nat,
    updatedAt: nat,
    totpSecret: Option<string>,
    totpEnabled: bool)
  {
    /** Python truthiness of `user.totp_secret`: present and non-empty. */
    predicate HasTotpSecret() {
      totpSecret.Some? && totpSecret.value != ""
    }
  }

  /** A row of `profiles`. The privacy level columns hold "public",
      "connections" or "private"; only "public" lets other viewers see the
      field. `allowProfileViewTracking` is a nullable boolean column. */
  datatype Profile = Profile(
    id: nat,
    userId: nat,
    headline: Option<string>,
    location: Option<string>,
    bio: Option<string>,
    profilePictureUrl: Option<string>,
    privacyHeadline: string,
    privacyLocation: string,
    privacyBio: string,
    privacyProfilePicture: string,
    privacyShowEmail: Option<bool>,
    privacyShowPhone: Option<bool>,
    privacyShowLocation: Option<bool>,
    profileViewCount: nat,
    allowProfileViewTracking: Option<bool>,
    createdAt: nat,
    updatedAt: nat)
  {
    /** Python truthiness of `profile.allow_profile_view_tracking`. */
    predicate TrackingAllowed() {
      allowProfileViewTracking == Some(true)
    }
  }

  /** A freshly inserted profile: every column at its declared default. */
  function EmptyProfile(id: nat, userId: nat, now: nat): (p: Profile)
    ensures p.userId == userId && p.profileViewCount == 0 && p.TrackingAllowed()
    ensures p.headline.None? && p.location.None? && p.bio.None? && p.profilePictureUrl.None?
    ensures p.privacyHeadline == p.privacyLocation == p.privacyBio == p.privacyProfilePicture == "public"
  {
    Profile(id, userId, None, None, None, None, "public", "public", "public", "public",
            None, None, None, 0, Some(true), now, now)
  }

  /** A row of `resumes`. */
  datatype Resume = Resume(
    id: nat,
    userId: nat,
    originalFilename: string,
    encryptedFilename: string,
    fileSize: nat,
    fileType: string,
    encryptionMethod: string,
    isEncrypted: bool,
    isPublic: bool,
    downloadCount: nat,
    uploadedAt: nat,
    lastAccessed: Option<nat>)

  /** A row of `otp_tokens`. */
  datatype OtpToken = OtpToken(
    id: nat,
    userId: nat,
    tokenHash: OtpDigest,
    purpose: string,
    expiresAt: nat,
    isUsed: bool,
    attempts: nat,
    createdAt: nat)
}
