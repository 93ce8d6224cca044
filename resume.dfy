/** The resume endpoints: upload, listing, download, deletion and the
    visibility switch, with their access rules.

    The file content is opaque bytes; encryption, the files on disk and the
    streamed answer are not modelled. Whether the stored file exists and
    whether it decrypts are inputs of the download. A download answers the
    updated row in place of the decrypted stream. */
module ResumeRoutes {
  import opened Wrappers
  import opened Strings
  import opened Query
  import opened Models
  import opened Database
  import opened Security
  import opened Schemas
  import opened Dependencies
  import opened Encryption

  const AllowedExtensions: set<string> := {".pdf", ".docx", ".doc"}

  /** The allowed extensions joined in one iteration order of the set. */
  const InvalidTypeMessage := "Invalid file type. Allowed types: .pdf, .docx, .doc"
  /** `MAX_FILE_SIZE / 1024 / 1024` is the float 10.0. */
  const TooLargeMessage := "File too large. Maximum size: 10.0MB"

  /** The checks of `upload_resume`, in order: the lower-cased extension,
      then the size limit, then emptiness. */
  function ValidateUpload(filename: string, size: nat): (r: Result<nat>)
    ensures r.Ok? <==> Lower(SplitExt(filename)) in AllowedExtensions && 0 < size <= MaxUploadSize
    ensures Lower(SplitExt(filename)) !in AllowedExtensions ==> r == Err(HttpError(BadRequest, InvalidTypeMessage))
    ensures Lower(SplitExt(filename)) in AllowedExtensions && size > MaxUploadSize ==>
              r == Err(HttpError(BadRequest, TooLargeMessage))
    ensures Lower(SplitExt(filename)) in AllowedExtensions && size == 0 ==> r == Err(HttpError(BadRequest, "File is empty"))
    ensures r.Ok? ==> r.value == size
  {
    if Lower(SplitExt(filename)) !in AllowedExtensions then Err(HttpError(BadRequest, InvalidTypeMessage))
    else if size > MaxUploadSize then Err(HttpError(BadRequest, TooLargeMessage))
    else if size == 0 then Err(HttpError(BadRequest, "File is empty"))
    else Ok(size)
  }

  /** Lower-casing commutes with prefixing a dot. */
  lemma LowerDot(suffix: string)
    ensures Lower("." + suffix) == "." + Lower(suffix)
  {
    var a, b := Lower("." + suffix), "." + Lower(suffix);
    assert |a| == |b|;
    forall k | 0 <= k < |a| ensures a[k] == b[k] {
      if k > 0 { assert ("." + suffix)[k] == suffix[k - 1]; }
    }
  }

  /** The extension is compared without regard to case: a plain name with
      a ".PDF", ".Docx" or ".doc" suffix of a size from one byte to the
      limit is accepted, and so is one of exactly 10485760 bytes. */
  lemma {:induction false} UploadAcceptsAnyCase(base: string, suffix: string, size: nat)
    requires base != [] && forall k :: 0 <= k < |base| ==> base[k] != '.' && base[k] != '/'
    requires forall k :: 0 <= k < |suffix| ==> suffix[k] != '.' && suffix[k] != '/'
    requires Lower(suffix) in {"pdf", "docx", "doc"}
    requires 0 < size <= MaxUploadSize
    ensures ValidateUpload(base + "." + suffix, size) == Ok(size)
  {
    var p := base + "." + suffix;
    SplitExtOfNameAndSuffix(base, suffix);
    LowerDot(suffix);
    DottedAllowed(Lower(suffix));
    assert Lower(SplitExt(p)) == "." + Lower(suffix);
  }

  /** Each allowed suffix, once dotted, is an allowed extension. */
  lemma DottedAllowed(x: string)
    requires x in {"pdf", "docx", "doc"}
    ensures "." + x in AllowedExtensions
  {
    if x == "pdf" {
      assert "." + x == ".pdf";
    } else if x == "docx" {
      assert "." + x == ".docx";
    } else {
      assert "." + x == ".doc";
    }
  }

  /** A name whose only dots lead it (".pdf") has no extension and is
      refused, whatever its size. */
  lemma {:induction false} UploadRefusesDotfile(dots: string, name: string, size: nat)
    requires dots != [] && AllDots(dots)
    requires forall k :: 0 <= k < |name| ==> name[k] != '.' && name[k] != '/'
    ensures ValidateUpload(dots + name, size) == Err(HttpError(BadRequest, InvalidTypeMessage))
  {
    SplitExtOfLeadingDots(dots, name);
    assert Lower("") == "";
  }

  /** The row `upload_resume` inserts. */
  function NewResume(id: nat, userId: nat, filename: string, storedName: string, size: nat, contentType: string,
                     isPublic: bool, now: nat): (x: Resume)
    ensures x.userId == userId && x.fileSize == size && x.isPublic == isPublic
    ensures x.downloadCount == 0 && x.isEncrypted && x.encryptionMethod == "fernet" && x.lastAccessed.None?
    ensures x.originalFilename == filename && x.encryptedFilename == storedName && x.fileType == contentType
  {
    Resume(id, userId, filename, storedName, size, contentType, "fernet", true, isPublic, 0, now, None)
  }

  /** The `is_public: bool = False` query parameter of `upload_resume`:
      the value sent, or false when the request leaves it out. */
  function UploadVisibility(isPublicQuery: Option<bool>): (v: bool)
    ensures v <==> isPublicQuery == Some(true)
  {
    isPublicQuery.GetOr(false)
  }

  /** `upload_resume`: for the verified current user and a valid file,
      stores the row under the name `generate_unique_filename` builds from
      the clock and eight random bytes, with the visibility of the query. */
  method UploadResume(db: Database, credentials: Option<Jwt>, key: string, now: nat, filename: string,
                      contentType: string, content: seq<bv8>, isPublicQuery: Option<bool>, random: seq<bv8>)
    returns (r: Result<Resume>)
    requires db.Valid() && |random| == RandomBytes
    modifies db
    ensures db.Valid()
    ensures var cur := CurrentVerifiedUser(old(db.users), credentials, key, now);
      && (cur.Err? ==> r == Err(cur.error) && unchanged(db))
      && (cur.Ok? && ValidateUpload(filename, |content|).Err? ==>
            r == Err(ValidateUpload(filename, |content|).error) && unchanged(db))
      && (cur.Ok? && ValidateUpload(filename, |content|).Ok? ==>
            && r == Ok(NewResume(old(db.nextResumeId), cur.value.id, filename,
                                 GenerateUniqueFilename(filename, cur.value.id, now, random),
                                 |content|, contentType, UploadVisibility(isPublicQuery), now))
            && db.resumes == old(db.resumes) + [r.value]
            && db.users == old(db.users) && db.profiles == old(db.profiles) && db.otpTokens == old(db.otpTokens)
            && db.nextResumeId == old(db.nextResumeId) + 1)
  {
    var user :- CurrentVerifiedUser(db.users, credentials, key, now);
    var size :- ValidateUpload(filename, |content|);
    var storedName := GenerateUniqueFilename(filename, user.id, now, random);
    var resume := NewResume(db.nextResumeId, user.id, filename, storedName, size, contentType,
                            UploadVisibility(isPublicQuery), now);
    assert user.id in UserIds(db.users);
    db.AddResume(resume);
    r := Ok(resume);
  }

  /** The resumes of one user, in table order. */
  function ResumesOf(resumes: seq<Resume>, userId: nat): (r: seq<Resume>)
    ensures forall x :: x in r <==> x in resumes && x.userId == userId
  {
    Filter(resumes, (x: Resume) => x.userId == userId)
  }

  /** `list_my_resumes`: the caller's resumes and their number. */
  function ListMyResumes(users: seq<User>, resumes: seq<Resume>, credentials: Option<Jwt>, key: string, now: nat)
    : (r: Result<(seq<Resume>, nat)>)
    ensures r.Err? <==> CurrentVerifiedUser(users, credentials, key, now).Err?
    ensures r.Ok? ==> r.value.1 == |r.value.0|
    ensures r.Ok? ==> forall x :: x in r.value.0 <==>
                        x in resumes && x.userId == CurrentVerifiedUser(users, credentials, key, now).value.id
  {
    var user :- CurrentVerifiedUser(users, credentials, key, now);
    var mine := ResumesOf(resumes, user.id);
    Ok((mine, |mine|))
  }

  /** Who may download: the owner, an administrator, or anyone at all,
      signed in or not, when the resume is public. */
  predicate CanDownload(viewer: Option<User>, x: Resume) {
    (viewer.Some? && (viewer.value.id == x.userId || viewer.value.role == RoleAdmin)) || x.isPublic
  }

  /** Who may delete: the owner or an administrator. */
  predicate CanDelete(user: User, x: Resume) {
    x.userId == user.id || user.role == RoleAdmin
  }

  /** Who may change the visibility: the owner only. */
  predicate CanChangeVisibility(user: User, x: Resume) {
    x.userId == user.id
  }

  /** The rules are nested: whoever may change the visibility may delete,
      and whoever may delete may download; an administrator may delete
      another user's resume but may not change its visibility, and a
      private resume is refused to an anonymous caller. */
  lemma AccessRulesNested(user: User, x: Resume)
    ensures CanChangeVisibility(user, x) ==> CanDelete(user, x)
    ensures CanDelete(user, x) ==> CanDownload(Some(user), x)
    ensures user.role == RoleAdmin && x.userId != user.id ==> CanDelete(user, x) && !CanChangeVisibility(user, x)
    ensures CanDownload(None, x) <==> x.isPublic
  {
  }

  /** `download_resume`: the optional current user, the row, the access
      rule, the stored file, its decryption; then the counter rises by one
      and the access time is recorded. */
  method DownloadResume(db: Database, credentials: Option<Jwt>, key: string, now: nat, resumeId: nat,
                        onDisk: bool, decrypts: bool)
    returns (r: Result<Resume>)
    requires db.Valid()
    modifies db
    ensures db.Valid()
    ensures var viewer := OptionalCurrentUser(old(db.users), credentials, key, now);
            var found := ResumeIndexById(old(db.resumes), resumeId);
      && (viewer.Err? ==> r == Err(viewer.error) && unchanged(db))
      && (viewer.Ok? && found.None? ==> r == Err(HttpError(NotFound, "Resume not found")) && unchanged(db))
      && (viewer.Ok? && found.Some? && !CanDownload(viewer.value, old(db.resumes)[found.value]) ==>
            r == Err(HttpError(Forbidden, "You don't have permission to access this resume")) && unchanged(db))
      && (viewer.Ok? && found.Some? && CanDownload(viewer.value, old(db.resumes)[found.value]) ==>
            var x := old(db.resumes)[found.value];
            && (!onDisk ==> r == Err(HttpError(NotFound, "Resume file not found on disk")) && unchanged(db))
            && (onDisk && !decrypts ==>
                  r == Err(HttpError(InternalServerError, "Failed to decrypt resume file")) && unchanged(db))
            && (onDisk && decrypts ==>
                  && r == Ok(x.(downloadCount := x.downloadCount + 1, lastAccessed := Some(now)))
                  && db.resumes == old(db.resumes)[found.value := r.value]
                  && OnlyResumesChanged(db)))
  {
    var viewer :- OptionalCurrentUser(db.users, credentials, key, now);
    var found := ResumeIndexById(db.resumes, resumeId);
    if found.None? {
      return Err(HttpError(NotFound, "Resume not found"));
    }
    var x := db.resumes[found.value];
    if !CanDownload(viewer, x) {
      return Err(HttpError(Forbidden, "You don't have permission to access this resume"));
    }
    if !onDisk {
      return Err(HttpError(NotFound, "Resume file not found on disk"));
    }
    if !decrypts {
      return Err(HttpError(InternalServerError, "Failed to decrypt resume file"));
    }
    var updated := x.(downloadCount := x.downloadCount + 1, lastAccessed := Some(now));
    db.SetResume(found.value, updated);
    r := Ok(updated);
  }

  /** `delete_resume`: the verified current user, the row, the owner or
      administrator rule; then the row is removed. */
  method DeleteResume(db: Database, credentials: Option<Jwt>, key: string, now: nat, resumeId: nat)
    returns (r: Result<string>)
    requires db.Valid()
    modifies db
    ensures db.Valid()
    ensures var cur := CurrentVerifiedUser(old(db.users), credentials, key, now);
            var found := ResumeIndexById(old(db.resumes), resumeId);
      && (cur.Err? ==> r == Err(cur.error) && unchanged(db))
      && (cur.Ok? && found.None? ==> r == Err(HttpError(NotFound, "Resume not found")) && unchanged(db))
      && (cur.Ok? && found.Some? && !CanDelete(cur.value, old(db.resumes)[found.value]) ==>
            r == Err(HttpError(Forbidden, "You don't have permission to delete this resume")) && unchanged(db))
      && (cur.Ok? && found.Some? && CanDelete(cur.value, old(db.resumes)[found.value]) ==>
            && r == Ok("Resume deleted successfully")
            && (forall x :: x in db.resumes <==> x in old(db.resumes) && x.id != resumeId)
            && OnlyResumesChanged(db))
  {
    var user :- CurrentVerifiedUser(db.users, credentials, key, now);
    var found := ResumeIndexById(db.resumes, resumeId);
    if found.None? {
      return Err(HttpError(NotFound, "Resume not found"));
    }
    if !CanDelete(user, db.resumes[found.value]) {
      return Err(HttpError(Forbidden, "You don't have permission to delete this resume"));
    }
    db.RemoveResume(found.value);
    r := Ok("Resume deleted successfully");
  }

  /** `update_resume_visibility`: the verified current user, the required
      `is_public` query parameter, the row, the owner rule; then
      `is_public` is SET to the given value (not flipped). */
  method UpdateResumeVisibility(db: Database, credentials: Option<Jwt>, key: string, now: nat, resumeId: nat,
                                isPublic: Option<bool>)
    returns (r: Result<Resume>)
    requires db.Valid()
    modifies db
    ensures db.Valid()
    ensures var cur := CurrentVerifiedUser(old(db.users), credentials, key, now);
            var found := ResumeIndexById(old(db.resumes), resumeId);
      && (cur.Err? ==> r == Err(cur.error) && unchanged(db))
      && (cur.Ok? && isPublic.None? ==> r == Err(ValidationError(MissingErrors("is_public", isPublic))) && unchanged(db))
      && (cur.Ok? && isPublic.Some? && found.None? ==> r == Err(HttpError(NotFound, "Resume not found")) && unchanged(db))
      && (cur.Ok? && isPublic.Some? && found.Some? && !CanChangeVisibility(cur.value, old(db.resumes)[found.value]) ==>
            r == Err(HttpError(Forbidden, "You don't have permission to modify this resume")) && unchanged(db))
      && (cur.Ok? && isPublic.Some? && found.Some? && CanChangeVisibility(cur.value, old(db.resumes)[found.value]) ==>
            && r == Ok(old(db.resumes)[found.value].(isPublic := isPublic.value))
            && r.value.isPublic == isPublic.value
            && db.resumes == old(db.resumes)[found.value := r.value]
            && OnlyResumesChanged(db))
  {
    var user :- CurrentVerifiedUser(db.users, credentials, key, now);
    if isPublic.None? {
      return Err(ValidationError(MissingErrors("is_public", isPublic)));
    }
    var found := ResumeIndexById(db.resumes, resumeId);
    if found.None? {
      return Err(HttpError(NotFound, "Resume not found"));
    }
    var x := db.resumes[found.value];
    if !CanChangeVisibility(user, x) {
      return Err(HttpError(Forbidden, "You don't have permission to modify this resume"));
    }
    var updated := x.(isPublic := isPublic.value);
    db.SetResume(found.value, updated);
    r := Ok(updated);
  }
}
