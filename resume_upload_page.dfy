/** The resume page: the file check before upload, the upload itself, the
    list it shows and the visibility toggle. As on the other pages, each
    handler is given the answer of its awaited call. */
module ResumeUploadPage {
  import opened Wrappers
  import opened Strings
  import opened Models
  import opened Encryption
  import opened Schemas
  import opened ResumeRoutes
  import opened ApiClient

  const PdfType := "application/pdf"
  const DocxType := "application/vnd.openxmlformats-officedocument.wordprocessingml.document"
  const WrongTypeMessage := "Only PDF and DOCX files are allowed"
  const TooBigMessage := "File size must be less than 10MB"
  const NoFileMessage := "Please select a file"
  const UploadedMessage := "Resume uploaded and encrypted successfully!"
  const UploadFallback := "Failed to upload resume"
  const LoadFailedMessage := "Failed to load resumes"
  const VisibilityUpdatedMessage := "Resume visibility updated"
  const VisibilityFailedMessage := "Failed to update visibility"

  /** A file picked in the browser: its name, the MIME type the browser
      reports, and its size in bytes. */
  datatype PickedFile = PickedFile(name: string, mimeType: string, size: nat)

  /** The request `handleUpload` makes: the multipart form with the file,
      and the `is_public` query parameter when there is one. */
  datatype UploadRequest = UploadRequest(file: PickedFile, isPublicQuery: Option<bool>)

  /** What `handleUpload` sends for a picked file and the state of the
      "make public" checkbox: the file alone; the checkbox is never read. */
  function UploadRequestOf(f: PickedFile, checked: bool): (q: UploadRequest)
    ensures q.file == f
  {
    UploadRequest(f, None)
  }

  /** The body of `GET /resume/list`: an object with a `resumes` array, or
      a bare array. */
  datatype ListBody = Wrapped(resumes: seq<Resume>, total: nat) | Bare(rows: seq<Resume>)

  /** The check of `handleFileChange`: the MIME type first, then the
      size; None when the file is accepted. */
  function FileProblem(f: PickedFile): (r: Option<string>)
    ensures r.None? <==> (f.mimeType == PdfType || f.mimeType == DocxType) && f.size <= MaxUploadSize
    ensures f.mimeType != PdfType && f.mimeType != DocxType ==> r == Some(WrongTypeMessage)
    ensures (f.mimeType == PdfType || f.mimeType == DocxType) && f.size > MaxUploadSize ==> r == Some(TooBigMessage)
  {
    if f.mimeType != PdfType && f.mimeType != DocxType then Some(WrongTypeMessage)
    else if f.size > MaxUploadSize then Some(TooBigMessage)
    else None
  }

  /** `response.data.resumes || response.data`. */
  function ShownRows(body: ListBody): (rows: seq<Resume>)
    ensures body.Wrapped? ==> rows == body.resumes
    ensures body.Bare? ==> rows == body.rows
  {
    match body
    case Wrapped(resumes, _) => resumes
    case Bare(rows) => rows
  }

  class Page {
    var resumes: seq<Resume>
    var file: Option<PickedFile>
    var isPublic: bool
    var uploading: bool
    var loading: bool
    var error: Detail
    var success: string

    /** The first render, before the list arrives. */
    constructor ()
      ensures resumes == [] && file.None? && !isPublic && !uploading && loading
      ensures error == Message("") && success == ""
    {
      resumes := [];
      file := None;
      isPublic := false;
      uploading := false;
      loading := true;
      error := Message("");
      success := "";
    }

    /** `loadResumes`: shows the listed rows, or an error when the call
        fails; `loading` is off either way. */
    method LoadResumes(answer: CallResult<ListBody>)
      modifies this
      ensures answer.Answered? ==> resumes == ShownRows(answer.value) && error == old(error)
      ensures answer.Failed? ==> resumes == old(resumes) && error == Message(LoadFailedMessage)
      ensures !loading
      ensures file == old(file) && isPublic == old(isPublic) && uploading == old(uploading) && success == old(success)
    {
      if answer.Answered? {
        resumes := ShownRows(answer.value);
      } else {
        error := Message(LoadFailedMessage);
      }
      loading := false;
    }

    /** `handleFileChange`: no pick changes nothing; a refused pick shows
        why and drops the file; an accepted one is kept and the error
        cleared. */
    method HandleFileChange(picked: Option<PickedFile>)
      modifies this
      ensures picked.None? ==> file == old(file) && error == old(error)
      ensures picked.Some? && FileProblem(picked.value).Some? ==>
                file.None? && error == Message(FileProblem(picked.value).value)
      ensures picked.Some? && FileProblem(picked.value).None? ==> file == picked && error == Message("")
      ensures resumes == old(resumes) && isPublic == old(isPublic) && uploading == old(uploading)
      ensures loading == old(loading) && success == old(success)
    {
      if picked.Some? {
        var problem := FileProblem(picked.value);
        if problem.Some? {
          error := Message(problem.value);
          file := None;
          return;
        }
        file := picked;
        error := Message("");
      }
    }

    /** The "make public" checkbox: it only changes the page. */
    method SetPublic(checked: bool)
      modifies this
      ensures isPublic == checked
      ensures resumes == old(resumes) && file == old(file) && uploading == old(uploading)
      ensures loading == old(loading) && error == old(error) && success == old(success)
    {
      isPublic := checked;
    }

    /** `handleUpload`: without a file only the error is set and nothing
        is sent. Otherwise the form with the file alone is posted; an
        answer shows the success text, drops the file and asks for the
        list again (`reload`), a failure shows the server's detail or the
        page's text. `uploading` is off afterwards. */
    method HandleUpload(answer: CallResult<Resume>) returns (sent: Option<UploadRequest>, reload: bool)
      modifies this
      ensures old(file).None? ==>
                && sent.None? && !reload && error == Message(NoFileMessage)
                && file == old(file) && success == old(success) && uploading == old(uploading)
      ensures old(file).Some? ==> sent == Some(UploadRequestOf(old(file).value, old(isPublic))) && !uploading
      ensures old(file).Some? && answer.Answered? ==>
                success == UploadedMessage && file.None? && reload && error == Message("")
      ensures old(file).Some? && answer.Failed? ==>
                success == "" && file == old(file) && !reload && error == ErrorText(answer.error, UploadFallback)
      ensures resumes == old(resumes) && isPublic == old(isPublic) && loading == old(loading)
      ensures Renderable(error)
    {
      if file.None? {
        error := Message(NoFileMessage);
        return None, false;
      }
      uploading := true;
      error := Message("");
      success := "";
      sent := Some(UploadRequestOf(file.value, isPublic));
      reload := false;
      if answer.Answered? {
        success := UploadedMessage;
        file := None;
        reload := true;
      } else {
        error := ErrorText(answer.error, UploadFallback);
      }
      uploading := false;
    }

    /** `handleToggleVisibility` for a listed resume, sending the state
        it should take (see `ToggleVisibilityAsWritten` for the request as
        written); an answer shows the success text and reloads. */
    method HandleToggleVisibility(shown: Resume, answer: CallResult<Resume>) returns (sent: VisibilityRequest, reload: bool)
      modifies this
      ensures sent == ToggleVisibility(shown.id, shown.isPublic)
      ensures answer.Answered? ==> success == VisibilityUpdatedMessage && reload && error == old(error)
      ensures answer.Failed? ==> error == Message(VisibilityFailedMessage) && !reload && success == old(success)
      ensures resumes == old(resumes) && file == old(file) && isPublic == old(isPublic)
      ensures uploading == old(uploading) && loading == old(loading)
    {
      sent := ToggleVisibility(shown.id, shown.isPublic);
      if answer.Answered? {
        success := VisibilityUpdatedMessage;
        reload := true;
      } else {
        error := Message(VisibilityFailedMessage);
        reload := false;
      }
    }
  }

  /** The page and the server agree on the size limit: a file of exactly
      MAX_UPLOAD_SIZE bytes passes both, one byte more fails both. The
      server alone refuses an empty file. */
  lemma SizeLimitsAgree(f: PickedFile)
    requires f.mimeType == PdfType && Lower(SplitExt(f.name)) in AllowedExtensions
    ensures FileProblem(f).None? && f.size > 0 <==> ValidateUpload(f.name, f.size).Ok?
  {
  }

  /** Lower-casing leaves a string without upper-case letters alone. */
  lemma LowerOfLowercase(s: string)
    requires forall k :: 0 <= k < |s| ==> !IsUpper(s[k])
    ensures Lower(s) == s
  {
  }

  /** The page judges the browser's MIME type, the server the name's
      extension: a ".txt" file reported as PDF passes the page and is
      refused by the server. */
  lemma TextFileSlipsPastPage()
    ensures FileProblem(PickedFile("cv.txt", PdfType, 1)).None?
    ensures ValidateUpload("cv.txt", 1) == Err(HttpError(BadRequest, InvalidTypeMessage))
  {
    SplitExtOfNameAndSuffix("cv", "txt");
    assert "cv" + "." + "txt" == "cv.txt";
    LowerOfLowercase(".txt");
  }

  /** ... and a ".doc" file, which the server accepts, is refused by the
      page. */
  lemma DocFileRefusedByPage()
    ensures FileProblem(PickedFile("cv.doc", "application/msword", 1)) == Some(WrongTypeMessage)
    ensures ValidateUpload("cv.doc", 1).Ok?
  {
    assert "application/msword" != PdfType && "application/msword" != DocxType;
    DocFileAccepted();
  }

  /** The server accepts "cv.doc". */
  lemma DocFileAccepted()
    ensures ValidateUpload("cv.doc", 1).Ok?
  {
    var base, suffix := "cv", "doc";
    assert base + "." + suffix == "cv.doc";
    assert forall k :: 0 <= k < |base| ==> base[k] != '.' && base[k] != '/';
    assert forall k :: 0 <= k < |suffix| ==> suffix[k] != '.' && suffix[k] != '/' && !IsUpper(suffix[k]);
    LowerOfLowercase(suffix);
    UploadAcceptsAnyCase(base, suffix, 1);
  }

  /** The upload form never carries `is_public`, so the server's default
      applies: a resume uploaded from this page is private, whatever the
      checkbox says. */
  lemma PageUploadsArePrivate(f: PickedFile, checked: bool, id: nat, userId: nat, storedName: string,
                              contentType: string, now: nat)
    ensures UploadRequestOf(f, checked) == UploadRequestOf(f, !checked)
    ensures !UploadVisibility(UploadRequestOf(f, checked).isPublicQuery)
    ensures var q := UploadRequestOf(f, checked);
            !NewResume(id, userId, q.file.name, storedName, q.file.size, contentType,
                       UploadVisibility(q.isPublicQuery), now).isPublic
  {
  }

  /** As written, the toggle request has no `is_public`, so every verified
      caller gets the 422 "is_public: Field required". */
  lemma ToggleAsWrittenIsRefused(resumeId: nat)
    ensures MissingErrors("is_public", ToggleVisibilityAsWritten(resumeId).isPublic) == ["is_public: Field required"]
  {
    assert "is_public" + ": Field required" == "is_public: Field required";
  }

  /** The request the page sends passes validation, and the server's
      update (which sets, not flips) then flips the shown state. */
  lemma ToggleFlips(x: Resume)
    ensures var q := ToggleVisibility(x.id, x.isPublic);
            MissingErrors("is_public", q.isPublic) == [] && x.(isPublic := q.isPublic.value).isPublic == !x.isPublic
  {
  }
}
