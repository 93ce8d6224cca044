/** The profile page: the edit form filled from `GET /profile/me`, its
    change handler and its submit. The form is the record `formData`, kept
    as a map from input name to value. */
module ProfilePage {
  import opened Wrappers
  import opened Models
  import opened Schemas
  import opened ProfileRoutes
  import opened ApiClient

  /** A form value: the text of an input or the state of a checkbox. */
  datatype FormValue = Text(text: string) | Flag(checked: bool)

  type Form = map<string, FormValue>

  const LoadFailedMessage := "Failed to load profile"
  const UpdatedMessage := "Profile updated successfully"
  const UpdateFallback := "Failed to update profile"

  /** `v || ''` on a nullable text column. */
  function TextOrEmpty(v: Option<string>): (s: string)
    ensures v.Some? ==> s == v.value
    ensures v.None? ==> s == ""
  {
    if v.Some? then v.value else ""
  }

  /** `v ?? true` on a nullable boolean column: only a missing value
      becomes true, a stored false stays false. */
  function FlagOrTrue(v: Option<bool>): (b: bool)
    ensures b <==> v != Some(false)
  {
    if v.Some? then v.value else true
  }

  /** The form before anything is loaded. */
  function EmptyForm(): (f: Form)
    ensures f.Keys == {"headline", "bio", "location", "privacy_show_email", "privacy_show_phone", "privacy_show_location"}
  {
    map["headline" := Text(""), "bio" := Text(""), "location" := Text(""),
        "privacy_show_email" := Flag(true), "privacy_show_phone" := Flag(true), "privacy_show_location" := Flag(true)]
  }

  /** The form `loadProfile` builds from the answer's `profile` (None when
      the caller has none). */
  function FormFrom(p: Option<Profile>): (f: Form)
    ensures f.Keys == EmptyForm().Keys
    ensures p.None? ==> f == EmptyForm()
    ensures p.Some? ==> f["headline"] == Text(TextOrEmpty(p.value.headline)) && f["bio"] == Text(TextOrEmpty(p.value.bio))
                        && f["location"] == Text(TextOrEmpty(p.value.location))
    ensures p.Some? ==> f["privacy_show_email"] == Flag(FlagOrTrue(p.value.privacyShowEmail))
                        && f["privacy_show_phone"] == Flag(FlagOrTrue(p.value.privacyShowPhone))
                        && f["privacy_show_location"] == Flag(FlagOrTrue(p.value.privacyShowLocation))
  {
    if p.None? then EmptyForm()
    else
      var q := p.value;
      map["headline" := Text(TextOrEmpty(q.headline)), "bio" := Text(TextOrEmpty(q.bio)),
          "location" := Text(TextOrEmpty(q.location)),
          "privacy_show_email" := Flag(FlagOrTrue(q.privacyShowEmail)),
          "privacy_show_phone" := Flag(FlagOrTrue(q.privacyShowPhone)),
          "privacy_show_location" := Flag(FlagOrTrue(q.privacyShowLocation))]
  }

  /** A text member of the JSON body as the server reads it. */
  function TextField(f: Form, name: string): (v: Field<Option<string>>)
    ensures name in f && f[name].Text? ==> v == Set(Some(f[name].text))
    ensures name !in f ==> v == Unset
  {
    if name in f && f[name].Text? then Set(Some(f[name].text)) else Unset
  }

  /** A boolean member of the JSON body as the server reads it. */
  function FlagField(f: Form, name: string): (v: Field<Option<bool>>)
    ensures name in f && f[name].Flag? ==> v == Set(Some(f[name].checked))
    ensures name !in f ==> v == Unset
  {
    if name in f && f[name].Flag? then Set(Some(f[name].checked)) else Unset
  }

  /** The `ProfileUpdate` the server reads from the submitted form; the
      form has no input for `allow_profile_view_tracking`. */
  function UpdateOf(f: Form): (u: ProfileUpdate)
    ensures u.allowProfileViewTracking == Unset
    ensures u.headline == TextField(f, "headline") && u.bio == TextField(f, "bio") && u.location == TextField(f, "location")
  {
    ProfileUpdate(TextField(f, "headline"), TextField(f, "location"), TextField(f, "bio"),
                  FlagField(f, "privacy_show_email"), FlagField(f, "privacy_show_phone"),
                  FlagField(f, "privacy_show_location"), Unset)
  }

  /** Saving the form unedited and loading it again shows the same form. */
  lemma UneditedSaveRoundTrip(p: Profile)
    ensures FormFrom(Some(ApplyUpdate(p, UpdateOf(FormFrom(Some(p)))))) == FormFrom(Some(p))
  {
    var q := ApplyUpdate(p, UpdateOf(FormFrom(Some(p))));
    assert q.headline == Some(TextOrEmpty(p.headline)) && q.bio == Some(TextOrEmpty(p.bio))
           && q.location == Some(TextOrEmpty(p.location));
    assert q.privacyShowEmail == Some(FlagOrTrue(p.privacyShowEmail));
    assert q.privacyShowPhone == Some(FlagOrTrue(p.privacyShowPhone));
    assert q.privacyShowLocation == Some(FlagOrTrue(p.privacyShowLocation));
  }

  /** ... while the row itself changes: a missing headline is saved as the
      empty string, a missing privacy flag as true, and view tracking is
      never touched. */
  lemma UneditedSaveFillsNulls(p: Profile)
    ensures var q := ApplyUpdate(p, UpdateOf(FormFrom(Some(p))));
            && (p.headline.None? ==> q.headline == Some(""))
            && (p.privacyShowEmail.None? ==> q.privacyShowEmail == Some(true))
            && q.allowProfileViewTracking == p.allowProfileViewTracking
  {
  }

  class Page {
    var profileLoaded: bool
    var editing: bool
    var form: Form
    var loading: bool
    var error: Detail
    var success: string

    /** The first render, before the profile arrives. */
    constructor ()
      ensures !profileLoaded && !editing && form == EmptyForm() && loading
      ensures error == Message("") && success == ""
    {
      profileLoaded := false;
      editing := false;
      form := EmptyForm();
      loading := true;
      error := Message("");
      success := "";
    }

    /** `loadProfile`: an answer fills the form from the caller's profile,
        a failure shows the page's text; `loading` is off either way. */
    method LoadProfile(answer: CallResult<Option<Profile>>)
      modifies this
      ensures answer.Answered? ==> profileLoaded && form == FormFrom(answer.value) && error == old(error)
      ensures answer.Failed? ==>
                profileLoaded == old(profileLoaded) && form == old(form) && error == Message(LoadFailedMessage)
      ensures !loading && editing == old(editing) && success == old(success)
    {
      if answer.Answered? {
        profileLoaded := true;
        form := FormFrom(answer.value);
      } else {
        error := Message(LoadFailedMessage);
      }
      loading := false;
    }

    /** `handleChange`: the input `name` takes its checkbox state or its
        text; every other entry of the form stays. */
    method HandleChange(name: string, isCheckbox: bool, value: string, checked: bool)
      modifies this
      ensures form == old(form)[name := if isCheckbox then Flag(checked) else Text(value)]
      ensures forall k :: k in old(form) && k != name ==> k in form && form[k] == old(form)[k]
      ensures profileLoaded == old(profileLoaded) && editing == old(editing) && loading == old(loading)
      ensures error == old(error) && success == old(success)
    {
      form := form[name := if isCheckbox then Flag(checked) else Text(value)];
    }

    /** The edit button. */
    method ToggleEditing()
      modifies this
      ensures editing == !old(editing)
      ensures form == old(form) && profileLoaded == old(profileLoaded) && loading == old(loading)
      ensures error == old(error) && success == old(success)
    {
      editing := !editing;
    }

    /** `handleSubmit`: sends the whole form; an answer shows the success
        text, leaves edit mode and reloads, a failure shows the server's
        detail or the page's text and stays in edit mode. */
    method HandleSubmit(answer: CallResult<Profile>) returns (sent: Form, reload: bool)
      modifies this
      ensures sent == old(form) && form == old(form)
      ensures answer.Answered? ==> success == UpdatedMessage && !editing && reload && error == Message("")
      ensures answer.Failed? ==>
                success == "" && editing == old(editing) && !reload && error == ErrorText(answer.error, UpdateFallback)
      ensures Renderable(error)
      ensures profileLoaded == old(profileLoaded) && loading == old(loading)
    {
      error := Message("");
      success := "";
      sent := form;
      if answer.Answered? {
        success := UpdatedMessage;
        editing := false;
        reload := true;
      } else {
        error := ErrorText(answer.error, UpdateFallback);
        reload := false;
      }
    }
  }

  /** A headline over 200 characters is refused with a 422; the detail
      the page stores for it as written cannot be rendered, while the
      joined text names the headline's limit. */
  lemma LongHeadlineErrorUnrenderable(f: Form, headline: string)
    requires "headline" in f && f["headline"] == Text(headline) && |headline| > 200
    ensures var v := ValidateProfileUpdate(UpdateOf(f));
            && v.Err? && v.error.ValidationError?
            && !Renderable(ErrorShown(Some(v.error), UpdateFallback))
            && MaxLengthMessage("headline", 200) <= ErrorText(Some(v.error), UpdateFallback).text
  {
  }
}
