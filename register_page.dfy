/** The registration page: a form, then an OTP step. Each handler runs to
    the end with the answer of its one awaited call given as a parameter;
    what the page sends is returned. */
module RegisterPage {
  import opened Wrappers
  import opened Models
  import opened Schemas
  import opened ApiClient
  import Auth
  import Strings

  datatype Step = StepRegister | StepVerify

  /** The JSON body of `POST /auth/register`; `role` is `Unset` when the
      body has no such key. */
  datatype RegisterBody = RegisterBody(email: string, password: string, fullName: string, role: Field<string>)

  /** The body `handleRegister` posts for the form's three fields: the
      form has no role input, so the body never carries one. */
  function RegisterBodyOf(email: string, password: string, fullName: string): (b: RegisterBody)
    ensures b.email == email && b.password == password && b.fullName == fullName
    ensures b.role.Unset?
  {
    RegisterBody(email, password, fullName, Unset)
  }

  /** The JSON body of `POST /auth/verify-otp`. */
  datatype VerifyBody = VerifyBody(email: string, otp: string)

  /** The token pair `POST /auth/verify-otp` answers with. */
  datatype Tokens = Tokens(accessToken: string, refreshToken: string)

  const RegisterFallback := "Registration failed. Please try again."
  const VerifyFallback := "OTP verification failed."
  const DashboardPath := "/dashboard"

  class Page {
    var email: string
    var password: string
    var fullName: string
    var otp: string
    var step: Step
    var error: Detail
    var loading: bool

    /** The first render: the registration step, every field empty. */
    constructor ()
      ensures email == "" && password == "" && fullName == "" && otp == ""
      ensures step == StepRegister && error == Message("") && !loading
    {
      email, password, fullName, otp := "", "", "", "";
      step := StepRegister;
      error := Message("");
      loading := false;
    }

    /** `handleChange`: the input called `name` takes `value`; nothing else
        moves (an input with another name only adds a key the model does
        not keep). */
    method HandleChange(name: string, value: string)
      modifies this
      ensures email == (if name == "email" then value else old(email))
      ensures password == (if name == "password" then value else old(password))
      ensures fullName == (if name == "full_name" then value else old(fullName))
      ensures otp == old(otp) && step == old(step) && error == old(error) && loading == old(loading)
    {
      if name == "email" {
        email := value;
      } else if name == "password" {
        password := value;
      } else if name == "full_name" {
        fullName := value;
      }
    }

    /** The OTP input's own setter. */
    method SetOtp(value: string)
      modifies this
      ensures otp == value
      ensures email == old(email) && password == old(password) && fullName == old(fullName)
      ensures step == old(step) && error == old(error) && loading == old(loading)
    {
      otp := value;
    }

    /** `handleRegister`: sends the form; an answer moves the page to the
        OTP step, a failure stays and shows the server's detail or the
        page's text. `loading` is off again either way. */
    method HandleRegister(answer: CallResult<()>) returns (sent: RegisterBody)
      modifies this
      ensures sent == RegisterBodyOf(old(email), old(password), old(fullName))
      ensures answer.Answered? ==> step == StepVerify && error == Message("")
      ensures answer.Failed? ==> step == old(step) && error == ErrorText(answer.error, RegisterFallback)
      ensures error != Message("") <==> answer.Failed?
      ensures Renderable(error)
      ensures !loading
      ensures email == old(email) && password == old(password) && fullName == old(fullName) && otp == old(otp)
    {
      error := Message("");
      loading := true;
      sent := RegisterBodyOf(email, password, fullName);
      if answer.Answered? {
        step := StepVerify;
      } else {
        error := ErrorText(answer.error, RegisterFallback);
      }
      loading := false;
    }

    /** `handleVerifyOTP`: sends the e-mail kept from the form with the
        typed code; an answer stores both tokens and goes to the
        dashboard, a failure stays on this step with an error, ready for
        another try. */
    method HandleVerifyOtp(client: Client, answer: CallResult<Tokens>) returns (sent: VerifyBody)
      modifies this, client
      ensures sent == VerifyBody(old(email), old(otp))
      ensures answer.Answered? ==>
                && client.storage == old(client.storage)[AccessTokenKey := answer.value.accessToken]
                                                         [RefreshTokenKey := answer.value.refreshToken]
                && client.location == DashboardPath && error == Message("")
      ensures answer.Failed? ==>
                && client.storage == old(client.storage) && client.location == old(client.location)
                && error == ErrorText(answer.error, VerifyFallback) && error != Message("")
      ensures Renderable(error)
      ensures client.calls == old(client.calls)
      ensures !loading && step == old(step)
      ensures email == old(email) && password == old(password) && fullName == old(fullName) && otp == old(otp)
    {
      error := Message("");
      loading := true;
      sent := VerifyBody(email, otp);
      if answer.Answered? {
        client.storage := client.storage[AccessTokenKey := answer.value.accessToken];
        client.storage := client.storage[RefreshTokenKey := answer.value.refreshToken];
        client.location := DashboardPath;
      } else {
        error := ErrorText(answer.error, VerifyFallback);
      }
      loading := false;
    }
  }

  /** What the page sends, checked by `UserRegister`: it passes exactly
      when the three typed fields do, and the account `register` then
      stores is a plain user. */
  lemma PageRegistersPlainUsers(email: string, password: string, fullName: string, id: nat, salt: string, now: nat)
    ensures var b := RegisterBodyOf(email, password, fullName);
            (ValidateRegister(b.email, b.password, b.fullName, b.role).Ok?
             <==> ValidEmail(email) && StrongPassword(password) && 1 <= |fullName| <= 100)
    ensures var b := RegisterBodyOf(email, password, fullName);
            var v := ValidateRegister(b.email, b.password, b.fullName, b.role);
            v.Ok? ==> Auth.NewUser(id, v.value, salt, now).role == RoleUser
  {
  }

  /** "password" has no digit, so the page's body is refused with a 422
      whatever the e-mail and name; the detail the page stores for it as
      written is the list of problems, which `{error}` cannot render,
      while the joined text can be. */
  lemma WeakPasswordErrorUnrenderable(email: string, fullName: string)
    ensures !StrongPassword("password")
    ensures var b := RegisterBodyOf(email, "password", fullName);
            var v := ValidateRegister(b.email, b.password, b.fullName, b.role);
            && v.Err?
            && !Renderable(ErrorShown(Some(v.error), RegisterFallback))
            && Renderable(ErrorText(Some(v.error), RegisterFallback))
  {
    var p := "password";
    assert forall i :: 0 <= i < |p| ==> !Strings.IsDigit(p[i]);
  }
}
