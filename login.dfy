/** The login form: the empty-field check, the sign-in request and the message and
    navigation its outcome produces. The request is split at its `await`: `Submit` runs up
    to it and `Complete` runs when it (and the token request after it) settles. */
module Login {
  import opened Wrappers

  const MissingCredentials := "請輸入 Email 與密碼。"
  const Welcome := "登入成功！歡迎回來～"
  const InvalidEmail := "Email 格式不正確。"
  const BadCredentials := "帳號或密碼錯誤。"
  const LoginFailed := "登入失敗，請確認帳號密碼。"
  const AccountRoute := "/auth"

  datatype Message = Message(kind: string, text: string)

  /** How the sign-in settles: success, or an error with its code. */
  datatype SignInOutcome = SignedIn | SignInError(code: string)

  datatype Form = Form(email: string, password: string, staySignedIn: bool, loading: bool, message: Message)

  /** The error text for a failure code. */
  function ErrorText(code: string): string
  {
    if code == "auth/invalid-email" then InvalidEmail
    else if code == "auth/user-not-found" || code == "auth/wrong-password" then BadCredentials
    else LoginFailed
  }

  /** `handleSubmit` up to the request. */
  datatype SubmitStep = SubmitStep(form: Form, requested: bool)

  function Submitted(f: Form): SubmitStep
  {
    var started := f.(loading := true, message := Message("", ""));
    if f.email == "" || f.password == "" then
      SubmitStep(started.(message := Message("error", MissingCredentials), loading := false), false)
    else SubmitStep(started, true)
  }

  /** The form and the navigation once the request settles. */
  datatype CompleteStep = CompleteStep(form: Form, route: Option<string>)

  function Completed(f: Form, outcome: SignInOutcome): CompleteStep
  {
    match outcome
    case SignedIn => CompleteStep(f.(message := Message("success", Welcome), loading := false), Some(AccountRoute))
    case SignInError(code) => CompleteStep(f.(message := Message("error", ErrorText(code)), loading := false), None)
  }

  /** The message is reset at the start of every submission; an empty e-mail or password
      gives the missing-credentials error, no request, and loading off. */
  lemma SubmittedSpec(f: Form)
    ensures Submitted(f).requested <==> f.email != "" && f.password != ""
    ensures Submitted(f).requested ==> Submitted(f).form.message == Message("", "") && Submitted(f).form.loading
    ensures !Submitted(f).requested ==>
              Submitted(f).form.message == Message("error", MissingCredentials) && !Submitted(f).form.loading
    ensures Submitted(f).form.email == f.email && Submitted(f).form.password == f.password
  {
  }

  /** Each failure code maps to its text (the two credential errors to one), every other
      code to the default; only success navigates, to the account page; loading is off
      after every outcome. */
  lemma CompletedSpec(f: Form, outcome: SignInOutcome, code: string)
    ensures ErrorText("auth/invalid-email") == InvalidEmail
    ensures ErrorText("auth/user-not-found") == BadCredentials && ErrorText("auth/wrong-password") == BadCredentials
    ensures code != "auth/invalid-email" && code != "auth/user-not-found" && code != "auth/wrong-password" ==>
              ErrorText(code) == LoginFailed
    ensures !Completed(f, outcome).form.loading
    ensures Completed(f, outcome).route.Some? <==> outcome.SignedIn?
    ensures outcome.SignedIn? ==> Completed(f, outcome).route == Some(AccountRoute)
                                  && Completed(f, outcome).form.message == Message("success", Welcome)
    ensures outcome.SignInError? ==> Completed(f, outcome).form.message == Message("error", ErrorText(outcome.code))
    ensures Completed(f, outcome).form.email == f.email && Completed(f, outcome).form.password == f.password
  {
  }

  /** The login page's state. */
  class LoginPage {
    var email: string
    var password: string
    var staySignedIn: bool
    var loading: bool
    var message: Message

    function State(): Form
      reads this
    {
      Form(email, password, staySignedIn, loading, message)
    }

    constructor()
      ensures State() == Form("", "", false, false, Message("", ""))
    {
      email, password := "", "";
      staySignedIn := false;
      loading := false;
      message := Message("", "");
    }

    method Edit(newEmail: string, newPassword: string, stay: bool)
      modifies this
      ensures State() == old(State()).(email := newEmail, password := newPassword, staySignedIn := stay)
    {
      email, password, staySignedIn := newEmail, newPassword, stay;
    }

    method Submit() returns (requested: bool)
      modifies this
      ensures SubmitStep(State(), requested) == Submitted(old(State()))
    {
      loading := true;
      message := Message("", "");
      if email == "" || password == "" {
        message := Message("error", MissingCredentials);
        loading := false;
        return false;
      }
      requested := true;
    }

    method Complete(outcome: SignInOutcome) returns (route: Option<string>)
      modifies this
      ensures CompleteStep(State(), route) == Completed(old(State()), outcome)
    {
      match outcome {
        case SignedIn =>
          message := Message("success", Welcome);
          route := Some(AccountRoute);
        case SignInError(code) =>
          var text := LoginFailed;
          if code == "auth/invalid-email" {
            text := InvalidEmail;
          } else if code == "auth/user-not-found" || code == "auth/wrong-password" {
            text := BadCredentials;
          }
          message := Message("error", text);
          route := None;
      }
      loading := false;
    }
  }
}
