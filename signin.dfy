/** The sign-up form: six required fields, the account request, and the message the
    outcome produces. The request is split at its `await`: `Submit` runs up to it and
    `Complete` runs when it settles, with the outcome as an input. */
module Signin {
  import opened Wrappers

  const MissingFields := "請填寫所有欄位。"
  const EmailInUse := "Email 已被註冊，請改用其他 Email。"
  const WeakPassword := "密碼太簡單，請至少 6 碼以上。"
  const SignUpFailed := "註冊失敗，請稍後再試。"

  /** `{ type, text }`; `type` is `""`, `"error"` or `"success"`. */
  datatype Message = Message(kind: string, text: string)

  /** How the account request settles: success, or an error with its code. */
  datatype SignUpOutcome = SignedUp | SignUpError(code: string)

  datatype Form = Form(realName: string, nickname: string, phoneNumber: string, address: string,
                       email: string, password: string, loading: bool, message: Message)

  /** Some field is empty. */
  predicate AnyEmpty(f: Form)
  {
    f.realName == "" || f.nickname == "" || f.phoneNumber == "" || f.address == "" || f.email == "" || f.password == ""
  }

  /** The error text for a failure code. */
  function ErrorText(code: string): string
  {
    if code == "auth/email-already-in-use" then EmailInUse
    else if code == "auth/weak-password" then WeakPassword
    else SignUpFailed
  }

  /** The success text names the e-mail and the nickname. */
  function SuccessText(email: string, nickname: string): string
  {
    "註冊成功！Email：" + email + "，暱稱：" + nickname
  }

  /** `handleSubmit` up to the request; `requested` tells whether the account request goes out. */
  datatype SubmitStep = SubmitStep(form: Form, requested: bool)

  function Submitted(f: Form): SubmitStep
  {
    var started := f.(loading := true, message := Message("", ""));
    if AnyEmpty(f) then SubmitStep(started.(message := Message("error", MissingFields), loading := false), false)
    else SubmitStep(started, true)
  }

  /** The rest of `handleSubmit` once the request settles. */
  function Completed(f: Form, outcome: SignUpOutcome): Form
  {
    match outcome
    case SignedUp =>
      f.(message := Message("success", SuccessText(f.email, f.nickname)),
         realName := "", nickname := "", phoneNumber := "", address := "", email := "", password := "",
         loading := false)
    case SignUpError(code) => f.(message := Message("error", ErrorText(code)), loading := false)
  }

  /** Each failure code has its text and every other code the default one. */
  lemma ErrorTextSpec(code: string)
    ensures ErrorText("auth/email-already-in-use") == EmailInUse
    ensures ErrorText("auth/weak-password") == WeakPassword
    ensures code != "auth/email-already-in-use" && code != "auth/weak-password" ==> ErrorText(code) == SignUpFailed
    ensures ErrorText(code) != ""
  {
  }

  /** An empty field stops the submission with the missing-fields error and no request; a
      filled form sends the request and waits; the fields are untouched until it settles. */
  lemma SubmittedSpec(f: Form)
    ensures AnyEmpty(f) <==> !Submitted(f).requested
    ensures AnyEmpty(f) ==> Submitted(f).form.message == Message("error", MissingFields) && !Submitted(f).form.loading
    ensures !AnyEmpty(f) ==> Submitted(f).form.loading && Submitted(f).form.message == Message("", "")
    ensures Submitted(f).form.email == f.email && Submitted(f).form.password == f.password
            && Submitted(f).form.nickname == f.nickname
  {
  }

  /** Success names the e-mail and nickname sent and clears all six fields; failure keeps
      them and shows the code's text; loading is off after every outcome. */
  lemma CompletedSpec(f: Form, outcome: SignUpOutcome)
    ensures !Completed(f, outcome).loading
    ensures outcome.SignedUp? ==> Completed(f, outcome).message == Message("success", SuccessText(f.email, f.nickname))
    ensures outcome.SignedUp? ==>
              var g := Completed(f, outcome);
              g.realName == "" && g.nickname == "" && g.phoneNumber == "" && g.address == "" && g.email == "" && g.password == ""
    ensures outcome.SignUpError? ==>
              Completed(f, outcome) == f.(message := Message("error", ErrorText(outcome.code)), loading := false)
  {
  }

  /** The success text starts with the fixed greeting and contains the e-mail right after it. */
  lemma SuccessTextSpec(email: string, nickname: string)
    ensures var t := SuccessText(email, nickname);
            var head := "註冊成功！Email：";
            |t| == |head| + |email| + 4 + |nickname| && t[..|head|] == head && t[|head|..|head| + |email|] == email
            && t[|t| - |nickname|..] == nickname
  {
  }

  /** The sign-up page's state. */
  class SigninPage {
    var realName: string
    var nickname: string
    var phoneNumber: string
    var address: string
    var email: string
    var password: string
    var loading: bool
    var message: Message

    function State(): Form
      reads this
    {
      Form(realName, nickname, phoneNumber, address, email, password, loading, message)
    }

    constructor()
      ensures State() == Form("", "", "", "", "", "", false, Message("", ""))
    {
      realName, nickname, phoneNumber, address, email, password := "", "", "", "", "", "";
      loading := false;
      message := Message("", "");
    }

    method Edit(f: Form)
      modifies this
      ensures State() == old(State()).(realName := f.realName, nickname := f.nickname, phoneNumber := f.phoneNumber,
                                       address := f.address, email := f.email, password := f.password)
    {
      realName, nickname, phoneNumber, address, email, password :=
        f.realName, f.nickname, f.phoneNumber, f.address, f.email, f.password;
    }

    method Submit() returns (requested: bool)
      modifies this
      ensures SubmitStep(State(), requested) == Submitted(old(State()))
    {
      loading := true;
      message := Message("", "");
      if realName == "" || nickname == "" || phoneNumber == "" || address == "" || email == "" || password == "" {
        message := Message("error", MissingFields);
        loading := false;
        return false;
      }
      requested := true;
    }

    method Complete(outcome: SignUpOutcome)
      modifies this
      ensures State() == Completed(old(State()), outcome)
    {
      match outcome {
        case SignedUp =>
          message := Message("success", "註冊成功！Email：" + email + "，暱稱：" + nickname);
          realName := "";
          nickname := "";
          phoneNumber := "";
          address := "";
          email := "";
          password := "";
        case SignUpError(code) =>
          var text := SignUpFailed;
          if code == "auth/email-already-in-use" {
            text := EmailInUse;
          } else if code == "auth/weak-password" {
            text := WeakPassword;
          }
          message := Message("error", text);
      }
      loading := false;
    }
  }
}
