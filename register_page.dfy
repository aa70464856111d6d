/**
 * The `Register` screen: its form, the four-rule validator, the per-field
 * input handlers and the submit step that posts to `/register`.
 */
module RegisterPage {
  import opened FormRules

  datatype RegisterForm = RegisterForm(name: string, email: string, password: string, repassword: string)

  /** The input fields of the screen, one `v-model` input each. */
  datatype Field = Name | Email | Password | Repassword

  function FieldValue(f: RegisterForm, g: Field): string
  {
    match g
    case Name => f.name
    case Email => f.email
    case Password => f.password
    case Repassword => f.repassword
  }

  /** `data()`: every field starts empty. */
  const InitialForm := RegisterForm("", "", "", "")

  /** Whether rule `r` is satisfied by the form. */
  predicate Holds(f: RegisterForm, r: Rule)
  {
    match r
    case NameLength => LengthInRange(f.name)
    case EmailFormat => EmailFormatOk(f.email)
    case PasswordLength => LengthInRange(f.password)
    case PasswordsMatch => f.repassword == f.password
  }

  /**
   * `validateForm`: the first rule, in the order name, email, password
   * length, match, that the form breaks; `Pass` when it breaks none.
   */
  function Validate(f: RegisterForm): (v: Verdict)
    ensures v.Pass? <==> forall r :: Holds(f, r)
    ensures v.Fail? ==> !Holds(f, v.rule) && forall r :: Rank(r) < Rank(v.rule) ==> Holds(f, r)
  {
    if !Holds(f, NameLength) then Fail(NameLength)
    else if !Holds(f, EmailFormat) then Fail(EmailFormat)
    else if !Holds(f, PasswordLength) then Fail(PasswordLength)
    else if !Holds(f, PasswordsMatch) then Fail(PasswordsMatch)
    else Pass
  }

  /** The text of the error notification raised for a broken rule. */
  function Message(r: Rule): string
  {
    match r
    case NameLength => "用户名应该为6-15个字符"
    case EmailFormat => EmailFormatMessage
    case PasswordLength => "密码应该为6-15个字符"
    case PasswordsMatch => MismatchMessage
  }

  const RegisterPath := "/register"

  /** The events `handleSubmit` records for form `f`: the post when it validates, else the validator's notification. */
  function SubmitEvents(f: RegisterForm): seq<Event<RegisterForm>>
  {
    var v := Validate(f);
    if v.Pass? then [Post(RegisterPath, f)] else Notices(v, Message)
  }

  /**
   * A submit records exactly one event. It is an error notification exactly
   * when some rule is broken, and then it carries the message of the broken
   * rule that comes first in the checking order; otherwise it is the post.
   */
  lemma {:induction false} SubmitEventsSpec(f: RegisterForm)
    ensures |SubmitEvents(f)| == 1
    ensures SubmitEvents(f)[0].NotifyError? <==> exists r :: !Holds(f, r)
    ensures (forall r :: Holds(f, r)) ==> SubmitEvents(f) == [Post(RegisterPath, f)]
    ensures forall r :: !Holds(f, r) && (forall q :: Rank(q) < Rank(r) ==> Holds(f, q)) ==>
                        SubmitEvents(f) == [NotifyError(ErrorTitle, Message(r))]
  {
  }
  const UserPath := "/user"
  const RegisteredMessage := "注册成功~即将跳转到个人页面..."

  /**
   * The screen's component instance. `trace` records the calls made to the
   * notification service, the HTTP client, `helper.setUser` and the router;
   * `awaiting` counts posts whose promise has not resolved yet and `timers`
   * counts the `setTimeout` callbacks not yet run.
   */
  class RegisterScreen {
    var formData: RegisterForm
    var trace: seq<Event<RegisterForm>>
    var awaiting: nat
    var timers: nat

    constructor ()
      ensures formData == InitialForm && trace == [] && awaiting == 0 && timers == 0
    {
      formData := InitialForm;
      trace := [];
      awaiting := 0;
      timers := 0;
    }

    /**
     * The `input` handler of field `g`: ignored while the browser is composing
     * text, otherwise `$set` writes that one field.
     */
    method Input(g: Field, value: string, composing: bool)
      modifies this
      ensures forall h :: FieldValue(formData, h) == if h == g && !composing then value else FieldValue(old(formData), h)
      ensures trace == old(trace) && awaiting == old(awaiting) && timers == old(timers)
    {
      if composing {
        return;
      }
      match g
      case Name => formData := formData.(name := value);
      case Email => formData := formData.(email := value);
      case Password => formData := formData.(password := value);
      case Repassword => formData := formData.(repassword := value);
    }

    /** `handleSubmit`: post the current form only when it validates. */
    method HandleSubmit()
      modifies this
      ensures var v := Validate(old(formData));
        && trace == old(trace) + SubmitEvents(old(formData))
        && awaiting == old(awaiting) + (if v.Pass? then 1 else 0)
      ensures formData == old(formData) && timers == old(timers)
    {
      var v := Validate(formData);
      if v.Pass? {
        trace := trace + [Post(RegisterPath, formData)];
        awaiting := awaiting + 1;
      } else {
        trace := trace + Notices(v, Message);
      }
    }

    /**
     * The `then` callback of a post: success notification, `setUser(res)`,
     * and one scheduled close-and-navigate action.
     */
    method Resolve(res: Response)
      requires awaiting > 0
      modifies this
      ensures trace == old(trace) + [NotifySuccess(SuccessTitle, RegisteredMessage), SetUser(res)]
      ensures awaiting == old(awaiting) - 1 && timers == old(timers) + 1 && formData == old(formData)
    {
      trace := trace + [NotifySuccess(SuccessTitle, RegisteredMessage), SetUser(res)];
      awaiting := awaiting - 1;
      timers := timers + 1;
    }

    /** The `setTimeout` callback: close every notification, then go to `/user`. */
    method FireTimer()
      requires timers > 0
      modifies this
      ensures trace == old(trace) + [CloseAll, Navigate(UserPath)]
      ensures timers == old(timers) - 1 && awaiting == old(awaiting) && formData == old(formData)
    {
      trace := trace + [CloseAll, Navigate(UserPath)];
      timers := timers - 1;
    }
  }

  /** Submitting the untouched form fails on the name rule, with one notification and no post. */
  method SubmitInitialForm() returns (t: seq<Event<RegisterForm>>, posted: nat)
    ensures t == [NotifyError(ErrorTitle, Message(NameLength))] && posted == 0
  {
    var screen := new RegisterScreen();
    screen.HandleSubmit();
    t, posted := screen.trace, screen.awaiting;
  }

  /**
   * A valid form typed in field by field, submitted, answered and left after
   * the delay: one post of that form, then success, `setUser`, close, `/user`.
   */
  method RegisterThenNavigate(res: Response) returns (t: seq<Event<RegisterForm>>)
    ensures t == [Post(RegisterPath, RegisterForm("validuser", "a@b.com", "secret1", "secret1")),
                  NotifySuccess(SuccessTitle, RegisteredMessage), SetUser(res), CloseAll, Navigate(UserPath)]
  {
    var screen := new RegisterScreen();
    screen.Input(Name, "validuser", false);
    screen.Input(Email, "a@b.com", false);
    screen.Input(Password, "secret1", false);
    screen.Input(Repassword, "secret1", false);
    assert FieldValue(screen.formData, Name) == "validuser";
    assert FieldValue(screen.formData, Email) == "a@b.com";
    assert FieldValue(screen.formData, Password) == "secret1";
    assert FieldValue(screen.formData, Repassword) == "secret1";
    assert "a@b.com"[1..6][0] == '@';
    screen.HandleSubmit();
    screen.Resolve(res);
    screen.FireTimer();
    t := screen.trace;
  }

  /** Both length rules are inclusive: 6 and 15 pass, 5 and 16 fail. */
  lemma LengthBoundsInclusive(f: RegisterForm)
    ensures |f.name| == 5 || |f.name| == 16 ==> Validate(f) == Fail(NameLength)
    ensures (|f.name| == 6 || |f.name| == 15) && EmailFormatOk(f.email) && (|f.password| == 5 || |f.password| == 16)
            ==> Validate(f) == Fail(PasswordLength)
    ensures && (|f.name| == 6 || |f.name| == 15) && EmailFormatOk(f.email)
            && (|f.password| == 6 || |f.password| == 15) && f.repassword == f.password
            ==> Validate(f) == Pass
  {
  }

  /** A mismatching confirmation is reported only when the three earlier rules hold. */
  lemma {:induction false} MismatchReportedLast(f: RegisterForm)
    requires f.repassword != f.password
    ensures Validate(f) == Fail(PasswordsMatch) <==> Holds(f, NameLength) && Holds(f, EmailFormat) && Holds(f, PasswordLength)
    ensures Validate(f).Fail?
  {
  }
}
