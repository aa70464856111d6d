/**
 * The `Reset` screen: the query guard run on creation, the three-rule
 * validator, the disabled submit button and the submit step that posts to
 * `/password/reset` and reacts only to a "success" answer.
 */
module ResetPage {
  import opened FormRules

  datatype ResetForm = ResetForm(email: string, sign: string, password: string, repassword: string)

  /** The screen's inputs; `Email` is rendered `disabled` and `sign` has no input at all. */
  datatype Field = Email | Password | Repassword

  const InitialForm := ResetForm("", "", "", "")

  /** Whether rule `r` is satisfied; the screen has no name rule, so that one always holds. */
  predicate Holds(f: ResetForm, r: Rule)
  {
    match r
    case NameLength => true
    case EmailFormat => EmailFormatOk(f.email)
    case PasswordLength => LengthInRange(f.password)
    case PasswordsMatch => f.repassword == f.password
  }

  /**
   * `validateForm`: the first rule, in the order email, password length,
   * match, that the form breaks; `Pass` when it breaks none.
   */
  function Validate(f: ResetForm): (v: Verdict)
    ensures v.Pass? <==> forall r :: Holds(f, r)
    ensures v.Fail? ==> v.rule != NameLength && !Holds(f, v.rule) && forall r :: Rank(r) < Rank(v.rule) ==> Holds(f, r)
  {
    if !Holds(f, EmailFormat) then Fail(EmailFormat)
    else if !Holds(f, PasswordLength) then Fail(PasswordLength)
    else if !Holds(f, PasswordsMatch) then Fail(PasswordsMatch)
    else Pass
  }

  /** The text of the error notification raised for a broken rule (the name rule is never reported here). */
  function Message(r: Rule): string
  {
    match r
    case NameLength => ""
    case EmailFormat => EmailFormatMessage
    case PasswordLength => "密码长度应该为6-15个字符"
    case PasswordsMatch => MismatchMessage
  }

  /** The validator never looks at the sign. */
  lemma {:induction false} ValidateIgnoresSign(f: ResetForm, sign: string)
    ensures Validate(f.(sign := sign)) == Validate(f)
  {
  }

  const ResetPath := "/password/reset"

  /** The events `handleSubmit` records for form `f`: the post when it validates, else the validator's notification. */
  function SubmitEvents(f: ResetForm): seq<Event<ResetForm>>
  {
    var v := Validate(f);
    if v.Pass? then [Post(ResetPath, f)] else Notices(v, Message)
  }

  /**
   * A submit records exactly one event. It is an error notification exactly
   * when some rule is broken, and then it carries the message of the broken
   * rule that comes first in the checking order; otherwise it is the post.
   */
  lemma {:induction false} SubmitEventsSpec(f: ResetForm)
    ensures |SubmitEvents(f)| == 1
    ensures SubmitEvents(f)[0].NotifyError? <==> exists r :: !Holds(f, r)
    ensures (forall r :: Holds(f, r)) ==> SubmitEvents(f) == [Post(ResetPath, f)]
    ensures forall r :: !Holds(f, r) && (forall q :: Rank(q) < Rank(r) ==> Holds(f, q)) ==>
                        SubmitEvents(f) == [NotifyError(ErrorTitle, Message(r))]
  {
  }
  const LoginPath := "/login"
  const BadLinkMessage := "链接错误~请检查"
  const ResetDoneMessage := "重置密码成功~即将跳转到登录..."
  /** The literal a response's `message` must equal for the screen to react. */
  const SuccessLiteral := "success"

  /** The screen's component instance; the trace and counters are as for the registration screen. */
  class ResetScreen {
    var formData: ResetForm
    var disableBtn: bool
    var trace: seq<Event<ResetForm>>
    var awaiting: nat
    var timers: nat

    /** `data()` followed by the `created` hook on the route's query. */
    constructor (query: map<string, string>)
      ensures "email" in query && "sign" in query ==>
        formData == InitialForm.(email := query["email"], sign := query["sign"]) && !disableBtn && trace == []
      ensures !("email" in query && "sign" in query) ==>
        formData == InitialForm && disableBtn && trace == [NotifyError(ErrorTitle, BadLinkMessage)]
      ensures awaiting == 0 && timers == 0
    {
      formData := InitialForm;
      disableBtn := false;
      trace := [];
      awaiting := 0;
      timers := 0;
      new;
      Created(query);
    }

    /**
     * `created`: copy `email` and `sign` from the query when both are present;
     * otherwise raise one error notification and disable the button.
     */
    method Created(query: map<string, string>)
      modifies this
      ensures "email" in query && "sign" in query ==>
        && formData == old(formData).(email := query["email"], sign := query["sign"])
        && disableBtn == old(disableBtn) && trace == old(trace)
      ensures !("email" in query && "sign" in query) ==>
        formData == old(formData) && disableBtn && trace == old(trace) + [NotifyError(ErrorTitle, BadLinkMessage)]
      ensures awaiting == old(awaiting) && timers == old(timers)
    {
      if "email" in query && "sign" in query {
        formData := formData.(email := query["email"]);
        formData := formData.(sign := query["sign"]);
      } else {
        trace := trace + [NotifyError(ErrorTitle, BadLinkMessage)];
        disableBtn := true;
      }
    }

    /**
     * The `input` handler of field `g`. The email input is `disabled`, so the
     * browser delivers it no input event; the other two write their own field.
     */
    method Input(g: Field, value: string, composing: bool)
      modifies this
      ensures formData == if composing then old(formData) else match g
        case Email => old(formData)
        case Password => old(formData).(password := value)
        case Repassword => old(formData).(repassword := value)
      ensures disableBtn == old(disableBtn) && trace == old(trace) && awaiting == old(awaiting) && timers == old(timers)
    {
      if composing {
        return;
      }
      match g
      case Email =>
      case Password => formData := formData.(password := value);
      case Repassword => formData := formData.(repassword := value);
    }

    /** A click on the submit button, whose `disabled` attribute is bound to `disableBtn`. */
    method Click()
      modifies this
      ensures old(disableBtn) ==> trace == old(trace) && awaiting == old(awaiting)
      ensures !old(disableBtn) ==> var v := Validate(old(formData));
        && trace == old(trace) + SubmitEvents(old(formData))
        && awaiting == old(awaiting) + (if v.Pass? then 1 else 0)
      ensures formData == old(formData) && disableBtn == old(disableBtn) && timers == old(timers)
    {
      if !disableBtn {
        HandleSubmit();
      }
    }

    /** `handleSubmit`: post the current form only when it validates. */
    method HandleSubmit()
      modifies this
      ensures var v := Validate(old(formData));
        && trace == old(trace) + SubmitEvents(old(formData))
        && awaiting == old(awaiting) + (if v.Pass? then 1 else 0)
      ensures formData == old(formData) && disableBtn == old(disableBtn) && timers == old(timers)
    {
      var v := Validate(formData);
      if v.Pass? {
        trace := trace + [Post(ResetPath, formData)];
        awaiting := awaiting + 1;
      } else {
        trace := trace + Notices(v, Message);
      }
    }

    /** The `then` callback of a post: only a "success" answer notifies and schedules `/login`. */
    method Resolve(res: Response)
      requires awaiting > 0
      modifies this
      ensures res.message == SuccessLiteral ==>
        trace == old(trace) + [NotifySuccess(SuccessTitle, ResetDoneMessage)] && timers == old(timers) + 1
      ensures res.message != SuccessLiteral ==> trace == old(trace) && timers == old(timers)
      ensures awaiting == old(awaiting) - 1 && formData == old(formData) && disableBtn == old(disableBtn)
    {
      awaiting := awaiting - 1;
      if res.message == SuccessLiteral {
        trace := trace + [NotifySuccess(SuccessTitle, ResetDoneMessage)];
        timers := timers + 1;
      }
    }

    /** The `setTimeout` callback: close every notification, then go to `/login`. */
    method FireTimer()
      requires timers > 0
      modifies this
      ensures trace == old(trace) + [CloseAll, Navigate(LoginPath)]
      ensures timers == old(timers) - 1 && awaiting == old(awaiting)
      ensures formData == old(formData) && disableBtn == old(disableBtn)
    {
      trace := trace + [CloseAll, Navigate(LoginPath)];
      timers := timers - 1;
    }
  }

  /**
   * Entering without `email` or without `sign` disables the button: one error
   * notification on load, and any number of clicks adds nothing after it.
   */
  method EnterWithoutSign(query: map<string, string>, clicks: nat) returns (t: seq<Event<ResetForm>>, disabled: bool)
    requires !("email" in query && "sign" in query)
    ensures disabled && t == [NotifyError(ErrorTitle, BadLinkMessage)]
  {
    var screen := new ResetScreen(query);
    var i := 0;
    while i < clicks
      invariant screen.disableBtn && screen.trace == [NotifyError(ErrorTitle, BadLinkMessage)]
    {
      screen.Click();
      i := i + 1;
    }
    t, disabled := screen.trace, screen.disableBtn;
  }

  /** Entering with `email=a@b.com&sign=xyz` pre-fills the form and leaves the button enabled. */
  method EnterWithSign() returns (f: ResetForm, disabled: bool, t: seq<Event<ResetForm>>)
    ensures f == ResetForm("a@b.com", "xyz", "", "") && !disabled && t == []
  {
    var screen := new ResetScreen(map["email" := "a@b.com", "sign" := "xyz"]);
    f, disabled, t := screen.formData, screen.disableBtn, screen.trace;
  }

  /** A reset answered with anything but "success" leaves only the post in the trace. */
  method ResetAnsweredOtherwise(res: Response) returns (t: seq<Event<ResetForm>>, pending: nat)
    requires res.message != SuccessLiteral
    ensures t == [Post(ResetPath, ResetForm("a@b.com", "xyz", "secret1", "secret1"))] && pending == 0
  {
    var screen := new ResetScreen(map["email" := "a@b.com", "sign" := "xyz"]);
    screen.Input(Password, "secret1", false);
    screen.Input(Repassword, "secret1", false);
    assert "a@b.com"[1..6][0] == '@';
    screen.Click();
    screen.Resolve(res);
    t, pending := screen.trace, screen.timers;
  }
}
