/**
 * How the client forms meet the server's request structs. JSON decoding
 * keeps the declared fields and drops `repassword`; the client's name rule
 * (6..15) is narrower than the server's binding (3..15).
 */
module Wire {
  import opened FormRules
  import RegisterPage
  import ResetPage
  import Controllers

  /** The `/register` body as `registerRequest` receives it. */
  function RegisterBody(f: RegisterPage.RegisterForm): Controllers.RegisterRequest
  {
    Controllers.RegisterRequest(f.name, f.email, f.password)
  }

  /** The `/password/reset` body as `resetPasswordRequest` receives it. */
  function ResetBody(f: ResetPage.ResetForm): Controllers.ResetPasswordRequest
  {
    Controllers.ResetPasswordRequest(f.email, f.sign, f.password)
  }

  /** A registration form the client lets through meets the server's name and password bounds. */
  lemma {:induction false} ClientRegisterWithinServerBounds(f: RegisterPage.RegisterForm)
    requires RegisterPage.Validate(f).Pass?
    ensures Controllers.LengthWithin(RegisterBody(f).name, 3, 15)
    ensures Controllers.LengthWithin(RegisterBody(f).password, 6, 15)
  {
    assert RegisterPage.Holds(f, NameLength) && RegisterPage.Holds(f, PasswordLength);
  }

  /** Names of 3 to 5 characters pass the server's binding but not the client's rule. */
  lemma {:induction false} NameBoundsDiffer(f: RegisterPage.RegisterForm)
    requires 3 <= |f.name| <= 5
    ensures Controllers.LengthWithin(RegisterBody(f).name, 3, 15)
    ensures RegisterPage.Validate(f) == Fail(NameLength)
  {
  }

  /** A reset form the client lets through meets the server's password bound. */
  lemma {:induction false} ClientResetWithinServerBounds(f: ResetPage.ResetForm)
    requires ResetPage.Validate(f).Pass?
    ensures Controllers.LengthWithin(ResetBody(f).password, 6, 15)
  {
    assert ResetPage.Holds(f, PasswordLength);
  }
}
