/**
 * The field rules shared by the two client screens (registration and password
 * reset): the email pattern `/^.+@.+$/`, the inclusive 6..15 length rule,
 * the rules' fixed order, and the observable effects a screen records.
 */
module FormRules {

  /** The four rules a client validator can apply, in the order they are checked. */
  datatype Rule = NameLength | EmailFormat | PasswordLength | PasswordsMatch

  /** Position of a rule in the early-return chain of `validateForm`. */
  function Rank(r: Rule): nat
  {
    match r
    case NameLength => 0
    case EmailFormat => 1
    case PasswordLength => 2
    case PasswordsMatch => 3
  }

  /** Result of `validateForm`: pass, or the rule whose check returned false. */
  datatype Verdict = Pass | Fail(rule: Rule)

  /** Characters a JavaScript regular expression `.` does not match. */
  predicate IsLineTerminator(c: char)
  {
    c == '\n' || c == '\r' || c == '\U{2028}' || c == '\U{2029}'
  }

  predicate NoLineTerminator(s: string)
  {
    forall i :: 0 <= i < |s| ==> !IsLineTerminator(s[i])
  }

  /**
   * What `/^.+@.+$/.test(s)` means: the string splits at an `@` into a
   * non-empty head and a non-empty tail, each matched by `.+`.
   */
  ghost predicate SplitsAt(s: string, i: int)
  {
    1 <= i <= |s| - 2 && s[i] == '@' && NoLineTerminator(s[..i]) && NoLineTerminator(s[i + 1..])
  }

  ghost predicate RegexEmail(s: string)
  {
    exists i :: SplitsAt(s, i)
  }

  /** The email check as the validators evaluate it. */
  predicate EmailFormatOk(s: string)
  {
    |s| >= 3 && '@' in s[1..|s| - 1] && NoLineTerminator(s)
  }

  /** `EmailFormatOk` is exactly the regular expression's language. */
  lemma {:induction false} EmailFormatIsRegex(s: string)
    ensures EmailFormatOk(s) <==> RegexEmail(s)
  {
    if EmailFormatOk(s) {
      var k :| 0 <= k < |s[1..|s| - 1]| && s[1..|s| - 1][k] == '@';
      var i := k + 1;
      assert s[i] == '@';
      var head, tail := s[..i], s[i + 1..];
      forall j | 0 <= j < |head| ensures !IsLineTerminator(head[j]) {
        assert head[j] == s[j];
      }
      forall j | 0 <= j < |tail| ensures !IsLineTerminator(tail[j]) {
        assert tail[j] == s[i + 1 + j];
      }
      assert SplitsAt(s, i);
    }
    if RegexEmail(s) {
      var i :| SplitsAt(s, i);
      assert s[1..|s| - 1][i - 1] == '@';
      forall j | 0 <= j < |s| ensures !IsLineTerminator(s[j]) {
        if j < i {
          assert s[..i][j] == s[j];
        } else if j > i {
          assert s[i + 1..][j - i - 1] == s[j];
        }
      }
    }
  }

  /**
   * Edge cases of the pattern: a second `@` is matched by `.+`, an `@` at
   * either end is not, and a line terminator anywhere defeats `^...$`.
   */
  lemma EmailPatternExamples()
    ensures RegexEmail("a@@b") && EmailFormatOk("a@@b")
    ensures !RegexEmail("@b") && !RegexEmail("a@") && !RegexEmail("a@b\n") && !RegexEmail("a\nb@c")
  {
    assert "a@@b"[1..3] == "@@";
    EmailFormatIsRegex("a@@b");
    EmailFormatIsRegex("@b");
    EmailFormatIsRegex("a@");
    EmailFormatIsRegex("a@b\n");
    assert IsLineTerminator("a@b\n"[3]);
    EmailFormatIsRegex("a\nb@c");
    assert IsLineTerminator("a\nb@c"[1]);
  }

  /** The length check `!(s.length > 15 || s.length < 6)`; `.length` is the sequence length. */
  predicate LengthInRange(s: string)
  {
    !(|s| > 15 || |s| < 6)
  }

  /** What the screens hand to their collaborators, recorded in order. */
  datatype Event<Body> =
    | NotifyError(title: string, message: string)    // this.$notify.error
    | NotifySuccess(title: string, message: string)  // this.$notify.success
    | Post(path: string, body: Body)                 // this.$http.post
    | SetUser(response: Response)                    // helper.setUser(res)
    | CloseAll                                       // this.$notify.closeAll()
    | Navigate(path: string)                         // this.$router.push

  /**
   * The notifications a `validateForm` raises, given the screen's message for
   * each rule: one error notification for a failure, none on success.
   */
  function Notices<Body>(v: Verdict, message: Rule -> string): seq<Event<Body>>
  {
    if v.Pass? then [] else [NotifyError(ErrorTitle, message(v.rule))]
  }

  /** A resolved HTTP response; only its `message` field is inspected. */
  datatype Response = Response(message: string, payload: string)

  const ErrorTitle := "错误"
  const SuccessTitle := "成功"
  const EmailFormatMessage := "邮箱格式错误"
  const MismatchMessage := "确认密码与密码不同"
}
