/**
  * The registration form: its ordered validation, which reports only the
  * first failing check, and the edits that clear the message.
  */
module RegisterForm {
  import opened Common

  /** The form's input fields, by their `name` attribute. */
  datatype Field = FullName | Email | Password | ConfirmPassword

  /** The form's data and the one message it shows. */
  datatype Form = Form(fullName: string, email: string, password: string, confirmPassword: string, error: string)

  const PASSWORDS_DIFFER := "Пароли не совпадают"
  const PASSWORD_SHORT := "Пароль должен быть не менее 6 символов"
  const EMAIL_INVALID := "Введите корректный email"
  const NAME_REQUIRED := "Введите ФИО"
  const MIN_PASSWORD := 6

  /** `validateForm`: the message of the first guard that fails, or `None`
      when the form may be sent. */
  function Validate(f: Form): Option<string> {
    if f.password != f.confirmPassword then Some(PASSWORDS_DIFFER)
    else if |f.password| < MIN_PASSWORD then Some(PASSWORD_SHORT)
    else if !Includes(f.email, "@") then Some(EMAIL_INVALID)
    else if IsBlank(f.fullName) then Some(NAME_REQUIRED)
    else None
  }

  /** One guard: whether it fails, and the message it then sets. */
  datatype Check = Check(fails: bool, message: string)

  /** The four guards in the order the form applies them. */
  function Checks(f: Form): seq<Check> {
    [ Check(f.password != f.confirmPassword, PASSWORDS_DIFFER),
      Check(|f.password| < MIN_PASSWORD, PASSWORD_SHORT),
      Check(!('@' in f.email), EMAIL_INVALID),
      Check(IsBlank(f.fullName), NAME_REQUIRED) ]
  }

  /** The message of the first failing check of `cs`, if any. */
  function FirstFailure(cs: seq<Check>): Option<string> {
    if cs == [] then None
    else if cs[0].fails then Some(cs[0].message)
    else FirstFailure(cs[1..])
  }

  /** `FirstFailure` is `None` exactly when no check fails, and otherwise
      the message of a failing check with none failing before it. */
  lemma {:induction false} FirstFailureSpec(cs: seq<Check>)
    ensures FirstFailure(cs).None? <==> forall i :: 0 <= i < |cs| ==> !cs[i].fails
    ensures FirstFailure(cs).Some? ==>
              exists i :: 0 <= i < |cs| && cs[i].fails && cs[i].message == FirstFailure(cs).value
                          && forall j :: 0 <= j < i ==> !cs[j].fails
  {
    if cs != [] && !cs[0].fails {
      FirstFailureSpec(cs[1..]);
      assert forall i :: 1 <= i < |cs| ==> cs[i] == cs[1..][i - 1];
      if FirstFailure(cs).Some? {
        var i :| 0 <= i < |cs[1..]| && cs[1..][i].fails && cs[1..][i].message == FirstFailure(cs).value
                 && forall j :: 0 <= j < i ==> !cs[1..][j].fails;
        assert cs[i + 1] == cs[1..][i];
        assert forall j :: 1 <= j < i + 1 ==> !cs[j].fails;
      }
    }
  }

  /** The validation is the first failure among the four guards, taken in
      order: so at most one message is set, that of the earliest guard. */
  lemma ValidateIsFirstFailure(f: Form)
    ensures Validate(f) == FirstFailure(Checks(f))
  {
    IncludesChar(f.email, '@');
    assert "@" == ['@'];
    FirstOfFour(Checks(f)[0], Checks(f)[1], Checks(f)[2], Checks(f)[3]);
  }

  /** Four checks unrolled. */
  lemma FirstOfFour(a: Check, b: Check, c: Check, d: Check)
    ensures FirstFailure([a, b, c, d]) ==
              if a.fails then Some(a.message) else if b.fails then Some(b.message)
              else if c.fails then Some(c.message) else if d.fails then Some(d.message) else None
  {
    assert FirstFailure([d]) == if d.fails then Some(d.message) else None by {
      assert [d][1..] == [];
    }
    assert FirstFailure([c, d]) == if c.fails then Some(c.message) else FirstFailure([d]) by {
      assert [c, d][1..] == [d];
    }
    assert FirstFailure([b, c, d]) == if b.fails then Some(b.message) else FirstFailure([c, d]) by {
      assert [b, c, d][1..] == [c, d];
    }
    assert [a, b, c, d][1..] == [b, c, d];
  }

  /** The form is accepted exactly when all four guards pass. */
  lemma AcceptedIffAllPass(f: Form)
    ensures Validate(f).None? <==>
              && f.password == f.confirmPassword
              && |f.password| >= MIN_PASSWORD
              && '@' in f.email
              && !IsBlank(f.fullName)
  {
    IncludesChar(f.email, '@');
    assert "@" == ['@'];
  }

  /** Mismatched passwords are reported whatever else is wrong. */
  lemma MismatchReportedFirst(f: Form)
    requires f.password != f.confirmPassword
    ensures Validate(f) == Some(PASSWORDS_DIFFER)
  {
  }

  /** With matching passwords, each later guard is reported when it is the
      first to fail: a short password, then an email without `@`, then a
      blank name. */
  lemma LaterGuards(f: Form)
    requires f.password == f.confirmPassword
    ensures |f.password| < MIN_PASSWORD ==> Validate(f) == Some(PASSWORD_SHORT)
    ensures |f.password| >= MIN_PASSWORD && !('@' in f.email) ==> Validate(f) == Some(EMAIL_INVALID)
    ensures |f.password| >= MIN_PASSWORD && '@' in f.email && IsBlank(f.fullName) ==> Validate(f) == Some(NAME_REQUIRED)
  {
    IncludesChar(f.email, '@');
    assert "@" == ['@'];
  }

  /** `handleChange`: sets the edited field and clears the message. */
  function Changed(f: Form, name: Field, value: string): Form {
    var g := match name
      case FullName => f.(fullName := value)
      case Email => f.(email := value)
      case Password => f.(password := value)
      case ConfirmPassword => f.(confirmPassword := value);
    if g.error != "" then g.(error := "") else g
  }

  /** Editing a field changes that field only, and afterwards no message is
      shown. */
  lemma ChangeTouchesOnlyThatField(f: Form, name: Field, value: string)
    ensures var g := Changed(f, name, value);
            && g.fullName == (if name == FullName then value else f.fullName)
            && g.email == (if name == Email then value else f.email)
            && g.password == (if name == Password then value else f.password)
            && g.confirmPassword == (if name == ConfirmPassword then value else f.confirmPassword)
            && g.error == ""
  {
  }
}
