/**
  * The login form: its client-side validation, the edits that clear errors,
  * and how it reacts to the server's error replies (a new captcha, the
  * remaining attempts, the messages shown).
  */
module LoginForm {
  import opened Common
  import Auth

  /** The form's input fields, by their `name` attribute. */
  datatype Field = Email | Password | CaptchaId | CaptchaAnswer

  /** A captcha as the server sends it. */
  datatype Captcha = Captcha(id: string, text: string)

  /** The component's state. `remainingAttempts` is `None` for `null`. */
  datatype FormState = FormState(
    email: string, password: string, captchaId: string, captchaAnswer: string,
    errors: map<Field, string>, serverError: string,
    captcha: Option<Captcha>, remainingAttempts: Option<int>)

  const EMAIL_REQUIRED := "Email обязателен"
  const EMAIL_INVALID := "Некорректный email"
  const PASSWORD_REQUIRED := "Пароль обязателен"
  const PASSWORD_SHORT := "Пароль должен быть не менее 6 символов"
  const ANSWER_REQUIRED := "Введите ответ"
  const MIN_PASSWORD := 6

  // ---------------------------------------------------------------------
  // The email pattern
  // ---------------------------------------------------------------------

  /** No whitespace in `s[a..b]`. */
  predicate NonSpace(s: string, a: int, b: int)
    requires 0 <= a <= b <= |s|
  {
    forall k :: a <= k < b ==> !IsWhitespace(s[k])
  }

  /** `/\S+@\S+\.\S+/.test(s)`: somewhere in `s` an `@` with a non-space
      before it, then one or more non-spaces, a `.`, and a non-space. */
  predicate LooksLikeEmail(s: string) {
    exists i, j :: 0 < i && i + 1 < j && j + 1 < |s| && s[i] == '@' && s[j] == '.'
                   && NonSpace(s, i - 1, i) && NonSpace(s, i + 1, j) && NonSpace(s, j + 1, j + 2)
  }

  /** A plain address matches; text without a dot after the `@`, or with a
      space before it, does not. */
  lemma EmailExamples()
    ensures LooksLikeEmail("a@b.c")
    ensures !LooksLikeEmail("a@b")
    ensures !LooksLikeEmail("a @b.c")
  {
    var s := "a@b.c";
    assert s[1] == '@' && s[3] == '.' && NonSpace(s, 0, 1) && NonSpace(s, 2, 3) && NonSpace(s, 4, 5);
    var t := "a @b.c";
    assert IsWhitespace(t[1]);
  }

  /** Whatever matches the pattern contains an `@`. */
  lemma LooksLikeEmailHasAt(s: string)
    requires LooksLikeEmail(s)
    ensures '@' in s
  {
    var i, j :| 0 < i && i + 1 < j && j + 1 < |s| && s[i] == '@' && s[j] == '.'
                && NonSpace(s, i - 1, i) && NonSpace(s, i + 1, j) && NonSpace(s, j + 1, j + 2);
  }

  // ---------------------------------------------------------------------
  // validateForm
  // ---------------------------------------------------------------------

  /** The email's error, if any. */
  function EmailError(email: string): Option<string> {
    if IsBlank(email) then Some(EMAIL_REQUIRED)
    else if !LooksLikeEmail(email) then Some(EMAIL_INVALID)
    else None
  }

  /** The password's error, if any. */
  function PasswordError(password: string): Option<string> {
    if password == "" then Some(PASSWORD_REQUIRED)
    else if |password| < MIN_PASSWORD then Some(PASSWORD_SHORT)
    else None
  }

  /** `e` with the field's message, if there is one. */
  function Record(e: map<Field, string>, f: Field, message: Option<string>): map<Field, string> {
    if message.Some? then e[f := message.value] else e
  }

  /** The answer's error, if any. */
  function AnswerError(captcha: Option<Captcha>, answer: string): Option<string> {
    if captcha.Some? && IsBlank(answer) then Some(ANSWER_REQUIRED) else None
  }

  /** `newErrors` after the checks of `validateForm`. */
  function FormErrors(s: FormState): map<Field, string> {
    var e1 := Record(map[], Email, EmailError(s.email));
    var e2 := Record(e1, Password, PasswordError(s.password));
    Record(e2, CaptchaAnswer, AnswerError(s.captcha, s.captchaAnswer))
  }

  /** Each field is reported with its own message: a blank email as
      required, a non-blank one that does not match as invalid; an empty
      password as required, a short one as too short, never both; a blank
      answer only while a captcha is shown. */
  lemma FormErrorsSpec(s: FormState)
    ensures var e := FormErrors(s);
            && (Email in e <==> IsBlank(s.email) || !LooksLikeEmail(s.email))
            && (Email in e ==> e[Email] == if IsBlank(s.email) then EMAIL_REQUIRED else EMAIL_INVALID)
            && (Password in e <==> |s.password| < MIN_PASSWORD)
            && (Password in e ==> e[Password] == if s.password == "" then PASSWORD_REQUIRED else PASSWORD_SHORT)
            && (CaptchaAnswer in e <==> s.captcha.Some? && IsBlank(s.captchaAnswer))
            && CaptchaId !in e
  {
    var m1, m2, m3 := EmailError(s.email), PasswordError(s.password), AnswerError(s.captcha, s.captchaAnswer);
    RecordThree(m1, m2, m3);
    EmailErrorCases(s.email);
    PasswordErrorCases(s.password);
    assert m3.Some? <==> s.captcha.Some? && IsBlank(s.captchaAnswer);
  }

  /** The email's message is set exactly when it is blank or does not match. */
  lemma EmailErrorCases(email: string)
    ensures EmailError(email).Some? <==> IsBlank(email) || !LooksLikeEmail(email)
    ensures EmailError(email).Some? ==>
              EmailError(email).value == if IsBlank(email) then EMAIL_REQUIRED else EMAIL_INVALID
  {
  }

  /** The password's message is set exactly when it is shorter than the minimum. */
  lemma PasswordErrorCases(password: string)
    ensures PasswordError(password).Some? <==> |password| < MIN_PASSWORD
    ensures PasswordError(password).Some? ==>
              PasswordError(password).value == if password == "" then PASSWORD_REQUIRED else PASSWORD_SHORT
  {
  }

  /** The three records of `validateForm` land on three different fields. */
  lemma RecordThree(m1: Option<string>, m2: Option<string>, m3: Option<string>)
    ensures var e := Record(Record(Record(map[], Email, m1), Password, m2), CaptchaAnswer, m3);
            && (Email in e <==> m1.Some?) && (Email in e ==> e[Email] == m1.value)
            && (Password in e <==> m2.Some?) && (Password in e ==> e[Password] == m2.value)
            && (CaptchaAnswer in e <==> m3.Some?) && (CaptchaAnswer in e ==> e[CaptchaAnswer] == m3.value)
            && CaptchaId !in e
  {
  }

  /** `validateForm` returns true exactly when every check passes. */
  lemma ValidIffAllChecksPass(s: FormState)
    ensures FormErrors(s) == map[] <==>
              && !IsBlank(s.email) && LooksLikeEmail(s.email)
              && |s.password| >= MIN_PASSWORD
              && (s.captcha.None? || !IsBlank(s.captchaAnswer))
  {
    var e := FormErrors(s);
    FormErrorsSpec(s);
    if e == map[] {
      assert Email !in e && Password !in e && CaptchaAnswer !in e;
    } else {
      var f :| f in e;
    }
  }

  // ---------------------------------------------------------------------
  // handleChange and the reaction to server errors
  // ---------------------------------------------------------------------

  /** The form after `handleChange` of field `name`. */
  function Changed(s: FormState, name: Field, value: string): FormState {
    var s1 := match name
      case Email => s.(email := value)
      case Password => s.(password := value)
      case CaptchaId => s.(captchaId := value)
      case CaptchaAnswer => s.(captchaAnswer := value);
    var s2 := if name in s.errors && s.errors[name] != "" then s1.(errors := s.errors[name := ""]) else s1;
    s2.(serverError := "")
  }

  /** Editing a field sets that field, clears its message and the server
      message, and leaves every other field and message as it was. */
  lemma ChangeTouchesOnlyThatField(s: FormState, name: Field, value: string)
    ensures var t := Changed(s, name, value);
            && t.email == (if name == Email then value else s.email)
            && t.password == (if name == Password then value else s.password)
            && t.captchaId == (if name == CaptchaId then value else s.captchaId)
            && t.captchaAnswer == (if name == CaptchaAnswer then value else s.captchaAnswer)
            && (name in t.errors ==> t.errors[name] == "")
            && (forall f :: f != name ==> (f in t.errors <==> f in s.errors) && (f in t.errors ==> t.errors[f] == s.errors[f]))
            && t.serverError == ""
            && t.captcha == s.captcha && t.remainingAttempts == s.remainingAttempts
  {
  }

  /** What the login request's failure carries. */
  datatype Failure =
      // `err.code === 'ERR_NETWORK'`: no server answered
    | NetworkError
      // a reply with a JSON body; `error` is "" when the body has none (both
      // are falsy), `errors` is `None` when the body has no `errors` list
    | ServerReply(error: string, captchaRequired: bool, captcha: Option<Captcha>,
                  remainingAttempts: Option<int>, errors: Option<seq<Option<string>>>)
      // any other failure without a reply
    | OtherFailure

  const NETWORK_MESSAGE := "Не удалось подключиться к серверу. Проверьте, запущен ли backend на порту 5000."
  const VALIDATION_MESSAGE := "Ошибка валидации"
  const GENERIC_MESSAGE := "Ошибка при входе. Проверьте данные и подключение к серверу."
  const WRONG_ANSWER := "Неверный ответ"

  /** The `error` texts of the login route's replies and of the limiter's 429. */
  const SECURITY_CHECK_ERROR := "Требуется проверка безопасности"
  const WRONG_ANSWER_ERROR := "Неверный ответ проверки безопасности"
  const BAD_CREDENTIALS_ERROR := "Неверный email или пароль"
  const LOGIN_SERVER_ERROR := "Ошибка сервера при входе"
  const TOO_MANY_ERROR := "Слишком много попыток. Пожалуйста, попробуйте позже."

  /** The failure the form sees for each reply of the login route; `None`
      for the successful login, which is no failure. `messages` are the
      `msg` fields of the validator's list, which the route's model does not
      carry. */
  function Received(r: Auth.Reply, messages: seq<Option<string>>): Option<Failure> {
    match r
    case ValidationErrors => Some(ServerReply("", false, None, None, Some(messages)))
    case SecurityCheckRequired(ch) =>
      Some(ServerReply(SECURITY_CHECK_ERROR, true, Some(Captcha(ch.id, ch.text)), None, None))
    case SecurityCheckFailed(_) => Some(ServerReply(WRONG_ANSWER_ERROR, true, None, None, None))
    case BadCredentials(remaining, c) =>
      var shown := if c.Some? then Some(Captcha(c.value.id, c.value.text)) else None;
      Some(ServerReply(BAD_CREDENTIALS_ERROR, c.Some?, shown, Some(remaining), None))
    case LoggedIn => None
    case ServerError => Some(ServerReply(LOGIN_SERVER_ERROR, false, None, None, None))
    case TooManyRequests => Some(ServerReply(TOO_MANY_ERROR, false, None, None, None))
  }

  /** The form after `handleSubmit` sent a valid form: the server message and
      the attempts cleared. */
  function Submitting(s: FormState): FormState {
    s.(serverError := "", remainingAttempts := None)
  }

  /** `errors[0]?.msg || 'Ошибка валидации'`. */
  function FirstMessage(messages: seq<Option<string>>): string {
    if |messages| > 0 && Truthy(messages[0]) then messages[0].value else VALIDATION_MESSAGE
  }

  /** The form after the request failed. A reply demanding a captcha
      installs it only when it carries one; the source installs it
      unconditionally (`AfterFailureAsWritten`). */
  function AfterFailure(s: FormState, f: Failure): FormState {
    match f
    case NetworkError => s.(serverError := NETWORK_MESSAGE)
    case ServerReply(error, required, c, attempts, errs) =>
      if error != "" then
        var s1 := s.(serverError := error);
        var s2 := if required && c.Some? then s1.(captcha := c, captchaId := c.value.id, captchaAnswer := "") else s1;
        if attempts.Some? then s2.(remainingAttempts := attempts) else s2
      else if errs.Some? then s.(serverError := FirstMessage(errs.value))
      else s.(serverError := GENERIC_MESSAGE)
    case OtherFailure => s.(serverError := GENERIC_MESSAGE)
  }

  /** The catch block as written: a reply flagged `captchaRequired` stores
      its `captcha`, whatever it is, and queues a form update that reads
      `errorData.captcha.id`. React applies that update at the next render,
      where it throws when the reply has no captcha; `None` is that throw. */
  function AfterFailureAsWritten(s: FormState, f: Failure): Option<FormState> {
    if f.ServerReply? && f.error != "" && f.captchaRequired then
      if f.captcha.None? then None
      else
        var s1 := s.(serverError := f.error, captcha := f.captcha, captchaId := f.captcha.value.id, captchaAnswer := "");
        Some(if f.remainingAttempts.Some? then s1.(remainingAttempts := f.remainingAttempts) else s1)
    else Some(AfterFailure(s, f))
  }

  /** Whether the failure makes the form fetch a fresh captcha: a reply
      with an error text, flagged `captchaRequired`, that says the answer
      was wrong. */
  predicate ReloadsCaptcha(f: Failure) {
    f.ServerReply? && f.error != "" && f.captchaRequired && Includes(f.error, WRONG_ANSWER)
  }

  /** The source's catch block throws exactly for a captcha demand without
      a captcha, and agrees with `AfterFailure` everywhere else. */
  lemma AsWrittenThrowsOnlyWithoutCaptcha(s: FormState, f: Failure)
    ensures AfterFailureAsWritten(s, f).None? <==>
              f.ServerReply? && f.error != "" && f.captchaRequired && f.captcha.None?
    ensures AfterFailureAsWritten(s, f).Some? ==> AfterFailureAsWritten(s, f).value == AfterFailure(s, f)
  {
  }

  /** The wrong-answer reply is the one the form reloads the captcha for,
      and the catch block as written throws on it: the reply carries no
      captcha. */
  lemma WrongAnswerReplyThrows(s: FormState, remaining: nat, messages: seq<Option<string>>)
    ensures Received(Auth.SecurityCheckFailed(remaining), messages).Some?
    ensures ReloadsCaptcha(Received(Auth.SecurityCheckFailed(remaining), messages).value)
    ensures AfterFailureAsWritten(s, Received(Auth.SecurityCheckFailed(remaining), messages).value) == None
  {
    assert WRONG_ANSWER_ERROR[0..|WRONG_ANSWER|] == WRONG_ANSWER;
    assert InfixAt(WRONG_ANSWER_ERROR, WRONG_ANSWER, 0);
  }

  /** Over the replies the server sends, a fresh captcha is fetched exactly
      for the wrong answer, and only the successful login is no failure. */
  lemma ReloadsExactlyOnWrongAnswer(r: Auth.Reply, messages: seq<Option<string>>)
    ensures Received(r, messages).None? <==> r.LoggedIn?
    ensures Received(r, messages).Some? ==> (ReloadsCaptcha(Received(r, messages).value) <==> r.SecurityCheckFailed?)
  {
    match r {
      case SecurityCheckFailed(n) =>
        WrongAnswerReplyThrows(FormState("", "", "", "", map[], "", None, None), n, messages);
      case SecurityCheckRequired(_) =>
        OtherTextsNotWrongAnswer();
      case BadCredentials(_, _) =>
        OtherTextsNotWrongAnswer();
      case _ =>
    }
  }

  /** Neither the "security check" text nor the "wrong credentials" text
      mentions a wrong answer: the first has no capital `Н`, the second no `т`. */
  lemma OtherTextsNotWrongAnswer()
    ensures !Includes(SECURITY_CHECK_ERROR, WRONG_ANSWER)
    ensures !Includes(BAD_CREDENTIALS_ERROR, WRONG_ANSWER)
  {
    MissingCharNotIncluded(SECURITY_CHECK_ERROR, WRONG_ANSWER, 0);
    MissingCharNotIncluded(BAD_CREDENTIALS_ERROR, WRONG_ANSWER, 10);
  }

  /** Every captcha the server demands is answered on the form: a served
      captcha is installed with its id and an empty answer, and after the
      wrong answer the form keeps its captcha and fetches a fresh one. */
  lemma ServedCaptchaInstalled(s: FormState, r: Auth.Reply, messages: seq<Option<string>>)
    requires !r.LoggedIn?
    ensures var t := AfterFailure(s, Received(r, messages).value);
            && (r.SecurityCheckRequired? ==>
                  t.captcha == Some(Captcha(r.challenge.id, r.challenge.text))
                  && t.captchaId == r.challenge.id && t.captchaAnswer == "")
            && (r.BadCredentials? && r.captcha.Some? ==>
                  t.captcha == Some(Captcha(r.captcha.value.id, r.captcha.value.text))
                  && t.captchaId == r.captcha.value.id && t.captchaAnswer == "")
            && (r.SecurityCheckFailed? ==>
                  t.captcha == s.captcha && t.captchaId == s.captchaId && t.captchaAnswer == s.captchaAnswer
                  && ReloadsCaptcha(Received(r, messages).value))
  {
    if r.SecurityCheckFailed? {
      WrongAnswerReplyThrows(s, r.remaining, messages);
    }
  }

  /** A reply with an error text shows it; one demanding a captcha and
      carrying it installs it, points the form at its id and clears the
      answer, any other leaves the captcha fields alone; the hint is
      replaced only when the reply has one. A reply without an error text
      falls through to its validation list or the generic message and
      touches nothing else. */
  lemma ServerReplyHandled(s: FormState, f: Failure)
    requires f.ServerReply?
    ensures var t := AfterFailure(s, f);
            && t.email == s.email && t.password == s.password
            && (f.error != "" ==>
                  && t.serverError == f.error
                  && (f.captchaRequired && f.captcha.Some? ==>
                        t.captcha == f.captcha && t.captchaId == f.captcha.value.id && t.captchaAnswer == "")
                  && (!(f.captchaRequired && f.captcha.Some?) ==>
                        t.captcha == s.captcha && t.captchaId == s.captchaId && t.captchaAnswer == s.captchaAnswer)
                  && t.remainingAttempts == (if f.remainingAttempts.Some? then f.remainingAttempts else s.remainingAttempts))
            && (f.error == "" ==>
                  && t == s.(serverError := t.serverError)
                  && t.serverError == (if f.errors.Some? then FirstMessage(f.errors.value) else GENERIC_MESSAGE)
                  && !ReloadsCaptcha(f))
  {
  }

  /** The attempts warning: `remainingAttempts !== null && remainingAttempts > 0`. */
  predicate ShowsAttemptsWarning(s: FormState) {
    s.remainingAttempts.Some? && s.remainingAttempts.value > 0
  }

  /** After a failure the warning shows exactly when a reply with an error
      text counted attempts and some are left; any other failure shows
      none, since submitting cleared it. */
  lemma WarningAfterFailure(s: FormState, f: Failure)
    ensures ShowsAttemptsWarning(AfterFailure(Submitting(s), f)) <==>
              f.ServerReply? && f.error != "" && f.remainingAttempts.Some? && f.remainingAttempts.value > 0
  {
  }

  /** Over the server's replies, the warning follows the wrong-credentials
      count; the wrong-answer reply puts its count only in `message`, which
      the form does not show. */
  lemma WarningFollowsServerCount(s: FormState, r: Auth.Reply, messages: seq<Option<string>>)
    requires !r.LoggedIn?
    ensures ShowsAttemptsWarning(AfterFailure(Submitting(s), Received(r, messages).value)) <==>
              r.BadCredentials? && r.remaining > 0
  {
    WarningAfterFailure(s, Received(r, messages).value);
  }

  /** Every failure leaves a message to show. */
  lemma FailureShowsMessage(s: FormState, f: Failure)
    ensures AfterFailure(s, f).serverError != ""
  {
  }

  // ---------------------------------------------------------------------
  // The component
  // ---------------------------------------------------------------------

  class LoginPage {
    var email: string
    var password: string
    var captchaId: string
    var captchaAnswer: string
    var errors: map<Field, string>
    var serverError: string
    var captcha: Option<Captcha>
    var remainingAttempts: Option<int>

    function State(): FormState
      reads this
    {
      FormState(email, password, captchaId, captchaAnswer, errors, serverError, captcha, remainingAttempts)
    }

    constructor ()
      ensures State() == FormState("", "", "", "", map[], "", None, None)
    {
      email, password, captchaId, captchaAnswer := "", "", "", "";
      errors, serverError := map[], "";
      captcha, remainingAttempts := None, None;
    }

    /** `validateForm`: builds the messages one check at a time, stores
        them, and reports whether there are none. */
    method ValidateForm() returns (valid: bool)
      modifies this
      ensures State() == old(State()).(errors := FormErrors(old(State())))
      ensures valid <==> FormErrors(old(State())) == map[]
    {
      var newErrors: map<Field, string> := map[];
      var m1, m2, m3 := EmailError(email), PasswordError(password), AnswerError(captcha, captchaAnswer);
      newErrors := Record(newErrors, Email, m1);
      newErrors := Record(newErrors, Password, m2);
      newErrors := Record(newErrors, CaptchaAnswer, m3);
      errors := newErrors;
      valid := newErrors == map[];
    }

    /** `handleChange`. */
    method HandleChange(name: Field, value: string)
      modifies this
      ensures State() == Changed(old(State()), name, value)
    {
      match name {
        case Email => email := value;
        case Password => password := value;
        case CaptchaId => captchaId := value;
        case CaptchaAnswer => captchaAnswer := value;
      }
      if name in errors && errors[name] != "" {
        errors := errors[name := ""];
      }
      if serverError != "" {
        serverError := "";
      }
    }

    /** The catch block of `handleSubmit`, after a valid form was sent and
        the request failed; the result says whether a fresh captcha is
        fetched. */
    method ApplyFailure(f: Failure) returns (reload: bool)
      modifies this
      ensures State() == AfterFailure(Submitting(old(State())), f)
      ensures reload <==> ReloadsCaptcha(f)
    {
      serverError := "";
      remainingAttempts := None;
      reload := false;
      match f {
        case NetworkError =>
          serverError := NETWORK_MESSAGE;
        case ServerReply(error, required, c, attempts, errs) =>
          if error != "" {
            serverError := error;
            if required && c.Some? {
              captcha := c;
              captchaId := c.value.id;
              captchaAnswer := "";
            }
            if attempts.Some? {
              remainingAttempts := attempts;
            }
            reload := required && Includes(error, WRONG_ANSWER);
          } else if errs.Some? {
            serverError := FirstMessage(errs.value);
          } else {
            serverError := GENERIC_MESSAGE;
          }
        case OtherFailure =>
          serverError := GENERIC_MESSAGE;
      }
    }

    /** `handleSubmit` up to the request and after a failed one: nothing is
        sent when validation fails; the returned flag says whether a fresh
        captcha is fetched. */
    method SubmitAndFail(f: Failure) returns (sent: bool, reload: bool)
      modifies this
      ensures sent <==> FormErrors(old(State())) == map[]
      ensures !sent ==> State() == old(State()).(errors := FormErrors(old(State())))
      ensures sent ==> State() == AfterFailure(Submitting(old(State()).(errors := map[])), f)
      ensures reload <==> sent && ReloadsCaptcha(f)
    {
      sent := ValidateForm();
      reload := false;
      if sent {
        reload := ApplyFailure(f);
      }
    }
  }
}
