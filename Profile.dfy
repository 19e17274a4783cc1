/**
  * The profile page: what the save sends and when it refuses, the text
  * shown for a failed save, the password-change guard, and the profile
  * photo kept across edits and reloads.
  */
module Profile {
  import opened Common

  // ---------------------------------------------------------------------
  // handleSave: normalisation and validation
  // ---------------------------------------------------------------------

  /** The profile fields as typed. */
  datatype Form = Form(fullName: string, email: string)

  /** `dataToSend`: the name trimmed; the email trimmed, then lower-cased. */
  function Normalized(f: Form): Form {
    Form(Trim(f.fullName), ToLower(Trim(f.email)))
  }

  /** How `handleSave` ends before or at the request. */
  datatype SaveStep = NoToken | NameMissing | EmailInvalid | Send(data: Form)

  const NO_TOKEN := "Токен не найден. Пожалуйста, войдите снова."
  const NAME_REQUIRED := "Введите ФИО"
  const EMAIL_INVALID := "Введите корректный email"

  /** The guards of `handleSave`, in order: the stored token, then the
      normalised name, then the normalised email. */
  function SaveStepOf(token: Option<string>, f: Form): SaveStep {
    var d := Normalized(f);
    if !Truthy(token) then NoToken
    else if d.fullName == "" then NameMissing
    else if d.email == "" || !Includes(d.email, "@") then EmailInvalid
    else Send(d)
  }

  /** Lower-casing keeps whitespace as it is and never produces it. */
  lemma LowerCharWhitespace(c: char)
    ensures IsWhitespace(LowerChar(c)) <==> IsWhitespace(c)
    ensures LowerChar(LowerChar(c)) == LowerChar(c)
  {
  }

  /** Lower-casing a trimmed string leaves it trimmed. */
  lemma TrimOfLowerTrimmed(s: string)
    requires Trim(s) == s
    ensures Trim(ToLower(s)) == ToLower(s)
  {
    var t := ToLower(s);
    if t != [] {
      LowerCharWhitespace(s[0]);
      LowerCharWhitespace(s[|s| - 1]);
      TrimOfNoWhitespaceEnds(t);
    }
  }

  /** Lower-casing twice is lower-casing once. */
  lemma ToLowerIdempotent(s: string)
    ensures ToLower(ToLower(s)) == ToLower(s)
  {
    forall i | 0 <= i < |s| ensures ToLower(ToLower(s))[i] == ToLower(s)[i] {
      LowerCharWhitespace(s[i]);
    }
  }

  /** What is sent is already normal: no surrounding whitespace, the email
      lower-case; so normalising it again changes nothing. */
  lemma NormalizedIsNormal(f: Form)
    ensures var d := Normalized(f);
            && Trim(d.fullName) == d.fullName
            && Trim(d.email) == d.email && ToLower(d.email) == d.email
            && Normalized(d) == d
  {
    var d := Normalized(f);
    TrimIdempotent(f.fullName);
    TrimIdempotent(f.email);
    TrimOfLowerTrimmed(Trim(f.email));
    ToLowerIdempotent(Trim(f.email));
  }

  /** A save is sent exactly when there is a token, the trimmed name is not
      empty and the normalised email contains an `@`; it sends the
      normalised form. */
  lemma SendIffValid(token: Option<string>, f: Form)
    ensures SaveStepOf(token, f).Send? <==>
              Truthy(token) && !IsBlank(f.fullName) && '@' in Normalized(f).email
    ensures SaveStepOf(token, f).Send? ==> SaveStepOf(token, f).data == Normalized(f)
  {
    var d := Normalized(f);
    assert Includes(d.email, "@") <==> '@' in d.email by {
      IncludesChar(d.email, '@');
      assert "@" == ['@'];
    }
  }

  /** A blank name is reported before the email is looked at. */
  lemma NameCheckedBeforeEmail(token: Option<string>, f: Form)
    requires Truthy(token) && IsBlank(f.fullName)
    ensures SaveStepOf(token, f) == NameMissing
  {
  }

  /** With a name, an email that normalises to nothing or lacks an `@` is
      refused. */
  lemma EmailChecked(token: Option<string>, f: Form)
    requires Truthy(token) && !IsBlank(f.fullName)
    ensures SaveStepOf(token, f) == EmailInvalid <==> !('@' in Normalized(f).email)
  {
    IncludesChar(Normalized(f).email, '@');
    assert "@" == ['@'];
  }

  // ---------------------------------------------------------------------
  // handleSave: the message for a failed save
  // ---------------------------------------------------------------------

  const FAILED_TO_FETCH := "Failed to fetch"
  const SERVER_DOWN := "Сервер недоступен. Проверьте запущен ли бэкенд."
  const SESSION_EXPIRED := "Сессия истекла. Пожалуйста, войдите снова."
  const BAD_DATA := "Неверные данные. Проверьте введенные значения."
  const EMAIL_TAKEN := "Этот email уже используется другим пользователем."
  const SERVER_ERROR := "Ошибка сервера"
  const STATUS_PREFIX := "Ошибка сервера: "

  /** The message of the error thrown for a non-OK reply: the reply's
      `error` text, or the status after a fixed prefix. */
  function ThrownMessage(error: Option<string>, status: nat): string {
    if Truthy(error) then error.value else STATUS_PREFIX + NatToString(status)
  }

  /** The text shown for a failed save with error message `m`. */
  function SaveErrorText(m: string): string {
    if Includes(m, FAILED_TO_FETCH) then SERVER_DOWN
    else if Includes(m, "401") then SESSION_EXPIRED
    else if Includes(m, "400") then BAD_DATA
    else if Includes(m, "409") then EMAIL_TAKEN
    else if m != "" then m
    else SERVER_ERROR
  }

  /** Whether the failure also logs the user out after a delay. */
  predicate SaveErrorLogsOut(m: string) {
    !Includes(m, FAILED_TO_FETCH) && Includes(m, "401")
  }

  /** One row of the message table: the text searched for and the text shown. */
  datatype Rule = Rule(pattern: string, text: string)

  /** The mapping as a table, in the order the rules are tried. */
  const RULES := [Rule(FAILED_TO_FETCH, SERVER_DOWN), Rule("401", SESSION_EXPIRED),
                  Rule("400", BAD_DATA), Rule("409", EMAIL_TAKEN)]

  /** The text of the first rule whose pattern occurs in `m`, or `m` itself
      (the generic text when `m` is empty). */
  function FirstRule(rules: seq<Rule>, m: string): string {
    if rules == [] then (if m != "" then m else SERVER_ERROR)
    else if Includes(m, rules[0].pattern) then rules[0].text
    else FirstRule(rules[1..], m)
  }

  /** The chain of tests is the table read top to bottom. */
  lemma SaveErrorTextIsFirstRule(m: string)
    ensures SaveErrorText(m) == FirstRule(RULES, m)
  {
    var r := RULES;
    assert FirstRule(r[3..], m) == if Includes(m, "409") then EMAIL_TAKEN else FirstRule([], m) by {
      assert r[3..][1..] == [];
    }
    assert FirstRule(r[2..], m) == if Includes(m, "400") then BAD_DATA else FirstRule(r[3..], m) by {
      assert r[2..][1..] == r[3..];
    }
    assert FirstRule(r[1..], m) == if Includes(m, "401") then SESSION_EXPIRED else FirstRule(r[2..], m) by {
      assert r[1..][1..] == r[2..];
    }
  }

  /** The shown text is never empty, and a message matching no rule is
      shown as it is. */
  lemma SaveErrorTextShown(m: string)
    ensures SaveErrorText(m) != ""
    ensures m != "" && (forall i :: 0 <= i < |RULES| ==> !Includes(m, RULES[i].pattern)) ==> SaveErrorText(m) == m
  {
    SaveErrorTextIsFirstRule(m);
    var r := RULES;
    assert r[0].text != "" && r[1].text != "" && r[2].text != "" && r[3].text != "";
    FirstRuleNonEmpty(r, m);
    if forall i :: 0 <= i < |r| ==> !Includes(m, r[i].pattern) {
      FirstRuleFallsThrough(r, m);
    }
  }

  lemma {:induction false} FirstRuleNonEmpty(rules: seq<Rule>, m: string)
    requires forall i :: 0 <= i < |rules| ==> rules[i].text != ""
    ensures FirstRule(rules, m) != ""
    decreases |rules|
  {
    if rules != [] && !Includes(m, rules[0].pattern) {
      assert forall i :: 0 <= i < |rules| - 1 ==> rules[1..][i] == rules[i + 1];
      FirstRuleNonEmpty(rules[1..], m);
    }
  }

  lemma {:induction false} FirstRuleFallsThrough(rules: seq<Rule>, m: string)
    requires forall i :: 0 <= i < |rules| ==> !Includes(m, rules[i].pattern)
    ensures FirstRule(rules, m) == if m != "" then m else SERVER_ERROR
    decreases |rules|
  {
    if rules != [] {
      assert !Includes(m, rules[0].pattern);
      assert forall i :: 0 <= i < |rules| - 1 ==> rules[1..][i] == rules[i + 1];
      FirstRuleFallsThrough(rules[1..], m);
    }
  }

  /** A reply with no `error` text and status 401 reads as an expired
      session and logs out. */
  lemma BareUnauthorizedLogsOut()
    ensures var m := ThrownMessage(None, 401);
            SaveErrorText(m) == SESSION_EXPIRED && SaveErrorLogsOut(m)
  {
    var m := ThrownMessage(None, 401);
    assert m == STATUS_PREFIX + "401";
    assert InfixAt(m, "401", |STATUS_PREFIX|);
    MissingCharNotIncluded(m, FAILED_TO_FETCH, 0);
  }

  /** The 401 replies of the token check carry an `error` text, so that text
      is shown as it is: an expired token does not read as an expired
      session and does not log out. */
  lemma ReplyTextShownAsIs()
    ensures SaveErrorText(ThrownMessage(Some("Токен истек"), 401)) == "Токен истек"
    ensures !SaveErrorLogsOut(ThrownMessage(Some("Токен истек"), 401))
  {
    var m := "Токен истек";
    MissingCharNotIncluded(m, FAILED_TO_FETCH, 0);
    MissingCharNotIncluded(m, "401", 0);
    MissingCharNotIncluded(m, "400", 0);
    MissingCharNotIncluded(m, "409", 0);
  }

  // ---------------------------------------------------------------------
  // handlePasswordChange
  // ---------------------------------------------------------------------

  /** How `handlePasswordChange` ends before or at the request. */
  datatype PasswordStep = Mismatch | PasswordNoToken | SendPassword(currentPassword: string, newPassword: string)

  function PasswordStepOf(current: string, newPassword: string, confirm: string, token: Option<string>): PasswordStep {
    if newPassword != confirm then Mismatch
    else if !Truthy(token) then PasswordNoToken
    else SendPassword(current, newPassword)
  }

  /** A mismatch stops before anything else, and a request carries the
      current password and the confirmed new one. */
  lemma PasswordGuard(current: string, newPassword: string, confirm: string, token: Option<string>)
    ensures newPassword != confirm ==> PasswordStepOf(current, newPassword, confirm, token) == Mismatch
    ensures PasswordStepOf(current, newPassword, confirm, token).SendPassword? <==> newPassword == confirm && Truthy(token)
    ensures PasswordStepOf(current, newPassword, confirm, token).SendPassword? ==>
              PasswordStepOf(current, newPassword, confirm, token) == SendPassword(current, confirm)
  {
  }

  // ---------------------------------------------------------------------
  // The profile photo
  // ---------------------------------------------------------------------

  /** The photo on screen, the last saved one, whether the form is being
      edited, and the browser's `tempProfilePhoto` entry. */
  datatype Photo = Photo(photo: string, savedPhoto: string, isEditing: bool, stored: Option<string>)

  /** `user.profile_pic_url || ''`. */
  function UserPhoto(userPic: Option<string>): string {
    if Truthy(userPic) then userPic.value else ""
  }

  /** The photo the page shows when it loads: the stored one if it is
      truthy, otherwise the user's. */
  function Loaded(stored: Option<string>, userPic: Option<string>): string {
    if Truthy(stored) then stored.value else UserPhoto(userPic)
  }

  /** The page as it loads. */
  function Mount(stored: Option<string>, userPic: Option<string>): Photo {
    var p := Loaded(stored, userPic);
    Photo(p, p, false, stored)
  }

  /** The file reader's result shown and stored at once. */
  function ChoosePhoto(s: Photo, dataUrl: string): Photo {
    s.(photo := dataUrl, stored := Some(dataUrl))
  }

  /** The Cancel button as written: the saved photo back on screen. */
  function CancelAsWritten(s: Photo): Photo {
    s.(isEditing := false, photo := s.savedPhoto)
  }

  /** Cancel that also puts the saved photo back into storage. */
  function Cancel(s: Photo): Photo {
    s.(isEditing := false, photo := s.savedPhoto, stored := Some(s.savedPhoto))
  }

  /** A successful save: the photo on screen becomes the saved one, and is
      stored when it differs from the previous saved one. */
  function SaveSucceeded(s: Photo): Photo {
    s.(stored := if s.photo != s.savedPhoto then Some(s.photo) else s.stored,
       savedPhoto := s.photo, isEditing := false)
  }

  /** Cancelling puts the last saved photo back on screen and ends editing. */
  lemma CancelRestoresPhoto(s: Photo)
    ensures CancelAsWritten(s).photo == s.savedPhoto && !CancelAsWritten(s).isEditing
    ensures Cancel(s).photo == s.savedPhoto && !Cancel(s).isEditing
  {
  }

  /** The storage shows on reload what the page shows now, and an empty
      saved photo only when the user has none. */
  predicate Consistent(s: Photo, userPic: Option<string>) {
    Loaded(s.stored, userPic) == s.photo && (s.savedPhoto == "" ==> UserPhoto(userPic) == "")
  }

  /** Loading, choosing a photo, cancelling and saving keep the page
      consistent with the storage, so a reload at any point shows the same
      photo as before it. A data URL is never empty. */
  lemma ConsistentPreserved(s: Photo, userPic: Option<string>, dataUrl: string, stored: Option<string>)
    ensures Consistent(Mount(stored, userPic), userPic)
    ensures Consistent(s, userPic) && dataUrl != "" ==> Consistent(ChoosePhoto(s, dataUrl), userPic)
    ensures Consistent(s, userPic) ==> Consistent(Cancel(s), userPic)
    ensures Consistent(s, userPic) ==> Consistent(SaveSucceeded(s), userPic)
    ensures Consistent(s, userPic) ==> Mount(s.stored, userPic).photo == s.photo
  {
  }

  /** As written, a photo chosen and then cancelled stays in storage, and
      the next load of the page shows it instead of the saved one. */
  lemma CancelledPhotoReturns(userPic: Option<string>, dataUrl: string)
    requires dataUrl != "" && dataUrl != UserPhoto(userPic)
    ensures var s := CancelAsWritten(ChoosePhoto(Mount(None, userPic), dataUrl));
            && s.photo == UserPhoto(userPic)
            && Mount(s.stored, userPic).photo == dataUrl
  {
  }
}
