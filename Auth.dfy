/**
  * The authentication routes: the client-address heuristic, the `/login`
  * decision procedure over the failed-attempt tracker and the captcha store,
  * the limiter in front of it, and the SQL built for a profile update.
  *
  * The database, bcrypt and JWT are oracles: whether the e-mail names a user,
  * whether the password matches, and at which step, if any, the `try` block
  * throws. Body validation by express-validator is an oracle too, except that
  * its `trim` of the two captcha fields is modelled.
  */
module Auth {
  import opened Common
  import opened TtlCache
  import opened Sql
  import opened RateLimiter
  import opened Captcha

  // ---------------------------------------------------------------------
  // getClientIP
  // ---------------------------------------------------------------------

  /** The request metadata the client address is read from. */
  datatype ClientInfo = ClientInfo(
    forwardedFor: Option<string>,      // `x-forwarded-for` header
    realIp: Option<string>,            // `x-real-ip` header
    connectionAddress: Option<string>, // `req.connection?.remoteAddress`
    socketAddress: Option<string>,     // `req.socket?.remoteAddress`
    ip: Option<string>)                // `req.ip`

  /** `s.split(',')[0]`: the text before the first comma. */
  function FirstSegment(s: string): (r: string)
    ensures |r| <= |s| && r == s[..|r|]
    ensures ',' !in r
    ensures |r| == |s| || s[|r|] == ','
  {
    if s == [] || s[0] == ',' then ""
    else
      var r := FirstSegment(s[1..]);
      assert [s[0]] + r == s[..|r| + 1];
      [s[0]] + r
  }

  /** The sources in priority order. */
  function Candidates(c: ClientInfo): seq<Option<string>> {
    [ match c.forwardedFor case None => None case Some(h) => Some(FirstSegment(h)),
      c.realIp, c.connectionAddress, c.socketAddress, c.ip ]
  }

  /** `getClientIP`: the first truthy source, or "unknown". */
  function GetClientIP(c: ClientInfo): (r: string)
    ensures r != ""
    ensures (exists i :: 0 <= i < 5 && Candidates(c)[i] == Some(r) && forall j :: 0 <= j < i ==> !Truthy(Candidates(c)[j]))
         || (r == "unknown" && forall j :: 0 <= j < 5 ==> !Truthy(Candidates(c)[j]))
  {
    var cs := Candidates(c);
    if Truthy(cs[0]) then cs[0].value
    else if Truthy(cs[1]) then cs[1].value
    else if Truthy(cs[2]) then cs[2].value
    else if Truthy(cs[3]) then cs[3].value
    else if Truthy(cs[4]) then cs[4].value
    else "unknown"
  }

  /** Only the first hop of `x-forwarded-for` is taken, and it wins over
      every other source. */
  lemma ForwardedForWins(c: ClientInfo, first: string, rest: string)
    requires first != "" && ',' !in first
    requires c.forwardedFor == Some(first + "," + rest)
    ensures GetClientIP(c) == first
  {
    var h := first + "," + rest;
    assert h[|first|] == ',';
    assert forall i :: 0 <= i < |first| ==> h[i] == first[i];
    assert h[..|first|] == first;
  }

  // ---------------------------------------------------------------------
  // The login request and its outcome
  // ---------------------------------------------------------------------

  /** A `/login` request. `bodyValid` is the verdict of the body validators
      (`isEmail` on email, `notEmpty` on password); `email` is the normalised
      address. */
  datatype LoginRequest = LoginRequest(
    bodyValid: bool,
    email: string,
    captchaId: Option<string>,
    captchaAnswer: Option<string>,
    client: ClientInfo)

  /** The step at which the `try` block throws, if any. */
  datatype Fault = NoFault | LookupFails | CompareFails | SignFails

  /** The database and bcrypt, as seen by one request. */
  datatype Backend = Backend(userExists: bool, passwordMatches: bool, fault: Fault)

  /** The random choices `generateCaptcha` makes, should it be called. */
  datatype Seed = Seed(num1: nat, op: Op, num2: nat, random: string)

  predicate ValidSeed(seed: Seed) {
    ValidOperand(seed.num1) && ValidOperand(seed.num2) && ValidSuffix(seed.random)
  }

  /** The captcha sent to the client: its id and text. */
  datatype CaptchaView = CaptchaView(id: string, text: string)

  function ViewOf(seed: Seed, now: nat): CaptchaView {
    CaptchaView(CaptchaId(now, seed.random), Captcha.Text(seed.num1, seed.op, seed.num2))
  }

  /** The replies of the login route. */
  datatype Reply =
    | ValidationErrors                                           // 400 `errors`
    | SecurityCheckRequired(challenge: CaptchaView)              // 400 with a fresh captcha
    | SecurityCheckFailed(remaining: nat)                        // 400, no captcha
    | BadCredentials(remaining: nat, captcha: Option<CaptchaView>) // 401
    | LoggedIn                                                   // 200 with a token
    | ServerError                                                // 500
    | TooManyRequests                                            // 429 from the limiter

  function Status(r: Reply): int {
    match r
    case ValidationErrors => 400
    case SecurityCheckRequired(_) => 400
    case SecurityCheckFailed(_) => 400
    case BadCredentials(_, _) => 401
    case LoggedIn => 200
    case ServerError => 500
    case TooManyRequests => 429
  }

  /** A reply and the two caches after it. */
  datatype Outcome = Outcome(reply: Reply, failed: Store<nat>, captchas: Store<string>)

  /** `body(f).optional().trim()`. */
  function Sanitized(o: Option<string>): Option<string> {
    match o
    case None => None
    case Some(s) => Some(Trim(s))
  }

  function IssueSeed(c: Store<string>, seed: Seed, now: nat): Store<string> {
    Issue(c, CaptchaId(now, seed.random), seed.num1, seed.op, seed.num2, now)
  }

  /** Unknown e-mail or wrong password: one more failure, the hint, and a
      fresh captcha once the new count reaches 3. */
  function Rejection(t: Store<nat>, c: Store<string>, key: string, seed: Seed, now: nat): Outcome {
    var t' := RecordFailure(t, key, now);
    var count := Attempts(t', key, now);
    if NeedsCaptcha(count) then Outcome(BadCredentials(Remaining(count), Some(ViewOf(seed, now))), t', IssueSeed(c, seed, now))
    else Outcome(BadCredentials(Remaining(count), None), t', c)
  }

  /** From the user lookup on. */
  function CheckCredentials(t: Store<nat>, c: Store<string>, key: string, backend: Backend, seed: Seed, now: nat): Outcome {
    if backend.fault == LookupFails then Outcome(ServerError, RecordFailure(t, key, now), c)
    else if !backend.userExists then Rejection(t, c, key, seed, now)
    else if backend.fault == CompareFails then Outcome(ServerError, RecordFailure(t, key, now), c)
    else if !backend.passwordMatches then Rejection(t, c, key, seed, now)
    else if backend.fault == SignFails then Outcome(ServerError, RecordFailure(Del(t, key), key, now), c)
    else Outcome(LoggedIn, Del(t, key), c)
  }

  /** The handler after body validation, for the pair's cache key and the
      trimmed captcha fields: the captcha gate, then the credentials. */
  function Gate(t: Store<nat>, c: Store<string>, key: string, id: Option<string>, answer: Option<string>,
                backend: Backend, seed: Seed, now: nat): Outcome {
    if !NeedsCaptcha(Attempts(t, key, now)) then CheckCredentials(t, c, key, backend, seed, now)
    else if !Truthy(id) || !Truthy(answer) then
      Outcome(SecurityCheckRequired(ViewOf(seed, now)), t, IssueSeed(c, seed, now))
    else
      var (ok, c') := Check(c, id, answer, now);
      if !ok then
        var t' := RecordFailure(t, key, now);
        Outcome(SecurityCheckFailed(Remaining(Attempts(t', key, now))), t', c')
      else CheckCredentials(t, c', key, backend, seed, now)
  }

  /** The cache key of the request's (client address, e-mail) pair. */
  function KeyOf(req: LoginRequest): string {
    FailedKey(GetClientIP(req.client), req.email)
  }

  /** The login handler as a function of the caches before it. */
  function LoginSpec(t: Store<nat>, c: Store<string>, req: LoginRequest, backend: Backend, seed: Seed, now: nat): Outcome {
    if !req.bodyValid then Outcome(ValidationErrors, t, c)
    else Gate(t, c, KeyOf(req), Sanitized(req.captchaId), Sanitized(req.captchaAnswer), backend, seed, now)
  }

  // ---------------------------------------------------------------------
  // The handler over the two stores
  // ---------------------------------------------------------------------

  /** The shared 401 branch of the handler. */
  method RejectCredentials(tracker: FailedAttemptTracker, captchas: CaptchaStore, clientIP: string, email: string, seed: Seed, now: nat)
    returns (reply: Reply)
    requires ValidSeed(seed) && CaptchaId(now, seed.random) !in captchas.cache
    modifies tracker, captchas
    ensures Outcome(reply, tracker.cache, captchas.cache)
         == Rejection(old(tracker.cache), old(captchas.cache), FailedKey(clientIP, email), seed, now)
  {
    var failedCount := tracker.TrackFailedLogin(clientIP, email, now);
    var remainingAttempts := tracker.GetRemainingAttempts(clientIP, email, now);
    var needsCaptchaNow := tracker.RequiresCaptcha(clientIP, email, now);
    if needsCaptchaNow {
      var captcha := captchas.GenerateCaptcha(seed.num1, seed.op, seed.num2, seed.random, now);
      reply := BadCredentials(remainingAttempts, Some(CaptchaView(captcha.id, captcha.text)));
    } else {
      reply := BadCredentials(remainingAttempts, None);
    }
  }

  /** The handler from the user lookup on. */
  method CredentialStage(tracker: FailedAttemptTracker, captchas: CaptchaStore, clientIP: string, email: string,
                         backend: Backend, seed: Seed, now: nat)
    returns (reply: Reply)
    requires ValidSeed(seed) && CaptchaId(now, seed.random) !in captchas.cache
    modifies tracker, captchas
    ensures Outcome(reply, tracker.cache, captchas.cache)
         == CheckCredentials(old(tracker.cache), old(captchas.cache), FailedKey(clientIP, email), backend, seed, now)
  {
    if backend.fault == LookupFails {
      var _ := tracker.TrackFailedLogin(clientIP, email, now);
      return ServerError;
    }
    if !backend.userExists {
      reply := RejectCredentials(tracker, captchas, clientIP, email, seed, now);
      return;
    }
    if backend.fault == CompareFails {
      var _ := tracker.TrackFailedLogin(clientIP, email, now);
      return ServerError;
    }
    if !backend.passwordMatches {
      reply := RejectCredentials(tracker, captchas, clientIP, email, seed, now);
      return;
    }
    tracker.ResetFailedLogin(clientIP, email);
    if backend.fault == SignFails {
      var _ := tracker.TrackFailedLogin(clientIP, email, now);
      return ServerError;
    }
    reply := LoggedIn;
  }

  /** The `/login` handler. */
  method Login(tracker: FailedAttemptTracker, captchas: CaptchaStore, req: LoginRequest, backend: Backend, seed: Seed, now: nat)
    returns (reply: Reply)
    requires ValidSeed(seed) && CaptchaId(now, seed.random) !in captchas.cache
    modifies tracker, captchas
    ensures Outcome(reply, tracker.cache, captchas.cache)
         == LoginSpec(old(tracker.cache), old(captchas.cache), req, backend, seed, now)
  {
    if !req.bodyValid {
      return ValidationErrors;
    }
    var email := req.email;
    var captchaId := Sanitized(req.captchaId);
    var captchaAnswer := Sanitized(req.captchaAnswer);
    var clientIP := GetClientIP(req.client);
    assert LoginSpec(old(tracker.cache), old(captchas.cache), req, backend, seed, now)
        == Gate(old(tracker.cache), old(captchas.cache), FailedKey(clientIP, email), captchaId, captchaAnswer, backend, seed, now);

    var needsCaptcha := tracker.RequiresCaptcha(clientIP, email, now);
    if needsCaptcha {
      if !Truthy(captchaId) || !Truthy(captchaAnswer) {
        var captcha := captchas.GenerateCaptcha(seed.num1, seed.op, seed.num2, seed.random, now);
        return SecurityCheckRequired(CaptchaView(captcha.id, captcha.text));
      }
      var isCaptchaValid := captchas.VerifyCaptcha(captchaId, captchaAnswer, now);
      if !isCaptchaValid {
        var _ := tracker.TrackFailedLogin(clientIP, email, now);
        var remainingAttempts := tracker.GetRemainingAttempts(clientIP, email, now);
        return SecurityCheckFailed(remainingAttempts);
      }
    }
    reply := CredentialStage(tracker, captchas, clientIP, email, backend, seed, now);
  }

  /** `POST /login` behind `authLimiter`: the request is counted first, a
      request over the limit is answered 429 without reaching the handler,
      and a reply below 400 is taken back out of the count. */
  method LoginRoute(limiter: AuthLimiter, tracker: FailedAttemptTracker, captchas: CaptchaStore,
                    limiterKey: string, req: LoginRequest, backend: Backend, seed: Seed, now: nat)
    returns (reply: Reply)
    requires ValidSeed(seed) && CaptchaId(now, seed.random) !in captchas.cache
    modifies limiter, tracker, captchas
    ensures var w := HitWindow(if limiterKey in old(limiter.windows) then Some(old(limiter.windows)[limiterKey]) else None, now);
            if Admitted(w) then
              && Outcome(reply, tracker.cache, captchas.cache) == LoginSpec(old(tracker.cache), old(captchas.cache), req, backend, seed, now)
              && limiter.windows == Settled(old(limiter.windows)[limiterKey := w], limiterKey, Status(reply))
            else
              && reply == TooManyRequests
              && tracker.cache == old(tracker.cache) && captchas.cache == old(captchas.cache)
              && limiter.windows == old(limiter.windows)[limiterKey := w]
  {
    var admitted := limiter.Hit(limiterKey, now);
    if !admitted {
      return TooManyRequests;
    }
    reply := Login(tracker, captchas, req, backend, seed, now);
    limiter.Settle(limiterKey, Status(reply));
  }

  // ---------------------------------------------------------------------
  // Properties of the login decision
  // ---------------------------------------------------------------------

  /** Body validation is decided before either cache is read or written. */
  lemma ValidationFirst(t: Store<nat>, c: Store<string>, req: LoginRequest, backend: Backend, seed: Seed, now: nat)
    requires !req.bodyValid
    ensures LoginSpec(t, c, req, backend, seed, now) == Outcome(ValidationErrors, t, c)
  {
  }

  /** While no captcha is required, the captcha fields of the request are
      not looked at and the captcha store is only written by a 401 reply. */
  lemma CaptchaFieldsIgnoredUnlessRequired(t: Store<nat>, c: Store<string>, req: LoginRequest, id: Option<string>, answer: Option<string>,
                                           backend: Backend, seed: Seed, now: nat)
    requires req.bodyValid && !NeedsCaptcha(Attempts(t, KeyOf(req), now))
    ensures LoginSpec(t, c, req, backend, seed, now)
         == LoginSpec(t, c, req.(captchaId := id, captchaAnswer := answer), backend, seed, now)
    ensures !LoginSpec(t, c, req, backend, seed, now).reply.SecurityCheckRequired?
    ensures !LoginSpec(t, c, req, backend, seed, now).reply.SecurityCheckFailed?
  {
    var key := KeyOf(req);
    var req' := req.(captchaId := id, captchaAnswer := answer);
    assert KeyOf(req') == key;
    var o := CheckCredentials(t, c, key, backend, seed, now);
    assert LoginSpec(t, c, req, backend, seed, now) == o;
    assert LoginSpec(t, c, req', backend, seed, now) == o;
    CredentialsNoCaptchaReply(t, c, key, backend, seed, now);
  }

  lemma CredentialsNoCaptchaReply(t: Store<nat>, c: Store<string>, key: string, backend: Backend, seed: Seed, now: nat)
    ensures var r := CheckCredentials(t, c, key, backend, seed, now).reply;
            !r.SecurityCheckRequired? && !r.SecurityCheckFailed?
  {
  }

  /** A required captcha whose id or answer is missing or blank: a fresh
      captcha is issued and sent, and the failure count is left alone. */
  lemma MissingCaptchaIssuesOne(t: Store<nat>, c: Store<string>, req: LoginRequest, backend: Backend, seed: Seed, now: nat)
    requires req.bodyValid && NeedsCaptcha(Attempts(t, KeyOf(req), now))
    requires !Truthy(Sanitized(req.captchaId)) || !Truthy(Sanitized(req.captchaAnswer))
    ensures LoginSpec(t, c, req, backend, seed, now)
         == Outcome(SecurityCheckRequired(ViewOf(seed, now)), t, IssueSeed(c, seed, now))
    ensures Status(LoginSpec(t, c, req, backend, seed, now).reply) == 400
  {
  }

  /** A blank captcha answer counts as missing: `trim` runs before the check. */
  lemma BlankAnswerIsMissing(t: Store<nat>, c: Store<string>, req: LoginRequest, backend: Backend, seed: Seed, now: nat)
    requires req.bodyValid && NeedsCaptcha(Attempts(t, KeyOf(req), now))
    requires req.captchaAnswer.Some? && AllWhitespace(req.captchaAnswer.value)
    ensures LoginSpec(t, c, req, backend, seed, now).reply == SecurityCheckRequired(ViewOf(seed, now))
  {
    BlankIffAllWhitespace(req.captchaAnswer.value);
  }

  /** A required captcha answered wrongly: exactly one more failure, the
      captcha consumed, no new captcha, and the user table never consulted,
      so the outcome is the same whatever the backend would have said. */
  lemma WrongCaptchaCounts(t: Store<nat>, c: Store<string>, req: LoginRequest, backend: Backend, other: Backend, seed: Seed, now: nat)
    requires req.bodyValid && NeedsCaptcha(Attempts(t, KeyOf(req), now))
    requires Truthy(Sanitized(req.captchaId)) && Truthy(Sanitized(req.captchaAnswer))
    requires !Check(c, Sanitized(req.captchaId), Sanitized(req.captchaAnswer), now).0
    ensures LoginSpec(t, c, req, backend, seed, now).reply.SecurityCheckFailed?
    ensures Attempts(LoginSpec(t, c, req, backend, seed, now).failed, KeyOf(req), now) == Attempts(t, KeyOf(req), now) + 1
    ensures LoginSpec(t, c, req, backend, seed, now).captchas == Check(c, Sanitized(req.captchaId), Sanitized(req.captchaAnswer), now).1
    ensures LoginSpec(t, c, req, backend, seed, now) == LoginSpec(t, c, req, other, seed, now)
  {
  }

  /** An unknown e-mail and a wrong password get the same reply and the same
      caches. */
  lemma UnknownUserLikeWrongPassword(t: Store<nat>, c: Store<string>, req: LoginRequest, seed: Seed, now: nat)
    ensures LoginSpec(t, c, req, Backend(false, false, NoFault), seed, now)
         == LoginSpec(t, c, req, Backend(true, false, NoFault), seed, now)
  {
    if req.bodyValid {
      var key, id, answer := KeyOf(req), Sanitized(req.captchaId), Sanitized(req.captchaAnswer);
      CredentialsUnknownLikeWrong(t, c, key, seed, now);
      if NeedsCaptcha(Attempts(t, key, now)) && Truthy(id) && Truthy(answer) {
        var (ok, c') := Check(c, id, answer, now);
        CredentialsUnknownLikeWrong(t, c', key, seed, now);
      }
    }
  }

  lemma CredentialsUnknownLikeWrong(t: Store<nat>, c: Store<string>, key: string, seed: Seed, now: nat)
    ensures CheckCredentials(t, c, key, Backend(false, false, NoFault), seed, now)
         == CheckCredentials(t, c, key, Backend(true, false, NoFault), seed, now)
         == Rejection(t, c, key, seed, now)
  {
  }

  /** What the 401 branch promises, on its own. */
  lemma RejectionFacts(t: Store<nat>, c: Store<string>, key: string, seed: Seed, now: nat)
    ensures var o := Rejection(t, c, key, seed, now);
            var n := Attempts(o.failed, key, now);
            && o.reply.BadCredentials?
            && n == Attempts(t, key, now) + 1
            && o.reply.remaining == Remaining(n)
            && (o.reply.captcha.Some? <==> NeedsCaptcha(n))
            && (o.reply.captcha.Some? ==> o.reply.captcha.value == ViewOf(seed, now))
  {
  }

  /** From the user lookup on, a 401 reply is the 401 branch. */
  lemma CredentialsRejection(t: Store<nat>, c: Store<string>, key: string, backend: Backend, seed: Seed, now: nat)
    requires CheckCredentials(t, c, key, backend, seed, now).reply.BadCredentials?
    ensures CheckCredentials(t, c, key, backend, seed, now) == Rejection(t, c, key, seed, now)
  {
  }

  /** Every 401 reply adds exactly one failure, reports `max(0, 5 - n)` for
      the new count n, and carries a fresh captcha exactly when n >= 3. */
  lemma RejectionShape(t: Store<nat>, c: Store<string>, req: LoginRequest, backend: Backend, seed: Seed, now: nat)
    requires LoginSpec(t, c, req, backend, seed, now).reply.BadCredentials?
    ensures var o := LoginSpec(t, c, req, backend, seed, now);
            var n := Attempts(o.failed, KeyOf(req), now);
            && n == Attempts(t, KeyOf(req), now) + 1
            && o.reply.remaining == Remaining(n)
            && (o.reply.captcha.Some? <==> NeedsCaptcha(n))
            && (o.reply.captcha.Some? ==> o.reply.captcha.value == ViewOf(seed, now))
  {
    var key := KeyOf(req);
    var c' := if NeedsCaptcha(Attempts(t, key, now)) then Check(c, Sanitized(req.captchaId), Sanitized(req.captchaAnswer), now).1 else c;
    assert LoginSpec(t, c, req, backend, seed, now) == CheckCredentials(t, c', key, backend, seed, now);
    CredentialsRejection(t, c', key, backend, seed, now);
    RejectionFacts(t, c', key, seed, now);
  }

  /** A login succeeds exactly when the body is valid, any required captcha
      was answered correctly, the user exists, the password matches and
      nothing throws; it then clears the pair's counter. */
  lemma LoginSucceedsIff(t: Store<nat>, c: Store<string>, req: LoginRequest, backend: Backend, seed: Seed, now: nat)
    ensures var o := LoginSpec(t, c, req, backend, seed, now);
            o.reply == LoggedIn <==>
              && req.bodyValid
              && (NeedsCaptcha(Attempts(t, KeyOf(req), now)) ==>
                    Truthy(Sanitized(req.captchaId)) && Truthy(Sanitized(req.captchaAnswer))
                    && Check(c, Sanitized(req.captchaId), Sanitized(req.captchaAnswer), now).0)
              && backend == Backend(true, true, NoFault)
    ensures var o := LoginSpec(t, c, req, backend, seed, now);
            o.reply == LoggedIn ==> o.failed == Del(t, KeyOf(req)) && Attempts(o.failed, KeyOf(req), now) == 0
  {
    if req.bodyValid {
      var key, id, answer := KeyOf(req), Sanitized(req.captchaId), Sanitized(req.captchaAnswer);
      if !NeedsCaptcha(Attempts(t, key, now)) {
        CredentialsLogIn(t, c, key, backend, seed, now);
      } else if Truthy(id) && Truthy(answer) {
        var (ok, c') := Check(c, id, answer, now);
        CredentialsLogIn(t, c', key, backend, seed, now);
      }
    }
  }

  lemma CredentialsLogIn(t: Store<nat>, c: Store<string>, key: string, backend: Backend, seed: Seed, now: nat)
    ensures var o := CheckCredentials(t, c, key, backend, seed, now);
            && (o.reply == LoggedIn <==> backend == Backend(true, true, NoFault))
            && (o.reply == LoggedIn ==> o.failed == Del(t, key) && Attempts(o.failed, key, now) == 0)
  {
  }

  /** A 500 reply adds one failure to the count the handler saw at that
      point; when the token cannot be signed the counter has just been
      cleared, so it ends at 1. */
  lemma ServerErrorCounts(t: Store<nat>, c: Store<string>, req: LoginRequest, backend: Backend, seed: Seed, now: nat)
    requires LoginSpec(t, c, req, backend, seed, now).reply == ServerError
    ensures var o := LoginSpec(t, c, req, backend, seed, now);
            backend.fault != SignFails ==> Attempts(o.failed, KeyOf(req), now) == Attempts(t, KeyOf(req), now) + 1
    ensures var o := LoginSpec(t, c, req, backend, seed, now);
            backend.fault == SignFails ==> Attempts(o.failed, KeyOf(req), now) == 1
  {
  }

  /** From the user lookup on, only the counter under `key` changes. */
  lemma CredentialsTouchOnlyKey(t: Store<nat>, c: Store<string>, key: string, backend: Backend, seed: Seed, now: nat, k: string)
    requires k != key
    ensures Get(CheckCredentials(t, c, key, backend, seed, now).failed, k, now) == Get(t, k, now)
  {
    OtherKeysUnaffected(t, key, k, Attempts(t, key, now) + 1, FAILED_TTL_MS, now, now);
    OtherKeysUnaffected(Del(t, key), key, k, 1, FAILED_TTL_MS, now, now);
  }

  /** The captcha gate and what follows it change only the counter under `key`. */
  lemma GateTouchesOnlyKey(t: Store<nat>, c: Store<string>, key: string, id: Option<string>, answer: Option<string>,
                           backend: Backend, seed: Seed, now: nat, k: string)
    requires k != key
    ensures Get(Gate(t, c, key, id, answer, backend, seed, now).failed, k, now) == Get(t, k, now)
  {
    if !NeedsCaptcha(Attempts(t, key, now)) {
      CredentialsTouchOnlyKey(t, c, key, backend, seed, now, k);
    } else if Truthy(id) && Truthy(answer) {
      var (ok, c') := Check(c, id, answer, now);
      if ok {
        CredentialsTouchOnlyKey(t, c', key, backend, seed, now, k);
      } else {
        OtherKeysUnaffected(t, key, k, Attempts(t, key, now) + 1, FAILED_TTL_MS, now, now);
      }
    }
  }

  /** Whatever happens, only the pair's own counter changes. */
  lemma OtherCountersUntouched(t: Store<nat>, c: Store<string>, req: LoginRequest, backend: Backend, seed: Seed, now: nat, k: string)
    requires k != KeyOf(req)
    ensures Get(LoginSpec(t, c, req, backend, seed, now).failed, k, now) == Get(t, k, now)
  {
    if req.bodyValid {
      GateTouchesOnlyKey(t, c, KeyOf(req), Sanitized(req.captchaId), Sanitized(req.captchaAnswer), backend, seed, now, k);
    }
  }

  // ---------------------------------------------------------------------
  // A run of logins from one client
  // ---------------------------------------------------------------------

  /** Three wrong passwords from a clear state: the hints are 4, 3, 2 and
      only the third reply carries a captcha; a fourth attempt without captcha
      fields, even with the right password, is answered with a fresh captcha
      and leaves the count at 3. */
  lemma ThreeFailuresThenCaptcha(t0: Store<nat>, c0: Store<string>, req: LoginRequest,
                                 s1: Seed, s2: Seed, s3: Seed, s4: Seed, n1: nat, n2: nat, n3: nat, n4: nat)
    requires req.bodyValid && req.captchaId == None && req.captchaAnswer == None
    requires Attempts(t0, KeyOf(req), n1) == 0
    requires n1 <= n2 <= n3 <= n4 < n1 + FAILED_TTL_MS
    ensures var wrong := Backend(true, false, NoFault);
            var o1 := LoginSpec(t0, c0, req, wrong, s1, n1);
            var o2 := LoginSpec(o1.failed, o1.captchas, req, wrong, s2, n2);
            var o3 := LoginSpec(o2.failed, o2.captchas, req, wrong, s3, n3);
            var o4 := LoginSpec(o3.failed, o3.captchas, req, Backend(true, true, NoFault), s4, n4);
            && o1.reply == BadCredentials(4, None)
            && o2.reply == BadCredentials(3, None)
            && o3.reply == BadCredentials(2, Some(ViewOf(s3, n3)))
            && o4.reply == SecurityCheckRequired(ViewOf(s4, n4))
            && Attempts(o4.failed, KeyOf(req), n4) == 3
  {
    var key := KeyOf(req);
    var wrong := Backend(true, false, NoFault);
    var o1 := LoginSpec(t0, c0, req, wrong, s1, n1);
    assert o1 == Rejection(t0, c0, key, s1, n1);
    RecordFailureLive(t0, key, n1, n2);
    var o2 := LoginSpec(o1.failed, o1.captchas, req, wrong, s2, n2);
    assert o2 == Rejection(o1.failed, o1.captchas, key, s2, n2);
    RecordFailureLive(o1.failed, key, n2, n3);
    var o3 := LoginSpec(o2.failed, o2.captchas, req, wrong, s3, n3);
    assert o3 == Rejection(o2.failed, o2.captchas, key, s3, n3);
    RecordFailureLive(o2.failed, key, n3, n4);
  }

  /** The stored answer never equals "x". */
  lemma AnswerNotX(a: nat, op: Op, b: nat)
    ensures AnswerString(a, op, b) != "x"
  {
    var v := Apply(op, a, b);
    if v >= 0 {
      assert AllDigits(NatToString(v));
    }
  }

  /** Continuing the run: the right password with a wrong answer to the
      captcha just sent is refused with 400 and no new captcha, and the
      count becomes 4, so the hint is 1. */
  lemma WrongAnswerAfterCaptcha(t: Store<nat>, c: Store<string>, req: LoginRequest, s4: Seed, s5: Seed, n4: nat, n5: nat)
    requires req.bodyValid && Attempts(t, KeyOf(req), n4) == 3
    requires ValidSuffix(s4.random)
    requires CaptchaId(n4, s4.random) !in c
    requires n4 <= n5 < n4 + CAPTCHA_TTL_MS
    requires Attempts(t, KeyOf(req), n5) == 3
    ensures var right := Backend(true, true, NoFault);
            var o4 := LoginSpec(t, c, req.(captchaId := None, captchaAnswer := None), right, s4, n4);
            var req5 := req.(captchaId := Some(ViewOf(s4, n4).id), captchaAnswer := Some("x"));
            var o5 := LoginSpec(o4.failed, o4.captchas, req5, right, s5, n5);
            && o5.reply == SecurityCheckFailed(1)
            && Attempts(o5.failed, KeyOf(req), n5) == 4
            && CaptchaId(n4, s4.random) !in o5.captchas
  {
    var key := KeyOf(req);
    var id := CaptchaId(n4, s4.random);
    var c4 := IssueSeed(c, s4, n4);
    var right := Backend(true, true, NoFault);
    var req4 := req.(captchaId := None, captchaAnswer := None);
    assert LoginSpec(t, c, req4, right, s4, n4) == Outcome(SecurityCheckRequired(ViewOf(s4, n4)), t, c4) by {
      assert KeyOf(req4) == key;
      MissingCaptchaIssuesOne(t, c, req4, right, s4, n4);
    }
    var req5 := req.(captchaId := Some(id), captchaAnswer := Some("x"));
    assert LoginSpec(t, c4, req5, right, s5, n5) == Gate(t, c4, key, Some(id), Some("x"), right, s5, n5) by {
      assert KeyOf(req5) == key;
      CaptchaIdTrimmed(n4, s4.random);
      TrimOfNoWhitespaceEnds("x");
    }
    var answer := AnswerString(s4.num1, s4.op, s4.num2);
    assert Get(c4, id, n5) == Some(answer) && answer != "" && answer != "x" by {
      AnswerNotX(s4.num1, s4.op, s4.num2);
      AnswerStringTrimmed(s4.num1, s4.op, s4.num2);
    }
    WrongAnswerGate(t, c4, key, id, right, s5, n5);
  }

  /** The gate with a live captcha whose answer is not "x", answered "x". */
  lemma WrongAnswerGate(t: Store<nat>, c: Store<string>, key: string, id: string, backend: Backend, seed: Seed, now: nat)
    requires Attempts(t, key, now) == 3 && id != ""
    requires Get(c, id, now).Some? && Get(c, id, now).value != "" && Get(c, id, now).value != "x"
    ensures Gate(t, c, key, Some(id), Some("x"), backend, seed, now)
         == Outcome(SecurityCheckFailed(1), RecordFailure(t, key, now), Del(c, id))
    ensures Attempts(RecordFailure(t, key, now), key, now) == 4
  {
    assert Check(c, Some(id), Some("x"), now) == (false, Del(c, id)) by {
      TrimOfNoWhitespaceEnds("x");
    }
    assert Attempts(RecordFailure(t, key, now), key, now) == 4 by {
      RecordFailureLive(t, key, now, now);
    }
  }

  // ---------------------------------------------------------------------
  // PUT /profile: the UPDATE statement
  // ---------------------------------------------------------------------

  /** The profile update: rejected when there is nothing to change, or the
      statement with its parameters. */
  datatype ProfileUpdate = NoData | Update(query: Query, values: seq<Value>)

  const PROFILE_WHERE: string := ", updated_at = NOW() WHERE id = "
  const PROFILE_RETURNING: string := " RETURNING id, email, full_name, profile_pic_url, created_at"

  /** `UPDATE users SET <set list>, updated_at = NOW() WHERE id = $k RETURNING ...`. */
  function ProfileQuery(setList: Query, k: nat): (q: Query)
    ensures |q| >= 3 && q[|q| - 3..] == [Piece.Text(PROFILE_WHERE), Param(k), Piece.Text(PROFILE_RETURNING)]
  {
    [Piece.Text("UPDATE users SET ")] + setList + [Piece.Text(PROFILE_WHERE), Param(k), Piece.Text(PROFILE_RETURNING)]
  }

  lemma ProfileQueryPlaceholders(setList: Query, k: nat)
    ensures Placeholders(ProfileQuery(setList, k)) == Placeholders(setList) + [k]
  {
    var head := [Piece.Text("UPDATE users SET ")];
    var tail := [Piece.Text(PROFILE_WHERE), Param(k), Piece.Text(PROFILE_RETURNING)];
    PlaceholdersAppend(head, setList);
    PlaceholdersAppend(head + setList, tail);
    PlaceholdersSingle(head[0]);
    assert tail == [Piece.Text(PROFILE_WHERE)] + [Param(k)] + [Piece.Text(PROFILE_RETURNING)];
    PlaceholdersSingle(Piece.Text(PROFILE_WHERE));
    PlaceholdersSingle(Param(k));
    PlaceholdersSingle(Piece.Text(PROFILE_RETURNING));
    PlaceholdersAppend([Piece.Text(PROFILE_WHERE)], [Param(k)]);
    PlaceholdersAppend([Piece.Text(PROFILE_WHERE)] + [Param(k)], [Piece.Text(PROFILE_RETURNING)]);
  }

  lemma SetListTwo(a: Query, b: Query)
    ensures Placeholders(a + [Piece.Text(", ")] + b) == Placeholders(a) + Placeholders(b)
  {
    PlaceholdersAppend(a, [Piece.Text(", ")]);
    PlaceholdersAppend(a + [Piece.Text(", ")], b);
    PlaceholdersSingle(Piece.Text(", "));
  }

  /** Both fields set: `full_name = $1, email = $2`, user id `$3`. */
  lemma TwoAssignments()
    ensures var q := ProfileQuery(Join([Assignment("full_name", 1), Assignment("email", 2)]), 3);
            Placeholders(q) == OneTo(3) && Assigns(q, "full_name", 1) && Assigns(q, "email", 2)
  {
    var a1 := Assignment("full_name", 1);
    var a2 := Assignment("email", 2);
    var setList := Join([a1, a2]);
    var q := ProfileQuery(setList, 3);
    assert Placeholders(q) == OneTo(3) by {
      JoinTwo(a1, a2);
      SetListTwo(a1, a2);
      ProfileQueryPlaceholders(setList, 3);
      assert OneTo(3) == [1, 2, 3] by {
        assert OneTo(2) == [1, 2] by { assert OneTo(1) == [1]; }
      }
    }
    assert q[1..6] == [Piece.Text("full_name = "), Param(1), Piece.Text(", "), Piece.Text("email = "), Param(2)] by {
      JoinTwo(a1, a2);
      assert "full_name" + " = " == "full_name = ";
      assert "email" + " = " == "email = ";
      assert q[1..6] == setList;
    }
    AssignsAt(q, "full_name", 1, 1);
    AssignsAt(q, "email", 2, 4);
  }

  /** One field set: `<column> = $1`, user id `$2`. */
  lemma OneAssignment(column: string)
    ensures var q := ProfileQuery(Join([Assignment(column, 1)]), 2);
            Placeholders(q) == OneTo(2) && Assigns(q, column, 1)
  {
    var setList := Join([Assignment(column, 1)]);
    JoinOne(Assignment(column, 1));
    ProfileQueryPlaceholders(setList, 2);
    assert OneTo(2) == [1, 2] by { assert OneTo(1) == [1]; }
    var q := ProfileQuery(setList, 2);
    assert q[1..3] == setList;
    AssignsAt(q, column, 1, 1);
  }

  lemma AssignsAt(q: Query, column: string, n: nat, i: nat)
    requires i + 1 < |q| && q[i] == Piece.Text(column + " = ") && q[i + 1] == Param(n)
    ensures Assigns(q, column, n)
  {
  }

  /** The "nothing to update" check and the statement builder of `PUT
      /profile`, for the (validated) body fields and the token's user id. */
  method BuildProfileUpdate(fullName: Option<string>, email: Option<string>, userId: int) returns (u: ProfileUpdate)
    ensures u.NoData? <==> !Truthy(fullName) && !Truthy(email)
    ensures u.Update? ==>
              && |u.values| == (if Truthy(fullName) then 1 else 0) + (if Truthy(email) then 1 else 0) + 1
              && Placeholders(u.query) == OneTo(|u.values|)
              && u.values[|u.values| - 1] == Num(userId)
              && |u.query| >= 3 && u.query[|u.query| - 3..] == [Piece.Text(PROFILE_WHERE), Param(|u.values|), Piece.Text(PROFILE_RETURNING)]
    ensures u.Update? && Truthy(fullName) ==> u.values[0] == Str(fullName.value) && Assigns(u.query, "full_name", 1)
    ensures u.Update? && Truthy(email) ==> u.values[|u.values| - 2] == Str(email.value) && Assigns(u.query, "email", |u.values| - 1)
  {
    if !Truthy(fullName) && !Truthy(email) {
      return NoData;
    }
    var updates: seq<Query> := [];
    var values: seq<Value> := [];
    var paramCount: nat := 1;

    if Truthy(fullName) {
      updates := updates + [Assignment("full_name", paramCount)];
      values := values + [Str(fullName.value)];
      paramCount := paramCount + 1;
    }
    if Truthy(email) {
      updates := updates + [Assignment("email", paramCount)];
      values := values + [Str(email.value)];
      paramCount := paramCount + 1;
    }
    values := values + [Num(userId)];

    var setList := Join(updates);
    u := Update(ProfileQuery(setList, paramCount), values);

    if Truthy(fullName) && Truthy(email) {
      assert updates == [Assignment("full_name", 1), Assignment("email", 2)];
      assert values == [Str(fullName.value), Str(email.value), Num(userId)] && paramCount == 3;
      TwoAssignments();
    } else if Truthy(fullName) {
      assert updates == [Assignment("full_name", 1)];
      assert values == [Str(fullName.value), Num(userId)] && paramCount == 2;
      OneAssignment("full_name");
    } else {
      assert updates == [Assignment("email", 1)];
      assert values == [Str(email.value), Num(userId)] && paramCount == 2;
      OneAssignment("email");
    }
  }
}
