/**
  * The failed-login tracker and the request limiter of the authentication
  * routes.
  *
  * The tracker keeps one counter per string key `failed_<ip>_<email>` in an
  * expiring cache whose entries live 300 s. Every failure re-sets the entry, so
  * its lifetime restarts. A captcha is required from 3 failures on, and the
  * "remaining attempts" hint is `max(0, 5 - count)`; there is no hard lockout.
  *
  * The limiter is one fixed-window counter per client: a window lasts 60 s and
  * admits 5 counted requests, and a request that ends successfully is taken
  * back out of the count.
  */
module RateLimiter {
  import opened Common
  import opened TtlCache

  const FAILED_TTL_MS: nat := 300_000
  const CAPTCHA_THRESHOLD: nat := 3
  const ATTEMPTS_HINT: nat := 5

  /** The cache key of an (ip, email) pair: plain concatenation, so distinct
      pairs can share a key. */
  function FailedKey(ip: string, email: string): string {
    "failed_" + ip + "_" + email
  }

  /** The live failure count under `key` (`get(key) || 0`). */
  function Attempts(s: Store<nat>, key: string, now: int): nat {
    match Get(s, key, now)
    case Some(n) => n
    case None => 0
  }

  /** The cache after one failure under `key` at `now`. */
  function RecordFailure(s: Store<nat>, key: string, now: int): (s': Store<nat>)
    ensures Attempts(s', key, now) == Attempts(s, key, now) + 1
    ensures key in s' && s'[key].expiresAt == now + FAILED_TTL_MS
    ensures forall k :: k != key ==> (k in s' <==> k in s) && (k in s ==> s'[k] == s[k])
  {
    Set(s, key, Attempts(s, key, now) + 1, FAILED_TTL_MS, now)
  }

  /** `requiresCaptcha` on a count. */
  predicate NeedsCaptcha(count: nat) {
    count >= CAPTCHA_THRESHOLD
  }

  /** `Math.max(0, 5 - count)`. */
  function Remaining(count: nat): (r: nat)
    ensures r <= ATTEMPTS_HINT
    ensures r == 0 <==> count >= ATTEMPTS_HINT
    ensures count <= ATTEMPTS_HINT ==> r + count == ATTEMPTS_HINT
  {
    if count >= ATTEMPTS_HINT then 0 else ATTEMPTS_HINT - count
  }

  /** The module-level `failedAttemptsCache` with the four functions over it. */
  class FailedAttemptTracker {
    var cache: Store<nat>

    constructor ()
      ensures cache == map[]
    {
      cache := map[];
    }

    /** `trackFailedLogin`: stores and returns the previous live count plus one. */
    method TrackFailedLogin(ip: string, email: string, now: int) returns (newAttempts: nat)
      modifies this
      ensures newAttempts == old(Attempts(cache, FailedKey(ip, email), now)) + 1
      ensures cache == RecordFailure(old(cache), FailedKey(ip, email), now)
    {
      var key := FailedKey(ip, email);
      var currentAttempts := match Get(cache, key, now) case Some(n) => n case None => 0;
      newAttempts := currentAttempts + 1;
      cache := Set(cache, key, newAttempts, FAILED_TTL_MS, now);
    }

    /** `resetFailedLogin`: removes exactly the pair's entry. */
    method ResetFailedLogin(ip: string, email: string)
      modifies this
      ensures cache == old(cache) - {FailedKey(ip, email)}
    {
      var key := FailedKey(ip, email);
      cache := Del(cache, key);
    }

    /** `requiresCaptcha`: true exactly when the live count is at least 3. */
    function RequiresCaptcha(ip: string, email: string, now: int): (r: bool)
      reads this
      ensures r <==> Attempts(cache, FailedKey(ip, email), now) >= CAPTCHA_THRESHOLD
    {
      var failedAttempts := Attempts(cache, FailedKey(ip, email), now);
      failedAttempts >= 3
    }

    /** `getRemainingAttempts`: the hint, between 0 and 5. */
    function GetRemainingAttempts(ip: string, email: string, now: int): (r: nat)
      reads this
      ensures r <= ATTEMPTS_HINT
      ensures Attempts(cache, FailedKey(ip, email), now) == 0 ==> r == ATTEMPTS_HINT
      ensures r == 0 <==> Attempts(cache, FailedKey(ip, email), now) >= ATTEMPTS_HINT
    {
      Remaining(Attempts(cache, FailedKey(ip, email), now))
    }
  }

  // ---------------------------------------------------------------------
  // Runs of failures
  // ---------------------------------------------------------------------

  /** The cache after one failure at each of `times`, in order. */
  function FailAt(s: Store<nat>, key: string, times: seq<int>): Store<nat>
    decreases |times|
  {
    if times == [] then s
    else RecordFailure(FailAt(s, key, times[..|times| - 1]), key, times[|times| - 1])
  }

  /** Failures in time order, each less than the TTL after the one before. */
  predicate WithinTtl(times: seq<int>) {
    forall i :: 0 < i < |times| ==> times[i - 1] <= times[i] < times[i - 1] + FAILED_TTL_MS
  }

  /** Reading the count while the newest entry is live gives the count before
      the failure plus one. */
  lemma RecordFailureLive(s: Store<nat>, key: string, t: int, now: int)
    requires t <= now < t + FAILED_TTL_MS
    ensures Attempts(RecordFailure(s, key, t), key, now) == Attempts(s, key, t) + 1
  {
  }

  /** Failures less than 300 s apart add up: k of them raise the count by k,
      as long as it is read before the last one expires. */
  lemma {:induction false} FailuresAccumulate(s: Store<nat>, key: string, times: seq<int>, now: int)
    requires |times| > 0 && WithinTtl(times)
    requires times[|times| - 1] <= now < times[|times| - 1] + FAILED_TTL_MS
    ensures Attempts(FailAt(s, key, times), key, now) == Attempts(s, key, times[0]) + |times|
    decreases |times|
  {
    var n := |times|;
    var prefix := times[..n - 1];
    RecordFailureLive(FailAt(s, key, prefix), key, times[n - 1], now);
    if n > 1 {
      assert WithinTtl(prefix);
      FailuresAccumulate(s, key, prefix, times[n - 1]);
    }
  }

  /** From a clear state, the captcha is first required after the third of a
      run of failures and stays required for every further one; the hint is
      `max(0, 5 - k)` after k failures and counts may grow past 5. */
  lemma CaptchaFromThirdFailure(s: Store<nat>, key: string, times: seq<int>, now: int)
    requires |times| > 0 && WithinTtl(times)
    requires Attempts(s, key, times[0]) == 0
    requires times[|times| - 1] <= now < times[|times| - 1] + FAILED_TTL_MS
    ensures Attempts(FailAt(s, key, times), key, now) == |times|
    ensures NeedsCaptcha(Attempts(FailAt(s, key, times), key, now)) <==> |times| >= 3
    ensures Remaining(Attempts(FailAt(s, key, times), key, now)) == if |times| >= 5 then 0 else 5 - |times|
  {
    FailuresAccumulate(s, key, times, now);
  }

  /** A further failure never lowers the live count, so once a captcha is
      required it stays required until a reset or expiry. */
  lemma FailureKeepsCaptcha(s: Store<nat>, key: string, t: int, now: int)
    requires t <= now < t + FAILED_TTL_MS
    requires NeedsCaptcha(Attempts(s, key, t))
    ensures Attempts(RecordFailure(s, key, t), key, now) > Attempts(s, key, t)
    ensures NeedsCaptcha(Attempts(RecordFailure(s, key, t), key, now))
  {
  }

  /** The count of a failure is gone 300 s after the most recent failure. */
  lemma FailureExpires(s: Store<nat>, key: string, t: int, now: int)
    requires now >= t + FAILED_TTL_MS
    ensures Attempts(RecordFailure(s, key, t), key, now) == 0
  {
  }

  /** After a reset the captcha is no longer required and the hint is 5. */
  lemma ResetClears(s: Store<nat>, ip: string, email: string, now: int)
    ensures Attempts(Del(s, FailedKey(ip, email)), FailedKey(ip, email), now) == 0
    ensures !NeedsCaptcha(Attempts(Del(s, FailedKey(ip, email)), FailedKey(ip, email), now))
    ensures Remaining(Attempts(Del(s, FailedKey(ip, email)), FailedKey(ip, email), now)) == 5
  {
  }

  /** Two different (ip, email) pairs that share one counter. */
  lemma PairsCanShareCounter()
    ensures ("10.0.0.1_a", "b@c.d") != ("10.0.0.1", "a_b@c.d")
    ensures FailedKey("10.0.0.1_a", "b@c.d") == FailedKey("10.0.0.1", "a_b@c.d")
  {
  }

  // ---------------------------------------------------------------------
  // authLimiter: 5 counted requests per client per 60 s window
  // ---------------------------------------------------------------------

  const WINDOW_MS: nat := 60_000
  const MAX_REQUESTS: nat := 5

  /** A client's window: when it ends and how many requests it has counted. */
  datatype Window = Window(resetAt: int, hits: nat)

  /** Counting one request: a new window starts when the client has none or
      the last one has ended. */
  function HitWindow(w: Option<Window>, now: int): (w': Window)
    ensures w'.hits >= 1 && now < w'.resetAt
    ensures w.Some? && now < w.value.resetAt ==> w' == Window(w.value.resetAt, w.value.hits + 1)
    ensures (w.None? || now >= w.value.resetAt) ==> w' == Window(now + WINDOW_MS, 1)
  {
    if w.None? || now >= w.value.resetAt then Window(now + WINDOW_MS, 1)
    else Window(w.value.resetAt, w.value.hits + 1)
  }

  /** A request is let through while its window has counted at most 5. */
  predicate Admitted(w: Window) {
    w.hits <= MAX_REQUESTS
  }

  /** How many of the requests at `times` are let through, none succeeding. */
  function AdmittedCount(w: Option<Window>, times: seq<int>): nat
    decreases |times|
  {
    if times == [] then 0
    else
      var w' := HitWindow(w, times[0]);
      (if Admitted(w') then 1 else 0) + AdmittedCount(Some(w'), times[1..])
  }

  lemma {:induction false} AdmittedWithinWindow(w: Window, times: seq<int>)
    requires forall i :: 0 <= i < |times| ==> times[i] < w.resetAt
    ensures AdmittedCount(Some(w), times) <= if w.hits >= MAX_REQUESTS then 0 else MAX_REQUESTS - w.hits
    decreases |times|
  {
    if times != [] {
      var w' := HitWindow(Some(w), times[0]);
      assert w' == Window(w.resetAt, w.hits + 1);
      AdmittedWithinWindow(w', times[1..]);
    }
  }

  /** Requests that all fall in the window opened by the first one: at most 5
      are let through, whatever their number. */
  lemma AtMostFivePerWindow(w: Option<Window>, times: seq<int>)
    requires |times| > 0
    requires w.None? || times[0] >= w.value.resetAt
    requires forall i :: 0 <= i < |times| ==> times[i] < times[0] + WINDOW_MS
    ensures AdmittedCount(w, times) <= MAX_REQUESTS
  {
    var w' := HitWindow(w, times[0]);
    AdmittedWithinWindow(w', times[1..]);
  }

  /** The windows after a response with `status`: `skipSuccessfulRequests`
      takes a request that ended below 400 back out of the count. */
  function Settled(windows: map<string, Window>, client: string, status: int): (r: map<string, Window>)
    ensures r.Keys == windows.Keys
    ensures forall k :: k in r && k != client ==> r[k] == windows[k]
    ensures client in windows ==> r[client].resetAt == windows[client].resetAt
    ensures client in windows && status >= 400 ==> r[client] == windows[client]
    ensures client in windows && status < 400 && windows[client].hits > 0 ==> r[client].hits + 1 == windows[client].hits
  {
    if status < 400 && client in windows && windows[client].hits > 0 then
      windows[client := Window(windows[client].resetAt, windows[client].hits - 1)]
    else windows
  }

  /** A request that ends successfully inside a live window leaves the window
      as it found it: it is not counted. */
  lemma SuccessNotCounted(windows: map<string, Window>, client: string, now: int, status: int)
    requires client in windows && now < windows[client].resetAt
    requires status < 400
    ensures Settled(windows[client := HitWindow(Some(windows[client]), now)], client, status) == windows
  {
  }

  /** A failed request inside a live window stays counted. */
  lemma FailureCounted(windows: map<string, Window>, client: string, now: int, status: int)
    requires client in windows && now < windows[client].resetAt
    requires status >= 400
    ensures Settled(windows[client := HitWindow(Some(windows[client]), now)], client, status)[client].hits == windows[client].hits + 1
  {
  }

  /** `authLimiter`, one instance shared by `/register`, `/login` and
      `/check-email`: one window per client key. */
  class AuthLimiter {
    var windows: map<string, Window>

    constructor ()
      ensures windows == map[]
    {
      windows := map[];
    }

    /** Counts the request and says whether it may proceed. */
    method Hit(client: string, now: int) returns (admitted: bool)
      modifies this
      ensures windows == old(windows)[client := HitWindow(if client in old(windows) then Some(old(windows)[client]) else None, now)]
      ensures admitted <==> windows[client].hits <= MAX_REQUESTS
    {
      var w := if client in windows then Some(windows[client]) else None;
      var w' := HitWindow(w, now);
      windows := windows[client := w'];
      admitted := w'.hits <= MAX_REQUESTS;
    }

    /** After the response: a successful one (status below 400) is taken back
      out of its window's count. */
    method Settle(client: string, status: int)
      modifies this
      ensures windows == Settled(old(windows), client, status)
    {
      if status < 400 && client in windows && windows[client].hits > 0 {
        var w := windows[client];
        windows := windows[client := Window(w.resetAt, w.hits - 1)];
      }
    }
  }
}
