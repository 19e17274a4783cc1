/**
  * The single-use arithmetic captcha: a question `a op b` with operands in
  * 1..10, whose answer is kept as a decimal string in an expiring cache for
  * 600 s under a generated id. Verifying an id consumes its entry, whether or
  * not the answer was right.
  *
  * The random operands, operator and id suffix, and the clock, are arguments.
  */
module Captcha {
  import opened Common
  import opened TtlCache

  const CAPTCHA_TTL_MS: nat := 600_000

  datatype Op = Plus | Minus | Times

  /** The operator as it is shown. */
  function Symbol(op: Op): char {
    match op
    case Plus => '+'
    case Minus => '-'
    case Times => '*'
  }

  /** The operator shown as `c`, if any. */
  function SymbolOp(c: char): (r: Option<Op>)
    ensures r.Some? ==> Symbol(r.value) == c
  {
    if c == '+' then Some(Plus)
    else if c == '-' then Some(Minus)
    else if c == '*' then Some(Times)
    else None
  }

  lemma SymbolOpInverse(op: Op)
    ensures SymbolOp(Symbol(op)) == Some(op)
  {
  }

  /** The value of `a op b`. */
  function Apply(op: Op, a: int, b: int): int {
    match op
    case Plus => a + b
    case Minus => a - b
    case Times => a * b
  }

  /** `Math.floor(Math.random() * 10) + 1` lies in 1..10. */
  predicate ValidOperand(n: nat) {
    1 <= n <= 10
  }

  /** Every answer lies in -9..100. */
  lemma AnswerRange(a: nat, op: Op, b: nat)
    requires ValidOperand(a) && ValidOperand(b)
    ensures -9 <= Apply(op, a, b) <= 100
  {
    if op == Times {
      assert a * b <= 10 * b <= 100;
    }
  }

  /** `${num1} ${operation} ${num2}`. */
  function Question(a: nat, op: Op, b: nat): string {
    NatToString(a) + " " + [Symbol(op)] + " " + NatToString(b)
  }

  const TEXT_PREFIX: string := "Решите: "
  const TEXT_SUFFIX: string := " = ?"

  /** `Решите: ${num1} ${operation} ${num2} = ?`. */
  function Text(a: nat, op: Op, b: nat): string {
    TEXT_PREFIX + Question(a, op, b) + TEXT_SUFFIX
  }

  /** Reads a question back: digits, a blank, an operator, a blank, digits. */
  function ParseQuestion(q: string): Option<(nat, Op, nat)> {
    var d1 := DigitPrefix(q);
    var rest := q[|d1|..];
    if d1 == "" || |rest| < 4 || rest[0] != ' ' || rest[2] != ' ' || SymbolOp(rest[1]).None? then None
    else
      var d2 := rest[3..];
      if !AllDigits(d2) then None
      else Some((DigitsValue(d1), SymbolOp(rest[1]).value, DigitsValue(d2)))
  }

  /** Digits, a blank, an operator symbol, a blank and digits are read as
      the two values and the operator. */
  lemma ParseQuestionOfParts(sa: string, c: char, sb: string)
    requires |sa| > 0 && AllDigits(sa) && |sb| > 0 && AllDigits(sb) && SymbolOp(c).Some?
    ensures ParseQuestion(sa + " " + [c] + " " + sb) == Some((DigitsValue(sa), SymbolOp(c).value, DigitsValue(sb)))
  {
    var rest := " " + [c] + " " + sb;
    var q := sa + rest;
    assert sa + " " + [c] + " " + sb == q;
    DigitPrefixStopsAtNonDigit(sa, rest);
    assert q[|sa|..] == rest;
    assert rest[0] == ' ' && rest[1] == c && rest[2] == ' ' && rest[3..] == sb;
  }

  /** The question determines the operands and the operator. */
  lemma ParseQuestionRoundTrip(a: nat, op: Op, b: nat)
    ensures ParseQuestion(Question(a, op, b)) == Some((a, op, b))
  {
    SymbolOpInverse(op);
    ParseQuestionOfParts(NatToString(a), Symbol(op), NatToString(b));
    NatToStringValue(a);
    NatToStringValue(b);
  }

  /** `question` and `text` show the same operands and operator: reading the
      text between its fixed prefix and suffix gives them back. */
  lemma TextShowsQuestion(a: nat, op: Op, b: nat)
    ensures ParseQuestion(Text(a, op, b)[|TEXT_PREFIX|..|Text(a, op, b)| - |TEXT_SUFFIX|]) == Some((a, op, b))
  {
    var q := Question(a, op, b);
    assert (TEXT_PREFIX + q + TEXT_SUFFIX)[|TEXT_PREFIX|..|TEXT_PREFIX| + |q|] == q;
    ParseQuestionRoundTrip(a, op, b);
  }

  /** `Math.random().toString(36).substr(2, 9)`: at most nine base-36 digits. */
  predicate ValidSuffix(random: string) {
    |random| <= 9 && forall i :: 0 <= i < |random| ==> IsDigit(random[i]) || 'a' <= random[i] <= 'z'
  }

  /** `captcha_${Date.now()}_${random}`. */
  function CaptchaId(now: nat, random: string): (r: string)
    ensures Truthy(Some(r))
  {
    "captcha_" + NatToString(now) + "_" + random
  }

  /** A generated id has nothing for `trim` to remove, so it survives the
      trimming of the login route's `captchaId` field. */
  lemma CaptchaIdTrimmed(now: nat, random: string)
    requires ValidSuffix(random)
    ensures Trim(CaptchaId(now, random)) == CaptchaId(now, random)
  {
    var id := CaptchaId(now, random);
    assert id[0] == 'c';
    if random != [] {
      assert id[|id| - 1] == random[|random| - 1];
    }
    TrimOfNoWhitespaceEnds(id);
  }

  /** What `generateCaptcha` returns. */
  datatype Challenge = Challenge(id: string, question: string, text: string)

  /** The stored answer: `answer.toString()`. */
  function AnswerString(a: nat, op: Op, b: nat): string {
    IntToString(Apply(op, a, b))
  }

  /** The stored answer is a non-empty string with nothing for `trim` to
      remove, so it is also what a correct reply trims to. */
  lemma AnswerStringTrimmed(a: nat, op: Op, b: nat)
    ensures AnswerString(a, op, b) != ""
    ensures Trim(AnswerString(a, op, b)) == AnswerString(a, op, b)
  {
    var v := Apply(op, a, b);
    var r := IntToString(v);
    var digits := NatToString(if v < 0 then -v else v);
    assert r[|r| - 1] == digits[|digits| - 1];
    TrimOfNoWhitespaceEnds(r);
  }

  /** The cache after issuing `a op b` under `id` at `now`. */
  function Issue(s: Store<string>, id: string, a: nat, op: Op, b: nat, now: int): Store<string> {
    Set(s, id, AnswerString(a, op, b), CAPTCHA_TTL_MS, now)
  }

  /** `verifyCaptcha`: the verdict and the cache afterwards. */
  function Check(s: Store<string>, id: Option<string>, answer: Option<string>, now: int): (bool, Store<string>) {
    if !Truthy(id) || !Truthy(answer) then (false, s)
    else
      match Get(s, id.value, now)
      case None => (false, s)
      case Some(stored) =>
        if stored == "" then (false, s)
        else (stored == Trim(answer.value), Del(s, id.value))
  }

  /** The module-level `captchaCache` with the two functions over it. */
  class CaptchaStore {
    var cache: Store<string>

    constructor ()
      ensures cache == map[]
    {
      cache := map[];
    }

    /** `generateCaptcha`, with the random choices and the clock as arguments. */
    method GenerateCaptcha(num1: nat, operation: Op, num2: nat, random: string, now: nat) returns (c: Challenge)
      requires ValidOperand(num1) && ValidOperand(num2) && ValidSuffix(random)
      requires CaptchaId(now, random) !in cache
      modifies this
      ensures c == Challenge(CaptchaId(now, random), Question(num1, operation, num2), Text(num1, operation, num2))
      ensures cache == Issue(old(cache), c.id, num1, operation, num2, now)
    {
      var answer: int;
      match operation {
        case Plus => answer := num1 + num2;
        case Minus => answer := num1 - num2;
        case Times => answer := num1 * num2;
      }
      assert answer == Apply(operation, num1, num2);
      var question := Question(num1, operation, num2);
      var captchaId := CaptchaId(now, random);
      cache := Set(cache, captchaId, IntToString(answer), CAPTCHA_TTL_MS, now);
      c := Challenge(captchaId, question, TEXT_PREFIX + question + TEXT_SUFFIX);
    }

    /** `verifyCaptcha`. */
    method VerifyCaptcha(captchaId: Option<string>, userAnswer: Option<string>, now: int) returns (ok: bool)
      modifies this
      ensures (ok, cache) == Check(old(cache), captchaId, userAnswer, now)
    {
      if !Truthy(captchaId) || !Truthy(userAnswer) {
        return false;
      }
      var correctAnswer := Get(cache, captchaId.value, now);
      if correctAnswer.None? || correctAnswer.value == "" {
        return false;
      }
      cache := Del(cache, captchaId.value);
      ok := correctAnswer.value == Trim(userAnswer.value);
    }
  }

  // ---------------------------------------------------------------------
  // Properties of verification
  // ---------------------------------------------------------------------

  /** A falsy id or answer is refused without touching the cache. */
  lemma FalsyRefused(s: Store<string>, id: Option<string>, answer: Option<string>, now: int)
    requires !Truthy(id) || !Truthy(answer)
    ensures Check(s, id, answer, now) == (false, s)
  {
  }

  /** An id that is not live (never issued, consumed or expired) is refused. */
  lemma UnknownRefused(s: Store<string>, id: string, answer: Option<string>, now: int)
    requires Get(s, id, now) == None
    ensures Check(s, Some(id), answer, now) == (false, s)
  {
  }

  /** For a live answer, the verdict is exact equality with the trimmed answer,
      and the entry is gone afterwards whatever the verdict. */
  lemma VerdictOfLiveEntry(s: Store<string>, id: string, answer: string, now: int, later: int)
    requires id != "" && answer != ""
    requires Get(s, id, now).Some? && Get(s, id, now).value != ""
    ensures Check(s, Some(id), Some(answer), now).0 <==> Get(s, id, now).value == Trim(answer)
    ensures Get(Check(s, Some(id), Some(answer), now).1, id, later) == None
  {
  }

  /** Single use: after one verification with a truthy id and answer, a second
      one of the same id at the same time or later is refused. */
  lemma SecondVerifyFails(s: Store<string>, id: string, answer1: string, answer2: Option<string>, now: int, later: int)
    requires id != "" && answer1 != "" && now <= later
    ensures !Check(Check(s, Some(id), Some(answer1), now).1, Some(id), answer2, later).0
  {
    var s' := Check(s, Some(id), Some(answer1), now).1;
    if Get(s, id, now) == None {
      AbsentStaysAbsent(s, id, now, later);
    }
  }

  /** Issuing a captcha and then answering with its stored answer before the
      600 s are up is accepted. */
  lemma IssueThenVerify(s: Store<string>, id: string, a: nat, op: Op, b: nat, t: int, now: int)
    requires id != ""
    requires t <= now < t + CAPTCHA_TTL_MS
    ensures Check(Issue(s, id, a, op, b, t), Some(id), Some(AnswerString(a, op, b)), now).0
  {
    AnswerStringTrimmed(a, op, b);
    assert Get(Issue(s, id, a, op, b, t), id, now) == Some(AnswerString(a, op, b));
  }

  /** Past its 600 s the captcha is refused even with the right answer. */
  lemma ExpiredRefused(s: Store<string>, id: string, a: nat, op: Op, b: nat, t: int, now: int)
    requires now >= t + CAPTCHA_TTL_MS
    ensures !Check(Issue(s, id, a, op, b, t), Some(id), Some(AnswerString(a, op, b)), now).0
  {
  }

  /** `3 + 4` is stored as "7". */
  lemma ThreePlusFourStored(s: Store<string>, id: string, t: int)
    ensures AnswerString(3, Plus, 4) == "7"
    ensures Get(Issue(s, id, 3, Plus, 4, t), id, t) == Some("7")
  {
    assert NatToString(7) == "7";
  }

  /** The answer " 7 " to `3 + 4` is accepted once, the padding being
      trimmed; "7" right after it is refused. */
  lemma ThreePlusFourOnce(s: Store<string>, id: string, t: int)
    requires id != ""
    ensures Check(Issue(s, id, 3, Plus, 4, t), Some(id), Some(" 7 "), t).0
    ensures !Check(Check(Issue(s, id, 3, Plus, 4, t), Some(id), Some(" 7 "), t).1, Some(id), Some("7"), t).0
  {
    ThreePlusFourStored(s, id, t);
    TrimSevenWithBlanks();
    VerdictOfLiveEntry(Issue(s, id, 3, Plus, 4, t), id, " 7 ", t, t);
    SecondVerifyFails(Issue(s, id, 3, Plus, 4, t), id, " 7 ", Some("7"), t, t);
  }

  /** Answers are compared as strings: "07" and "+7" do not match "7". */
  lemma ThreePlusFourExactString(s: Store<string>, id: string, t: int)
    requires id != ""
    ensures !Check(Issue(s, id, 3, Plus, 4, t), Some(id), Some("07"), t).0
    ensures !Check(Issue(s, id, 3, Plus, 4, t), Some(id), Some("+7"), t).0
  {
    ThreePlusFourStored(s, id, t);
    OtherUnpaddedAnswerRefused(Issue(s, id, 3, Plus, 4, t), id, "07", t);
    OtherUnpaddedAnswerRefused(Issue(s, id, 3, Plus, 4, t), id, "+7", t);
  }

  /** An answer with no whitespace at its ends is compared as it is, so one
      that differs from the stored text is refused. */
  lemma OtherUnpaddedAnswerRefused(st: Store<string>, id: string, answer: string, t: int)
    requires id != "" && answer != ""
    requires !IsWhitespace(answer[0]) && !IsWhitespace(answer[|answer| - 1])
    requires Get(st, id, t).Some? && Get(st, id, t).value != "" && Get(st, id, t).value != answer
    ensures !Check(st, Some(id), Some(answer), t).0
  {
    TrimOfNoWhitespaceEnds(answer);
    VerdictOfLiveEntry(st, id, answer, t, t);
  }

  lemma TrimSevenWithBlanks()
    ensures Trim(" 7 ") == "7"
  {
    assert IsWhitespace(" 7 "[0]) && " 7 "[1..] == "7 ";
    TrimStartOfNonWhitespace("7 ");
    assert TrimStart(" 7 ") == "7 ";
    assert IsWhitespace("7 "[1]) && "7 "[..1] == "7";
    TrimEndOfNonWhitespace("7");
    assert TrimEnd("7 ") == "7";
  }
}
