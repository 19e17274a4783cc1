/**
  * Value types and the JavaScript string and number semantics that the
  * application's rules rely on: truthiness of optional strings, `trim`,
  * `toLowerCase`, `includes`, `String(n)` and `parseInt(s)`.
  */
module Common {

  datatype Option<+T> = None | Some(value: T)

  /** Reading a key from a table written as an object literal: the value of
      the first entry with that key, if there is one. */
  function TableLookup<V>(table: seq<(string, V)>, key: string): (r: Option<V>)
    ensures r.Some? <==> exists i :: 0 <= i < |table| && table[i].0 == key
    ensures r.Some? ==> exists i :: 0 <= i < |table| && table[i] == (key, r.value)
  {
    if table == [] then None
    else if table[0].0 == key then Some(table[0].1)
    else
      var r := TableLookup(table[1..], key);
      assert forall i :: 1 <= i < |table| ==> table[i] == table[1..][i - 1];
      r
  }

  /** A JavaScript value that is a string or absent (`undefined`/`null`) is
      truthy exactly when it is a non-empty string. */
  predicate Truthy(o: Option<string>) {
    o.Some? && o.value != ""
  }

  // ---------------------------------------------------------------------
  // Whitespace and trim
  // ---------------------------------------------------------------------

  /** The WhiteSpace and LineTerminator code points of ECMAScript, which is
      the set `String.prototype.trim` strips and `\s` matches. */
  predicate IsWhitespace(c: char) {
    || c == ' ' || c == '\t' || c == '\n' || c == '\U{B}' || c == '\U{C}' || c == '\r'
    || c == '\U{A0}' || c == '\U{1680}' || ('\U{2000}' <= c <= '\U{200A}')
    || c == '\U{2028}' || c == '\U{2029}' || c == '\U{202F}' || c == '\U{205F}'
    || c == '\U{3000}' || c == '\U{FEFF}'
  }

  predicate AllWhitespace(s: string) {
    forall i :: 0 <= i < |s| ==> IsWhitespace(s[i])
  }

  /** Drops the leading whitespace. */
  function TrimStart(s: string): (r: string)
    ensures |r| <= |s| && r == s[|s| - |r|..]
    ensures r == [] || !IsWhitespace(r[0])
    ensures forall i :: 0 <= i < |s| - |r| ==> IsWhitespace(s[i])
  {
    if s != [] && IsWhitespace(s[0]) then
      var r := TrimStart(s[1..]);
      assert forall i :: 1 <= i < |s| ==> s[i] == s[1..][i - 1];
      r
    else s
  }

  /** Drops the trailing whitespace. */
  function TrimEnd(s: string): (r: string)
    ensures |r| <= |s| && r == s[..|r|]
    ensures r == [] || !IsWhitespace(r[|r| - 1])
    ensures forall i :: |r| <= i < |s| ==> IsWhitespace(s[i])
  {
    if s != [] && IsWhitespace(s[|s| - 1]) then
      var r := TrimEnd(s[..|s| - 1]);
      assert forall i :: 0 <= i < |s| - 1 ==> s[i] == s[..|s| - 1][i];
      r
    else s
  }

  /** `r` occurs in `s` at index `a`, and everything of `s` before and after
      that occurrence is whitespace. */
  predicate TrimmedAt(s: string, r: string, a: int) {
    InfixAt(s, r, a) && AllWhitespace(s[..a]) && AllWhitespace(s[a + |r|..])
  }

  /** `s.trim()`: the longest infix of `s` that neither starts nor ends with
      whitespace, reached by dropping only whitespace. */
  function Trim(s: string): (r: string)
    ensures |r| <= |s|
    ensures exists a :: 0 <= a <= |s| - |r| && TrimmedAt(s, r, a)
    ensures r == [] || (!IsWhitespace(r[0]) && !IsWhitespace(r[|r| - 1]))
  {
    TrimStartEndAt(s);
    TrimEnd(TrimStart(s))
  }

  /** Trimming the start and then the end leaves a slice of `s` at the
      length of the dropped prefix, with only whitespace around it. */
  lemma TrimStartEndAt(s: string)
    ensures TrimmedAt(s, TrimEnd(TrimStart(s)), |s| - |TrimStart(s)|)
  {
    var t := TrimStart(s);
    var r := TrimEnd(t);
    var a := |s| - |t|;
    TrimStartDropsWhitespace(s);
    TrimEndDropsWhitespace(t);
    assert t == s[a..];
    assert r == t[..|r|];
    assert s[a..a + |r|] == r;
    assert s[a + |r|..] == t[|r|..];
    assert InfixAt(s, r, a);
  }

  lemma TrimStartDropsWhitespace(s: string)
    ensures AllWhitespace(s[..|s| - |TrimStart(s)|])
  {
    var a := |s| - |TrimStart(s)|;
    forall i | 0 <= i < a ensures IsWhitespace(s[..a][i]) {
      assert s[..a][i] == s[i];
    }
  }

  lemma TrimEndDropsWhitespace(t: string)
    ensures AllWhitespace(t[|TrimEnd(t)|..])
  {
    var b := |TrimEnd(t)|;
    forall i | 0 <= i < |t| - b ensures IsWhitespace(t[b..][i]) {
      assert t[b..][i] == t[b + i];
    }
  }

  /** `!s.trim()`: the string is empty or made of whitespace only. */
  predicate IsBlank(s: string) {
    Trim(s) == ""
  }

  lemma TrimStartOfNonWhitespace(s: string)
    requires s == [] || !IsWhitespace(s[0])
    ensures TrimStart(s) == s
  {
  }

  lemma TrimEndOfNonWhitespace(s: string)
    requires s == [] || !IsWhitespace(s[|s| - 1])
    ensures TrimEnd(s) == s
  {
  }

  lemma TrimStartAllWhitespace(s: string)
    ensures TrimStart(s) == [] <==> AllWhitespace(s)
  {
    var r := TrimStart(s);
    if r != [] {
      assert r[0] == s[|s| - |r|];
    }
  }

  lemma TrimEndOfNonBlank(t: string)
    requires t == [] || !IsWhitespace(t[0])
    ensures TrimEnd(t) == [] <==> t == []
  {
  }

  /** A string is blank after trimming exactly when it consists of whitespace. */
  lemma BlankIffAllWhitespace(s: string)
    ensures IsBlank(s) <==> AllWhitespace(s)
  {
    TrimStartAllWhitespace(s);
    TrimEndOfNonBlank(TrimStart(s));
  }

  lemma TrimOfNoWhitespaceEnds(s: string)
    requires s == [] || (!IsWhitespace(s[0]) && !IsWhitespace(s[|s| - 1]))
    ensures Trim(s) == s
  {
  }

  /** Trimming twice is trimming once. */
  lemma TrimIdempotent(s: string)
    ensures Trim(Trim(s)) == Trim(s)
  {
    TrimOfNoWhitespaceEnds(Trim(s));
  }

  // ---------------------------------------------------------------------
  // Case and substrings
  // ---------------------------------------------------------------------

  /** `toLowerCase` on one character, for Basic Latin, Latin-1 and Cyrillic. */
  function LowerChar(c: char): char {
    if 'A' <= c <= 'Z' then (c as int + 32) as char
    else if '\U{C0}' <= c <= '\U{DE}' && c != '\U{D7}' then (c as int + 32) as char
    else if '\U{400}' <= c <= '\U{40F}' then (c as int + 80) as char
    else if '\U{410}' <= c <= '\U{42F}' then (c as int + 32) as char
    else c
  }

  /** `s.toLowerCase()`, character by character. */
  function ToLower(s: string): (r: string)
    ensures |r| == |s|
    ensures forall i :: 0 <= i < |s| ==> r[i] == LowerChar(s[i])
  {
    seq(|s|, i requires 0 <= i < |s| => LowerChar(s[i]))
  }

  /** `sub` occurs in `s` starting at index `a`. */
  predicate InfixAt(s: string, sub: string, a: int) {
    0 <= a <= |s| - |sub| && s[a..a + |sub|] == sub
  }

  /** `s.includes(sub)`: `sub` occurs in `s` as a contiguous infix. */
  predicate Includes(s: string, sub: string) {
    exists i :: 0 <= i <= |s| - |sub| && InfixAt(s, sub, i)
  }

  lemma IncludesSelf(s: string)
    ensures Includes(s, s) && Includes(s, "")
  {
    assert InfixAt(s, s, 0);
    assert InfixAt(s, "", 0);
  }

  /** Searching for a one-character string is membership of that character. */
  lemma IncludesChar(s: string, c: char)
    ensures Includes(s, [c]) <==> c in s
  {
    if c in s {
      var i :| 0 <= i < |s| && s[i] == c;
      assert InfixAt(s, [c], i);
    } else {
      forall i | 0 <= i <= |s| - 1 ensures !InfixAt(s, [c], i) {
        assert s[i..i + 1][0] == s[i];
      }
    }
  }

  /** A string lacking one of the characters of `sub` does not contain it. */
  lemma MissingCharNotIncluded(s: string, sub: string, k: int)
    requires 0 <= k < |sub| && sub[k] !in s
    ensures !Includes(s, sub)
  {
    forall i | 0 <= i <= |s| - |sub| ensures !InfixAt(s, sub, i) {
      assert s[i..i + |sub|][k] == s[i + k];
    }
  }

  // ---------------------------------------------------------------------
  // Decimal numbers: `String(n)` and `parseInt(s)`
  // ---------------------------------------------------------------------

  predicate IsDigit(c: char) {
    '0' <= c <= '9'
  }

  predicate AllDigits(s: string) {
    forall i :: 0 <= i < |s| ==> IsDigit(s[i])
  }

  function DigitChar(d: nat): (c: char)
    requires d < 10
    ensures IsDigit(c)
  {
    (48 + d) as char
  }

  function DigitValue(c: char): (d: nat)
    requires IsDigit(c)
    ensures d < 10 && DigitChar(d) == c
  {
    c as int - 48
  }

  /** The value of a string of decimal digits. */
  function DigitsValue(s: string): nat
    requires AllDigits(s)
  {
    if s == [] then 0 else 10 * DigitsValue(s[..|s| - 1]) + DigitValue(s[|s| - 1])
  }

  /** `String(n)` for a non-negative integer: its decimal digits, no leading zero. */
  function NatToString(n: nat): (r: string)
    ensures |r| > 0 && AllDigits(r)
    ensures r[0] == '0' ==> n == 0
    decreases n
  {
    if n < 10 then [DigitChar(n)] else NatToString(n / 10) + [DigitChar(n % 10)]
  }

  /** Reading the rendered digits back gives the number. */
  lemma {:induction false} NatToStringValue(n: nat)
    ensures DigitsValue(NatToString(n)) == n
    decreases n
  {
    if n >= 10 {
      NatToStringValue(n / 10);
      var s := NatToString(n);
      assert s[..|s| - 1] == NatToString(n / 10);
    }
  }

  lemma NatToStringInjective(m: nat, n: nat)
    requires NatToString(m) == NatToString(n)
    ensures m == n
  {
    NatToStringValue(m);
    NatToStringValue(n);
  }

  /** `String(i)` for any integer: a minus sign before the digits of |i|. */
  function IntToString(i: int): (r: string)
    ensures |r| > 0
    ensures r[0] == '-' <==> i < 0
  {
    if i < 0 then "-" + NatToString(-i) else NatToString(i)
  }

  /** The longest prefix of decimal digits. */
  function DigitPrefix(s: string): (r: string)
    ensures |r| <= |s| && r == s[..|r|] && AllDigits(r)
    ensures |r| == |s| || !IsDigit(s[|r|])
  {
    if s != [] && IsDigit(s[0]) then
      var r := DigitPrefix(s[1..]);
      assert [s[0]] + r == s[..|r| + 1];
      [s[0]] + r
    else ""
  }

  /** `parseInt(s)` in base 10: leading whitespace is skipped, one optional
      sign is read, then the longest run of digits; `None` stands for `NaN`
      (no digit after the sign). */
  function ParseInt(s: string): Option<int> {
    var t := TrimStart(s);
    var negative := |t| > 0 && t[0] == '-';
    var body := if |t| > 0 && (t[0] == '-' || t[0] == '+') then t[1..] else t;
    var digits := DigitPrefix(body);
    if digits == "" then None
    else if negative then Some(-(DigitsValue(digits) as int))
    else Some(DigitsValue(digits) as int)
  }

  /** A run of digits followed by a non-digit is read up to the non-digit. */
  lemma {:induction false} DigitPrefixStopsAtNonDigit(d: string, t: string)
    requires AllDigits(d)
    requires t == [] || !IsDigit(t[0])
    ensures DigitPrefix(d + t) == d
    decreases |d|
  {
    if d == [] {
      assert d + t == t;
    } else {
      assert (d + t)[1..] == d[1..] + t;
      DigitPrefixStopsAtNonDigit(d[1..], t);
      assert [d[0]] + d[1..] == d;
    }
  }

  /** A non-empty run of digits is read whole, as its own value. */
  lemma ParseIntOfDigits(s: string)
    requires |s| > 0 && AllDigits(s)
    ensures ParseInt(s) == Some(DigitsValue(s) as int)
  {
    assert s + "" == s;
    ParseIntOfDigitsThen(s, "");
  }

  /** Digits followed by text that does not start with a digit are read
      up to that text. */
  lemma ParseIntOfDigitsThen(d: string, t: string)
    requires |d| > 0 && AllDigits(d)
    requires t == [] || !IsDigit(t[0])
    ensures ParseInt(d + t) == Some(DigitsValue(d) as int)
  {
    var s := d + t;
    assert s[0] == d[0] && IsDigit(s[0]);
    ParseIntUnsigned(s);
    DigitPrefixStopsAtNonDigit(d, t);
  }

  /** Text that starts with neither whitespace, a sign nor a digit is `NaN`. */
  lemma ParseIntOfNonNumber(s: string)
    requires s != [] && !IsWhitespace(s[0]) && !IsDigit(s[0]) && s[0] != '-' && s[0] != '+'
    ensures ParseInt(s) == None
  {
    ParseIntUnsigned(s);
  }

  /** Without leading whitespace or a sign, `parseInt` reads the leading digits. */
  lemma ParseIntUnsigned(s: string)
    requires s != [] && !IsWhitespace(s[0]) && s[0] != '-' && s[0] != '+'
    ensures DigitPrefix(s) == "" ==> ParseInt(s) == None
    ensures DigitPrefix(s) != "" ==> ParseInt(s) == Some(DigitsValue(DigitPrefix(s)) as int)
  {
    TrimStartOfNonWhitespace(s);
  }

  /** `parseInt(String(n)) === n`. */
  lemma ParseIntOfNatToString(n: nat)
    ensures ParseInt(NatToString(n)) == Some(n)
  {
    ParseIntOfDigits(NatToString(n));
    NatToStringValue(n);
  }
}
