/** The parts of the C library the plugin relies on (strncpy/strncmp, strcasecmp,
    atoi), on C strings modelled by the characters before their NUL terminator. */
module CStrings {

  /** The first `n` characters of `s`, or all of `s` when it is shorter: what
      `strncpy(dst, s, n)` keeps and what `strncmp(_, _, n)` looks at. */
  function Prefix(s: string, n: nat): (p: string)
    ensures |p| <= n && p <= s
    ensures |s| <= n ==> p == s
    ensures |s| > n ==> |p| == n
  {
    if |s| <= n then s else s[..n]
  }

  /** `strncmp(a, b, n) == 0`: the two strings agree on their first `n` characters. */
  predicate StrnEq(a: string, b: string, n: nat) {
    Prefix(a, n) == Prefix(b, n)
  }

  /** A name copied by `strncpy(dst, name, n)` compares equal to `name` under
      `strncmp(dst, name, n)`, however long `name` is. */
  lemma CopyComparesEqual(name: string, n: nat)
    ensures StrnEq(Prefix(name, n), name, n)
  {
  }

  /** `tolower` in the C locale. */
  function ToLower(c: char): char {
    if 'A' <= c <= 'Z' then (c as int + 32) as char else c
  }

  function LowerString(s: string): string {
    seq(|s|, i requires 0 <= i < |s| => ToLower(s[i]))
  }

  /** `strcasecmp(a, b) == 0`. */
  predicate StrCaseEq(a: string, b: string) {
    LowerString(a) == LowerString(b)
  }

  /** `isspace` in the C locale: blank, tab, newline, vertical tab, form feed, return. */
  predicate IsSpace(c: char) {
    c == ' ' || 9 <= c as int <= 13
  }

  predicate IsDigit(c: char) {
    '0' <= c <= '9'
  }

  predicate AllDigits(s: string) {
    forall i | 0 <= i < |s| :: IsDigit(s[i])
  }

  /** `s` without its leading white space. */
  function SkipSpace(s: string): (t: string)
    ensures t == [] || !IsSpace(t[0])
    ensures |t| <= |s| && t == s[|s| - |t|..]
    ensures forall i | 0 <= i < |s| - |t| :: IsSpace(s[i])
  {
    if |s| > 0 && IsSpace(s[0]) then SkipSpace(s[1..]) else s
  }

  /** Length of the longest run of digits that starts `s`. */
  function DigitRun(s: string): (n: nat)
    ensures n <= |s| && AllDigits(s[..n])
    ensures n < |s| ==> !IsDigit(s[n])
  {
    if |s| > 0 && IsDigit(s[0]) then 1 + DigitRun(s[1..]) else 0
  }

  /** The number a string of decimal digits denotes. */
  function DigitsValue(d: string): nat
    requires AllDigits(d)
  {
    if d == [] then 0
    else DigitsValue(d[..|d| - 1]) * 10 + (d[|d| - 1] as int - '0' as int)
  }

  /** `atoi(s)`: leading white space, an optional sign, then as many decimal
      digits as follow; anything after them is ignored, and no digits give 0. */
  function Atoi(s: string): int {
    var t := SkipSpace(s);
    if |t| > 0 && (t[0] == '-' || t[0] == '+') then
      var v: int := DigitsValue(t[1..][..DigitRun(t[1..])]);
      if t[0] == '-' then -v else v
    else
      DigitsValue(t[..DigitRun(t)])
  }

  function Digit(d: nat): (c: char)
    requires d < 10
    ensures IsDigit(c)
  {
    ('0' as int + d) as char
  }

  /** The decimal rendering of `n`, without sign or leading zeros. */
  function Decimal(n: nat): (s: string)
    ensures |s| >= 1 && AllDigits(s)
  {
    if n < 10 then [Digit(n)] else Decimal(n / 10) + [Digit(n % 10)]
  }

  lemma {:induction false} DecimalValue(n: nat)
    ensures DigitsValue(Decimal(n)) == n
  {
    if n >= 10 {
      var s := Decimal(n);
      assert s[..|s| - 1] == Decimal(n / 10);
      DecimalValue(n / 10);
    }
  }

  lemma {:induction false} DigitRunOf(d: string, rest: string)
    requires AllDigits(d)
    requires rest == [] || !IsDigit(rest[0])
    ensures DigitRun(d + rest) == |d|
  {
    if d != [] {
      assert (d + rest)[1..] == d[1..] + rest;
      DigitRunOf(d[1..], rest);
    }
  }

  /** On a string that starts with a digit, `atoi` reads the digits that lead it. */
  lemma AtoiUnsigned(u: string)
    requires |u| > 0 && IsDigit(u[0])
    ensures Atoi(u) == DigitsValue(u[..DigitRun(u)])
    ensures Atoi("-" + u) == -(DigitsValue(u[..DigitRun(u)]) as int)
  {
    assert SkipSpace(u) == u;
    var t := "-" + u;
    assert t[1..] == u;
    assert SkipSpace(t) == t;
  }

  /** `atoi` reads back any decimal integer, with or without a minus sign, and
      stops at the first character that is not a digit. */
  lemma AtoiDecimal(n: nat, rest: string)
    requires rest == [] || !IsDigit(rest[0])
    ensures Atoi(Decimal(n) + rest) == n
    ensures Atoi("-" + Decimal(n) + rest) == -(n as int)
  {
    var d := Decimal(n);
    var u := d + rest;
    DigitRunOf(d, rest);
    assert u[..DigitRun(u)] == d;
    DecimalValue(n);
    assert DigitsValue(u[..DigitRun(u)]) == n;
    AtoiUnsigned(u);
    assert "-" + d + rest == "-" + u;
  }
}
