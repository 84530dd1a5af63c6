/** Go's strconv.FormatInt and strconv.ParseInt for base 10, as far as the model needs them:
    the decimal text of an int64, what text is read back as one, and why a decimal prefix
    followed by a separator can be split again in only one way. */
module Decimal {
  import opened Options

  const MAX_INT64 := 0x7fff_ffff_ffff_ffff
  const MIN_INT64 := -0x8000_0000_0000_0000

  predicate IsDigit(c: char) { '0' <= c <= '9' }

  predicate AllDigits(s: string) { forall i :: 0 <= i < |s| ==> IsDigit(s[i]) }

  function DigitValue(c: char): (v: nat)
    requires IsDigit(c)
    ensures v <= 9
  {
    c as int - '0' as int
  }

  function Digit(v: nat): (c: char)
    requires v <= 9
    ensures IsDigit(c) && DigitValue(c) == v
  {
    ('0' as int + v) as char
  }

  function Digits(n: nat): (s: string)
    ensures s != [] && AllDigits(s)
  {
    if n < 10 then [Digit(n)] else Digits(n / 10) + [Digit(n % 10)]
  }

  function ValueOf(s: string): nat
    requires AllDigits(s)
  {
    if s == [] then 0 else ValueOf(s[..|s| - 1]) * 10 + DigitValue(s[|s| - 1])
  }

  function FormatInt(n: int): string {
    if n < 0 then "-" + Digits(-n) else Digits(n)
  }

  /** Optional sign, at least one digit, and a value that fits 64 bits. */
  function ParseInt(s: string): Option<int> {
    var signed := s != [] && (s[0] == '-' || s[0] == '+');
    var body := if signed then s[1..] else s;
    if body == [] || !AllDigits(body) then None
    else
      var n := if signed && s[0] == '-' then -(ValueOf(body) as int) else ValueOf(body);
      if MIN_INT64 <= n <= MAX_INT64 then Some(n) else None
  }

  lemma {:induction false} ValueOfDigits(n: nat)
    ensures ValueOf(Digits(n)) == n
  {
    if n >= 10 {
      ValueOfDigits(n / 10);
      assert Digits(n)[..|Digits(n)| - 1] == Digits(n / 10);
    }
  }

  /** Reading back what was written. */
  lemma ParseFormat(n: int)
    requires MIN_INT64 <= n <= MAX_INT64
    ensures ParseInt(FormatInt(n)) == Some(n)
  {
    ValueOfDigits(if n < 0 then -n else n);
    if n < 0 {
      assert FormatInt(n)[1..] == Digits(-n);
    } else {
      assert IsDigit(Digits(n)[0]);
    }
  }

  /** The text of a number: one character per digit, the last one last, after a minus if negative. */
  lemma TextOfNumber(n: int, d: int)
    requires 0 <= d <= 9
    ensures FormatInt(d) == ["0123456789"[d]]
    ensures n >= 1 ==> FormatInt(10 * n + d) == FormatInt(n) + ["0123456789"[d]]
    ensures n >= 1 ==> FormatInt(-n) == "-" + FormatInt(n)
  {
    assert Digit(d) == "0123456789"[d];
  }

  /** Reading one digit, with or without a sign. */
  lemma ParseDigit(d: int)
    requires 0 <= d <= 9
    ensures var c := "0123456789"[d];
            ParseInt([c]) == Some(d) && ParseInt(['+', c]) == Some(d) && ParseInt(['-', c]) == Some(-d)
  {
    var c := "0123456789"[d];
    assert Digit(d) == c;
    assert [c][..0] == [] && ValueOf([c]) == d;
    assert ['+', c][1..] == [c] && ['-', c][1..] == [c];
  }

  /** A number, if 64 bits hold it. */
  function Fit(n: int): Option<int> { if MIN_INT64 <= n <= MAX_INT64 then Some(n) else None }

  lemma ParseUnsigned(body: string)
    requires body != [] && AllDigits(body)
    ensures ParseInt(body) == Fit(ValueOf(body))
  {
  }

  lemma ParseSigned(sign: char, body: string)
    requires body != [] && AllDigits(body) && (sign == '-' || sign == '+')
    ensures ParseInt([sign] + body) == Fit(if sign == '-' then -(ValueOf(body) as int) else ValueOf(body))
  {
    assert ([sign] + body)[1..] == body;
  }

  /** Each further digit counts ten times what came before, as long as 64 bits hold it; leading zeros
      are allowed. */
  lemma ParseOneMoreDigit(body: string, d: int, sign: char)
    requires 0 <= d <= 9 && body != [] && AllDigits(body) && (sign == '-' || sign == '+')
    ensures ParseInt(body).Some? ==> ParseInt(body + ["0123456789"[d]]) == Fit(10 * ParseInt(body).value + d)
    ensures ParseInt([sign] + body).Some? ==>
              ParseInt([sign] + (body + ["0123456789"[d]])) ==
              Fit(10 * ParseInt([sign] + body).value + if sign == '-' then -d else d)
  {
    ValueOneMore(body, d);
    ParseUnsigned(body);
    ParseUnsigned(body + ["0123456789"[d]]);
    ParseSigned(sign, body);
    ParseSigned(sign, body + ["0123456789"[d]]);
  }

  lemma ValueOneMore(s: string, d: int)
    requires 0 <= d <= 9 && AllDigits(s)
    ensures var t := s + ["0123456789"[d]]; AllDigits(t) && ValueOf(t) == 10 * ValueOf(s) + d
  {
    var c := "0123456789"[d];
    assert Digit(d) == c;
    assert (s + [c])[..|s|] == s;
  }

  /** Different numbers have different texts. */
  lemma FormatInjective(m: int, n: int)
    requires FormatInt(m) == FormatInt(n)
    ensures m == n
  {
    ValueOfDigits(if m < 0 then -m else m);
    ValueOfDigits(if n < 0 then -n else n);
    SignOf(m);
    SignOf(n);
    if m < 0 {
      assert FormatInt(m)[1..] == Digits(-m) && FormatInt(n)[1..] == Digits(-n);
    }
  }

  lemma SignOf(n: int)
    ensures FormatInt(n) != [] && (FormatInt(n)[0] == '-' <==> n < 0)
  {
    assert n >= 0 ==> IsDigit(Digits(n)[0]);
  }

  /** The text of a number holds only digits and perhaps a leading minus. */
  lemma FormatChars(n: int, c: char)
    requires !IsDigit(c) && c != '-'
    ensures c !in FormatInt(n) && FormatInt(n) != []
  {
  }

  /** A number, a separator and any text: the pieces are determined by the whole. */
  lemma SeparatedInjective(m: int, n: int, sep: char, x: string, y: string)
    requires !IsDigit(sep) && sep != '-'
    requires FormatInt(m) + [sep] + x == FormatInt(n) + [sep] + y
    ensures m == n && x == y
  {
    FormatChars(m, sep);
    FormatChars(n, sep);
    FirstSeparator(FormatInt(m), FormatInt(n), sep, x, y);
    FormatInjective(m, n);
  }

  lemma FirstSeparator(a: string, b: string, sep: char, x: string, y: string)
    requires sep !in a && sep !in b && a + [sep] + x == b + [sep] + y
    ensures a == b && x == y
  {
    var s := a + [sep] + x;
    assert s[|a|] == sep && s[|b|] == sep;
    assert s[..|a|] == a && s[..|b|] == b;
    assert s[|a| + 1..] == x && s[|b| + 1..] == y;
  }
}
