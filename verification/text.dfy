/** Number formatting shared by the converters. */
module Text {
  function Digit(d: nat): char
    requires d < 16
  {
    if d < 10 then '0' + d as char else 'a' + (d - 10) as char
  }

  /** Digits of `n`, most significant first, without leading zeros. */
  function Digits(n: nat, radix: nat): (s: string)
    requires 2 <= radix <= 16
    ensures |s| > 0
  {
    if n < radix then [Digit(n)] else Digits(n / radix, radix) + [Digit(n % radix)]
  }

  function Decimal(n: nat): string {
    Digits(n, 10)
  }

  function DecimalInt(n: int): string {
    if n < 0 then "-" + Decimal(-n) else Decimal(n)
  }

  function Hex(n: nat): string {
    Digits(n, 16)
  }

  /** `trim_start_matches('_')`. */
  function TrimUnderscores(s: string): string {
    if s != [] && s[0] == '_' then TrimUnderscores(s[1..]) else s
  }

  lemma {:induction false} TrimUnderscoresIs(s: string) returns (k: nat)
    ensures k <= |s| && TrimUnderscores(s) == s[k..] && (forall i :: 0 <= i < k ==> s[i] == '_')
    ensures k < |s| ==> s[k] != '_'
  {
    if s != [] && s[0] == '_' {
      k := TrimUnderscoresIs(s[1..]);
      assert forall i :: 0 < i <= k ==> s[i] == s[1..][i - 1];
      k := k + 1;
    } else {
      k := 0;
    }
  }

  predicate IsDigit(c: char) {
    '0' <= c <= '9'
  }

  /** The value of a digit, and of a text of digits. */
  function DigitValue(c: char): int {
    if '0' <= c <= '9' then c as int - '0' as int else c as int - 'a' as int + 10
  }

  function NumberOf(s: string, radix: nat): int {
    if s == "" then 0 else NumberOf(s[..|s| - 1], radix) * radix + DigitValue(s[|s| - 1])
  }

  lemma NumberSnoc(s: string, c: char, radix: nat)
    ensures NumberOf(s + [c], radix) == NumberOf(s, radix) * radix + DigitValue(c) && NumberOf("", radix) == 0
  {
    assert (s + [c])[..|s|] == s;
  }

  lemma DigitReads(d: nat, radix: nat)
    requires d < radix <= 16
    ensures DigitValue(Digit(d)) == d && (d > 0 ==> Digit(d) != '0')
    ensures '0' <= Digit(d) <= '9' || (radix > 10 && 'a' <= Digit(d) <= 'f')
  {}

  /** What is written reads back as the number, without a leading zero. */
  lemma {:induction false} DigitsRead(n: nat, radix: nat)
    requires 2 <= radix <= 16
    ensures NumberOf(Digits(n, radix), radix) == n
    ensures n > 0 ==> Digits(n, radix)[0] != '0'
    ensures forall c :: c in Digits(n, radix) ==> '0' <= c <= '9' || (radix > 10 && 'a' <= c <= 'f')
  {
    hide NumberOf;
    hide Digit;
    hide DigitValue;
    if n >= radix {
      var q, d := n / radix, n % radix;
      DigitsRead(q, radix);
      DigitReads(d, radix);
      NumberSnoc(Digits(q, radix), Digit(d), radix);
      QuotientPositive(n, radix);
    } else {
      DigitReads(n, radix);
      NumberSnoc("", Digit(n), radix);
      assert "" + [Digit(n)] == [Digit(n)];
    }
  }

  lemma QuotientPositive(n: nat, d: nat)
    requires 0 < d <= n
    ensures n / d > 0 && n == n / d * d + n % d
  {}

  lemma HexInjective(a: nat, b: nat)
    requires Hex(a) == Hex(b)
    ensures a == b
  {
    DigitsRead(a, 16);
    DigitsRead(b, 16);
  }

  lemma DigitInjective(a: nat, b: nat)
    requires a < 16 && b < 16 && Digit(a) == Digit(b)
    ensures a == b
  {}

  /** Different numbers are written differently. */
  lemma {:induction false} DecimalInjective(a: nat, b: nat)
    requires Decimal(a) == Decimal(b)
    ensures a == b
  {
    var s, t := Decimal(a), Decimal(b);
    assert s[|s| - 1] == Digit(a % 10) && t[|t| - 1] == Digit(b % 10);
    DigitInjective(a % 10, b % 10);
    if a >= 10 {
      assert s[..|s| - 1] == Decimal(a / 10);
      if b >= 10 {
        assert t[..|t| - 1] == Decimal(b / 10);
        DecimalInjective(a / 10, b / 10);
      }
    }
  }

  lemma {:induction false} DecimalIsDigits(n: nat)
    ensures forall c :: c in Decimal(n) ==> IsDigit(c)
  {
    if n >= 10 {
      DecimalIsDigits(n / 10);
    }
  }

  lemma DecimalIntInjective(a: int, b: int)
    requires DecimalInt(a) == DecimalInt(b)
    ensures a == b
  {
    DecimalIsDigits(if a < 0 then -a else a);
    DecimalIsDigits(if b < 0 then -b else b);
    var s, t := DecimalInt(a), DecimalInt(b);
    assert s[0] in s && t[0] in t;
    if a < 0 && b < 0 {
      assert s[1..] == Decimal(-a) && t[1..] == Decimal(-b);
      DecimalInjective(-a, -b);
    } else if a >= 0 && b >= 0 {
      DecimalInjective(a, b);
    }
  }

  predicate Free(s: string, c: char) {
    forall i :: 0 <= i < |s| ==> s[i] != c
  }

  /** The first separator tells where the first part ends. */
  lemma SplitAt(c: char, a: string, b: string, x: string, y: string)
    requires Free(a, c) && Free(b, c) && a + [c] + x == b + [c] + y
    ensures a == b && x == y
  {
    var s := a + [c] + x;
    assert s[|a|] == c && s[|b|] == c;
    assert forall i :: 0 <= i < |a| ==> s[i] == a[i];
    assert forall i :: 0 <= i < |b| ==> s[i] == b[i];
    assert |a| == |b|;
    assert s[..|a|] == a && s[..|b|] == b;
    assert s[|a| + 1..] == x && s[|b| + 1..] == y;
  }
}
