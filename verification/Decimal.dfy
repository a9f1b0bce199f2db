/** Decimal integers as fmt prints them and strconv reads them. */
module Decimal {
  import opened Strings

  const INT64_MIN := -0x8000_0000_0000_0000
  const INT64_MAX := 0x7FFF_FFFF_FFFF_FFFF

  predicate IsDigit(c: char) {
    '0' <= c <= '9'
  }

  function DigitValue(c: char): nat
    requires IsDigit(c)
  {
    c as int - '0' as int
  }

  function DigitChar(d: nat): (c: char)
    requires d < 10
    ensures IsDigit(c) && DigitValue(c) == d
  {
    ('0' as int + d) as char
  }

  /** "%d" of a natural number. */
  function Dec(n: nat): (s: string)
    ensures s != "" && forall i :: 0 <= i < |s| ==> IsDigit(s[i])
  {
    if n < 10 then [DigitChar(n)] else Dec(n / 10) + [DigitChar(n % 10)]
  }

  /** "%d" of an integer. */
  function DecInt(n: int): string {
    if n < 0 then "-" + Dec(-n) else Dec(n)
  }

  /** The value of the first n characters, None unless all are digits. */
  function Digits(s: string, n: nat): Option<nat>
    requires n <= |s|
  {
    if n == 0 then Some(0)
    else match Digits(s, n - 1)
      case None => None
      case Some(v) => if IsDigit(s[n - 1]) then Some(10 * v + DigitValue(s[n - 1])) else None
  }

  function Unsigned(s: string): Option<nat> {
    if s == "" then None else Digits(s, |s|)
  }

  function Signed(negative: bool, v: Option<nat>): Option<int> {
    match v
    case None => None
    case Some(u) =>
      var w: int := if negative then 0 - u as int else u as int;
      if INT64_MIN <= w <= INT64_MAX then Some(w) else None
  }

  /** strconv.ParseInt(s, 10, 64): an optional sign and digits, within 64 bits. */
  function ParseInt(s: string): Option<int> {
    if s != "" && (s[0] == '-' || s[0] == '+') then Signed(s[0] == '-', Unsigned(s[1..]))
    else Signed(false, Unsigned(s))
  }

  lemma {:induction false} DigitsPrefix(s: string, more: string, n: nat)
    requires n <= |s|
    ensures Digits(s + more, n) == Digits(s, n)
  {
    if n > 0 {
      DigitsPrefix(s, more, n - 1);
    }
  }

  lemma {:induction false} DigitsOfDec(n: nat)
    ensures Digits(Dec(n), |Dec(n)|) == Some(n)
  {
    if n < 10 {
      assert Digits(Dec(n), 0) == Some(0);
    } else {
      DigitsOfDec(n / 10);
      DigitsPrefix(Dec(n / 10), [DigitChar(n % 10)], |Dec(n / 10)|);
    }
  }

  /** What was printed is read back. */
  lemma ParseDec(n: nat)
    requires n <= INT64_MAX
    ensures ParseInt(Dec(n)) == Some(n)
  {
    DigitsOfDec(n);
    assert IsDigit(Dec(n)[0]);
  }

  lemma DecInjective(m: nat, n: nat)
    requires Dec(m) == Dec(n)
    ensures m == n
  {
    DigitsOfDec(m);
    DigitsOfDec(n);
  }

  lemma DecIntInjective(m: int, n: int)
    requires DecInt(m) == DecInt(n)
    ensures m == n
  {
    assert m < 0 ==> DecInt(m)[0] == '-' && DecInt(m)[1..] == Dec(-m);
    assert n < 0 ==> DecInt(n)[0] == '-' && DecInt(n)[1..] == Dec(-n);
    assert m >= 0 ==> IsDigit(DecInt(m)[0]);
    assert n >= 0 ==> IsDigit(DecInt(n)[0]);
    if m < 0 && n < 0 {
      DecInjective(-m, -n);
    } else if m >= 0 && n >= 0 {
      DecInjective(m, n);
    }
  }

  /** A number followed by a character that is no part of a number can be read off the front. */
  lemma NumberEnds(m: int, n: int, end: char, r: string, s: string)
    requires !IsDigit(end) && end != '-'
    requires DecInt(m) + [end] + r == DecInt(n) + [end] + s
    ensures m == n && r == s
  {
    EndNotInNumber(m, end);
    EndNotInNumber(n, end);
    FirstDelimiter(DecInt(m), DecInt(n), end, r, s);
    DecIntInjective(m, n);
  }

  lemma EndNotInNumber(n: int, end: char)
    ensures !IsDigit(end) && end != '-' ==> end !in DecInt(n)
  {
  }

  function Pow10(k: nat): nat {
    if k == 0 then 1 else 10 * Pow10(k - 1)
  }

  lemma {:induction false} DecWidth(n: nat, k: nat)
    requires n < Pow10(k) && k > 0
    ensures |Dec(n)| <= k
  {
    if n >= 10 {
      assert Pow10(k) == 10 * Pow10(k - 1);
      assert k > 1 by { assert Pow10(0) == 1; }
      DecWidth(n / 10, k - 1);
    }
  }
}
