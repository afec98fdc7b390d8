/** Decimal text: what fprintf's %d writes and what atol and the lock reader make of digits. */
module Numbers {
  import opened LockText
  import Lists

  const DIGITS := "0123456789"

  predicate IsDigit(c: char) {
    '0' <= c <= '9'
  }

  function DecimalNat(n: nat): (r: string)
    ensures r != "" && forall i :: 0 <= i < |r| ==> IsDigit(r[i])
  {
    if n < 10 then [DIGITS[n]] else DecimalNat(n / 10) + [DIGITS[n % 10]]
  }

  function Decimal(n: int): string {
    if n < 0 then "-" + DecimalNat(-n) else DecimalNat(n)
  }

  /** The value after reading the leading digits of s onto acc. */
  function Digits(s: string, acc: int): int {
    if s != "" && IsDigit(s[0]) then Digits(s[1..], acc * 10 + (s[0] - '0') as int) else acc
  }

  function SkipDigits(s: string): (r: string)
    ensures |r| <= |s|
    ensures r == "" || !IsDigit(r[0])
    ensures s != "" && IsDigit(s[0]) ==> |r| < |s|
  {
    if s != "" && IsDigit(s[0]) then SkipDigits(s[1..]) else s
  }

  /** atol, without overflow. */
  function Atol(s: string): int {
    Signed(SkipSpace(s))
  }

  function Signed(t: string): int {
    if t != "" && t[0] == '-' then -Digits(t[1..], 0)
    else if t != "" && t[0] == '+' then Digits(t[1..], 0)
    else Digits(t, 0)
  }

  /** Conversion of a long to a 32-bit int. */
  function ToInt(n: int): (r: int)
    ensures IsInt(r)
  {
    (n + 0x8000_0000) % 0x1_0000_0000 - 0x8000_0000
  }

  predicate IsInt(n: int) {
    -0x8000_0000 <= n < 0x8000_0000
  }

  lemma ToIntFixed(n: int)
    requires IsInt(n)
    ensures ToInt(n) == n
  {
  }

  lemma {:induction false} DigitsConcat(s: string, t: string, acc: int)
    requires forall i :: 0 <= i < |s| ==> IsDigit(s[i])
    ensures Digits(s + t, acc) == Digits(t, Digits(s, acc))
    ensures SkipDigits(s + t) == SkipDigits(t)
  {
    if s == "" {
      assert s + t == t;
    } else {
      assert (s + t)[1..] == s[1..] + t;
      DigitsConcat(s[1..], t, acc * 10 + (s[0] - '0') as int);
    }
  }

  lemma {:induction false} DigitsDecimal(n: nat, k: string)
    requires k == "" || !IsDigit(k[0])
    ensures Digits(DecimalNat(n) + k, 0) == n
    ensures SkipDigits(DecimalNat(n) + k) == k
  {
    if n < 10 {
      assert ([DIGITS[n]] + k)[1..] == k;
    } else {
      DigitsDecimal(n / 10, "");
      assert DecimalNat(n / 10) + "" == DecimalNat(n / 10);
      LastDigit(n, k);
    }
  }

  lemma DigitValue(n: nat)
    requires n < 10
    ensures IsDigit(DIGITS[n]) && (DIGITS[n] - '0') as int == n
  {
  }

  lemma OneDigit(d: char, k: string, acc: int)
    requires IsDigit(d) && (k == "" || !IsDigit(k[0]))
    ensures Digits([d] + k, acc) == acc * 10 + (d - '0') as int
    ensures SkipDigits([d] + k) == k
  {
    assert ([d] + k)[1..] == k;
  }

  lemma LastDigit(n: nat, k: string)
    requires n >= 10 && Digits(DecimalNat(n / 10), 0) == n / 10 && (k == "" || !IsDigit(k[0]))
    ensures Digits(DecimalNat(n) + k, 0) == n
    ensures SkipDigits(DecimalNat(n) + k) == k
  {
    var d, front := DIGITS[n % 10], DecimalNat(n / 10);
    DigitValue(n % 10);
    Lists.Regroup(front, [d], k);
    DigitsConcat(front, [d] + k, 0);
    OneDigit(d, k, n / 10);
  }

  lemma AtolDigits(d: string, k: string)
    requires d != "" && IsDigit(d[0])
    ensures Atol(d + k) == Digits(d + k, 0)
    ensures Atol("-" + d + k) == -Digits(d + k, 0)
  {
    assert (d + k)[0] == d[0];
    assert ("-" + d + k)[1..] == d + k && ("-" + d + k)[0] == '-';
  }

  /** Every number survives being written and read. */
  lemma AtolDecimal(n: int, k: string)
    requires k == "" || !IsDigit(k[0])
    ensures Atol(Decimal(n) + k) == n
  {
    var m := if n < 0 then -n else n;
    DigitsDecimal(m, k);
    AtolDigits(DecimalNat(m), k);
  }

  lemma {:induction false} DecimalNatLength(n: nat, k: nat)
    requires k >= 1 && n < Power10(k)
    ensures |DecimalNat(n)| <= k
  {
    if n >= 10 {
      DecimalNatLength(n / 10, k - 1);
    }
  }

  function Power10(k: nat): nat {
    if k == 0 then 1 else 10 * Power10(k - 1)
  }

  lemma DecimalShort(n: int)
    requires IsInt(n)
    ensures |Decimal(n)| <= 11
    ensures forall i :: 0 <= i < |Decimal(n)| ==> Decimal(n)[i] != '\n'
  {
    assert Power10(5) == 100000;
    assert Power10(10) == 10000000000;
    DecimalNatLength(if n < 0 then -n else n, 10);
  }
}
