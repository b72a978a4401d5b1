/** Decimal and hexadecimal digit strings. */
module Decimal {
  import opened Scanning

  predicate IsDigit(c: char) { '0' <= c <= '9' }

  predicate AllDigits(s: string) { forall c :: c in s ==> IsDigit(c) }

  function DigitChar(d: nat): (c: char)
    requires d < 10
    ensures IsDigit(c) && DigitValue(c) == d
  {
    '0' + d as char
  }

  function DigitValue(c: char): nat
    requires IsDigit(c)
  {
    (c - '0') as nat
  }

  /** The decimal text of a natural number, without leading zeros. */
  function NatText(n: nat): (s: string)
    ensures s != "" && AllDigits(s)
    ensures |s| > 1 ==> s[0] != '0'
    ensures n > 0 ==> s[0] != '0'
  {
    if n < 10 then [DigitChar(n)] else NatText(n / 10) + [DigitChar(n % 10)]
  }

  function TextNat(s: string): nat
    requires AllDigits(s)
  {
    if s == "" then 0 else
      assert s[|s| - 1] in s;
      TextNat(s[..|s| - 1]) * 10 + DigitValue(s[|s| - 1])
  }

  function IntText(i: int): string
  {
    if i < 0 then "-" + NatText(-i) else NatText(i)
  }

  lemma TextNatSnoc(s: string, c: char)
    requires AllDigits(s) && IsDigit(c)
    ensures AllDigits(s + [c]) && TextNat(s + [c]) == TextNat(s) * 10 + DigitValue(c)
  {
    assert (s + [c])[..|s|] == s;
  }

  lemma {:induction false} NatTextReads(n: nat)
    ensures TextNat(NatText(n)) == n
  {
    if n >= 10 {
      NatTextReads(n / 10);
      TextNatSnoc(NatText(n / 10), DigitChar(n % 10));
    } else {
      assert TextNat("") == 0;
      assert [DigitChar(n)][..0] == "";
    }
  }

  lemma NatTextInjective(m: nat, n: nat)
    requires NatText(m) == NatText(n)
    ensures m == n
  {
    NatTextReads(m);
    NatTextReads(n);
  }

  lemma IntTextInjective(m: int, n: int)
    requires IntText(m) == IntText(n)
    ensures m == n
  {
    var s := IntText(m);
    assert m >= 0 ==> s[0] in NatText(m);
    assert n >= 0 ==> s[0] in NatText(n);
    if m < 0 {
      assert s[1..] == NatText(-m) && s[1..] == NatText(-n);
      NatTextInjective(-m, -n);
    } else {
      NatTextInjective(m, n);
    }
  }

  function Zeros(k: nat): (s: string)
    ensures |s| == k && AllDigits(s)
    ensures forall c :: c in s ==> c == '0'
  {
    if k == 0 then "" else "0" + Zeros(k - 1)
  }

  lemma {:induction false} ZerosAreZero(k: nat)
    ensures TextNat(Zeros(k)) == 0
  {
    if k > 0 {
      ZerosAreZero(k - 1);
      ZerosSnoc(k - 1);
      TextNatSnoc(Zeros(k - 1), '0');
      assert Zeros(k - 1) + "0" == Zeros(k - 1) + ['0'];
    }
  }

  lemma ZerosSnoc(k: nat)
    ensures Zeros(k) + "0" == Zeros(k + 1)
  {
    if k > 0 {
      ZerosSnoc(k - 1);
    }
  }

  lemma {:induction false} ZerosTextNat(k: nat, s: string)
    requires AllDigits(s)
    ensures AllDigits(Zeros(k) + s) && TextNat(Zeros(k) + s) == TextNat(s)
    decreases |s|
  {
    if s == "" {
      assert "" + Zeros(k) == Zeros(k) && Zeros(k) + s == Zeros(k);
      ZerosAreZero(k);
    } else {
      var front, c := s[..|s| - 1], s[|s| - 1];
      assert c in s && front + [c] == s;
      ZerosTextNat(k, front);
      assert Zeros(k) + s == (Zeros(k) + front) + [c];
      TextNatSnoc(Zeros(k) + front, c);
      TextNatSnoc(front, c);
    }
  }

  /** A block of digits is scanned whole. */
  lemma DigitsBlock(digits: string, rest: string)
    requires AllDigits(digits) && (rest == "" || !IsDigit(rest[0]))
    ensures Run(digits + rest, IsDigit) == |digits|
  {
    RunBlock(digits, rest, IsDigit);
  }
}
