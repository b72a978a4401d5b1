/** The time of day in a date text, from the captured groups: parseTimeOfDay of rails_time.go. */
module TimeOfDay {
  import opened Decimal
  import opened Wrappers

  /** Hour digits, optional minute and second digits, fraction digits, and the half of the day. */
  datatype Groups = Groups(hour: string, minute: string, second: string, fraction: string, half: string)

  datatype Clock = Clock(hour: int, minute: Option<int>, second: Option<int>, nanos: int)

  predicate GroupDigits(g: Groups)
  {
    g.hour != "" && AllDigits(g.hour) && AllDigits(g.minute) && AllDigits(g.second) && AllDigits(g.fraction)
  }

  function Optional(digits: string): Option<int>
    requires AllDigits(digits)
  {
    if digits == "" then None else Some(TextNat(digits))
  }

  /** The first nine digits of the fraction, filled up with zeros. */
  function NineDigits(fraction: string): (r: string)
    ensures |r| == 9
  {
    (fraction + "000000000")[..9]
  }

  /** With a half of the day the hour is read on a twelve-hour clock. */
  function ReadClock(g: Groups): Clock
    requires GroupDigits(g)
  {
    NineAreDigits(g.fraction);
    var hour: int := TextNat(g.hour);
    Clock(
      if g.half == "" then hour else hour % 12 + (if g.half == "p" || g.half == "P" then 12 else 0),
      Optional(g.minute), Optional(g.second),
      if g.fraction == "" then 0 else TextNat(NineDigits(g.fraction)))
  }

  lemma NineAreDigits(fraction: string)
    requires AllDigits(fraction)
    ensures AllDigits(NineDigits(fraction))
  {
    var zeros := "000000000";
    assert AllDigits(zeros);
    forall c | c in NineDigits(fraction) ensures IsDigit(c) {
      var i :| 0 <= i < 9 && NineDigits(fraction)[i] == c;
      if i < |fraction| {
        assert fraction[i] in fraction;
      } else {
        assert zeros[i - |fraction|] in zeros;
      }
    }
  }

  /** What a twelve-hour clock shows. */
  function Twelve(hour: int): int { if hour % 12 == 0 then 12 else hour % 12 }

  /** Every hour of the day reads back from its twelve-hour form. */
  lemma TwelveHourClock(hour: int, g: Groups)
    requires GroupDigits(g) && 0 <= hour < 24
    requires TextNat(g.hour) == Twelve(hour)
    requires g.half == "a" || g.half == "A" || g.half == "p" || g.half == "P"
    requires (g.half == "p" || g.half == "P") <==> hour >= 12
    ensures ReadClock(g).hour == hour
  {
    hide AllDigits, TextNat, NineDigits;
  }

  function Power(n: nat): nat { if n == 0 then 1 else 10 * Power(n - 1) }

  lemma {:induction false} PaddedValue(digits: string, k: nat)
    requires AllDigits(digits)
    ensures AllDigits(digits + Zeros(k)) && TextNat(digits + Zeros(k)) == TextNat(digits) * Power(k)
    decreases k
  {
    hide TextNat, AllDigits;
    if k == 0 {
      assert digits + Zeros(0) == digits;
    } else {
      PaddedValue(digits, k - 1);
      ZerosSnoc(k - 1);
      var shorter := digits + Zeros(k - 1);
      assert digits + Zeros(k) == shorter + ['0'];
      ZeroDigit(shorter);
      Tens(TextNat(digits), k);
    }
  }

  lemma ZeroDigit(s: string)
    requires AllDigits(s)
    ensures AllDigits(s + ['0']) && TextNat(s + ['0']) == TextNat(s) * 10
  {
    TextNatSnoc(s, '0');
  }

  lemma Tens(a: nat, k: nat)
    requires k > 0
    ensures a * Power(k - 1) * 10 == a * Power(k)
  {
    assert Power(k) == 10 * Power(k - 1);
  }

  lemma NineZeros()
    ensures Zeros(9) == "000000000"
  {
    assert Zeros(3) == "000";
    ZerosSplit(3, 3);
    ZerosSplit(6, 3);
  }

  lemma {:induction false} ZerosSplit(a: nat, b: nat)
    ensures Zeros(a + b) == Zeros(a) + Zeros(b)
    decreases a
  {
    if a > 0 {
      ZerosSplit(a - 1, b);
    } else {
      assert Zeros(0) + Zeros(b) == Zeros(b);
    }
  }

  /** The nanoseconds are the fraction of a second cut after nine digits. */
  lemma NanosOfFraction(g: Groups)
    requires GroupDigits(g) && g.fraction != ""
    ensures |g.fraction| <= 9 ==> ReadClock(g).nanos == TextNat(g.fraction) * Power(9 - |g.fraction|)
    ensures |g.fraction| >= 9 ==> AllDigits(g.fraction[..9]) && ReadClock(g).nanos == TextNat(g.fraction[..9])
    ensures 0 <= ReadClock(g).nanos
  {
    hide TextNat;
    var f := g.fraction;
    NineAreDigits(f);
    if |f| <= 9 {
      NineZeros();
      ZerosSplit(9 - |f|, |f|);
      assert NineDigits(f) == f + Zeros(9 - |f|);
      PaddedValue(f, 9 - |f|);
    }
    if |f| >= 9 {
      assert NineDigits(f) == f[..9];
    }
  }
}
