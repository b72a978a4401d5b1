/**
  Ruby's Float#to_s, rubyFloatToS of internal/news_articles/rails_cast.go: how the
  shortest digits of a float are laid out, and that the layout can be read back.
 */
module RubyFloat {
  import opened Decimal
  import opened Scanning
  import opened Wrappers

  /** A finite float is given by its shortest digits d1 d2 ... and the exponent of d1. */
  datatype Float64 =
    | Infinite(negative: bool)
    | NotANumber
    | Zero(negative: bool)
    | Finite(negative: bool, digits: string, exponent: int)

  /** What the shortest formatting promises: no leading zero, and no trailing zero after the first digit. */
  predicate Shortest(digits: string)
  {
    digits != "" && AllDigits(digits) && digits[0] != '0' && (|digits| > 1 ==> digits[|digits| - 1] != '0')
  }

  predicate WellFormed(f: Float64)
  {
    f.Finite? ==> Shortest(f.digits)
  }

  function Sign(negative: bool): string { if negative then "-" else "" }

  /** A sign and at least two digits. */
  function ExponentText(e: int): (s: string)
    ensures |s| >= 3 && (s[0] == '+' || s[0] == '-')
  {
    var n := NatText(if e < 0 then -e else e);
    (if e < 0 then "-" else "+") + (if |n| < 2 then "0" + n else n)
  }

  predicate FixedNotation(decimalPoint: int) { -4 < decimalPoint <= 15 }

  function FloatToS(f: Float64): string
    requires WellFormed(f)
  {
    match f
    case Infinite(negative) => Sign(negative) + "Infinity"
    case NotANumber => "NaN"
    case Zero(negative) => Sign(negative) + "0.0"
    case Finite(negative, digits, exponent) => Sign(negative) + Layout(digits, exponent + 1)
  }

  function Layout(digits: string, decimalPoint: int): string
    requires digits != ""
  {
    if 0 < decimalPoint <= 15 then
      if |digits| <= decimalPoint then digits + Zeros(decimalPoint - |digits|) + "." + "0"
      else digits[..decimalPoint] + "." + digits[decimalPoint..]
    else if -4 < decimalPoint <= 0 then
      "0" + "." + (Zeros(-decimalPoint) + digits)
    else
      digits[..1] + "." + (if |digits| == 1 then "0" else digits[1..]) + ("e" + ExponentText(decimalPoint - 1))
  }

  // ----- An independent reader of decimal numbers -----

  /** whole "." fraction ["e" exponent], after the sign. */
  datatype Parts = Parts(whole: string, fraction: string, exponent: Option<int>)

  function ReadParts(s: string): Option<Parts>
  {
    var i := Run(s, IsDigit);
    if i == |s| || s[i] != '.' then None else
      var t := s[i + 1..];
      var j := Run(t, IsDigit);
      if j == |t| then Some(Parts(s[..i], t, None))
      else if t[j] != 'e' || |t| < j + 3 || !AllDigits(t[j + 2..]) then None
      else Some(Parts(s[..i], t[..j], Some((if t[j + 1] == '-' then -1 else 1) * TextNat(t[j + 2..]))))
  }

  lemma ReadPartsFixed(whole: string, fraction: string)
    requires AllDigits(whole) && AllDigits(fraction)
    ensures ReadParts(whole + "." + fraction) == Some(Parts(whole, fraction, None))
  {
    var s := whole + "." + fraction;
    assert s == whole + ("." + fraction);
    RunBlock(whole, "." + fraction, IsDigit);
    assert s[|whole| + 1..] == fraction && s[..|whole|] == whole;
    RunIs(fraction, IsDigit, |fraction|);
  }

  lemma ExponentTextReads(e: int)
    ensures var s := ExponentText(e);
            AllDigits(s[1..]) && TextNat(s[1..]) == (if e < 0 then -e else e) && (s[0] == '-' <==> e < 0)
  {
    var m := if e < 0 then -e else e;
    var n := NatText(m);
    NatTextReads(m);
    ZerosTextNat(1, n);
    assert Zeros(1) == "0";
    assert ExponentText(e)[1..] == if |n| < 2 then "0" + n else n;
  }

  lemma ReadPartsScientific(whole: string, fraction: string, e: int)
    requires AllDigits(whole) && AllDigits(fraction)
    ensures ReadParts(whole + "." + fraction + ("e" + ExponentText(e))) == Some(Parts(whole, fraction, Some(e)))
  {
    hide ExponentText;
    ExponentTextReads(e);
    ReadPartsOf(whole, fraction, ExponentText(e));
    hide ReadParts;
  }

  lemma ReadPartsOf(whole: string, fraction: string, power: string)
    requires AllDigits(whole) && AllDigits(fraction)
    requires |power| >= 3 && AllDigits(power[1..])
    ensures ReadParts(whole + "." + fraction + ("e" + power)) ==
            Some(Parts(whole, fraction, Some((if power[0] == '-' then -1 else 1) * TextNat(power[1..]))))
  {
    hide Run, TextNat, ReadParts, AllDigits;
    var tail := "e" + power;
    var s := whole + "." + fraction + tail;
    DigitsBlock(whole, "." + (fraction + tail));
    DigitsBlock(fraction, tail);
    CutParts(whole, fraction, power);
    PartsAt(s, |whole|, |fraction|);
  }

  /** Where the parts stand in the text. */
  lemma CutParts(whole: string, fraction: string, power: string)
    requires |power| >= 1
    ensures var s := whole + "." + fraction + ("e" + power);
            var t := fraction + ("e" + power);
            && s == whole + ("." + t) && s[..|whole|] == whole && s[|whole|] == '.' && s[|whole| + 1..] == t
            && t[..|fraction|] == fraction && t[|fraction|] == 'e' && t[|fraction| + 1] == power[0]
            && t[|fraction| + 2..] == power[1..]
  {
    var tail := "e" + power;
    var t := fraction + tail;
    TextsAssociate(whole, ".", fraction, tail);
    CutAfter(whole, "." + t);
    CutAfter(".", t);
    CutAfter(fraction, tail);
    assert (whole + ("." + t))[|whole| + 1..] == (whole + ("." + t))[|whole|..][1..];
    assert t[|fraction| + 2..] == t[|fraction|..][2..];
  }

  lemma PartsAt(s: string, i: nat, j: nat)
    requires i < |s| && Run(s, IsDigit) == i && s[i] == '.'
    requires var t := s[i + 1..]; j + 3 <= |t| && Run(t, IsDigit) == j && t[j] == 'e' && AllDigits(t[j + 2..])
    ensures var t := s[i + 1..];
            ReadParts(s) == Some(Parts(s[..i], t[..j], Some((if t[j + 1] == '-' then -1 else 1) * TextNat(t[j + 2..]))))
  {
    hide Run, AllDigits, TextNat;
  }

  /** The parts of the four layouts. */
  function LayoutParts(digits: string, decimalPoint: int): Parts
    requires digits != ""
  {
    if 0 < decimalPoint <= 15 then
      if |digits| <= decimalPoint then Parts(digits + Zeros(decimalPoint - |digits|), "0", None)
      else Parts(digits[..decimalPoint], digits[decimalPoint..], None)
    else if -4 < decimalPoint <= 0 then
      Parts("0", Zeros(-decimalPoint) + digits, None)
    else
      Parts(digits[..1], if |digits| == 1 then "0" else digits[1..], Some(decimalPoint - 1))
  }

  lemma LayoutReads(digits: string, decimalPoint: int)
    requires digits != "" && AllDigits(digits)
    ensures ReadParts(Layout(digits, decimalPoint)) == Some(LayoutParts(digits, decimalPoint))
    ensures AllDigits(LayoutParts(digits, decimalPoint).whole + LayoutParts(digits, decimalPoint).fraction)
  {
    hide ReadParts;
    var p := LayoutParts(digits, decimalPoint);
    assert AllDigits(p.whole) && AllDigits(p.fraction);
    if FixedNotation(decimalPoint) {
      ReadPartsFixed(p.whole, p.fraction);
    } else {
      ReadPartsScientific(p.whole, p.fraction, decimalPoint - 1);
    }
  }

  // ----- The value of the text -----

  function RealPowTen(k: int): (r: real)
    ensures r > 0.0
    decreases if k < 0 then -k else k
  {
    if k == 0 then 1.0 else if k > 0 then RealPowTen(k - 1) * 10.0 else RealPowTen(k + 1) / 10.0
  }

  /** n x 10^e. */
  function Scaled(n: nat, e: int): real
  {
    n as real * RealPowTen(e)
  }

  lemma ScaledTen(n: nat, e: int)
    ensures Scaled(n * 10, e) == Scaled(n, e + 1)
  {
    var x := n as real;
    assert (n * 10) as real == x * 10.0;
    assert RealPowTen(e + 1) == RealPowTen(e) * 10.0;
    MoveFactor(x, RealPowTen(e));
  }

  lemma MoveFactor(x: real, r: real)
    ensures x * 10.0 * r == x * (r * 10.0)
  {
  }

  function PartsValue(p: Parts): real
    requires AllDigits(p.whole + p.fraction)
  {
    Scaled(TextNat(p.whole + p.fraction), p.exponent.GetOr(0) - |p.fraction|)
  }

  /** The value of a decimal text, read from its characters alone. */
  function TextValue(s: string): Option<real>
  {
    var negative := s != "" && s[0] == '-';
    match ReadParts(if negative then s[1..] else s)
    case None => None
    case Some(p) =>
      if !AllDigits(p.whole + p.fraction) then None
      else Some(if negative then -PartsValue(p) else PartsValue(p))
  }

  lemma LayoutValue(digits: string, decimalPoint: int)
    requires digits != "" && AllDigits(digits)
    requires AllDigits(LayoutParts(digits, decimalPoint).whole + LayoutParts(digits, decimalPoint).fraction)
    ensures PartsValue(LayoutParts(digits, decimalPoint)) ==
            Scaled(TextNat(digits), decimalPoint - |digits|)
  {
    hide TextNat, Scaled, Zeros, LayoutParts, AllDigits, FixedNotation;
    var p := LayoutParts(digits, decimalPoint);
    LayoutDigits(digits, decimalPoint);
    var all, e := p.whole + p.fraction, p.exponent.GetOr(0) - |p.fraction|;
    if FixedNotation(decimalPoint) && decimalPoint <= 0 {
      ZerosTextNat(1 - decimalPoint, digits);
    } else {
      ZerosValue(digits, |all| - |digits|, e);
    }
  }

  /** Every layout writes the digits with zeros on one side. */
  lemma LayoutDigits(digits: string, decimalPoint: int)
    requires digits != ""
    ensures var p := LayoutParts(digits, decimalPoint);
            var all := p.whole + p.fraction;
            |all| == |p.whole| + |p.fraction| &&
            if FixedNotation(decimalPoint) && decimalPoint <= 0
            then all == Zeros(1 - decimalPoint) + digits && p.exponent == None && |p.whole| == 1
            else |all| >= |digits| && all == digits + Zeros(|all| - |digits|) &&
                 p.exponent.GetOr(0) - |p.fraction| + (|all| - |digits|) == decimalPoint - |digits|
  {
    var p := LayoutParts(digits, decimalPoint);
    var n := |digits|;
    if 0 < decimalPoint <= 15 && n <= decimalPoint {
      ZerosSnoc(decimalPoint - n);
    } else if FixedNotation(decimalPoint) && decimalPoint <= 0 {
    } else if !FixedNotation(decimalPoint) && n == 1 {
      assert Zeros(1) == "0" && digits[..1] == digits;
    } else {
      assert p.whole + p.fraction == digits && Zeros(0) == "";
    }
  }

  /** A zero at the end multiplies the digits by ten, as does a larger power of ten. */
  lemma {:induction false} ZerosValue(digits: string, k: nat, e: int)
    requires AllDigits(digits)
    ensures AllDigits(digits + Zeros(k))
    ensures Scaled(TextNat(digits + Zeros(k)), e) == Scaled(TextNat(digits), e + k)
    decreases k
  {
    hide Scaled;
    if k == 0 {
      assert digits + Zeros(0) == digits;
    } else {
      assert digits + Zeros(k) == (digits + "0") + Zeros(k - 1);
      assert digits + ['0'] == digits + "0";
      TextNatSnoc(digits, '0');
      ZerosValue(digits + "0", k - 1, e);
      ScaledTen(TextNat(digits), e + k - 1);
    }
  }

  /**
    Printing preserves value: the text, read as a decimal number, is
    sign x digits x 10^(exponent + 1 - number of digits), in all layouts.
   */
  lemma PrintedValue(f: Float64)
    requires f.Finite? && WellFormed(f)
    ensures var magnitude := Scaled(TextNat(f.digits), f.exponent + 1 - |f.digits|);
            TextValue(FloatToS(f)) == Some(if f.negative then -magnitude else magnitude)
  {
    hide ReadParts, Layout, LayoutParts, PartsValue, Scaled, TextNat;
    var text := Layout(f.digits, f.exponent + 1);
    LayoutReads(f.digits, f.exponent + 1);
    LayoutValue(f.digits, f.exponent + 1);
    LayoutStartsWithDigit(f.digits, f.exponent + 1);
    if f.negative {
      assert FloatToS(f)[1..] == text;
    } else {
      assert FloatToS(f) == text;
    }
  }

  lemma LayoutStartsWithDigit(digits: string, decimalPoint: int)
    requires digits != "" && AllDigits(digits)
    ensures Layout(digits, decimalPoint) != "" && IsDigit(Layout(digits, decimalPoint)[0])
  {
    assert digits[0] in digits;
  }

  lemma NoLetter(s: string)
    requires AllDigits(s)
    ensures 'e' !in s
  {
  }

  /** Fixed notation is used exactly when the decimal point position is in (-4, 15]. */
  lemma NotationChoice(f: Float64)
    requires f.Finite? && WellFormed(f)
    ensures 'e' in FloatToS(f) <==> !FixedNotation(f.exponent + 1)
  {
    hide Layout, LayoutParts, ExponentText, FixedNotation, Sign;
    var text := Layout(f.digits, f.exponent + 1);
    var p := LayoutParts(f.digits, f.exponent + 1);
    var front := p.whole + "." + p.fraction;
    var tail := if FixedNotation(f.exponent + 1) then "" else "e" + ExponentText(f.exponent);
    FrontHasNoLetter(f.digits, f.exponent + 1);
    LayoutIsParts(f.digits, f.exponent + 1);
    assert FloatToS(f) == Sign(f.negative) + text;
    SignHasNoLetter(f.negative);
    LetterIn(front, tail);
    LetterIn(Sign(f.negative), text);
  }

  lemma LayoutIsParts(digits: string, decimalPoint: int)
    requires Shortest(digits)
    ensures var p := LayoutParts(digits, decimalPoint);
            var tail := if FixedNotation(decimalPoint) then "" else "e" + ExponentText(decimalPoint - 1);
            Layout(digits, decimalPoint) == p.whole + "." + p.fraction + tail
  {
    hide ExponentText, AllDigits;
  }

  lemma FrontHasNoLetter(digits: string, decimalPoint: int)
    requires Shortest(digits)
    ensures var p := LayoutParts(digits, decimalPoint); 'e' !in p.whole + "." + p.fraction
  {
    hide LayoutParts, ReadParts, Layout;
    var p := LayoutParts(digits, decimalPoint);
    LayoutReads(digits, decimalPoint);
    NoLetter(p.whole + p.fraction);
    assert forall c :: c in p.whole || c in p.fraction ==> c in p.whole + p.fraction;
  }

  lemma SignHasNoLetter(negative: bool)
    ensures 'e' !in Sign(negative)
  {
  }

  /** A text without the letter has it only where it goes on. */
  lemma LetterIn(front: string, tail: string)
    requires 'e' !in front
    ensures 'e' in front + tail <==> 'e' in tail
  {
    if 'e' in tail {
      var i :| 0 <= i < |tail| && tail[i] == 'e';
      assert (front + tail)[|front| + i] == 'e';
    }
  }

  // ----- Reading the float itself back -----

  function DropLeadingZeros(s: string): string
  {
    if s != "" && s[0] == '0' then DropLeadingZeros(s[1..]) else s
  }

  function DropTrailingZeros(s: string): string
  {
    if s != "" && s[|s| - 1] == '0' then DropTrailingZeros(s[..|s| - 1]) else s
  }

  /** The float whose text has these parts: digits without outer zeros, and where the point was. */
  function FloatOfParts(negative: bool, p: Parts): Float64
  {
    var all := p.whole + p.fraction;
    var some := DropLeadingZeros(all);
    if some == "" then Zero(negative) else
      Finite(negative, DropTrailingZeros(some), |p.whole| + p.exponent.GetOr(0) - (|all| - |some|) - 1)
  }

  lemma {:induction false} LeadingZerosDropped(k: nat, s: string)
    requires s == "" || s[0] != '0'
    ensures DropLeadingZeros(Zeros(k) + s) == s
  {
    if k == 0 {
      assert Zeros(0) + s == s;
    } else {
      assert (Zeros(k) + s)[1..] == Zeros(k - 1) + s;
      LeadingZerosDropped(k - 1, s);
    }
  }

  lemma {:induction false} TrailingZerosDropped(s: string, k: nat)
    requires s == "" || s[|s| - 1] != '0'
    ensures DropTrailingZeros(s + Zeros(k)) == s
  {
    if k == 0 {
      assert s + Zeros(0) == s;
    } else {
      ZerosSnoc(k - 1);
      assert (s + Zeros(k))[..|s + Zeros(k)| - 1] == s + Zeros(k - 1);
      TrailingZerosDropped(s, k - 1);
    }
  }

  lemma FloatOfLayout(negative: bool, digits: string, decimalPoint: int)
    requires Shortest(digits)
    ensures FloatOfParts(negative, LayoutParts(digits, decimalPoint)) == Finite(negative, digits, decimalPoint - 1)
  {
    hide DropLeadingZeros, DropTrailingZeros, Zeros, LayoutParts;
    var p := LayoutParts(digits, decimalPoint);
    LayoutDigits(digits, decimalPoint);
    var all := p.whole + p.fraction;
    if FixedNotation(decimalPoint) && decimalPoint <= 0 {
      LeadingZerosDropped(1 - decimalPoint, digits);
      TrailingZerosDropped(digits, 0);
      assert digits + Zeros(0) == digits;
    } else {
      LeadingZerosDropped(0, all);
      assert Zeros(0) + all == all;
      TrailingZerosDropped(digits, |all| - |digits|);
    }
  }
}
