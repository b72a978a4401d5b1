/**
  Zone names and numeric offsets: zoneOffsetSeconds of internal/news_articles/rails_time.go,
  on text that is already lower-case and trimmed.
 */
module ZoneOffset {
  import opened Decimal
  import opened Scanning
  import opened Wrappers

  // Half hours east of UTC of the known zone names, by region.

  function AmericanZone(name: string): Option<int>
  {
    if name in ["est", "cdt", "eastern"] then Some(-10)
    else if name in ["edt", "ast"] then Some(-8)
    else if name in ["cst", "mdt", "central"] then Some(-12)
    else if name in ["mst", "pdt", "mountain"] then Some(-14)
    else if name in ["pst", "akdt", "pacific"] then Some(-16)
    else if name in ["akst", "alaska"] then Some(-18)
    else if name in ["hst", "hawaii"] then Some(-20)
    else if name in ["adt"] then Some(-6)
    else if name in ["nst"] then Some(-7)
    else if name in ["ndt"] then Some(-5)
    else None
  }

  function EuropeanZone(name: string): Option<int>
  {
    if name in ["ut", "gmt", "utc", "wet"] then Some(0)
    else if name in ["bst", "cet", "met"] then Some(2)
    else if name in ["cest", "mest", "eet"] then Some(4)
    else if name in ["eest", "msk"] then Some(6)
    else None
  }

  function EasternZone(name: string): Option<int>
  {
    if name in ["ist"] then Some(11)
    else if name in ["hkt", "sgt", "awst"] then Some(16)
    else if name in ["jst", "kst"] then Some(18)
    else if name in ["acst"] then Some(19)
    else if name in ["aest"] then Some(20)
    else if name in ["aedt"] then Some(22)
    else if name in ["nzst"] then Some(24)
    else if name in ["nzdt"] then Some(26)
    else None
  }

  /** The military letters. */
  function LetterZone(c: char): Option<int>
  {
    match c
    case 'a' => Some(2)
    case 'b' => Some(4)
    case 'c' => Some(6)
    case 'd' => Some(8)
    case 'e' => Some(10)
    case 'f' => Some(12)
    case 'g' => Some(14)
    case 'h' => Some(16)
    case 'i' => Some(18)
    case 'k' => Some(20)
    case 'l' => Some(22)
    case 'm' => Some(24)
    case 'n' => Some(-2)
    case 'o' => Some(-4)
    case 'p' => Some(-6)
    case 'q' => Some(-8)
    case 'r' => Some(-10)
    case 's' => Some(-12)
    case 't' => Some(-14)
    case 'u' => Some(-16)
    case 'v' => Some(-18)
    case 'w' => Some(-20)
    case 'x' => Some(-22)
    case 'y' => Some(-24)
    case 'z' => Some(0)
    case _ => None
  }

  function NamedHalfHours(name: string): Option<int>
  {
    if |name| == 1 then LetterZone(name[0])
    else if AmericanZone(name).Some? then AmericanZone(name)
    else if EuropeanZone(name).Some? then EuropeanZone(name)
    else EasternZone(name)
  }

  predicate HasSuffix(s: string, suffix: string)
  {
    |suffix| <= |s| && s[|s| - |suffix|..] == suffix
  }

  function TrimSuffix(s: string, suffix: string): string
  {
    if HasSuffix(s, suffix) then s[..|s| - |suffix|] else s
  }

  function TrimPrefix(s: string, prefix: string): string
  {
    if prefix <= s then s[|prefix|..] else s
  }

  /** The zone without its season, and the hours the season adds. */
  function Season(z: string): (string, int)
  {
    if HasSuffix(z, " standard time") then (TrimSuffix(z, " standard time"), 0)
    else if HasSuffix(z, " daylight time") then (TrimSuffix(z, " daylight time"), 1)
    else if HasSuffix(z, " dst") then (TrimSuffix(z, " dst"), 1)
    else (z, 0)
  }

  function Zone(z: string): Option<int>
  {
    var (name, dst) := Season(z);
    match NamedHalfHours(name)
    case Some(halves) => Some(halves * 1800 + dst * 3600)
    case None => Numeric(TrimPrefix(TrimPrefix(TrimPrefix(name, "gmt"), "utc"), "ut"))
  }

  function PowTen(k: nat): nat
    ensures PowTen(k) > 0
  {
    if k == 0 then 1 else 10 * PowTen(k - 1)
  }

  /** A sign, then an unsigned offset. */
  function Numeric(z: string): Option<int>
  {
    if z == "" || (z[0] != '+' && z[0] != '-') then None else
      match Unsigned(z[1..])
      case None => None
      case Some(n) => Some(if z[0] == '-' then 0 - n else n)
  }

  /** "h", "hh", "hhmm", "hhmmss", "h:m", "h:m:s" or hours with a decimal fraction. */
  function Unsigned(body: string): Option<nat>
  {
    var i := Run(body, IsDigit);
    RunDigits(body);
    var digits := body[..i];
    if i == 0 then None
    else if i == |body| then Packed(digits)
    else if body[i] == ',' || body[i] == '.' then Fraction(digits, body[i + 1..])
    else if body[i] == ':' then Colons(TextNat(digits), body[i + 1..])
    else None
  }

  lemma RunDigits(s: string)
    ensures AllDigits(s[..Run(s, IsDigit)])
  {
  }

  lemma DigitsAppend(a: string, b: string)
    requires AllDigits(a) && AllDigits(b)
    ensures AllDigits(a + b)
  {
  }

  /** Decimal hours, cut to whole seconds. */
  function Fraction(digits: string, fraction: string): Option<nat>
    requires AllDigits(digits)
  {
    if fraction == "" || !AllDigits(fraction) then None
    else
      DigitsAppend(digits, fraction);
      Some(Quotient(TextNat(digits + fraction) * 3600, PowTen(|fraction|)))
  }

  function Quotient(n: nat, d: nat): nat
    requires d > 0
  {
    n / d
  }

  function Colons(hours: nat, rest: string): Option<nat>
  {
    var j := Run(rest, IsDigit);
    if j == 0 then None
    else if j == |rest| then Some(hours * 3600 + TextNat(rest) * 60)
    else if rest[j] != ':' || j + 1 == |rest| || !AllDigits(rest[j + 1..]) then None
    else Some(hours * 3600 + TextNat(rest[..j]) * 60 + TextNat(rest[j + 1..]))
  }

  function Packed(digits: string): Option<nat>
    requires AllDigits(digits)
  {
    var n := |digits|;
    if n <= 2 then Some(TextNat(digits) * 3600)
    else if n <= 4 then Some(TextNat(digits[..n - 2]) * 3600 + TextNat(digits[n - 2..]) * 60)
    else if n <= 6 then
      Some(TextNat(digits[..n - 4]) * 3600 + TextNat(digits[n - 4..n - 2]) * 60 + TextNat(digits[n - 2..]))
    else None
  }

  /** The sign negates the offset, for every way of writing it. */
  lemma SignNegates(body: string)
    ensures Numeric("+" + body).Some? <==> Numeric("-" + body).Some?
    ensures Numeric("+" + body).Some? ==> Numeric("-" + body).value == -Numeric("+" + body).value
  {
    hide Unsigned;
    assert ("+" + body)[1..] == body && ("-" + body)[1..] == body;
  }

  lemma ColonForm(hours: string, minutes: string)
    requires AllDigits(hours) && hours != ""
    requires AllDigits(minutes) && minutes != ""
    ensures Unsigned(hours + (":" + minutes)) == Some(TextNat(hours) * 3600 + TextNat(minutes) * 60)
  {
    hide TextNat, Run, Packed, Fraction, AllDigits;
    var long := hours + (":" + minutes);
    DigitsBlock(hours, ":" + minutes);
    DigitsBlock(minutes, "");
    assert minutes + "" == minutes;
    assert long[..|hours|] == hours && long[|hours| + 1..] == minutes;
  }

  lemma PackedForm(hours: string, minutes: string)
    requires AllDigits(hours) && 1 <= |hours| <= 2
    requires AllDigits(minutes) && |minutes| == 2
    ensures Unsigned(hours + minutes) == Some(TextNat(hours) * 3600 + TextNat(minutes) * 60)
  {
    hide TextNat, Run, Colons, Fraction, AllDigits;
    var short := hours + minutes;
    DigitsAppend(hours, minutes);
    DigitsBlock(short, "");
    assert short + "" == short && short[..|short|] == short;
    assert short[..|hours|] == hours && short[|hours|..] == minutes;
  }

  /** The "+hh:mm" and "+hhmm" spellings, one or two digits of hours, give one offset. */
  lemma ColonIsOptional(sign: string, hours: string, minutes: string)
    requires sign == "+" || sign == "-"
    requires AllDigits(hours) && 1 <= |hours| <= 2
    requires AllDigits(minutes) && |minutes| == 2
    ensures Numeric(sign + (hours + (":" + minutes))) == Numeric(sign + (hours + minutes))
    ensures var n: int := TextNat(hours) * 3600 + TextNat(minutes) * 60;
            Numeric(sign + (hours + minutes)) == Some(if sign == "-" then 0 - n else n)
  {
    hide Unsigned, TextNat, AllDigits;
    ColonForm(hours, minutes);
    PackedForm(hours, minutes);
    assert (sign + (hours + (":" + minutes)))[1..] == hours + (":" + minutes);
    assert (sign + (hours + minutes))[1..] == hours + minutes;
  }
}
