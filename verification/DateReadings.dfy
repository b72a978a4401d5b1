/**
  What the pieces of a date text read as, said of the pieces: numbers and years in tokens, the
  clock, zones, and the time that the fields name (internal/news_articles/rails_time.go). The
  readers themselves are in DateTokens, TimeOfDay, ZoneOffset and Calendar.
 */
module DateReadings {
  import opened Calendar
  import opened Decimal
  import opened Scanning
  import opened TimeOfDay
  import opened Wrappers
  import D = DateTokens
  import Z = ZoneOffset

  predicate Digits(s: string) { forall c :: c in s ==> c in "0123456789" }

  predicate Signs(s: string) { forall c :: c in s ==> c in "+-" }

  /** Neither signs nor digits. */
  predicate Wordy(s: string) { forall c :: c in s ==> c !in "+-0123456789" }

  lemma DigitClass(c: char)
    ensures IsDigit(c) <==> c in "0123456789"
    ensures D.IsSignOrDigit(c) <==> c in "+-0123456789"
    ensures D.IsPlusOrMinus(c) <==> c in "+-"
  {
    var digits := "0123456789";
    if IsDigit(c) {
      assert digits[c as int - '0' as int] == c;
    }
    assert forall i :: 0 <= i < |digits| ==> IsDigit(digits[i]);
    var all := "+-0123456789";
    assert all == "+-" + digits;
  }

  lemma DigitsOnly(s: string)
    ensures Digits(s) <==> AllDigits(s)
  {
    hide IsDigit;
    forall c ensures IsDigit(c) <==> c in "0123456789" { DigitClass(c); }
  }

  // ----- Tokens -----

  const LARGEST := 9223372036854775807

  /** The year that a signed number denotes: held at the largest integer, negated, and counted back from 1 before Christ. */
  function YearValue(signs: string, digits: string, bc: bool): int
    requires AllDigits(digits)
  {
    var n: int := if TextNat(digits) <= LARGEST then TextNat(digits) else LARGEST;
    var year := if signs != "" && signs[0] == '-' then 0 - n else n;
    if bc then 1 - year else year
  }

  /** A year token: anything, signs of which the first counts, digits, and anything that does not go on with them. */
  lemma YearReads(lead: string, signs: string, digits: string, tail: string, bc: bool)
    requires Wordy(lead) && Signs(signs) && Digits(digits) && signs + digits != ""
    requires tail != "" ==> tail[0] !in "0123456789" && (digits == "" ==> tail[0] !in "+-")
    ensures AllDigits(digits)
    ensures D.YearOf(lead + (signs + (digits + tail)), bc) == Some(YearValue(signs, digits, bc))
  {
    hide Run, TextNat, Digits, Signs, Wordy, AllDigits, IsDigit, D.FromNumber, D.DigitRun, D.IsPlusOrMinus;
    DigitsOnly(digits);
    StartsNumber(lead, signs, digits, tail);
    AfterSigns(signs, digits, tail);
    NoMoreDigits(tail);
    DigitsRun(digits, tail);
    var s := signs + (digits + tail);
    assert s[0] == if signs != "" then signs[0] else digits[0];
    NotMinus(digits);
  }

  lemma NoMoreDigits(tail: string)
    requires tail != "" ==> tail[0] !in "0123456789"
    ensures tail != "" ==> !IsDigit(tail[0])
  {
    if tail != "" { DigitClass(tail[0]); }
  }

  lemma NotMinus(digits: string)
    requires Digits(digits)
    ensures digits != "" ==> digits[0] != '-'
  {
    assert digits != "" ==> digits[0] in digits;
  }

  lemma StartsNumber(lead: string, signs: string, digits: string, tail: string)
    requires Wordy(lead) && Signs(signs) && Digits(digits) && signs + digits != ""
    ensures D.FromNumber(lead + (signs + (digits + tail))) == signs + (digits + tail) != ""
  {
    hide Run, D.IsSignOrDigit;
    var s := signs + (digits + tail);
    assert s[0] == if signs != "" then signs[0] else digits[0];
    assert (signs != "" ==> signs[0] in signs) && (digits != "" ==> digits[0] in digits);
    forall c ensures D.IsSignOrDigit(c) <==> c in "+-0123456789" { DigitClass(c); }
    SignsAndDigits(s[0]);
    RunBlock(lead, s, D.IsOther);
    CutAfter(lead, s);
  }

  lemma SignsAndDigits(c: char)
    ensures c in "+-0123456789" <==> c in "+-" || c in "0123456789"
  {
    assert "+-0123456789" == "+-" + "0123456789";
  }

  lemma AfterSigns(signs: string, digits: string, tail: string)
    requires Signs(signs) && Digits(digits)
    requires tail != "" ==> digits == "" ==> tail[0] !in "+-"
    ensures var s := signs + (digits + tail); s[Run(s, D.IsPlusOrMinus)..] == digits + tail
  {
    hide Run, D.IsPlusOrMinus;
    forall c ensures D.IsPlusOrMinus(c) <==> c in "+-" { DigitClass(c); }
    var rest := digits + tail;
    assert digits != "" ==> rest[0] == digits[0] && digits[0] in digits;
    RunBlock(signs, rest, D.IsPlusOrMinus);
    CutAfter(signs, rest);
  }

  lemma DigitsRun(digits: string, tail: string)
    requires AllDigits(digits) && (tail != "" ==> !IsDigit(tail[0]))
    ensures D.DigitRun(digits + tail) == digits
  {
    hide Run, AllDigits;
    DigitsBlock(digits, tail);
    CutAfter(digits, tail);
  }

  /** A token without signs and digits names no year. */
  lemma NoYear(text: string, bc: bool)
    requires Wordy(text)
    ensures D.YearOf(text, bc) == None
  {
    hide Run, D.IsSignOrDigit;
    forall c ensures D.IsSignOrDigit(c) <==> c in "+-0123456789" { DigitClass(c); }
    RunIs(text, D.IsOther, |text|);
  }

  /** A month or day token is its first number; one that is no 64-bit integer is refused. */
  lemma NumberReads(lead: string, digits: string, tail: string)
    requires (forall c :: c in lead ==> c !in "0123456789") && Digits(digits) && digits != ""
    requires tail != "" ==> tail[0] !in "0123456789"
    ensures AllDigits(digits)
    ensures D.FirstNumber(lead + (digits + tail)) == if TextNat(digits) <= LARGEST then Some(TextNat(digits)) else None
  {
    hide Run, TextNat, AllDigits, IsDigit;
    DigitsOnly(digits);
    forall c ensures IsDigit(c) <==> c in "0123456789" { DigitClass(c); }
    assert digits[0] in digits;
    RunBlock(lead, digits + tail, D.IsNotDigit);
    CutAfter(lead, digits + tail);
    DigitsRun(digits, tail);
  }

  lemma NoNumber(text: string)
    requires forall c :: c in text ==> c !in "0123456789"
    ensures D.FirstNumber(text) == None
  {
    hide Run, IsDigit;
    forall c ensures IsDigit(c) <==> c in "0123456789" { DigitClass(c); }
    RunIs(text, D.IsNotDigit, |text|);
  }

  /** Something follows the number of a token, as in "15th". */
  lemma SuffixReads(lead: string, sign: string, digits: string, tail: string)
    requires Wordy(lead) && Signs(sign) && |sign| <= 1 && Digits(digits) && digits != ""
    requires tail != "" ==> tail[0] !in "0123456789"
    ensures D.HasSuffix(lead + (sign + (digits + tail))) <==> tail != ""
  {
    hide Run, AllDigits, IsDigit, D.IsSignOrDigit, D.IsPlusOrMinus;
    DigitsOnly(digits);
    forall c
      ensures IsDigit(c) <==> c in "0123456789"
      ensures D.IsPlusOrMinus(c) <==> c in "+-"
    {
      DigitClass(c);
    }
    StartsNumber(lead, sign, digits, tail);
    DigitsBlock(digits, tail);
    assert digits[0] in digits;
    assert (sign + (digits + tail))[|sign|..] == digits + tail;
    DigitIsNoSign(digits[0]);
    assert sign != "" ==> sign[0] in sign && (sign + (digits + tail))[0] == sign[0];
  }

  lemma DigitIsNoSign(c: char)
    requires c in "0123456789"
    ensures c !in "+-"
  {
  }

  /** A token that can only be a year: more than two characters, or a quote in front. */
  predicate YearToken(s: string) { |s| > 2 || (s != "" && s[0] == '\'') }

  predicate PlainToken(s: string) { 1 <= |s| <= 2 && Digits(s) }

  /** Of three tokens, the only quoted or long one is the year wherever it stands, as long as nothing follows its number. */
  lemma YearTokenIsYear(year: string, a: string, b: string)
    requires YearToken(year) && !D.HasSuffix(year) && PlainToken(a) && PlainToken(b)
    ensures D.Texts(D.Reorder(D.Labelled(Some(year), Some(a), Some(b)))) == (Some(year), Some(a), Some(b))
    ensures D.Texts(D.Reorder(D.Labelled(Some(a), Some(b), Some(year)))) == (Some(year), Some(b), Some(a))
    ensures D.Texts(D.Reorder(D.Labelled(Some(a), Some(year), Some(b)))) == (Some(year), Some(b), Some(a))
  {
    hide D.HasSuffix, Digits;
    PlainHasNoSuffix(a);
    PlainHasNoSuffix(b);
  }

  lemma PlainHasNoSuffix(s: string)
    requires PlainToken(s)
    ensures !D.HasSuffix(s) && !YearToken(s)
  {
    hide D.HasSuffix;
    var none: string := "";
    assert none + (none + (s + none)) == s;
    SuffixReads(none, none, s, none);
    assert s[0] in s;
  }

  /** Two tokens in the first places are the month and the day; a year token in the last place of two is the year. */
  lemma TwoTokens(a: string, b: string, year: string)
    requires PlainToken(a) && PlainToken(b) && YearToken(year) && !D.HasSuffix(year)
    ensures D.Texts(D.Reorder(D.Labelled(Some(a), Some(b), None))) == (None, Some(a), Some(b))
    ensures D.Texts(D.Reorder(D.Labelled(None, Some(a), Some(b)))) == (None, Some(a), Some(b))
    ensures D.Texts(D.Reorder(D.Labelled(None, Some(a), Some(year)))) == (Some(year), Some(a), None)
  {
    hide D.HasSuffix, Digits;
    PlainHasNoSuffix(a);
    PlainHasNoSuffix(b);
  }

  // ----- The clock -----

  /** Hours without a half of the day are as written; with one they are on its twelve-hour clock. */
  lemma ClockReads(g: Groups)
    requires GroupDigits(g)
    ensures var c := ReadClock(g);
            && (g.half == "" ==> c.hour == TextNat(g.hour))
            && (g.half != "" ==> (c.hour - TextNat(g.hour)) % 12 == 0 && 0 <= c.hour < 24 &&
                                 (c.hour >= 12 <==> g.half in ["p", "P"]))
            && c.minute == (if g.minute == "" then None else Some(TextNat(g.minute)))
            && c.second == (if g.second == "" then None else Some(TextNat(g.second)))
            && (g.fraction == "" ==> c.nanos == 0)
  {
    hide TextNat, NineDigits;
  }

  // ----- The time that fields name -----

  /** Missing dates come from today, but for a first of the month once a year or a month is given; missing times are zero. */
  ghost predicate Completes(f: Fields, today: Date, d: Date, hour: int, minute: int, sec: int, offset: int)
  {
    && (f.year == Some(d.year) || (f.year == None && d.year == today.year))
    && (f.mon == Some(d.month) || (f.mon == None && d.month == today.month))
    && (f.mday.Some? ==> d.day == f.mday.value)
    && (f.mday == None && f.year == None && f.mon == None ==> d.day == today.day)
    && (f.mday == None && (f.year != None || f.mon != None) ==> d.day == 1)
    && (f.hour == Some(hour) || (f.hour == None && hour == 0))
    && (f.minute == Some(minute) || (f.minute == None && minute == 0))
    && (f.sec == Some(sec) || (f.sec == None && sec == 0))
    && (f.offset == Some(offset) || (f.offset == None && offset == 0))
  }

  /**
    The completed fields name a time exactly when they are in range, with 24:00 only on the hour;
    it is so many seconds after the first of the month at midnight.
   */
  lemma PartsName(f: Fields, today: Date, d: Date, hour: int, minute: int, sec: int, offset: int)
    requires Completes(f, today, d, hour, minute, sec, offset)
    ensures PartsToTime(f, today).Some? <==>
            && 1 <= d.month <= 12 && 1 <= d.day <= 31
            && 0 <= minute <= 59 && 0 <= sec <= 60 && -86400 < offset < 86400
            && (0 <= hour <= 23 || (hour == 24 && minute == 0 && sec == 0 && f.nanos <= 0))
    ensures PartsToTime(f, today).Some? ==>
              var t := PartsToTime(f, today).value;
              && t.nanos == f.nanos
              && t.seconds == DayNumber(d.year, d.month, 1) * 86400 + (d.day - 1) * 86400 +
                              hour * 3600 + minute * 60 + sec - offset
  {
    hide YearStart, DaysBeforeMonth;
  }

  // ----- Zones -----

  /** The hours that a military letter stands for; there is no j. */
  function LetterHours(c: char): int
    requires 'a' <= c <= 'z'
  {
    var n := c as int - 'a' as int;
    if c == 'z' then 0 else if c <= 'i' then n + 1 else if c <= 'm' then n else 12 - n
  }

  lemma LetterZones(c: char)
    requires 'a' <= c <= 'z'
    ensures Z.NamedHalfHours([c]) == if c == 'j' then None else Some(2 * LetterHours(c))
  {
  }

  /** The name stands for these half hours. */
  predicate Stands(name: string, halves: int) { Z.NamedHalfHours(name) == Some(halves) }

  predicate AnHourAhead(standard: string, daylight: string)
  {
    Z.NamedHalfHours(standard).Some? && Stands(daylight, Z.NamedHalfHours(standard).value + 2)
  }

  /** A daylight zone is an hour ahead of its standard zone. */
  lemma DaylightZones()
    ensures AnHourAhead("est", "edt") && AnHourAhead("cst", "cdt") && AnHourAhead("mst", "mdt") && AnHourAhead("pst", "pdt")
  {
  }

  lemma EdgeDaylightZones()
    ensures AnHourAhead("akst", "akdt") && AnHourAhead("ast", "adt")
  {
  }

  lemma NewfoundlandZones()
    ensures Stands("nst", -7) && AnHourAhead("nst", "ndt")
  {
  }

  /** The standard zones, each as twice its hours. */
  lemma AmericanZones()
    ensures Stands("est", 2 * -5) && Stands("eastern", 2 * -5) && Stands("cst", 2 * -6) && Stands("central", 2 * -6)
    ensures Stands("mst", 2 * -7) && Stands("mountain", 2 * -7)
  {
  }

  lemma WesternZones()
    ensures Stands("pst", 2 * -8) && Stands("pacific", 2 * -8) && Stands("akst", 2 * -9) && Stands("alaska", 2 * -9)
  {
  }

  lemma OceanZones()
    ensures Stands("hst", 2 * -10) && Stands("hawaii", 2 * -10) && Stands("ast", 2 * -4)
  {
  }

  lemma EuropeElsewhere(z: string)
    requires Z.EuropeanZone(z).Some?
    ensures Z.AmericanZone(z).None? && |z| > 1
  {
  }

  lemma EastNotAmerican(z: string)
    requires Z.EasternZone(z).Some?
    ensures Z.AmericanZone(z).None? && |z| > 1
  {
  }

  lemma EastNotEuropean(z: string)
    requires Z.EasternZone(z).Some?
    ensures Z.EuropeanZone(z).None?
  {
  }

  lemma EuropeStands(z: string, halves: int)
    requires Z.EuropeanZone(z) == Some(halves)
    ensures Stands(z, halves)
  {
    hide Z.AmericanZone, Z.EuropeanZone;
    EuropeElsewhere(z);
  }

  lemma EastStands(z: string, halves: int)
    requires Z.EasternZone(z) == Some(halves)
    ensures Stands(z, halves)
  {
    hide Z.AmericanZone, Z.EuropeanZone, Z.EasternZone;
    EastNotAmerican(z);
    EastNotEuropean(z);
  }

  lemma GreenwichZones()
    ensures Stands("ut", 0) && Stands("gmt", 0) && Stands("utc", 0) && Stands("wet", 0)
  {
    hide Stands;
    EuropeStands("ut", 0);
    EuropeStands("gmt", 0);
    EuropeStands("utc", 0);
    EuropeStands("wet", 0);
  }

  lemma EuropeanZones()
    ensures Stands("bst", 2 * 1) && Stands("cet", 2 * 1) && Stands("met", 2 * 1) && Stands("eet", 2 * 2)
    ensures Stands("msk", 2 * 3)
  {
    hide Stands;
    EuropeStands("bst", 2);
    EuropeStands("cet", 2);
    EuropeStands("met", 2);
    EuropeStands("eet", 4);
    EuropeStands("msk", 6);
  }

  lemma SummerZones()
    ensures Stands("cest", 2 * (1 + 1)) && Stands("mest", 2 * (1 + 1)) && Stands("eest", 2 * (2 + 1))
  {
    hide Stands;
    EuropeStands("cest", 4);
    EuropeStands("mest", 4);
    EuropeStands("eest", 6);
  }

  lemma AsianZones()
    ensures Stands("ist", 11) && Stands("hkt", 2 * 8) && Stands("sgt", 2 * 8) && Stands("jst", 2 * 9) && Stands("kst", 2 * 9)
  {
    hide Stands;
    EastStands("ist", 11);
    EastStands("hkt", 16);
    EastStands("sgt", 16);
    EastStands("jst", 18);
    EastStands("kst", 18);
  }

  lemma SouthernZones()
    ensures Stands("awst", 2 * 8) && Stands("acst", 19) && Stands("aest", 2 * 10) && Stands("aedt", 2 * (10 + 1))
    ensures Stands("nzst", 2 * 12) && Stands("nzdt", 2 * (12 + 1))
  {
    hide Stands;
    EastStands("awst", 16);
    EastStands("acst", 19);
    EastStands("aest", 20);
    EastStands("aedt", 22);
    EastStands("nzst", 24);
    EastStands("nzdt", 26);
  }

  predicate Lettered(z: string) { forall c :: c in z ==> 'a' <= c <= 'z' }

  lemma NamesAreLetters(z: string)
    requires Z.NamedHalfHours(z).Some?
    ensures Lettered(z)
  {
    hide Z.AmericanZone, Z.EuropeanZone, Z.EasternZone;
    if Z.AmericanZone(z).Some? { AmericanLetters(z); }
    if Z.EuropeanZone(z).Some? { EuropeanLetters(z); }
    if Z.EasternZone(z).Some? { EasternLetters(z); }
  }

  lemma AmericanLetters(z: string)
    requires Z.AmericanZone(z).Some?
    ensures Lettered(z)
  {
  }

  lemma EuropeanLetters(z: string)
    requires Z.EuropeanZone(z).Some?
    ensures Lettered(z)
  {
  }

  lemma EasternLetters(z: string)
    requires Z.EasternZone(z).Some?
    ensures Lettered(z)
  {
  }

  /** A zone name gives its hours, and one more in daylight time. */
  lemma NamedZone(name: string, season: string)
    requires Z.NamedHalfHours(name).Some? && season in ["", " standard time", " daylight time", " dst"]
    ensures Z.Zone(name + season) ==
            Some(Z.NamedHalfHours(name).value * 1800 + if season in [" daylight time", " dst"] then 3600 else 0)
  {
    hide Z.NamedHalfHours;
    NamesAreLetters(name);
    SeasonReads(name, season);
  }

  /** The season is what stands at the end after a space. */
  lemma SeasonReads(name: string, season: string)
    requires Lettered(name) && season in ["", " standard time", " daylight time", " dst"]
    ensures Z.Season(name + season) == (name, if season in [" daylight time", " dst"] then 1 else 0)
  {
    hide Z.HasSuffix, Z.TrimSuffix, Lettered;
    EndsWith(name, season, " standard time");
    EndsWith(name, season, " daylight time");
    EndsWith(name, season, " dst");
    if season == "" {
      assert name + season == name;
    } else {
      Trimmed(name, season);
    }
    assert |" standard time"| == 14 && |" daylight time"| == 14 && |" dst"| == 4;
    assert " standard time"[1] != " daylight time"[1];
  }

  lemma Trimmed(name: string, season: string)
    ensures Z.TrimSuffix(name + season, season) == name
  {
    CutAfter(name, season);
  }

  /** Below a name of letters, a text ends with a season exactly when that is its season. */
  lemma EndsWith(name: string, season: string, other: string)
    requires Lettered(name) && season in ["", " standard time", " daylight time", " dst"]
    requires other in [" standard time", " daylight time", " dst"]
    ensures Z.HasSuffix(name + season, other) <==> season == other
  {
    var z := name + season;
    CutAfter(name, season);
    assert other[0] == ' ';
    forall i | 0 <= i < |name| ensures z[i] != ' ' {
      assert name[i] in name && z[i] == name[i];
    }
    if Z.HasSuffix(z, other) && season != other {
      var n := |z| - |other|;
      assert z[n..][0] == z[n] == ' ';
      assert n >= |name|;
      assert other == season[n - |name|..];
      OneSpace(season, other, n - |name|);
    }
  }

  lemma OneSpace(season: string, other: string, n: nat)
    requires season in ["", " standard time", " daylight time", " dst"]
    requires other in [" standard time", " daylight time", " dst"]
    requires n <= |season| && other == season[n..]
    ensures n == 0 && season == other
  {
    assert other[0] == season[n];
    assert " standard time"[9] == ' ' && " daylight time"[9] == ' ';
    assert |season| - n == |other|;
  }

  // ----- Numeric offsets -----

  /** Ten to the number of digits. */
  function Ten(k: nat): nat { TextNat("1" + Zeros(k)) }

  predicate NonEmptyDigits(s: string) { s != "" && AllDigits(s) }

  /** Hours of one or two digits, with two digits of minutes and of seconds. */
  ghost predicate PackedText(body: string, h: string, m: string, s: string, n: int)
  {
    && AllDigits(h) && 1 <= |h| <= 2 && AllDigits(m) && AllDigits(s)
    && |m| in {0, 2} && |s| in {0, 2} && (m == "" ==> s == "")
    && body == h + m + s
    && n == TextNat(h) * 3600 + TextNat(m) * 60 + TextNat(s)
  }

  /** Hours, minutes and perhaps seconds between colons. */
  ghost predicate ColonText(body: string, h: string, m: string, s: string, n: int)
  {
    && NonEmptyDigits(h) && NonEmptyDigits(m) && AllDigits(s)
    && body == h + ":" + m + (if s == "" then "" else ":" + s)
    && n == TextNat(h) * 3600 + TextNat(m) * 60 + TextNat(s)
  }

  /** Decimal hours, cut to whole seconds. */
  ghost predicate DecimalHours(body: string, h: string, point: char, f: string, n: int)
  {
    && NonEmptyDigits(h) && (point == '.' || point == ',') && NonEmptyDigits(f)
    && body == h + [point] + f && AllDigits(h + f)
    && n * Ten(|f|) <= TextNat(h + f) * 3600 < (n + 1) * Ten(|f|)
  }

  /** The offset that an unsigned text gives, if it has one of the three forms. */
  ghost predicate Gives(body: string, n: int)
  {
    || (exists h, m, s :: PackedText(body, h, m, s, n))
    || (exists h, m, s :: ColonText(body, h, m, s, n))
    || (exists h, point, f :: DecimalHours(body, h, point, f, n))
  }

  lemma {:induction false} PowerOfTen(k: nat)
    ensures Z.PowTen(k) == Ten(k)
    decreases k
  {
    hide TextNat;
    if k == 0 {
      assert "1" + Zeros(0) == "" + ['1'];
      TextNatSnoc("", '1');
      assert TextNat("") == 0 by { EmptyNumber(); }
    } else {
      PowerOfTen(k - 1);
      ZerosSnoc(k - 1);
      assert "1" + Zeros(k) == ("1" + Zeros(k - 1)) + ['0'];
      TextNatSnoc("1" + Zeros(k - 1), '0');
    }
  }

  lemma EmptyNumber()
    ensures TextNat("") == 0
  {
  }

  lemma PackedGives(h: string, m: string, s: string)
    requires AllDigits(h) && 1 <= |h| <= 2 && AllDigits(m) && AllDigits(s)
    requires |m| in {0, 2} && |s| in {0, 2} && (m == "" ==> s == "")
    ensures Z.Unsigned(h + m + s) == Some(TextNat(h) * 3600 + TextNat(m) * 60 + TextNat(s))
  {
    hide TextNat, AllDigits, Z.Packed, Z.Unsigned;
    var body := h + m + s;
    Z.DigitsAppend(h, m);
    Z.DigitsAppend(h + m, s);
    EmptyNumber();
    DigitsGive(body);
    if s != "" {
      PackedSeconds(h, m, s);
    } else if m != "" {
      assert body == h + m;
      PackedMinutes(h, m);
    } else {
      assert body == h;
      PackedHours(h);
    }
  }

  lemma DigitsGive(body: string)
    requires NonEmptyDigits(body)
    ensures Z.Unsigned(body) == Z.Packed(body)
  {
    hide TextNat, Run, Z.Packed, Z.Colons, Z.Fraction, AllDigits;
    DigitsBlock(body, "");
    assert body + "" == body && body[..|body|] == body;
  }

  lemma PackedSeconds(h: string, m: string, s: string)
    requires AllDigits(h) && 1 <= |h| <= 2 && AllDigits(m) && |m| == 2 && AllDigits(s) && |s| == 2
    ensures AllDigits(h + m + s)
    ensures Z.Packed(h + m + s) == Some(TextNat(h) * 3600 + TextNat(m) * 60 + TextNat(s))
  {
    hide TextNat;
    Z.DigitsAppend(h, m);
    Z.DigitsAppend(h + m, s);
    hide AllDigits;
    LastFour(h, m, s);
    SixPacked(h + m + s);
  }

  lemma LastFour(h: string, m: string, s: string)
    requires |m| == 2 && |s| == 2
    ensures var body := h + m + s;
            body[..|body| - 4] == h && body[|body| - 4..|body| - 2] == m && body[|body| - 2..] == s
  {
  }

  lemma SixPacked(body: string)
    requires 5 <= |body| <= 6 && AllDigits(body)
    requires AllDigits(body[..|body| - 4]) && AllDigits(body[|body| - 4..|body| - 2]) && AllDigits(body[|body| - 2..])
    ensures Z.Packed(body) == Some(TextNat(body[..|body| - 4]) * 3600 + TextNat(body[|body| - 4..|body| - 2]) * 60 +
                                   TextNat(body[|body| - 2..]))
  {
    hide TextNat, AllDigits;
  }

  lemma PackedMinutes(h: string, m: string)
    requires AllDigits(h) && 1 <= |h| <= 2 && AllDigits(m) && |m| == 2
    ensures AllDigits(h + m) && Z.Packed(h + m) == Some(TextNat(h) * 3600 + TextNat(m) * 60)
  {
    hide TextNat;
    Z.DigitsAppend(h, m);
    hide AllDigits;
    assert (h + m)[..|h|] == h && (h + m)[|h|..] == m;
  }

  lemma PackedHours(h: string)
    requires AllDigits(h) && 1 <= |h| <= 2
    ensures Z.Packed(h) == Some(TextNat(h) * 3600)
  {
    hide TextNat, AllDigits;
  }

  lemma ColonGives(h: string, m: string, s: string)
    requires NonEmptyDigits(h) && NonEmptyDigits(m) && AllDigits(s)
    ensures Z.Unsigned(h + ":" + m + (if s == "" then "" else ":" + s)) ==
            Some(TextNat(h) * 3600 + TextNat(m) * 60 + TextNat(s))
  {
    hide TextNat, Run, Z.Packed, Z.Fraction, Z.Colons, AllDigits;
    var more := if s == "" then "" else ":" + s;
    var rest := m + more;
    assert h + ":" + m + more == h + (":" + rest);
    DigitsBlock(h, ":" + rest);
    CutAfter(h, ":" + rest);
    assert (h + (":" + rest))[|h| + 1..] == rest;
    ColonsGive(TextNat(h), m, s);
  }

  lemma ColonsGive(hours: nat, m: string, s: string)
    requires NonEmptyDigits(m) && AllDigits(s)
    ensures Z.Colons(hours, m + (if s == "" then "" else ":" + s)) == Some(hours * 3600 + TextNat(m) * 60 + TextNat(s))
  {
    hide TextNat, Run, AllDigits;
    EmptyNumber();
    var more := if s == "" then "" else ":" + s;
    DigitsBlock(m, more);
    CutAfter(m, more);
    assert s == "" ==> m + more == m;
    assert s != "" ==> (m + more)[|m| + 1..] == s;
  }

  lemma DecimalGives(h: string, point: char, f: string)
    requires NonEmptyDigits(h) && (point == '.' || point == ',') && NonEmptyDigits(f)
    ensures AllDigits(h + f) && Ten(|f|) > 0
    ensures Z.Unsigned(h + [point] + f) == Some(TextNat(h + f) * 3600 / Ten(|f|))
  {
    hide TextNat, Run, Z.Packed, Z.Colons, AllDigits, Z.PowTen;
    Z.DigitsAppend(h, f);
    PowerOfTen(|f|);
    var body := h + ([point] + f);
    assert h + [point] + f == body;
    DigitsBlock(h, [point] + f);
    CutAfter(h, [point] + f);
    assert body[|h| + 1..] == f;
  }

  lemma TenPositive(k: nat)
    ensures Ten(k) > 0
  {
    PowerOfTen(k);
  }

  lemma Quotients(a: nat, d: nat, n: int)
    requires d > 0
    ensures n == a / d <==> n * d <= a < (n + 1) * d
  {
    var q := a / d;
    assert q * d <= a < (q + 1) * d;
    if n < q {
      assert (n + 1) * d <= q * d;
    } else if n > q {
      assert (q + 1) * d <= n * d;
    }
  }

  lemma GivesIsRead(body: string, n: int)
    requires Gives(body, n)
    ensures Z.Unsigned(body).Some? && Z.Unsigned(body).value == n
  {
    hide TextNat, Z.Unsigned, AllDigits, Ten;
    if h, m, s :| PackedText(body, h, m, s, n) {
      PackedGives(h, m, s);
    } else if h, m, s :| ColonText(body, h, m, s, n) {
      ColonGives(h, m, s);
    } else {
      var h, point, f :| DecimalHours(body, h, point, f, n);
      DecimalGives(h, point, f);
      TenPositive(|f|);
      Quotients(TextNat(h + f) * 3600, Ten(|f|), n);
    }
  }

  /** A text whose digits are followed by a point, a colon or nothing splits there. */
  lemma ReadIsGiven(body: string)
    requires Z.Unsigned(body).Some?
    ensures Gives(body, Z.Unsigned(body).value)
  {
    hide TextNat, Run, AllDigits, Z.Packed, Z.Colons, Z.Fraction, Gives;
    var i := Run(body, IsDigit);
    Z.RunDigits(body);
    var h := body[..i];
    if i == |body| {
      assert h == body;
      PackedSplits(body);
    } else if body[i] == ',' || body[i] == '.' {
      assert body == h + [body[i]] + body[i + 1..];
      FractionSplits(h, body[i], body[i + 1..]);
    } else {
      assert body == h + ":" + body[i + 1..];
      ColonsSplit(h, body[i + 1..]);
    }
  }

  lemma PackedSplits(body: string)
    requires NonEmptyDigits(body) && Z.Packed(body).Some?
    ensures Gives(body, Z.Packed(body).value)
  {
    hide TextNat, AllDigits, Gives;
    var n := |body|;
    NothingLeft();
    if n <= 2 {
      EmptyNumber();
      SplitGives(body, body, "", "", Z.Packed(body).value);
    } else if n <= 4 {
      EmptyNumber();
      DigitsSlice(body, 0, n - 2);
      DigitsSlice(body, n - 2, n);
      assert body[0..n - 2] == body[..n - 2] && body[n - 2..n] == body[n - 2..];
      SplitGives(body, body[..n - 2], body[n - 2..], "", Z.Packed(body).value);
    } else {
      DigitsSlice(body, 0, n - 4);
      DigitsSlice(body, n - 4, n - 2);
      DigitsSlice(body, n - 2, n);
      assert body[0..n - 4] == body[..n - 4] && body[n - 2..n] == body[n - 2..];
      SplitGives(body, body[..n - 4], body[n - 4..n - 2], body[n - 2..], Z.Packed(body).value);
    }
  }

  lemma DigitsSlice(s: string, i: nat, j: nat)
    requires AllDigits(s) && i <= j <= |s|
    ensures AllDigits(s[i..j])
  {
  }

  lemma SplitGives(body: string, h: string, m: string, s: string, n: int)
    requires PackedText(body, h, m, s, n)
    ensures Gives(body, n)
  {
  }

  lemma FractionSplits(h: string, point: char, f: string)
    requires NonEmptyDigits(h) && (point == '.' || point == ',') && Z.Fraction(h, f).Some?
    ensures Gives(h + [point] + f, Z.Fraction(h, f).value)
  {
    hide TextNat, Z.PowTen, Ten, AllDigits;
    Z.DigitsAppend(h, f);
    PowerOfTen(|f|);
    TenPositive(|f|);
    Quotients(TextNat(h + f) * 3600, Ten(|f|), Z.Fraction(h, f).value);
    assert DecimalHours(h + [point] + f, h, point, f, Z.Fraction(h, f).value);
  }

  lemma ColonsSplit(h: string, rest: string)
    requires NonEmptyDigits(h) && Z.Colons(TextNat(h), rest).Some?
    ensures Gives(h + ":" + rest, Z.Colons(TextNat(h), rest).value)
  {
    hide TextNat, AllDigits, Z.Colons;
    var m, s := ColonParts(TextNat(h), rest);
    Associates(h, m, if s == "" then "" else ":" + s);
    assert ColonText(h + ":" + rest, h, m, s, Z.Colons(TextNat(h), rest).value);
  }

  lemma Associates(h: string, m: string, more: string)
    ensures h + ":" + m + more == h + ":" + (m + more)
  {
  }

  lemma ColonParts(hours: nat, rest: string) returns (m: string, s: string)
    requires Z.Colons(hours, rest).Some?
    ensures NonEmptyDigits(m) && AllDigits(s) && rest == m + (if s == "" then "" else ":" + s)
    ensures Z.Colons(hours, rest).value == hours * 3600 + TextNat(m) * 60 + TextNat(s)
  {
    hide TextNat, Run, AllDigits;
    EmptyNumber();
    NothingLeft();
    var j := Run(rest, IsDigit);
    Z.RunDigits(rest);
    m := rest[..j];
    if j == |rest| {
      s := "";
      assert m == rest;
    } else {
      s := rest[j + 1..];
      assert rest == m + (":" + s);
    }
  }

  lemma NothingLeft()
    ensures AllDigits("")
  {
  }

  /** A signed number is the offset it spells, negated after a minus; nothing else is a numeric offset. */
  lemma NumericReads(z: string, n: int)
    ensures Z.Numeric(z) == Some(n) <==>
            z != "" && ((z[0] == '+' && Gives(z[1..], n)) || (z[0] == '-' && Gives(z[1..], -n)))
  {
    hide Z.Unsigned, Gives;
    if z != "" {
      if Z.Unsigned(z[1..]).Some? { ReadIsGiven(z[1..]); }
      if Gives(z[1..], n) { GivesIsRead(z[1..], n); }
      if Gives(z[1..], -n) { GivesIsRead(z[1..], -n); }
    }
  }

  /** A numeric offset may stand after a name of Greenwich time. */
  lemma NumericZone(prefix: string, z: string)
    requires prefix in ["", "gmt", "utc", "ut"] && z != "" && (z[0] == '+' || z[0] == '-') && ' ' !in z
    ensures Z.Zone(prefix + z) == Z.Numeric(z)
  {
    hide Z.NamedHalfHours, Z.Numeric, Z.Season;
    var text := prefix + z;
    NoSeason(text);
    assert text[|prefix|] == z[0] && text[|prefix|] in text;
    if Z.NamedHalfHours(text).Some? {
      NamesAreLetters(text);
    }
    Prefixes(prefix, z);
  }

  lemma NoSeason(z: string)
    requires ' ' !in z
    ensures Z.Season(z) == (z, 0)
  {
    forall other | other in [" standard time", " daylight time", " dst"] ensures !Z.HasSuffix(z, other) {
      assert other[0] == ' ';
      assert forall i :: 0 <= i < |z| ==> z[i..][0] in z;
    }
  }

  lemma Prefixes(prefix: string, z: string)
    requires prefix in ["", "gmt", "utc", "ut"] && z != "" && (z[0] == '+' || z[0] == '-')
    ensures Z.TrimPrefix(Z.TrimPrefix(Z.TrimPrefix(prefix + z, "gmt"), "utc"), "ut") == z
  {
    assert prefix == "" ==> prefix + z == z;
    assert prefix != "" ==> (prefix + z)[|prefix|..] == z;
    assert z[0] != "gmt"[0] && z[0] != "utc"[0] && z[0] != "ut"[0];
    assert (prefix + z)[|prefix|] == z[0];
    assert "utc"[0] != "gmt"[0] && "utc"[1] == "ut"[1] && "utc"[2] == 'c';
  }
}
