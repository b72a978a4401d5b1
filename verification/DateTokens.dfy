/**
  Which of three date tokens is the year, the month and the day: s3e of
  internal/news_articles/rails_time.go, with the time-of-day fields beside it.
 */
module DateTokens {
  import opened Decimal
  import opened Scanning
  import opened Wrappers

  /** The fields found so far; an absent field is None. */
  class DateParts {
    var year: Option<int>
    var mon: Option<int>
    var mday: Option<int>
    var hour: Option<int>
    var minute: Option<int>
    var sec: Option<int>
    var nanos: int

    constructor ()
      ensures year == mon == mday == hour == minute == sec == None && nanos == 0
    {
      year, mon, mday, hour, minute, sec, nanos := None, None, None, None, None, None, 0;
    }
  }

  const MAX_INT64 := 0x7fff_ffff_ffff_ffff

  predicate IsSignOrDigit(c: char) { c == '+' || c == '-' || IsDigit(c) }

  predicate IsOther(c: char) { !IsSignOrDigit(c) }

  predicate IsNotDigit(c: char) { !IsDigit(c) }

  predicate IsPlusOrMinus(c: char) { c == '+' || c == '-' }

  /** A quoted or long token, which can only be a year. */
  predicate LooksLikeYear(s: string)
  {
    (s != "" && s[0] == '\'') || |s| > 2
  }

  /** The token from its first sign or digit on. */
  function FromNumber(s: string): string
  {
    s[Run(s, IsOther)..]
  }

  /** True when something other than a signed number follows the first number, as in "15th". */
  predicate HasSuffix(s: string)
  {
    var rest := FromNumber(s);
    var start := if rest != "" && IsPlusOrMinus(rest[0]) then 1 else 0;
    start + Run(rest[start..], IsDigit) < |rest|
  }

  /** A token and the argument position it came from. */
  datatype Token = Token(text: string, origin: Origin)

  datatype Origin = First | Second | Third

  datatype Slots = Slots(year: Option<Token>, month: Option<Token>, day: Option<Token>)

  predicate Is(t: Option<Token>, p: string -> bool)
  {
    t.Some? && p(t.value.text)
  }

  // The five steps of the source, in order.

  function ShiftMissingDay(s: Slots): Slots
  {
    if s.year.Some? && s.month.Some? && s.day.None? then Slots(None, s.year, s.month) else s
  }

  function TakeYearFromDay(s: Slots): Slots
  {
    if s.year.None? && Is(s.day, LooksLikeYear) then Slots(s.day, s.month, None) else s
  }

  function SwapSuffixedYear(s: Slots): Slots
  {
    if Is(s.year, HasSuffix)
    then Slots(s.day, s.month, Some(s.year.value.(text := FromNumber(s.year.value.text))))
    else s
  }

  function RotateYearInMonth(s: Slots): Slots
  {
    if Is(s.month, LooksLikeYear) then Slots(s.month, s.day, s.year) else s
  }

  function SwapYearInDay(s: Slots): Slots
  {
    if Is(s.day, LooksLikeYear) then Slots(s.day, s.month, s.year) else s
  }

  function Reorder(s: Slots): Slots
  {
    SwapYearInDay(RotateYearInMonth(SwapSuffixedYear(TakeYearFromDay(ShiftMissingDay(s)))))
  }

  /** strconv.Atoi of a digit string: zero when empty, held at the largest integer when too long. */
  function Atoi(ds: string): int
    requires AllDigits(ds)
  {
    var n: int := TextNat(ds);
    if n > MAX_INT64 then MAX_INT64 else n
  }

  function DigitRun(s: string): (ds: string)
    ensures AllDigits(ds)
  {
    s[..Run(s, IsDigit)]
  }

  /** The year a token denotes, if it has a sign or a digit. */
  function YearOf(text: string, bc: bool): Option<int>
  {
    var s := FromNumber(text);
    if s == "" then None else
      var year := Atoi(DigitRun(s[Run(s, IsPlusOrMinus)..]));
      var signed := if s[0] == '-' then -year else year;
      Some(if bc then -signed + 1 else signed)
  }

  /** The first number in a token; a number too large for an integer is refused. */
  function FirstNumber(text: string): Option<int>
  {
    var s := text[Run(text, IsNotDigit)..];
    if s == "" || TextNat(DigitRun(s)) > MAX_INT64 then None else Some(TextNat(DigitRun(s)))
  }

  function Labelled(y: Option<string>, m: Option<string>, d: Option<string>): Slots
  {
    Slots(Label(y, First), Label(m, Second), Label(d, Third))
  }

  function Label(s: Option<string>, origin: Origin): Option<Token>
  {
    if s.Some? then Some(Token(s.value, origin)) else None
  }

  function OrElse(found: Option<int>, before: Option<int>): Option<int>
  {
    if found.Some? then found else before
  }

  function Found(t: Option<Token>, read: string -> Option<int>): Option<int>
  {
    if t.Some? then read(t.value.text) else None
  }

  function Texts(s: Slots): (Option<string>, Option<string>, Option<string>)
  {
    (Text(s.year), Text(s.month), Text(s.day))
  }

  function Text(t: Option<Token>): Option<string>
  {
    if t.Some? then Some(t.value.text) else None
  }

  /** The swaps, made one after another on three variables. */
  method OrderTokens(y0: Option<string>, m0: Option<string>, d0: Option<string>)
    returns (y: Option<string>, m: Option<string>, d: Option<string>)
    ensures (y, m, d) == Texts(Reorder(Labelled(y0, m0, d0)))
  {
    hide HasSuffix, FromNumber, LooksLikeYear;
    y, m, d := y0, m0, d0;
    ghost var s := Labelled(y0, m0, d0);
    if y.Some? && m.Some? && d.None? {
      y, m, d := None, y, m;
    }
    s := ShiftMissingDay(s);
    assert Texts(s) == (y, m, d);
    if y.None? && d.Some? && LooksLikeYear(d.value) {
      y, d := d, None;
    }
    s := TakeYearFromDay(s);
    assert Texts(s) == (y, m, d);
    if y.Some? && HasSuffix(y.value) {
      y, d := d, Some(FromNumber(y.value));
    }
    s := SwapSuffixedYear(s);
    assert Texts(s) == (y, m, d);
    if m.Some? && LooksLikeYear(m.value) {
      y, m, d := m, d, y;
    }
    s := RotateYearInMonth(s);
    assert Texts(s) == (y, m, d);
    if d.Some? && LooksLikeYear(d.value) {
      y, d := d, y;
    }
  }

  /** Decides the three fields, then writes what each token denotes. */
  method S3e(parts: DateParts, y0: Option<string>, m0: Option<string>, d0: Option<string>, bc: bool)
    modifies parts`year, parts`mon, parts`mday
    ensures var slots := Reorder(Labelled(y0, m0, d0));
            && parts.year == OrElse(Found(slots.year, s => YearOf(s, bc)), old(parts.year))
            && parts.mon == OrElse(Found(slots.month, FirstNumber), old(parts.mon))
            && parts.mday == OrElse(Found(slots.day, FirstNumber), old(parts.mday))
  {
    hide YearOf, FirstNumber, Reorder;
    var y, m, d := OrderTokens(y0, m0, d0);
    if y.Some? {
      var year := YearOf(y.value, bc);
      if year.Some? {
        parts.year := year;
      }
    }
    if m.Some? {
      var month := FirstNumber(m.value);
      if month.Some? {
        parts.mon := month;
      }
    }
    if d.Some? {
      var day := FirstNumber(d.value);
      if day.Some? {
        parts.mday := day;
      }
    }
  }

  // ----- Conservation -----

  /** How often the token of one argument is in the slots. */
  function Uses(s: Slots, o: Origin): nat
  {
    Use(s.year, o) + Use(s.month, o) + Use(s.day, o)
  }

  function Use(t: Option<Token>, o: Origin): nat
  {
    if t.Some? && t.value.origin == o then 1 else 0
  }

  /** The three arguments, by position. */
  datatype Arguments = Arguments(first: Option<string>, second: Option<string>, third: Option<string>)

  predicate SuffixOf(t: Option<Token>, args: Arguments)
  {
    t.Some? ==>
      var source := match t.value.origin
                    case First => args.first
                    case Second => args.second
                    case Third => args.third;
      source.Some? && |t.value.text| <= |source.value| &&
      t.value.text == source.value[|source.value| - |t.value.text|..]
  }

  /** The slots hold each given argument once, cut to a suffix of itself at most. */
  ghost predicate Holds(s: Slots, args: Arguments)
  {
    && Uses(s, First) == (if args.first.Some? then 1 else 0)
    && Uses(s, Second) == (if args.second.Some? then 1 else 0)
    && Uses(s, Third) == (if args.third.Some? then 1 else 0)
    && SuffixOf(s.year, args) && SuffixOf(s.month, args) && SuffixOf(s.day, args)
  }

  lemma SuffixedYearHolds(s: Slots, args: Arguments)
    requires Holds(s, args)
    ensures Holds(SwapSuffixedYear(s), args)
  {
    hide HasSuffix, IsOther, Run;
    if Is(s.year, HasSuffix) {
      var text := s.year.value.text;
      var cut := FromNumber(text);
      assert cut == text[|text| - |cut|..];
      assert SuffixOf(Some(s.year.value.(text := cut)), args);
      hide SuffixOf;
    }
  }

  lemma SwapsHold(s: Slots, args: Arguments)
    requires Holds(s, args)
    ensures Holds(ShiftMissingDay(s), args)
    ensures Holds(TakeYearFromDay(s), args)
    ensures Holds(RotateYearInMonth(s), args)
    ensures Holds(SwapYearInDay(s), args)
  {
    MissingHolds(args);
    hide LooksLikeYear, SuffixOf;
  }

  lemma MissingHolds(args: Arguments)
    ensures SuffixOf(None, args)
  {
  }

  /**
    Through all swaps no token is lost and none is used twice: the year, the month and
    the day come from different arguments, and each is a suffix of the argument it came from.
   */
  lemma TokensConserved(y: Option<string>, m: Option<string>, d: Option<string>)
    ensures Holds(Reorder(Labelled(y, m, d)), Arguments(y, m, d))
  {
    var s0, args := Labelled(y, m, d), Arguments(y, m, d);
    assert Holds(s0, args);
    hide Holds, ShiftMissingDay, TakeYearFromDay, SwapSuffixedYear, RotateYearInMonth, SwapYearInDay, Labelled;
    SwapsHold(s0, args);
    var s1 := ShiftMissingDay(s0);
    SwapsHold(s1, args);
    var s2 := TakeYearFromDay(s1);
    SuffixedYearHolds(s2, args);
    var s3 := SwapSuffixedYear(s2);
    SwapsHold(s3, args);
    SwapsHold(RotateYearInMonth(s3), args);
  }

  lemma AllDigitsHasNoSuffix(s: string)
    requires AllDigits(s)
    ensures !HasSuffix(s) && FromNumber(s) == s
  {
    assert forall i :: 0 <= i < |s| ==> s[i] in s;
    RunIs(s, IsOther, 0);
    RunIs(s, IsDigit, |s|);
    assert s[0..] == s;
  }

  predicate ShortNumber(s: string) { AllDigits(s) && 0 < |s| <= 2 }

  predicate LongNumber(s: string) { AllDigits(s) && |s| > 2 }

  /** Of three numbers, the only long one is the year wherever it stands. */
  lemma LongNumberIsYear(long: string, a: string, b: string)
    requires LongNumber(long) && ShortNumber(a) && ShortNumber(b)
    ensures Reorder(Labelled(Some(long), Some(a), Some(b))) ==
            Slots(Some(Token(long, First)), Some(Token(a, Second)), Some(Token(b, Third)))
    ensures Reorder(Labelled(Some(a), Some(b), Some(long))) ==
            Slots(Some(Token(long, Third)), Some(Token(b, Second)), Some(Token(a, First)))
    ensures Reorder(Labelled(Some(a), Some(long), Some(b))) ==
            Slots(Some(Token(long, Second)), Some(Token(b, Third)), Some(Token(a, First)))
  {
    AllDigitsHasNoSuffix(long);
    AllDigitsHasNoSuffix(a);
    AllDigitsHasNoSuffix(b);
    hide HasSuffix;
    assert a[0] in a && b[0] in b && long[0] in long;
  }

  /** "2026-08-15" and "15-08-2026" name the same day. */
  lemma YearFirstAgreesWithYearLast(year: string, month: string, day: string)
    requires LongNumber(year) && ShortNumber(month) && ShortNumber(day)
    ensures Texts(Reorder(Labelled(Some(year), Some(month), Some(day)))) ==
            Texts(Reorder(Labelled(Some(day), Some(month), Some(year))))
    ensures YearOf(year, false) == Some(Atoi(year))
  {
    LongNumberIsYear(year, month, day);
    LongNumberIsYear(year, day, month);
    hide Reorder;
    AllDigitsHasNoSuffix(year);
    assert year[0] in year;
    RunIs(year, IsPlusOrMinus, 0);
    assert forall i :: 0 <= i < |year| ==> year[i] in year;
    RunIs(year, IsDigit, |year|);
    assert year[0..] == year && year[..|year|] == year;
  }
}
