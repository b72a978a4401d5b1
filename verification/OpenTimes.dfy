/**
  The half-hour slots of a schedule that go into the search index: openTimes of
  internal/searchindex/service.go.
 */
module OpenTimes {
  import opened Decimal
  import opened Scanning
  import opened Wrappers

  /** Times are written HHMM; a missing time means the day is skipped. */
  datatype ScheduleDay = ScheduleDay(day: string, opensAt: Option<int>, closesAt: Option<int>)

  /** The labels, or the first day name that is not a weekday. */
  datatype Outcome = InvalidDay(day: string) | Times(labels: seq<string>)

  // Integer division that cuts toward zero, with the remainder that belongs to it.

  function Quo(a: int, b: nat): int
    requires b > 0
  {
    if a < 0 then -(-a / b) else a / b
  }

  function Rem(a: int, b: nat): int
    requires b > 0
  {
    if a < 0 then -(-a % b) else a % b
  }

  function Abbreviation(day: string): Option<string>
  {
    match day
    case "Monday" => Some("M")
    case "Tuesday" => Some("Tu")
    case "Wednesday" => Some("W")
    case "Thursday" => Some("Th")
    case "Friday" => Some("F")
    case "Saturday" => Some("Sa")
    case "Sunday" => Some("Su")
    case _ => None
  }

  /** Minutes since midnight of an HHMM time. */
  function Minutes(time: int): int { Quo(time, 100) * 60 + Rem(time, 100) }

  /** Opening times are rounded down to a half hour, closing times up. */
  function FirstSlot(opensAt: int): int { Quo(Minutes(opensAt), 30) * 30 }

  function SlotsEnd(closesAt: int): int { Quo(Minutes(closesAt) + 29, 30) * 30 }

  function Padded(i: int): string
  {
    if 0 <= i < 10 then "0" + IntText(i) else IntText(i)
  }

  function Label(abbreviation: string, minute: int): string
  {
    abbreviation + ("-" + (IntText(Rem(Quo(minute, 60), 24)) + (":" + Padded(Rem(minute, 60)))))
  }

  function Labels(abbreviation: string, minute: int, end: int): seq<string>
    decreases end - minute
  {
    if minute >= end then [] else [Label(abbreviation, minute)] + Labels(abbreviation, minute + 30, end)
  }

  function DayTimes(d: ScheduleDay): Outcome
  {
    if d.opensAt.None? || d.closesAt.None? then Times([])
    else if FirstSlot(d.opensAt.value) >= SlotsEnd(d.closesAt.value) then Times([])
    else
      match Abbreviation(d.day)
      case None => InvalidDay(d.day)
      case Some(a) => Times(Labels(a, FirstSlot(d.opensAt.value), SlotsEnd(d.closesAt.value)))
  }

  function ScheduleTimes(days: seq<ScheduleDay>): Outcome
  {
    if days == [] then Times([]) else
      match DayTimes(days[0])
      case InvalidDay(day) => InvalidDay(day)
      case Times(labels) =>
        After(labels, ScheduleTimes(days[1..]))
  }

  /** A day with opening hours that reach into some slot. */
  predicate HasSlot(d: ScheduleDay)
  {
    d.opensAt.Some? && d.closesAt.Some? && FirstSlot(d.opensAt.value) < SlotsEnd(d.closesAt.value)
  }

  predicate Unreadable(d: ScheduleDay) { HasSlot(d) && Abbreviation(d.day).None? }

  /** Labels are refused exactly for a day that is no weekday and has a slot. */
  lemma {:induction false} RefusedExactly(days: seq<ScheduleDay>)
    ensures ScheduleTimes(days).InvalidDay? <==> exists d :: d in days && Unreadable(d)
    decreases |days|
  {
    hide Abbreviation, FirstSlot, SlotsEnd, Labels;
    if days != [] {
      RefusedExactly(days[1..]);
      assert days[0] in days && forall d :: d in days <==> d == days[0] || d in days[1..];
      assert DayTimes(days[0]).InvalidDay? <==> Unreadable(days[0]);
    }
  }

  /** The source's loops: days, then minutes in steps of thirty, appending one label a step. */
  method OpenTimesOf(days: seq<ScheduleDay>) returns (outcome: Outcome)
    ensures outcome == ScheduleTimes(days)
  {
    hide Abbreviation, FirstSlot, SlotsEnd, Label, Labels;
    var result := [];
    for i := 0 to |days|
      invariant ScheduleTimes(days) == After(result, ScheduleTimes(days[i..]))
    {
      var d := days[i];
      NextDay(result, days, i);
      if d.opensAt.None? || d.closesAt.None? {
        continue;
      }
      var minute, end := FirstSlot(d.opensAt.value), SlotsEnd(d.closesAt.value);
      ghost var before, first := result, minute;
      while minute < end
        invariant minute == first || (first < end && Abbreviation(d.day).Some?)
        invariant result + LabelsOn(d.day, minute, end) == before + LabelsOn(d.day, first, end)
        decreases end - minute
      {
        var abbreviation := Abbreviation(d.day);
        if abbreviation.None? {
          return InvalidDay(d.day);
        }
        FirstLabel(abbreviation.value, minute, end);
        AppendAssoc(result, Label(abbreviation.value, minute), Labels(abbreviation.value, minute + 30, end));
        result := result + [Label(abbreviation.value, minute)];
        minute := minute + 30;
      }
      NoLabels(d.day, minute, end);
    }
    return Times(result);
  }

  ghost function LabelsOn(day: string, minute: int, end: int): seq<string>
  {
    if Abbreviation(day).Some? then Labels(Abbreviation(day).value, minute, end) else []
  }

  lemma FirstLabel(a: string, minute: int, end: int)
    requires minute < end
    ensures Labels(a, minute, end) == [Label(a, minute)] + Labels(a, minute + 30, end)
  {
  }

  lemma NoLabels(day: string, minute: int, end: int)
    requires minute >= end
    ensures LabelsOn(day, minute, end) == []
    ensures forall labels: seq<string> :: labels + LabelsOn(day, minute, end) == labels
  {
  }

  lemma AppendAssoc(before: seq<string>, x: string, rest: seq<string>)
    ensures before + ([x] + rest) == (before + [x]) + rest
  {
  }

  lemma NextDay(result: seq<string>, days: seq<ScheduleDay>, i: nat)
    requires i < |days|
    ensures After(result, ScheduleTimes(days[i..])) ==
            match DayTimes(days[i])
            case InvalidDay(day) => InvalidDay(day)
            case Times(labels) => After(result + labels, ScheduleTimes(days[i + 1..]))
    ensures result + [] == result
  {
    assert days[i..][0] == days[i] && days[i..][1..] == days[i + 1..];
    if DayTimes(days[i]).Times? {
      AfterDay(result, DayTimes(days[i]), ScheduleTimes(days[i + 1..]));
    }
  }

  lemma AfterDay(labels: seq<string>, day: Outcome, rest: Outcome)
    requires day.Times?
    ensures After(labels, After(day.labels, rest)) == After(labels + day.labels, rest)
    ensures labels + [] == labels
  {
    if rest.Times? {
      assert labels + (day.labels + rest.labels) == (labels + day.labels) + rest.labels;
    }
  }

  function After(labels: seq<string>, rest: Outcome): Outcome
  {
    match rest case InvalidDay(day) => InvalidDay(day) case Times(more) => Times(labels + more)
  }

  // ----- What a day's slots cover -----

  /** A time of day as a clock writes it, 2400 being the end of the day. */
  predicate ClockTime(time: int)
  {
    0 <= time <= 2400 && time % 100 < 60
  }

  /** A weekday with an opening time before its closing time. */
  predicate ValidDay(d: ScheduleDay)
  {
    && d.opensAt.Some? && d.closesAt.Some?
    && ClockTime(d.opensAt.value) && ClockTime(d.closesAt.value)
    && d.opensAt.value < d.closesAt.value
    && Abbreviation(d.day).Some?
  }

  predicate OpenAt(d: ScheduleDay, minute: int)
    requires ValidDay(d)
  {
    Minutes(d.opensAt.value) <= minute < Minutes(d.closesAt.value)
  }

  /** The half-hour slot from start meets the opening hours of the day. */
  ghost predicate Meets(d: ScheduleDay, start: int)
    requires ValidDay(d)
  {
    exists minute :: start <= minute < start + 30 && OpenAt(d, minute)
  }

  /** The starts of the emitted slots. */
  ghost predicate Emitted(d: ScheduleDay, start: int)
    requires ValidDay(d)
  {
    start % 30 == 0 && FirstSlot(d.opensAt.value) <= start < SlotsEnd(d.closesAt.value)
  }

  lemma TimeBounds(opensAt: int, closesAt: int)
    requires ClockTime(opensAt) && ClockTime(closesAt) && opensAt < closesAt
    ensures var o, c := Minutes(opensAt), Minutes(closesAt);
            var first, end := FirstSlot(opensAt), SlotsEnd(closesAt);
            && 0 <= o < c <= 1440
            && first % 30 == 0 && end % 30 == 0
            && 0 <= first <= o < first + 30 && c <= end < c + 30 && end <= 1440
  {
    hide Minutes, FirstSlot, SlotsEnd, ClockTime;
    ClockMinutes(opensAt, closesAt);
    RoundedDown(opensAt);
    RoundedUp(closesAt);
  }

  lemma ClockMinutes(opensAt: int, closesAt: int)
    requires ClockTime(opensAt) && ClockTime(closesAt) && opensAt < closesAt
    ensures 0 <= Minutes(opensAt) < Minutes(closesAt) <= 1440
  {
    var a, b, c, d := opensAt / 100, opensAt % 100, closesAt / 100, closesAt % 100;
    assert opensAt == a * 100 + b && closesAt == c * 100 + d;
    assert a <= c;
  }

  lemma RoundedDown(time: int)
    requires Minutes(time) >= 0
    ensures 0 <= FirstSlot(time) <= Minutes(time) < FirstSlot(time) + 30 && FirstSlot(time) % 30 == 0
  {
    hide Minutes;
    Multiple(Minutes(time) / 30);
  }

  lemma RoundedUp(time: int)
    requires 0 <= Minutes(time) <= 1440
    ensures Minutes(time) <= SlotsEnd(time) < Minutes(time) + 30 && SlotsEnd(time) % 30 == 0 && SlotsEnd(time) <= 1440
  {
    hide Minutes;
    Multiple((Minutes(time) + 29) / 30);
  }

  lemma Multiple(n: int)
    ensures n * 30 % 30 == 0
  {
  }

  lemma SlotArithmetic(first: int, end: int, o: int, c: int, start: int, minute: int)
    requires 0 <= o < c <= 1440 && first % 30 == 0 && end % 30 == 0 && start % 30 == 0
    requires 0 <= first <= o < first + 30 && c <= end < c + 30 && end <= 1440
    ensures first <= start < end <==> o < start + 30 && start < c
    ensures o <= minute < c ==> first <= minute / 30 * 30 < end
    ensures start <= minute < start + 30 <==> start == minute / 30 * 30
  {
  }

  /**
    A half-hour slot is emitted exactly when it meets the opening hours, and every open
    minute lies in exactly one emitted slot.
   */
  lemma SlotCover(d: ScheduleDay, start: int, minute: int)
    requires ValidDay(d) && start % 30 == 0
    ensures Emitted(d, start) <==> Meets(d, start)
    ensures OpenAt(d, minute) ==> Emitted(d, minute / 30 * 30) && 0 <= minute < 1440
    ensures start <= minute < start + 30 <==> start == minute / 30 * 30
  {
    hide Abbreviation, FirstSlot, SlotsEnd, Minutes, ClockTime;
    var o, c := Minutes(d.opensAt.value), Minutes(d.closesAt.value);
    var first, end := FirstSlot(d.opensAt.value), SlotsEnd(d.closesAt.value);
    TimeBounds(d.opensAt.value, d.closesAt.value);
    SlotArithmetic(first, end, o, c, start, minute);
    if Emitted(d, start) {
      assert OpenAt(d, if start < o then o else start);
    }
  }

  ghost predicate SlotBetween(start: int, minute: int, end: int)
  {
    minute <= start < end && (start - minute) % 30 == 0
  }

  lemma {:induction false} LabelsOf(a: string, minute: int, end: int, text: string)
    ensures text in Labels(a, minute, end) <==>
              exists start :: SlotBetween(start, minute, end) && text == Label(a, start)
    decreases end - minute
  {
    hide Label;
    if minute < end {
      LabelsOf(a, minute + 30, end, text);
      assert SlotBetween(minute, minute, end);
      assert forall start :: SlotBetween(start, minute + 30, end) ==> SlotBetween(start, minute, end);
      assert forall start :: SlotBetween(start, minute, end) ==>
                             start == minute || SlotBetween(start, minute + 30, end);
    }
  }

  // ----- Labels -----

  function DayOf(abbreviation: string): Option<string>
  {
    match abbreviation
    case "M" => Some("Monday")
    case "Tu" => Some("Tuesday")
    case "W" => Some("Wednesday")
    case "Th" => Some("Thursday")
    case "F" => Some("Friday")
    case "Sa" => Some("Saturday")
    case "Su" => Some("Sunday")
    case _ => None
  }

  predicate IsLetter(c: char) { c != '-' }

  /** Reads a label back: the day, and the minute of the day the slot starts at. */
  function ReadLabel(s: string): Option<(string, int)>
  {
    var i := Run(s, IsLetter);
    if i == |s| || DayOf(s[..i]).None? then None else
      var clock := s[i + 1..];
      var j := Run(clock, IsDigit);
      if j == |clock| || clock[j] != ':' || !AllDigits(clock[j + 1..]) || !AllDigits(clock[..j]) then None
      else Some((DayOf(s[..i]).value, TextNat(clock[..j]) * 60 + TextNat(clock[j + 1..])))
  }

  /** The seven weekdays have an abbreviation and nothing else has: their first letters, as many as tell them apart. */
  lemma Weekdays(day: string)
    ensures Abbreviation(day).Some? <==>
            day in ["Monday", "Tuesday", "Wednesday", "Thursday", "Friday", "Saturday", "Sunday"]
    ensures Abbreviation(day).Some? ==>
              Abbreviation(day).value == if day[0] in "MWF" then day[..1] else day[..2]
  {
  }

  lemma AbbreviationReads(day: string)
    requires Abbreviation(day).Some?
    ensures DayOf(Abbreviation(day).value) == Some(day)
    ensures AllLetters(Abbreviation(day).value)
  {
  }

  /** A slot starts on the hour or at half past, and is written so. */
  lemma LabelText(a: string, start: int)
    requires 0 <= start < 1440 && start % 30 == 0
    ensures Label(a, start) == a + ("-" + (IntText(start / 60) + (":" + if start % 60 == 0 then "00" else "30")))
  {
    hide Padded, IntText;
    assert Rem(Quo(start, 60), 24) == start / 60 && Rem(start, 60) == start % 60;
    assert start % 60 == 0 || start % 60 == 30;
    HalfHours();
  }

  lemma HalfHours()
    ensures Padded(0) == "00" && Padded(30) == "30"
  {
    assert NatText(30) == NatText(3) + [DigitChar(0)];
    assert NatText(3) == "3" && NatText(0) == "0";
  }

  lemma PaddedReads(n: nat)
    ensures AllDigits(Padded(n)) && TextNat(Padded(n)) == n
  {
    NatTextReads(n);
    ZerosTextNat(1, NatText(n));
    assert Zeros(1) == "0";
  }

  /** Each label of the day names its slot: the day and the start minute are read back. */
  lemma LabelReads(day: string, start: int)
    requires Abbreviation(day).Some? && 0 <= start < 1440
    ensures ReadLabel(Label(Abbreviation(day).value, start)) == Some((day, start))
  {
    hide Abbreviation, ReadLabel, AllDigits, TextNat, NatText, Padded, DayOf, AllLetters;
    AbbreviationReads(day);
    var h, m := start / 60, start % 60;
    assert Rem(Quo(start, 60), 24) == h && Rem(start, 60) == m;
    NatTextReads(h);
    PaddedReads(m);
    ClockReads(Abbreviation(day).value, IntText(h), Padded(m), day);
  }

  predicate AllLetters(s: string) { forall c :: c in s ==> IsLetter(c) }

  lemma LettersBlock(a: string, rest: string)
    requires AllLetters(a) && rest != "" && rest[0] == '-'
    ensures Run(a + rest, IsLetter) == |a|
  {
    RunBlock(a, rest, IsLetter);
  }

  lemma ClockReads(a: string, hours: string, minutes: string, day: string)
    requires AllLetters(a) && DayOf(a) == Some(day)
    requires AllDigits(hours) && AllDigits(minutes)
    ensures ReadLabel(a + ("-" + (hours + (":" + minutes)))) == Some((day, TextNat(hours) * 60 + TextNat(minutes)))
  {
    hide AllDigits, AllLetters, TextNat, DayOf, Run;
    var clock := hours + (":" + minutes);
    var tail := "-" + clock;
    LettersBlock(a, tail);
    DigitsBlock(hours, ":" + minutes);
    assert (a + tail)[..|a|] == a && (a + tail)[|a| + 1..] == clock;
    assert clock[..|hours|] == hours && clock[|hours| + 1..] == minutes;
  }

  /** The labels of a day are distinct, and so are those of different days. */
  lemma LabelsDistinct(day1: string, start1: int, day2: string, start2: int)
    requires Abbreviation(day1).Some? && Abbreviation(day2).Some?
    requires 0 <= start1 < 1440 && 0 <= start2 < 1440
    requires Label(Abbreviation(day1).value, start1) == Label(Abbreviation(day2).value, start2)
    ensures day1 == day2 && start1 == start2
  {
    hide Label, ReadLabel, Abbreviation;
    LabelReads(day1, start1);
    LabelReads(day2, start2);
  }

  // ----- The whole schedule -----

  ghost predicate MeetsSome(days: seq<ScheduleDay>, day: string, start: int)
    requires forall d :: d in days ==> ValidDay(d)
  {
    exists i :: 0 <= i < |days| && days[i].day == day && Meets(days[i], start)
  }

  lemma DayTimesMeaning(d: ScheduleDay, day: string, start: int)
    requires ValidDay(d) && Abbreviation(day).Some? && start % 30 == 0 && 0 <= start < 1440
    ensures DayTimes(d).Times?
    ensures Label(Abbreviation(day).value, start) in DayTimes(d).labels <==> d.day == day && Meets(d, start)
  {
    hide Meets, Label, Abbreviation, FirstSlot, SlotsEnd, Minutes, ClockTime, Labels;
    SlotCover(d, start, start);
    TimeBounds(d.opensAt.value, d.closesAt.value);
    var a := Abbreviation(d.day).value;
    var text := Label(Abbreviation(day).value, start);
    var first, end := FirstSlot(d.opensAt.value), SlotsEnd(d.closesAt.value);
    LabelsOf(a, first, end, text);
    if text in Labels(a, first, end) {
      var s :| SlotBetween(s, first, end) && text == Label(a, s);
      LabelsDistinct(d.day, s, day, start);
    }
    if d.day == day && Emitted(d, start) {
      assert SlotBetween(start, first, end);
    }
  }

  /**
    The search index lists a half-hour slot of a weekday exactly when the slot meets the
    opening hours of some entry for that day.
   */
  lemma {:induction false} OpenTimesMeaning(days: seq<ScheduleDay>, day: string, start: int)
    requires forall d :: d in days ==> ValidDay(d)
    requires Abbreviation(day).Some? && start % 30 == 0 && 0 <= start < 1440
    ensures ScheduleTimes(days).Times?
    ensures Label(Abbreviation(day).value, start) in ScheduleTimes(days).labels <==> MeetsSome(days, day, start)
    decreases |days|
  {
    hide Meets, Label, Abbreviation, DayTimes, ValidDay;
    if days != [] {
      assert days[0] in days && forall d :: d in days[1..] ==> d in days;
      DayTimesMeaning(days[0], day, start);
      OpenTimesMeaning(days[1..], day, start);
      assert MeetsSome(days, day, start) <==>
             (days[0].day == day && Meets(days[0], start)) || MeetsSome(days[1..], day, start) by {
        assert forall i :: 0 < i < |days| ==> days[i] == days[1..][i - 1];
        assert forall i :: 0 <= i < |days[1..]| ==> days[1..][i] == days[i + 1];
      }
    }
  }
}
