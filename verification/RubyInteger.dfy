/**
  Ruby's String#to_i, rubyStringToI of internal/news_articles/rails_cast.go, and the
  integer casts of article fields and ids built on it.
 */
module RubyInteger {
  import opened Decimal
  import opened Scanning
  import opened Wrappers
  import opened ParamTree
  import opened RubyFloat

  predicate IsSpace(c: char) { c in " \t\n\U{0B}\U{0C}\r" }

  predicate IsDigitAt(s: string, i: nat) { i < |s| && IsDigit(s[i]) }

  /** A "0d" prefix, which is skipped even when nothing follows it. */
  predicate HasPrefix(s: string)
  {
    1 < |s| && s[0] == '0' && (s[1] == 'd' || s[1] == 'D')
  }

  /** The digits at the front of s; single underscores between digits are passed over. */
  function Gather(s: string, started: bool): (ds: string)
    ensures AllDigits(ds)
  {
    if s == "" then ""
    else if IsDigit(s[0]) then [s[0]] + Gather(s[1..], true)
    else if s[0] == '_' && started && IsDigitAt(s, 1) then Gather(s[1..], started)
    else ""
  }

  function ToI(s: string): int
  {
    var t := s[Run(s, IsSpace)..];
    var signed := t != "" && (t[0] == '+' || t[0] == '-');
    var body := if signed then t[1..] else t;
    var n: int := TextNat(Gather(if HasPrefix(body) then body[2..] else body, false));
    if signed && t[0] == '-' then -n else n
  }

  /** The digit loop, from index start, with its buffer. */
  method GatherFrom(s: string, start: nat) returns (digits: string)
    requires start <= |s|
    ensures digits == Gather(s[start..], false)
  {
    hide AllDigits;
    digits := "";
    var i := start;
    while i < |s|
      invariant start <= i <= |s|
      invariant Gather(s[start..], false) == digits + Gather(s[i..], digits != "")
    {
      var c := s[i];
      assert s[i..][1..] == s[i + 1..];
      if IsDigit(c) {
        assert digits + ([c] + Gather(s[i + 1..], true)) == digits + [c] + Gather(s[i + 1..], true);
        digits := digits + [c];
      } else if !(c == '_' && digits != "" && i + 1 < |s| && IsDigit(s[i + 1])) {
        break;
      }
      i := i + 1;
    }
  }

  /** One pass over the text with an index, as in the source. */
  method RubyStringToI(s: string) returns (n: int)
    ensures n == ToI(s)
  {
    var i := 0;
    while i < |s| && IsSpace(s[i])
      invariant i <= |s|
      invariant forall k :: 0 <= k < i ==> IsSpace(s[k])
    {
      i := i + 1;
    }
    RunIs(s, IsSpace, i);
    hide Run, Gather, TextNat, IsSpace;
    ghost var t := s[i..];
    var negative := false;
    if i < |s| && (s[i] == '+' || s[i] == '-') {
      negative := s[i] == '-';
      i := i + 1;
    }
    ghost var body := s[i..];
    assert body == if t != "" && (t[0] == '+' || t[0] == '-') then t[1..] else t;
    if i + 1 < |s| && s[i] == '0' && (s[i + 1] == 'd' || s[i + 1] == 'D') {
      i := i + 2;
    }
    assert s[i..] == if HasPrefix(body) then body[2..] else body;
    var digits := GatherFrom(s, i);
    n := TextNat(digits);
    if negative {
      n := -n;
    }
  }

  // ----- Reading printed integers back -----

  predicate IsSign(s: string) { s == "" || s == "+" || s == "-" }

  function Signed(sign: string, n: nat): int { if sign == "-" then 0 - n else n }

  predicate AllSpace(s: string) { forall c :: c in s ==> IsSpace(c) }

  /** Digits in groups, written with one underscore between neighbouring groups. */
  ghost predicate Groups(groups: seq<string>)
  {
    groups != [] && forall g :: g in groups ==> g != "" && AllDigits(g)
  }

  function Underscored(groups: seq<string>): string
  {
    if groups == [] then ""
    else if |groups| == 1 then groups[0]
    else groups[0] + "_" + Underscored(groups[1..])
  }

  function Joined(groups: seq<string>): (s: string)
    ensures (forall g :: g in groups ==> AllDigits(g)) ==> AllDigits(s)
  {
    if groups == [] then "" else
      assert groups[0] in groups && forall g :: g in groups[1..] ==> g in groups;
      groups[0] + Joined(groups[1..])
  }

  /** A tail that cannot go on with the number. */
  predicate EndsNumber(tail: string)
  {
    !IsDigitAt(tail, 0) && !(tail != "" && tail[0] == '_' && IsDigitAt(tail, 1))
  }

  lemma {:induction false} GatherDigits(g: string, rest: string, started: bool)
    requires AllDigits(g)
    ensures Gather(g + rest, started) == g + Gather(rest, started || g != "")
    decreases |g|
  {
    if g == "" {
      assert g + rest == rest;
    } else {
      assert g[0] in g && (g + rest)[1..] == g[1..] + rest;
      GatherDigits(g[1..], rest, true);
    }
  }

  lemma GatherEnd(tail: string)
    requires EndsNumber(tail)
    ensures Gather(tail, true) == ""
  {
  }

  lemma GatherUnderscore(more: string)
    requires more != "" && IsDigit(more[0])
    ensures Gather("_" + more, true) == Gather(more, true)
  {
    assert ("_" + more)[1..] == more;
  }

  lemma RestGroups(groups: seq<string>)
    requires Groups(groups) && |groups| > 1
    ensures Groups(groups[1..]) && AllDigits(groups[0]) && groups[0] != ""
  {
    hide AllDigits;
    assert groups[0] in groups && forall r :: r in groups[1..] ==> r in groups;
  }

  lemma MoreGroups(groups: seq<string>, tail: string)
    requires Groups(groups) && |groups| > 1
    ensures Groups(groups[1..]) && AllDigits(groups[0]) && groups[0] != ""
    ensures var more := Underscored(groups[1..]) + tail;
            && more != "" && IsDigit(more[0])
            && Underscored(groups) + tail == groups[0] + ("_" + more)
            && Joined(groups) == groups[0] + Joined(groups[1..])
  {
    hide Underscored, Joined, AllDigits, Groups;
    RestGroups(groups);
    UnderscoredStarts(groups[1..]);
    FirstGroup(groups);
    TextsAssociate(groups[0], "_", Underscored(groups[1..]), tail);
    assert (Underscored(groups[1..]) + tail)[0] == Underscored(groups[1..])[0];
  }

  lemma FirstGroup(groups: seq<string>)
    requires Groups(groups) && |groups| > 1
    ensures Groups(groups[1..]) && Underscored(groups) == groups[0] + "_" + Underscored(groups[1..])
    ensures Joined(groups) == groups[0] + Joined(groups[1..])
  {
    hide AllDigits;
    RestGroups(groups);
  }

  lemma {:induction false} GatherGroups(groups: seq<string>, tail: string, started: bool)
    requires Groups(groups) && EndsNumber(tail)
    ensures Gather(Underscored(groups) + tail, started) == Joined(groups)
    decreases |groups|
  {
    hide Gather, AllDigits, EndsNumber;
    var g := groups[0];
    assert g in groups;
    if |groups| == 1 {
      GatherDigits(g, tail, started);
      GatherEnd(tail);
      assert groups[1..] == [] && Joined(groups) == g + "";
    } else {
      MoreGroups(groups, tail);
      var more := Underscored(groups[1..]) + tail;
      GatherDigits(g, "_" + more, started);
      GatherUnderscore(more);
      GatherGroups(groups[1..], tail, true);
    }
  }

  lemma {:induction false} UnderscoredStarts(groups: seq<string>)
    requires Groups(groups)
    ensures Underscored(groups) != "" && IsDigit(Underscored(groups)[0])
    ensures |Underscored(groups)| > 1 ==>
              IsDigit(Underscored(groups)[1]) || Underscored(groups)[1] == '_'
  {
    var g := groups[0];
    assert g in groups && g[0] in g;
    assert |g| > 1 ==> g[1] in g;
  }

  /**
    Read-back: white space, a sign, digit groups joined by single underscores, and any
    tail that can neither extend the number nor turn a lone "0" into a "0d" prefix.
   */
  lemma ReadBack(space: string, sign: string, groups: seq<string>, tail: string)
    requires AllSpace(space)
    requires IsSign(sign)
    requires Groups(groups) && EndsNumber(tail)
    requires !HasPrefix(Underscored(groups) + tail)
    ensures ToI(space + (sign + (Underscored(groups) + tail))) ==
            Signed(sign, TextNat(Joined(groups)))
  {
    var body := Underscored(groups) + tail;
    UnderscoredStarts(groups);
    GatherGroups(groups, tail, false);
    SignedBody(space, sign, body);
  }

  lemma SignedBody(space: string, sign: string, body: string)
    requires AllSpace(space)
    requires IsSign(sign)
    requires body != "" && IsDigit(body[0])
    ensures ToI(space + (sign + body)) ==
            Signed(sign, TextNat(Gather(if HasPrefix(body) then body[2..] else body, false)))
  {
    hide Run, Gather, TextNat, AllDigits, HasPrefix;
    var t := sign + body;
    assert !IsSpace(t[0]);
    RunBlock(space, t, IsSpace);
    hide AllSpace, IsSpace;
    assert (space + t)[|space|..] == t;
    assert if sign == "" then t == body else t[1..] == body && t[0] == sign[0];
  }

  /** A "0d" prefix changes nothing. */
  lemma PrefixIgnored(space: string, sign: string, groups: seq<string>, tail: string)
    requires AllSpace(space)
    requires IsSign(sign)
    requires Groups(groups) && EndsNumber(tail)
    ensures ToI(space + (sign + ("0d" + (Underscored(groups) + tail)))) ==
            Signed(sign, TextNat(Joined(groups)))
  {
    var rest := Underscored(groups) + tail;
    GatherGroups(groups, tail, false);
    hide Gather, TextNat, AllDigits, Underscored, Joined, EndsNumber, Groups;
    var body := "0d" + rest;
    assert body[2..] == rest && HasPrefix(body);
    SignedBody(space, sign, body);
  }

  /** Every printed integer is read as itself, with any such tail. */
  lemma PrintedReadsBack(n: int, tail: string)
    requires EndsNumber(tail)
    requires n == 0 ==> !HasPrefix("0" + tail)
    ensures ToI(IntText(n) + tail) == n
  {
    var m := if n < 0 then -n else n;
    NatTextReads(m);
    NoPrefix(m, tail);
    DigitsReadBack(if n < 0 then "-" else "", NatText(m), tail);
    IntTextSplit(n, tail);
  }

  lemma IntTextSplit(n: int, tail: string)
    ensures IntText(n) + tail == (if n < 0 then "-" else "") + (NatText(if n < 0 then -n else n) + tail)
  {
    hide NatText;
  }

  lemma DigitsReadBack(sign: string, text: string, tail: string)
    requires IsSign(sign) && text != "" && AllDigits(text)
    requires EndsNumber(tail) && !HasPrefix(text + tail)
    ensures ToI(sign + (text + tail)) == Signed(sign, TextNat(text))
  {
    var none: string := "";
    assert AllSpace(none);
    OneGroup(text);
    hide HasPrefix, EndsNumber, TextNat, AllDigits, ToI, Joined, Underscored, Groups, AllSpace, IsSign;
    assert none + (sign + (text + tail)) == sign + (text + tail);
    ReadBack(none, sign, [text], tail);
  }

  lemma OneGroup(text: string)
    requires text != "" && AllDigits(text)
    ensures Groups([text]) && Underscored([text]) == text && Joined([text]) == text
  {
    assert [text][1..] == [] && text + "" == text;
  }

  lemma NoPrefix(m: nat, tail: string)
    requires m == 0 ==> !HasPrefix("0" + tail)
    ensures !HasPrefix(NatText(m) + tail)
  {
    var text := NatText(m);
    if m == 0 {
      assert text == "0";
    } else {
      assert (text + tail)[0] == text[0];
    }
  }

  // ----- Casts -----

  const MIN_INT32 := -0x8000_0000
  const MAX_INT32 := 0x7fff_ffff
  const MIN_INT64 := -0x8000_0000_0000_0000
  const MAX_INT64 := 0x7fff_ffff_ffff_ffff

  /** Unicode white space, as unicode.IsSpace lists it. */
  predicate IsUnicodeSpace(c: char)
  {
    || IsSpace(c)
    || c in "\U{85}\U{A0}\U{1680}\U{2028}\U{2029}\U{202F}\U{205F}\U{3000}"
    || '\U{2000}' <= c <= '\U{200A}'
  }

  predicate IsRubyBlank(s: string)
  {
    forall c :: c in s ==> IsUnicodeSpace(c)
  }

  /** The integer a parameter denotes, if any; whole truncates a finite float. */
  function Denoted(value: Tree, whole: Float64 -> int): Option<int>
  {
    match value
    case Bool(b) => Some(if b then 1 else 0)
    case Str(s) => if IsRubyBlank(s) then None else Some(ToI(s))
    case Num(Integer(n)) => Some(n)
    case Num(Float(f)) => if f.Infinite? then None else Some(whole(f))
    case _ => None
  }

  datatype IntegerCast = Absent | OutOfRange | Cast(n: int)

  /** The priority column: four bytes, and an error beyond. */
  function CastInteger(value: Tree, whole: Float64 -> int): IntegerCast
  {
    match Denoted(value, whole)
    case None => Absent
    case Some(n) => if MIN_INT32 <= n <= MAX_INT32 then Cast(n) else OutOfRange
  }

  /** An id: eight bytes, and nil beyond. */
  function CastId(value: Tree, whole: Float64 -> int): Option<int>
  {
    match Denoted(value, whole)
    case None => None
    case Some(n) => if MIN_INT64 <= n <= MAX_INT64 then Some(n) else None
  }

  /** Every printed integer casts to itself while it fits its column, whatever harmless tail follows. */
  lemma PrintedCasts(n: int, tail: string, whole: Float64 -> int)
    requires EndsNumber(tail)
    requires n == 0 ==> !HasPrefix("0" + tail)
    ensures CastInteger(Str(IntText(n) + tail), whole) ==
            if -0x8000_0000 <= n < 0x8000_0000 then Cast(n) else OutOfRange
    ensures CastId(Str(IntText(n) + tail), whole) ==
            if -0x8000_0000_0000_0000 <= n < 0x8000_0000_0000_0000 then Some(n) else None
  {
    hide ToI, TextNat, NatText, HasPrefix, EndsNumber;
    PrintedReadsBack(n, tail);
    var s := IntText(n) + tail;
    var digits := NatText(if n < 0 then -n else n);
    assert s[0] == '-' || (s[0] == digits[0] && digits[0] in digits);
    assert s[0] in s && !IsUnicodeSpace(s[0]);
  }
}
