/**
  A reader for #inspect text. It shows that the text determines the value: whatever the
  printable predicate is, every value is recovered, so distinct values never print alike.
 */
module RubyInspectReader {
  import opened Decimal
  import opened ParamTree
  import opened RubyFloat
  import opened RubyInspect
  import opened Scanning
  import opened Wrappers

  // ----- Strings -----

  predicate IsHex(c: char) { '0' <= c <= '9' || 'A' <= c <= 'F' }

  predicate AllHex(s: string) { forall c :: c in s ==> IsHex(c) }

  function HexValue(c: char): nat
    requires IsHex(c)
  {
    if c <= '9' then (c - '0') as nat else (c - 'A') as nat + 10
  }

  function HexNat(s: string): nat
    requires AllHex(s)
  {
    if s == "" then 0 else
      assert s[|s| - 1] in s;
      HexNat(s[..|s| - 1]) * 16 + HexValue(s[|s| - 1])
  }

  function CodePoint(n: nat): Option<char>
  {
    if n < 0xD800 || 0xE000 <= n < 0x110000 then Some(n as char) else None
  }

  function Unescape(letter: char): Option<char>
  {
    match letter
    case 'n' => Some('\n')
    case 'r' => Some('\r')
    case 't' => Some('\t')
    case 'f' => Some('\U{0C}')
    case 'v' => Some('\U{0B}')
    case 'b' => Some('\U{08}')
    case 'a' => Some('\U{07}')
    case 'e' => Some('\U{1B}')
    case '\"' => Some('\"')
    case '\\' => Some('\\')
    case '#' => Some('#')
    case _ => None
  }

  /** What follows a backslash: the character meant, and the rest. */
  function ReadEscape(s: string): (r: Option<(char, string)>)
    ensures r.Some? ==> |r.value.1| < |s|
  {
    if s == "" then None
    else if s[0] != 'u' then
      match Unescape(s[0]) case None => None case Some(c) => Some((c, s[1..]))
    else if 1 < |s| && s[1] == '{' then
      var i := Run(s[2..], IsHex);
      if 2 + i < |s| && s[2 + i] == '}' then
        match CodePoint(HexNat(s[2..2 + i])) case None => None case Some(c) => Some((c, s[2 + i + 1..]))
      else None
    else if 5 <= |s| && AllHex(s[1..5]) then
      match CodePoint(HexNat(s[1..5])) case None => None case Some(c) => Some((c, s[5..]))
    else None
  }

  function Prepend(c: char, r: Option<(string, string)>): Option<(string, string)>
  {
    match r case None => None case Some((s, rest)) => Some(([c] + s, rest))
  }

  /** The characters up to the closing quote, and what follows it. */
  function ReadChars(s: string): (r: Option<(string, string)>)
    ensures r.Some? ==> |r.value.1| < |s|
    decreases |s|
  {
    if s == "" then None
    else if s[0] == '\"' then Some(("", s[1..]))
    else if s[0] == '\\' then
      match ReadEscape(s[1..])
      case None => None
      case Some((c, rest)) => Prepend(c, ReadChars(rest))
    else Prepend(s[0], ReadChars(s[1..]))
  }

  lemma HexCharReads(d: nat)
    requires d < 16
    ensures IsHex(HexChar(d)) && HexValue(HexChar(d)) == d
  {
  }

  lemma HexNatSnoc(s: string, c: char)
    requires AllHex(s) && IsHex(c)
    ensures AllHex(s + [c]) && HexNat(s + [c]) == HexNat(s) * 16 + HexValue(c)
  {
    assert (s + [c])[..|s|] == s;
  }

  lemma {:induction false} HexTextReads(n: nat)
    ensures AllHex(HexText(n)) && HexNat(HexText(n)) == n
    decreases n
  {
    HexCharReads(n % 16);
    if n < 16 {
      HexNatSnoc("", HexChar(n));
      assert "" + [HexChar(n)] == [HexChar(n)];
    } else {
      HexTextReads(n / 16);
      HexNatSnoc(HexText(n / 16), HexChar(n % 16));
    }
  }

  lemma HexStep(s: string, q: nat)
    requires AllHex(s) && HexNat(s) == q / 16
    ensures AllHex(s + [HexChar(q % 16)]) && HexNat(s + [HexChar(q % 16)]) == q
  {
    HexCharReads(q % 16);
    HexNatSnoc(s, HexChar(q % 16));
  }

  lemma Hex4Reads(n: nat)
    requires n < 0x10000
    ensures AllHex(Hex4(n)) && HexNat(Hex4(n)) == n
  {
    hide HexNat, AllHex, HexChar;
    var q1 := n / 16;
    var q2 := q1 / 16;
    var q3 := q2 / 16;
    var none: string := "";
    EmptyHex();
    HexStep(none, q3);
    var s1 := none + [HexChar(q3 % 16)];
    HexStep(s1, q2);
    var s2 := s1 + [HexChar(q2 % 16)];
    HexStep(s2, q1);
    var s3 := s2 + [HexChar(q1 % 16)];
    HexStep(s3, n);
    assert Hex4(n) == s3 + [HexChar(n % 16)];
  }

  lemma EmptyHex()
    ensures AllHex("") && HexNat("") == 0
  {
  }

  lemma CodePointOfChar(c: char)
    ensures CodePoint(c as nat) == Some(c)
  {
  }

  lemma ShortReads(c: char, letter: char, rest: string)
    requires Unescape(letter) == Some(c) && letter != 'u'
    ensures ReadChars(['\\', letter] + rest) == Prepend(c, ReadChars(rest))
  {
    var s := ['\\', letter] + rest;
    assert s[1..] == [letter] + rest && s[1..][1..] == rest;
  }

  lemma PlainReads(c: char, rest: string)
    requires c != '\"' && c != '\\'
    ensures ReadChars([c] + rest) == Prepend(c, ReadChars(rest))
  {
    assert ([c] + rest)[1..] == rest;
  }

  /** A written code point is read back, whatever follows. */
  lemma EscapeCharReads(c: char, next: string, printable: Printable, rest: string)
    ensures ReadChars(EscapeChar(c, next, printable) + rest) == Prepend(c, ReadChars(rest))
  {
    hide ReadChars, HexText, Hex4;
    if ShortEscape(c).Some? {
      ShortReads(c, ShortEscape(c).value, rest);
    } else if c == '#' && next != "" && next[0] in "{$@" {
      ShortReads(c, '#', rest);
      assert ['\\', '#'] == "\\#";
    } else if printable(c) {
      PlainReads(c, rest);
    } else if c < '\U{10000}' {
      FourDigits(c, rest);
    } else {
      BracedDigits(c, rest);
    }
  }

  lemma FourDigits(c: char, rest: string)
    requires c < '\U{10000}'
    ensures ReadChars("\\u" + Hex4(c as nat) + rest) == Prepend(c, ReadChars(rest))
  {
    hide HexNat, Hex4;
    var digits := Hex4(c as nat);
    Hex4Reads(c as nat);
    CodePointOfChar(c);
    var s := "\\u" + digits + rest;
    var t := s[1..];
    assert t == "u" + (digits + rest);
    CutAfter("u", digits + rest);
    CutAfter(digits, rest);
    assert t[1..5] == t[1..][..4] && t[5..] == t[1..][4..];
    assert digits[0] in digits;
    assert ReadEscape(t) == Some((c, rest));
    hide ReadEscape;
  }

  lemma BracedDigits(c: char, rest: string)
    ensures ReadChars("\\u{" + HexText(c as nat) + "}" + rest) == Prepend(c, ReadChars(rest))
  {
    hide HexNat, HexText;
    var digits := HexText(c as nat);
    HexTextReads(c as nat);
    CodePointOfChar(c);
    var s := "\\u{" + digits + "}" + rest;
    var t := s[1..];
    assert t[2..] == digits + ("}" + rest) && t[0] == 'u' && t[1] == '{';
    RunBlock(digits, "}" + rest, IsHex);
    assert t[2..2 + |digits|] == digits && t[2 + |digits| + 1..] == rest;
    assert t[2 + |digits|] == '}';
    assert ReadEscape(t) == Some((c, rest));
    hide ReadEscape;
  }

  lemma {:induction false} StringReads(s: string, printable: Printable, rest: string)
    ensures ReadChars(Escape(s, printable) + ("\"" + rest)) == Some((s, rest))
    decreases |s|
  {
    hide EscapeChar;
    var close := "\"" + rest;
    if s == "" {
      assert Escape(s, printable) + close == close && close[1..] == rest;
    } else {
      var first := EscapeChar(s[0], s[1..], printable);
      var more := Escape(s[1..], printable);
      assert Escape(s, printable) + close == first + (more + close);
      EscapeCharReads(s[0], s[1..], printable, more + close);
      StringReads(s[1..], printable, rest);
      hide ReadChars;
      assert [s[0]] + s[1..] == s;
    }
  }

  // ----- Numbers -----

  predicate IsDelimiter(c: char) { c == ',' || c == ']' || c == '}' }

  predicate IsNumberChar(c: char) { !IsDelimiter(c) }

  predicate AllNumberChars(s: string) { forall c :: c in s ==> IsNumberChar(c) }

  predicate Delimited(rest: string) { rest == "" || IsDelimiter(rest[0]) }

  /** A whole number token. */
  function ReadNumber(text: string): Option<Number>
  {
    var negative := text != "" && text[0] == '-';
    var body := if negative then text[1..] else text;
    if body == "Infinity" then Some(Float(Infinite(negative)))
    else if body == "NaN" then Some(Float(NotANumber))
    else if body != "" && AllDigits(body) then Some(Integer(if negative then 0 - TextNat(body) else TextNat(body)))
    else match ReadParts(body) case None => None case Some(p) => Some(Float(FloatOfParts(negative, p)))
  }

  /** Number texts have no delimiter, and start unlike any other value. */
  ghost predicate NumberToken(text: string)
  {
    text != "" && AllNumberChars(text) && (IsDigit(text[0]) || text[0] in "-IN")
  }

  lemma NumberChars(a: string, b: string)
    requires AllNumberChars(a) && AllNumberChars(b)
    ensures AllNumberChars(a + b)
  {
  }

  lemma DigitsAreNumberChars(s: string)
    requires AllDigits(s)
    ensures AllNumberChars(s)
  {
  }

  lemma TokenOf(negative: bool, body: string)
    requires body != "" && IsDigit(body[0]) && AllNumberChars(body)
    ensures NumberToken(Sign(negative) + body)
  {
    NumberChars(Sign(negative), body);
  }

  /** How a token splits into sign and body. */
  lemma SignSplit(negative: bool, body: string)
    requires body != "" && IsDigit(body[0])
    ensures var text := Sign(negative) + body;
            text != "" && (text[0] == '-' <==> negative) && (if negative then text[1..] else text) == body
  {
  }

  lemma IntegerReads(i: int)
    ensures ReadNumber(IntText(i)) == Some(Integer(i))
    ensures NumberToken(IntText(i))
  {
    hide IntText, NatText, TextNat, Sign, NumberToken, ReadNumber, AllDigits, AllNumberChars;
    var m := if i < 0 then -i else i;
    var digits := NatText(m);
    NatTextReads(m);
    FirstDigit(digits);
    DigitsAreNumberChars(digits);
    TokenOf(i < 0, digits);
    DigitsRead(i < 0, digits);
    SignedText(i);
  }

  lemma FirstDigit(digits: string)
    requires digits != "" && AllDigits(digits)
    ensures IsDigit(digits[0])
  {
    assert digits[0] in digits;
  }

  lemma SignedText(i: int)
    ensures IntText(i) == Sign(i < 0) + NatText(if i < 0 then -i else i)
  {
    hide NatText;
    assert "" + NatText(if i < 0 then -i else i) == NatText(if i < 0 then -i else i);
  }

  /** A sign and digits are read as an integer. */
  lemma DigitsRead(negative: bool, digits: string)
    requires digits != "" && AllDigits(digits) && IsDigit(digits[0])
    ensures ReadNumber(Sign(negative) + digits) ==
            Some(Integer(if negative then 0 - TextNat(digits) else TextNat(digits)))
  {
    hide TextNat, Sign, AllDigits;
    SignSplit(negative, digits);
    assert digits[0] != 'I' && digits[0] != 'N';
  }

  lemma LayoutToken(negative: bool, digits: string, decimalPoint: int)
    requires Shortest(digits)
    ensures NumberToken(Sign(negative) + Layout(digits, decimalPoint))
    ensures '.' in Layout(digits, decimalPoint)
  {
    hide Layout, LayoutParts, ReadParts, ExponentText, NumberToken, AllDigits, AllNumberChars;
    LayoutReads(digits, decimalPoint);
    LayoutStartsWithDigit(digits, decimalPoint);
    var p := LayoutParts(digits, decimalPoint);
    var tail := if FixedNotation(decimalPoint) then "" else "e" + ExponentText(decimalPoint - 1);
    LayoutIsParts(digits, decimalPoint);
    ExponentChars(decimalPoint - 1);
    PartsChars(p);
    PointChars();
    NumberChars(p.whole, ".");
    NumberChars(p.whole + ".", p.fraction);
    NumberChars(p.whole + "." + p.fraction, tail);
    TokenOf(negative, Layout(digits, decimalPoint));
    assert (p.whole + "." + p.fraction + tail)[|p.whole|] == '.';
  }

  lemma PointChars()
    ensures AllNumberChars(".") && AllNumberChars("")
  {
  }

  lemma PartsChars(p: Parts)
    requires AllDigits(p.whole + p.fraction)
    ensures AllNumberChars(p.whole) && AllNumberChars(p.fraction)
  {
    assert forall c :: c in p.whole || c in p.fraction ==> c in p.whole + p.fraction;
  }

  lemma ExponentChars(e: int)
    ensures AllNumberChars("e" + ExponentText(e))
  {
    var s := ExponentText(e);
    ExponentTextReads(e);
    hide ExponentText, TextNat;
    assert s == [s[0]] + s[1..];
    DigitsAreNumberChars(s[1..]);
  }

  lemma FloatReads(f: Float64)
    requires WellFormed(f)
    ensures ReadNumber(FloatToS(f)) == Some(Float(f))
    ensures NumberToken(FloatToS(f))
  {
    hide ReadNumber, NumberToken;
    match f
    case Infinite(negative) => InfinityReads(negative);
    case NotANumber => NotANumberReads();
    case Zero(negative) => ZeroReads(negative);
    case Finite(negative, digits, exponent) => FiniteReads(negative, digits, exponent + 1);
  }

  lemma InfinityReads(negative: bool)
    ensures ReadNumber(FloatToS(Infinite(negative))) == Some(Float(Infinite(negative)))
    ensures NumberToken(FloatToS(Infinite(negative)))
  {
    InfinityToken(negative);
    hide AllNumberChars, NumberToken;
    assert ("-" + "Infinity")[1..] == "Infinity";
  }

  lemma InfinityToken(negative: bool)
    ensures NumberToken(FloatToS(Infinite(negative)))
  {
    assert AllNumberChars("Infinity") && AllNumberChars("-");
  }

  lemma NotANumberReads()
    ensures ReadNumber(FloatToS(NotANumber)) == Some(Float(NotANumber))
    ensures NumberToken(FloatToS(NotANumber))
  {
  }

  /** A token with a point is a float. */
  lemma PointReads(negative: bool, body: string, p: Parts)
    requires body != "" && IsDigit(body[0]) && '.' in body
    requires ReadParts(body) == Some(p)
    ensures ReadNumber(Sign(negative) + body) == Some(Float(FloatOfParts(negative, p)))
  {
    hide ReadParts, FloatOfParts;
    SignSplit(negative, body);
    hide Sign;
    assert !AllDigits(body);
  }

  lemma ZeroReads(negative: bool)
    ensures ReadNumber(Sign(negative) + "0.0") == Some(Float(Zero(negative)))
    ensures NumberToken(Sign(negative) + "0.0")
  {
    hide ReadNumber, NumberToken, DropLeadingZeros, FloatOfParts, Sign;
    ReadPartsFixed("0", "0");
    assert "0" + "." + "0" == "0.0";
    TokenOf(negative, "0.0");
    assert "0.0"[1] == '.';
    PointReads(negative, "0.0", Parts("0", "0", None));
    ZeroParts(negative);
  }

  lemma ZeroParts(negative: bool)
    ensures FloatOfParts(negative, Parts("0", "0", None)) == Zero(negative)
  {
    hide DropLeadingZeros;
    assert "0" + "0" == Zeros(2) + "" by { assert Zeros(1) == "0" && Zeros(2) == "0" + Zeros(1); }
    LeadingZerosDropped(2, "");
  }

  lemma FiniteReads(negative: bool, digits: string, decimalPoint: int)
    requires Shortest(digits)
    ensures ReadNumber(Sign(negative) + Layout(digits, decimalPoint)) ==
            Some(Float(Finite(negative, digits, decimalPoint - 1)))
    ensures NumberToken(Sign(negative) + Layout(digits, decimalPoint))
  {
    hide Layout, LayoutParts, ReadParts, FloatOfParts, NumberToken, ReadNumber;
    LayoutToken(negative, digits, decimalPoint);
    LayoutReads(digits, decimalPoint);
    LayoutStartsWithDigit(digits, decimalPoint);
    FloatOfLayout(negative, digits, decimalPoint);
    PointReads(negative, Layout(digits, decimalPoint), LayoutParts(digits, decimalPoint));
  }

  // ----- Values -----

  function ReadValue(s: string): (r: Option<(Tree, string)>)
    ensures r.Some? ==> |r.value.1| < |s|
    decreases |s|, 0
  {
    if s == "" then None
    else if "nil" <= s then Some((Nil, s[3..]))
    else if "true" <= s then Some((Bool(true), s[4..]))
    else if "false" <= s then Some((Bool(false), s[5..]))
    else if s[0] == '\"' then
      match ReadChars(s[1..]) case None => None case Some((t, rest)) => Some((Str(t), rest))
    else if s[0] == '[' then
      if 1 < |s| && s[1] == ']' then Some((List([]), s[2..])) else
        match ReadItems(s[1..]) case None => None case Some((items, rest)) => Some((List(items), rest))
    else if s[0] == '{' then
      if 1 < |s| && s[1] == '}' then Some((Hash([]), s[2..])) else
        match ReadPairs(s[1..]) case None => None case Some((es, rest)) => Some((Hash(es), rest))
    else
      var i := Run(s, IsNumberChar);
      if i == 0 then None else
        match ReadNumber(s[..i]) case None => None case Some(n) => Some((Num(n), s[i..]))
  }

  /** One or more items, up to the closing bracket. */
  function ReadItems(s: string): (r: Option<(seq<Tree>, string)>)
    ensures r.Some? ==> |r.value.1| < |s|
    decreases |s|, 1
  {
    match ReadValue(s)
    case None => None
    case Some((x, rest)) =>
      if "]" <= rest then Some(([x], rest[1..]))
      else if ", " <= rest then
        match ReadItems(rest[2..]) case None => None case Some((xs, end)) => Some(([x] + xs, end))
      else None
  }

  /** One or more pairs, up to the closing brace. */
  function ReadPairs(s: string): (r: Option<(seq<Entry>, string)>)
    ensures r.Some? ==> |r.value.1| < |s|
    decreases |s|, 1
  {
    if s == "" || s[0] != '\"' then None else
      match ReadChars(s[1..])
      case None => None
      case Some((key, mid)) =>
        if !("=>" <= mid) then None else
          match ReadValue(mid[2..])
          case None => None
          case Some((x, rest)) =>
            if "}" <= rest then Some(([Entry(key, x)], rest[1..]))
            else if ", " <= rest then
              match ReadPairs(rest[2..]) case None => None case Some((es, end)) => Some(([Entry(key, x)] + es, end))
            else None
  }

  /** A number token is read whole. */
  lemma NumberReads(n: Number, rest: string)
    requires n.Float? ==> WellFormed(n.f)
    requires Delimited(rest)
    ensures ReadValue(NumberText(n) + rest) == Some((Num(n), rest))
  {
    match n {
      case Integer(i) => IntegerReads(i);
      case Float(f) => FloatReads(f);
    }
    var text := NumberText(n);
    hide NumberText, ReadNumber;
    TokenReads(text, n, rest);
  }

  lemma TokenReads(text: string, n: Number, rest: string)
    requires NumberToken(text) && ReadNumber(text) == Some(n) && Delimited(rest)
    ensures ReadValue(text + rest) == Some((Num(n), rest))
  {
    hide ReadNumber;
    RunBlock(text, rest, IsNumberChar);
    var s := text + rest;
    assert s[..|text|] == text && s[|text|..] == rest && s[0] == text[0];
    assert !("nil" <= s) && !("true" <= s) && !("false" <= s);
  }

  lemma QuotedReads(key: string, printable: Printable, rest: string)
    ensures var s := InspectString(key, printable) + rest;
            s != "" && s[0] == '\"' && ReadChars(s[1..]) == Some((key, rest))
  {
    hide Escape, ReadChars;
    StringReads(key, printable, rest);
    var s := InspectString(key, printable) + rest;
    assert s[1..] == Escape(key, printable) + ("\"" + rest);
  }

  /** The reader recovers every inspected value, and leaves what follows it. */
  lemma {:induction false} InspectReads(t: Tree, printable: Printable, rest: string)
    requires Inspectable(t) && Delimited(rest)
    ensures ReadValue(Inspect(t, printable) + rest) == Some((t, rest))
    decreases t, 2
  {
    var s := Inspect(t, printable) + rest;
    match t
    case Nil => assert s[3..] == rest;
    case Bool(b) => BoolReads(b, rest);
    case Str(x) => StrReads(x, printable, rest);
    case Num(n) => NumberReads(n, rest);
    case List(items) => ListReads(items, printable, rest);
    case Hash(es) => HashReads(es, printable, rest);
  }

  lemma BoolReads(b: bool, rest: string)
    ensures ReadValue((if b then "true" else "false") + rest) == Some((Bool(b), rest))
  {
    var s := (if b then "true" else "false") + rest;
    assert s[if b then 4 else 5..] == rest;
    assert s[0] == if b then 't' else 'f';
  }

  lemma StrReads(x: string, printable: Printable, rest: string)
    ensures ReadValue(InspectString(x, printable) + rest) == Some((Str(x), rest))
  {
    QuotedReads(x, printable, rest);
    hide InspectString, ReadChars, ReadValue;
    QuoteFirst(InspectString(x, printable) + rest, x, rest);
  }

  lemma NoWord(s: string)
    requires s != "" && s[0] !in "ntf"
    ensures !("nil" <= s) && !("true" <= s) && !("false" <= s)
  {
  }

  lemma QuoteFirst(s: string, x: string, rest: string)
    requires s != "" && s[0] == '\"' && ReadChars(s[1..]) == Some((x, rest))
    ensures ReadValue(s) == Some((Str(x), rest))
  {
    hide ReadChars;
    NoWord(s);
  }

  lemma BracketFirst(s: string, items: seq<Tree>, rest: string)
    requires 1 < |s| && s[0] == '[' && s[1] != ']' && ReadItems(s[1..]) == Some((items, rest))
    ensures ReadValue(s) == Some((List(items), rest))
  {
    hide ReadItems;
    NoWord(s);
  }

  lemma BraceFirst(s: string, es: seq<Entry>, rest: string)
    requires 1 < |s| && s[0] == '{' && s[1] != '}' && ReadPairs(s[1..]) == Some((es, rest))
    ensures ReadValue(s) == Some((Hash(es), rest))
  {
    hide ReadPairs;
    NoWord(s);
  }

  lemma {:induction false} ListReads(items: seq<Tree>, printable: Printable, rest: string)
    requires (forall x :: x in items ==> Inspectable(x)) && Delimited(rest)
    ensures ReadValue("[" + InspectItems(items, printable) + "]" + rest) == Some((List(items), rest))
    decreases items, 1
  {
    var inner := InspectItems(items, printable);
    var s := "[" + inner + "]" + rest;
    assert s[1..] == inner + ("]" + rest);
    if items == [] {
      assert s[1..] == "]" + rest && s[1] == ']' && s[2..] == rest;
    } else {
      ItemsRead(items, printable, rest);
      NotClosing(items[0], printable);
      assert items[0] in items;
      assert inner[0] == Inspect(items[0], printable)[0] && s[1] == inner[0];
      hide ReadItems, InspectItems, ReadValue;
      BracketFirst(s, items, rest);
    }
  }

  /** No value starts with a closing delimiter. */
  lemma NotClosing(t: Tree, printable: Printable)
    requires Inspectable(t)
    ensures Inspect(t, printable) != "" && !IsDelimiter(Inspect(t, printable)[0])
  {
    match t
    case Num(n) =>
      match n { case Integer(i) => IntegerReads(i); case Float(f) => FloatReads(f); }
    case _ =>
  }

  lemma {:induction false} ItemsRead(items: seq<Tree>, printable: Printable, rest: string)
    requires (forall x :: x in items ==> Inspectable(x)) && items != []
    ensures ReadItems(InspectItems(items, printable) + ("]" + rest)) == Some((items, rest))
    decreases items, 0
  {
    hide ReadValue, ReadItems, Inspect, InspectItems, Inspectable;
    var close := "]" + rest;
    assert items[0] in items && forall x :: x in items[1..] ==> x in items;
    var first := Inspect(items[0], printable);
    if |items| == 1 {
      OneItem(items, printable);
      InspectReads(items[0], printable, close);
      LastItemReads(first, items[0], rest);
      assert [items[0]] == items;
    } else {
      var more := InspectItems(items[1..], printable) + close;
      MoreItems(items, printable, close);
      InspectReads(items[0], printable, ", " + more);
      ItemsRead(items[1..], printable, rest);
      NextItemReads(first, items[0], more, items[1..], rest);
      assert [items[0]] + items[1..] == items;
    }
  }

  /** The two ways in which the reader goes on after an item. */
  lemma LastItemReads(first: string, x: Tree, rest: string)
    requires ReadValue(first + ("]" + rest)) == Some((x, "]" + rest))
    ensures ReadItems(first + ("]" + rest)) == Some(([x], rest))
  {
    hide ReadValue;
    assert ("]" + rest)[1..] == rest;
  }

  lemma NextItemReads(first: string, x: Tree, more: string, xs: seq<Tree>, rest: string)
    requires ReadValue(first + (", " + more)) == Some((x, ", " + more))
    requires ReadItems(more) == Some((xs, rest))
    ensures ReadItems(first + (", " + more)) == Some(([x] + xs, rest))
  {
    hide ReadValue;
    assert (", " + more)[2..] == more && (", " + more)[0] == ',';
  }

  lemma OneItem(items: seq<Tree>, printable: Printable)
    requires (forall x :: x in items ==> Inspectable(x)) && |items| == 1
    ensures items[0] in items && InspectItems(items, printable) == Inspect(items[0], printable)
  {
    hide Inspect, Inspectable;
  }

  lemma MoreItems(items: seq<Tree>, printable: Printable, close: string)
    requires (forall x :: x in items ==> Inspectable(x)) && |items| > 1
    ensures items[0] in items && forall x :: x in items[1..] ==> x in items
    ensures InspectItems(items, printable) + close ==
            Inspect(items[0], printable) + (", " + (InspectItems(items[1..], printable) + close))
  {
    hide Inspect, Inspectable;
    assert items[0] in items && forall x :: x in items[1..] ==> x in items;
    Join3(Inspect(items[0], printable), ", ", InspectItems(items[1..], printable), close);
  }

  lemma Join3(a: string, separator: string, b: string, close: string)
    ensures (a + (separator + b)) + close == a + (separator + (b + close))
  {
  }

  lemma {:induction false} HashReads(es: seq<Entry>, printable: Printable, rest: string)
    requires (forall e :: e in es ==> Inspectable(e.value)) && Delimited(rest)
    ensures ReadValue("{" + InspectPairs(es, printable) + "}" + rest) == Some((Hash(es), rest))
    decreases es, 1
  {
    hide ReadPairs, InspectPairs, ReadValue, Inspectable;
    var inner := InspectPairs(es, printable);
    var s := "{" + inner + "}" + rest;
    if es == [] {
      NoPairs(printable);
      assert s == "{}" + rest;
      EmptyHashReads(rest);
    } else {
      assert s[1..] == inner + ("}" + rest);
      PairsRead(es, printable, rest);
      PairsQuote(es, printable);
      assert s[1] == inner[0];
      BraceFirst(s, es, rest);
    }
  }

  lemma NoPairs(printable: Printable)
    ensures InspectPairs([], printable) == ""
  {
  }

  lemma PairsQuote(es: seq<Entry>, printable: Printable)
    requires (forall e :: e in es ==> Inspectable(e.value)) && es != []
    ensures InspectPairs(es, printable) != "" && InspectPairs(es, printable)[0] == '\"'
  {
    hide Inspect, Inspectable;
    assert es[0] in es;
  }

  lemma EmptyHashReads(rest: string)
    ensures ReadValue("{}" + rest) == Some((Hash([]), rest))
  {
    var s := "{}" + rest;
    assert s[1] == '}' && s[2..] == rest;
    NoWord(s);
  }

  lemma {:induction false} PairsRead(es: seq<Entry>, printable: Printable, rest: string)
    requires (forall e :: e in es ==> Inspectable(e.value)) && es != []
    ensures ReadPairs(InspectPairs(es, printable) + ("}" + rest)) == Some((es, rest))
    decreases es, 0
  {
    hide ReadValue, ReadPairs, Inspect, InspectString, InspectPairs, ReadChars, Inspectable;
    assert es[0] in es && forall e :: e in es[1..] ==> e in es;
    var close := "}" + rest;
    if |es| == 1 {
      OnePair(es, printable);
      Join3(InspectString(es[0].key, printable), "=>", Inspect(es[0].value, printable), close);
      InspectReads(es[0].value, printable, close);
      PairReads(es[0], printable, close);
      LastTail(rest);
      assert [es[0]] == es;
    } else {
      var more := InspectPairs(es[1..], printable) + close;
      MorePairs(es, printable, close);
      InspectReads(es[0].value, printable, ", " + more);
      PairReads(es[0], printable, ", " + more);
      PairsRead(es[1..], printable, rest);
      NextTail(more);
      assert [es[0]] + es[1..] == es;
    }
  }

  lemma LastTail(rest: string)
    ensures "}" <= "}" + rest && ("}" + rest)[1..] == rest
  {
  }

  lemma NextTail(more: string)
    ensures ", " <= ", " + more && !("}" <= ", " + more) && (", " + more)[2..] == more
  {
    assert (", " + more)[0] == ',';
  }

  lemma OnePair(es: seq<Entry>, printable: Printable)
    requires (forall e :: e in es ==> Inspectable(e.value)) && |es| == 1
    ensures es[0] in es
    ensures InspectPairs(es, printable) == InspectString(es[0].key, printable) + ("=>" + Inspect(es[0].value, printable))
  {
    hide Inspect, InspectString, Inspectable;
  }

  lemma MorePairs(es: seq<Entry>, printable: Printable, close: string)
    requires (forall e :: e in es ==> Inspectable(e.value)) && |es| > 1
    ensures es[0] in es && forall e :: e in es[1..] ==> e in es
    ensures InspectPairs(es, printable) + close ==
            InspectString(es[0].key, printable) +
            ("=>" + (Inspect(es[0].value, printable) + (", " + (InspectPairs(es[1..], printable) + close))))
  {
    hide Inspect, InspectString, Inspectable;
    assert es[0] in es;
    Associate(InspectString(es[0].key, printable), Inspect(es[0].value, printable), InspectPairs(es[1..], printable), close);
  }

  lemma Associate(key: string, value: string, more: string, close: string)
    ensures (key + ("=>" + value) + (", " + more)) + close == key + ("=>" + (value + (", " + (more + close))))
  {
  }

  /** One pair, then the end of the hash or the next pair. */
  lemma PairReads(e: Entry, printable: Printable, tail: string)
    requires Inspectable(e.value)
    requires ReadValue(Inspect(e.value, printable) + tail) == Some((e.value, tail))
    ensures ReadPairs(InspectString(e.key, printable) + ("=>" + (Inspect(e.value, printable) + tail))) ==
            if "}" <= tail then Some(([e], tail[1..]))
            else if ", " <= tail then
              match ReadPairs(tail[2..]) case None => None case Some((es, end)) => Some(([e] + es, end))
            else None
  {
    hide ReadValue, Inspect, InspectString, ReadChars, Inspectable;
    var mid := "=>" + (Inspect(e.value, printable) + tail);
    QuotedReads(e.key, printable, mid);
    assert mid[2..] == Inspect(e.value, printable) + tail;
  }

  /** Distinct values never print alike. */
  lemma InspectInjective(a: Tree, b: Tree, printable: Printable)
    requires Inspectable(a) && Inspectable(b)
    requires Inspect(a, printable) == Inspect(b, printable)
    ensures a == b
  {
    InspectReads(a, printable, "");
    InspectReads(b, printable, "");
  }
}
