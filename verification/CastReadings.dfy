/**
  What each kind of parameter casts to, said of the parameter alone: castString, castInteger and
  the escapes of internal/news_articles/rails_cast.go.
 */
module CastReadings {
  import opened CastString
  import opened Decimal
  import opened ParamTree
  import opened RubyFloat
  import opened RubyInspect
  import opened SavedUsers
  import opened Wrappers
  import I = RubyInteger

  // ----- White space -----

  lemma UnicodeSpaces(c: char)
    ensures I.IsUnicodeSpace(c) <==> c in SPACES
  {
    SpacesListed(c);
    var some := "\U{85}\U{A0}\U{1680}\U{2028}\U{2029}\U{202F}\U{205F}\U{3000}";
    assert c == '\U{85}' ==> some[0] == c;
    assert c == '\U{A0}' ==> some[1] == c;
    assert c == '\U{1680}' ==> some[2] == c;
    assert c == '\U{2028}' ==> some[3] == c;
    assert c == '\U{2029}' ==> some[4] == c;
    assert c == '\U{202F}' ==> some[5] == c;
    assert c == '\U{205F}' ==> some[6] == c;
    assert c == '\U{3000}' ==> some[7] == c;
    RubySpaces(c);
  }

  /** The space, and the five controls from the tab to the carriage return. */
  lemma RubySpaces(c: char)
    ensures I.IsSpace(c) <==> c == ' ' || 9 <= c as int <= 13
  {
    var some := " \t\n\U{0B}\U{0C}\r";
    assert c as int == 11 ==> some[3] == c;
    assert c as int == 12 ==> some[4] == c;
    assert c == '\t' ==> some[1] == c;
    assert c == '\n' ==> some[2] == c;
    assert c == '\r' ==> some[5] == c;
    assert c == ' ' ==> some[0] == c;
  }

  // ----- Integers -----

  predicate FourBytes(n: int) { -2147483648 <= n <= 2147483647 }

  predicate EightBytes(n: int) { -9223372036854775808 <= n <= 9223372036854775807 }

  /** What an integer becomes in a four-byte and in an eight-byte column. */
  ghost predicate CastsTo(t: Tree, whole: Float64 -> int, n: int)
  {
    && I.CastInteger(t, whole) == (if FourBytes(n) then I.Cast(n) else I.OutOfRange)
    && I.CastId(t, whole) == (if EightBytes(n) then Some(n) else None)
  }

  ghost predicate CastsToNothing(t: Tree, whole: Float64 -> int)
  {
    I.CastInteger(t, whole) == I.Absent && I.CastId(t, whole) == None
  }

  /** Booleans are one and zero, numbers themselves, and what has no integer reading is nil. */
  lemma KindsCast(whole: Float64 -> int)
    ensures CastsTo(Bool(true), whole, 1) && CastsTo(Bool(false), whole, 0)
    ensures forall n :: CastsTo(Num(Integer(n)), whole, n)
    ensures forall f: Float64 :: f.Infinite? ==> CastsToNothing(Num(Float(f)), whole)
    ensures forall f: Float64 :: !f.Infinite? ==> CastsTo(Num(Float(f)), whole, whole(f))
    ensures CastsToNothing(Nil, whole)
    ensures forall items :: CastsToNothing(List(items), whole) && CastsToNothing(Builder(items), whole)
    ensures forall es :: CastsToNothing(Hash(es), whole)
  {
  }

  /** A text of white space is nil, and any other text is what Ruby reads at its front. */
  lemma TextCasts(s: string, whole: Float64 -> int)
    ensures Blank(s) ==> CastsToNothing(Str(s), whole)
    ensures !Blank(s) ==> CastsTo(Str(s), whole, I.ToI(s))
  {
    hide I.ToI, I.IsUnicodeSpace, SPACES;
    forall c ensures I.IsUnicodeSpace(c) <==> c in SPACES { UnicodeSpaces(c); }
  }

  // ----- Strings -----

  lemma KindsPrint(printable: Printable)
    ensures Cast(Nil, printable) == None
    ensures forall s :: Cast(Str(s), printable) == Some(s)
    ensures Cast(Bool(true), printable) == Some("t") && Cast(Bool(false), printable) == Some("f")
    ensures forall n :: Cast(Num(Integer(n)), printable) == Some(IntText(n))
  {
    hide IntText;
  }

  // ----- Escapes -----

  /** The characters with a short escape, and the letters that stand for them. */
  const ESCAPED := ['\"', '\\', '\n', '\r', '\t', '\U{0C}', '\U{0B}', '\U{08}', '\U{07}', '\U{1B}']

  const LETTERS := ['\"', '\\', 'n', 'r', 't', 'f', 'v', 'b', 'a', 'e']

  /** Quote, backslash and the controls with a letter are written with a backslash and that letter. */
  lemma ShortEscapes(i: nat, next: string, printable: Printable)
    requires i < |ESCAPED|
    ensures EscapeChar(ESCAPED[i], next, printable) == ['\\', LETTERS[i]]
  {
    hide Hex4, HexText;
  }

  /** Any other character is itself when it is printable, but for a hash sign before a brace, a dollar or an at sign. */
  lemma PlainEscapes(c: char, next: string, printable: Printable)
    requires c !in ESCAPED
    ensures printable(c) && c != '#' ==> EscapeChar(c, next, printable) == [c]
    ensures printable('#') ==>
              EscapeChar('#', next, printable) ==
              if next != "" && (next[0] == '{' || next[0] == '$' || next[0] == '@') then "\\#" else "#"
  {
    hide Hex4, HexText;
    assert forall i :: 0 <= i < |ESCAPED| ==> c != ESCAPED[i];
    assert c != ESCAPED[0] && c != ESCAPED[1] && c != ESCAPED[2] && c != ESCAPED[3] && c != ESCAPED[4] &&
           c != ESCAPED[5] && c != ESCAPED[6] && c != ESCAPED[7] && c != ESCAPED[8] && c != ESCAPED[9];
    var marks := "{$@";
    assert marks[0] == '{' && marks[1] == '$' && marks[2] == '@';
  }
}
