/**
  Ruby's #inspect, rubyInspect and rubyStringInspect of
  internal/news_articles/rails_cast.go, for every value a parameter can hold.
 */
module RubyInspect {
  import opened Decimal
  import opened ParamTree
  import opened RubyFloat
  import opened Wrappers

  /** Which code points are written as they are; the source asks the Unicode tables. */
  type Printable = char -> bool

  /** The letter after the backslash of a short escape. */
  function ShortEscape(c: char): Option<char>
  {
    match c
    case '\"' => Some('\"')
    case '\\' => Some('\\')
    case '\n' => Some('n')
    case '\r' => Some('r')
    case '\t' => Some('t')
    case '\U{0C}' => Some('f')
    case '\U{0B}' => Some('v')
    case '\U{08}' => Some('b')
    case '\U{07}' => Some('a')
    case '\U{1B}' => Some('e')
    case _ => None
  }

  function HexChar(d: nat): (c: char)
    requires d < 16
  {
    if d < 10 then '0' + d as char else 'A' + (d - 10) as char
  }

  /** Upper-case hexadecimal without leading zeros. */
  function HexText(n: nat): (s: string)
    ensures s != ""
    decreases n
  {
    if n < 16 then [HexChar(n)] else HexText(n / 16) + [HexChar(n % 16)]
  }

  /** Four hexadecimal digits. */
  function Hex4(n: nat): (s: string)
    requires n < 0x10000
    ensures |s| == 4
  {
    [HexChar(n / 16 / 16 / 16), HexChar(n / 16 / 16 % 16), HexChar(n / 16 % 16), HexChar(n % 16)]
  }

  /** How one code point is written, given the one after it. */
  function EscapeChar(c: char, next: string, printable: Printable): (s: string)
    ensures s != ""
  {
    if ShortEscape(c).Some? then ['\\', ShortEscape(c).value]
    else if c == '#' && next != "" && next[0] in "{$@" then "\\#"
    else if printable(c) then [c]
    else if c < '\U{10000}' then "\\u" + Hex4(c as nat)
    else "\\u{" + HexText(c as nat) + "}"
  }

  function Escape(s: string, printable: Printable): string
  {
    if s == "" then "" else EscapeChar(s[0], s[1..], printable) + Escape(s[1..], printable)
  }

  function InspectString(s: string, printable: Printable): string
  {
    "\"" + (Escape(s, printable) + "\"")
  }

  /** The source's loop with a string builder. */
  method RubyStringInspect(s: string, printable: Printable) returns (out: string)
    ensures out == InspectString(s, printable)
  {
    hide EscapeChar;
    out := "\"";
    for i := 0 to |s|
      invariant out + (Escape(s[i..], printable) + "\"") == InspectString(s, printable)
    {
      ghost var rest := s[i..];
      assert rest[0] == s[i] && rest[1..] == s[i + 1..];
      ghost var before := out;
      var written := EscapeChar(s[i], s[i + 1..], printable);
      out := out + written;
      assert out + (Escape(s[i + 1..], printable) + "\"") ==
             before + ((written + Escape(s[i + 1..], printable)) + "\"");
    }
    out := out + "\"";
    assert Escape(s[|s|..], printable) == "";
  }

  function NumberText(n: Number): string
    requires n.Float? ==> WellFormed(n.f)
  {
    match n
    case Integer(i) => IntText(i)
    case Float(f) => FloatToS(f)
  }

  /** The values that reach #inspect: nil removal has turned builder arrays into lists. */
  predicate Inspectable(t: Tree)
  {
    match t
    case Num(Float(f)) => WellFormed(f)
    case List(items) => forall x :: x in items ==> Inspectable(x)
    case Builder(_) => false
    case Hash(es) => forall e :: e in es ==> Inspectable(e.value)
    case _ => true
  }

  function Inspect(t: Tree, printable: Printable): string
    requires Inspectable(t)
    decreases t, 1
  {
    match t
    case Nil => "nil"
    case Bool(b) => if b then "true" else "false"
    case Str(s) => InspectString(s, printable)
    case Num(n) => NumberText(n)
    case List(items) => "[" + InspectItems(items, printable) + "]"
    case Hash(es) => "{" + InspectPairs(es, printable) + "}"
  }

  function InspectItems(items: seq<Tree>, printable: Printable): string
    requires forall x :: x in items ==> Inspectable(x)
    decreases items, 0
  {
    if items == [] then "" else
      Inspect(items[0], printable) +
      (if |items| == 1 then "" else ", " + InspectItems(items[1..], printable))
  }

  function InspectPairs(es: seq<Entry>, printable: Printable): string
    requires forall e :: e in es ==> Inspectable(e.value)
    decreases es, 0
  {
    if es == [] then "" else
      InspectString(es[0].key, printable) + ("=>" + Inspect(es[0].value, printable)) +
      (if |es| == 1 then "" else ", " + InspectPairs(es[1..], printable))
  }
}
