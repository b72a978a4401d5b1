/**
  Scanners for the bracketed parameter names of internal/news_articles/rails_params.go,
  replacing its four regular expressions.
 */
module RackKeys {
  import opened Wrappers
  import opened Scanning

  predicate IsBracket(c: char) { c == '[' || c == ']' }

  predicate IsKeyChar(c: char) { !IsBracket(c) }

  predicate IsClose(c: char) { c == ']' }

  /** A key that can be written in brackets: not empty and free of brackets. */
  predicate PlainKey(k: string)
  {
    k != "" && forall c :: c in k ==> IsKeyChar(c)
  }

  /** First key of a name, and what is left after it. No key at all gives ("", ""). */
  datatype Split = Split(key: string, after: string)

  function SplitKey(name: string): (r: Split)
    ensures r.key == "" ==> r.after == ""
    ensures r.key != "" ==> PlainKey(r.key) && |r.key| + |r.after| <= |name|
    ensures r.after != "" ==> !IsClose(r.after[0])
  {
    var a := Run(name, IsBracket);
    var b := Run(name[a..], IsKeyChar);
    var c := Run(name[a + b..], IsClose);
    CutName(name, a, b, c)
  }

  /** The key after a characters, b long, and what comes c characters after it. */
  function CutName(name: string, a: nat, b: nat, c: nat): (r: Split)
    requires a + b + c <= |name|
    ensures b == 0 ==> r == Split("", "")
    ensures b > 0 ==> r.key == name[a..][..b] && r.after == name[a + b..][c..]
  {
    if b == 0 then Split("", "") else Split(name[a..a + b], name[a + b + c..])
  }

  /**
    The name below an array element: "[][id]" gives "id", any other "[]rest" gives
    rest, unless rest has a line break, which the pattern's dot refuses.
   */
  function ChildKey(after: string): (r: Option<string>)
    ensures r.Some? ==> r.value != "" && |r.value| + 2 <= |after|
  {
    if "[][" <= after && 4 < |after| && IsClose(after[|after| - 1]) && PlainKey(after[3..|after| - 1]) then
      Some(after[3..|after| - 1])
    else if "[]" <= after && 2 < |after| && '\n' !in after[2..] then
      Some(after[2..])
    else
      None
  }

  /**
    The five things a name can ask for. A scalar also covers "k[", which is stored
    under the whole name.
   */
  datatype Shape =
    | Keyless
    | Scalar(key: string)
    | ArrayEnd(key: string)
    | ArrayChild(key: string, childKey: string)
    | HashChild(key: string, after: string)

  function ShapeOf(name: string): (r: Shape)
    ensures r.ArrayEnd? ==> 2 < |name|
    ensures r.ArrayChild? ==> 0 < |r.childKey| && |r.childKey| + 3 <= |name|
    ensures r.HashChild? ==> 0 < |r.after| < |name|
    ensures !r.Keyless? ==> r.key != ""
  {
    var Split(key, after) := SplitKey(name);
    if key == "" then Keyless
    else if after == "" then Scalar(key)
    else if after == "[" then Scalar(name)
    else if after == "[]" then ArrayEnd(key)
    else
      match ChildKey(after)
      case Some(childKey) => ArrayChild(key, childKey)
      case None => HashChild(key, after)
  }

  predicate HasEmptyBrackets(key: string)
  {
    exists i :: 0 <= i < |key| - 1 && key[i] == '[' && key[i + 1] == ']'
  }

  /** The maximal bracket-free pieces of a key, in order. */
  function Pieces(key: string): (ps: seq<string>)
    ensures forall p :: p in ps ==> PlainKey(p)
    decreases |key|
  {
    var a := Run(key, IsBracket);
    var b := Run(key[a..], IsKeyChar);
    if b == 0 then [] else
      assert forall i :: 0 <= i < b ==> key[a..a + b][i] == key[a..][i];
      [key[a..a + b]] + Pieces(key[a + b..])
  }

  // ----- Shapes of the names a flattener writes -----

  /** What SplitKey reads from brackets, a key, closing brackets and a rest. */
  lemma SplitOf(lead: string, k: string, closes: string, rest: string)
    requires forall c :: c in lead ==> IsBracket(c)
    requires PlainKey(k)
    requires forall c :: c in closes ==> IsClose(c)
    requires rest == "" || rest[0] == '['
    ensures SplitKey(lead + (k + (closes + rest))) == Split(k, rest)
  {
    hide Run, SplitKey, PlainKey, IsBracket, IsKeyChar, IsClose;
    LeadRun(lead, k, closes + rest);
    KeyRun(k, closes, rest);
    CloseRun(closes, rest);
    NameParts(lead, k, closes, rest);
    SplitAt(lead + (k + (closes + rest)), |lead|, |k|, |closes|);
  }

  lemma LeadRun(lead: string, k: string, tail: string)
    requires (forall c :: c in lead ==> IsBracket(c)) && PlainKey(k)
    ensures Run(lead + (k + tail), IsBracket) == |lead|
  {
    hide Run;
    assert k[0] in k && (k + tail)[0] == k[0];
    RunBlock(lead, k + tail, IsBracket);
  }

  lemma KeyRun(k: string, closes: string, rest: string)
    requires PlainKey(k) && (forall c :: c in closes ==> IsClose(c)) && (rest == "" || rest[0] == '[')
    ensures Run(k + (closes + rest), IsKeyChar) == |k| > 0
  {
    hide Run;
    if closes != "" {
      assert closes[0] in closes && (closes + rest)[0] == closes[0];
    } else {
      assert closes + rest == rest;
    }
    RunBlock(k, closes + rest, IsKeyChar);
  }

  lemma CloseRun(closes: string, rest: string)
    requires (forall c :: c in closes ==> IsClose(c)) && (rest == "" || rest[0] == '[')
    ensures Run(closes + rest, IsClose) == |closes|
  {
    hide Run;
    RunBlock(closes, rest, IsClose);
  }

  lemma SplitAt(name: string, a: nat, b: nat, c: nat)
    requires a <= |name| && Run(name, IsBracket) == a && Run(name[a..], IsKeyChar) == b
    requires a + b <= |name| && Run(name[a + b..], IsClose) == c && b > 0
    ensures a + b + c <= |name| && SplitKey(name) == CutName(name, a, b, c)
  {
    hide Run, CutName, PlainKey;
  }

  lemma NameParts(lead: string, k: string, closes: string, rest: string)
    ensures var name := lead + (k + (closes + rest));
            && name[|lead|..] == k + (closes + rest) && name[|lead|..|lead| + |k|] == k
            && name[|lead| + |k|..] == closes + rest && name[|lead| + |k| + |closes|..] == rest
  {
    var name := lead + (k + (closes + rest));
    CutAfter(lead, k + (closes + rest));
    CutAfter(k, closes + rest);
    assert name == (lead + k) + (closes + rest) == (lead + k + closes) + rest;
    CutAfter(lead + k, closes + rest);
    CutAfter(lead + k + closes, rest);
    assert name[..|lead| + |k|] == lead + k;
    assert name[|lead|..|lead| + |k|] == (lead + k)[|lead|..];
  }

  /** "k" and "[k]" are read as the same key, with the same rest. */
  lemma SplitBare(k: string, rest: string)
    requires PlainKey(k)
    requires rest == "" || rest[0] == '['
    ensures SplitKey(k + rest) == Split(k, rest)
  {
    var none: string := "";
    assert none + (k + (none + rest)) == k + rest;
    SplitOf(none, k, none, rest);
  }

  lemma SplitBracketed(k: string, rest: string)
    requires PlainKey(k)
    requires rest == "" || rest[0] == '['
    ensures SplitKey("[" + k + "]" + rest) == Split(k, rest)
  {
    var open, close: string := "[", "]";
    assert open + (k + (close + rest)) == open + k + close + rest;
    SplitOf(open, k, close, rest);
  }

  /** A field name "[k]..." never looks like an array element. */
  lemma NoChildOfField(k: string, rest: string)
    requires PlainKey(k)
    ensures ChildKey("[" + k + "]" + rest) == None
    ensures "[" + k + "]" + rest !in ["", "[", "[]"]
  {
    var after := "[" + k + "]" + rest;
    assert after[1] == k[0] && k[0] in k;
  }

  // The names a flattener writes below a prefix that is read as key k.

  lemma ShapeOfArrayEnd(name: string, k: string)
    requires k != "" && SplitKey(name) == Split(k, "[]")
    ensures ShapeOf(name) == ArrayEnd(k)
  {
  }

  lemma ShapeOfRecord(name: string, k: string, f: string)
    requires k != "" && PlainKey(f)
    requires SplitKey(name) == Split(k, "[][" + f + "]")
    ensures ShapeOf(name) == ArrayChild(k, f)
  {
    hide SplitKey, ChildKey;
    ChildOfRecord(f);
  }

  lemma ChildOfRecord(f: string)
    requires PlainKey(f)
    ensures ChildKey("[][" + f + "]") == Some(f) && |"[][" + f + "]"| > 3
  {
    var after := "[][" + f + "]";
    assert after[3..|after| - 1] == f && after[|after| - 1] == ']';
  }

  lemma ShapeOfField(name: string, k: string, f: string, rest: string)
    requires k != "" && PlainKey(f)
    requires SplitKey(name) == Split(k, "[" + f + "]" + rest)
    ensures ShapeOf(name) == HashChild(k, "[" + f + "]" + rest)
  {
    hide SplitKey, ChildKey;
    NoChildOfField(f, rest);
  }

  lemma PiecesOfPlain(k: string)
    requires PlainKey(k)
    ensures Pieces(k) == [k] && !HasEmptyBrackets(k)
  {
    hide Run, Pieces;
    var none: string := "";
    assert none + k == k && k + none == k;
    LeadRun(none, k, none);
    KeyRun(k, none, none);
    assert none + (k + none) == k;
    OnePiece(k);
    assert forall i :: 0 <= i < |k| ==> k[i] in k;
  }

  lemma OnePiece(k: string)
    requires k != "" && Run(k, IsBracket) == 0 && Run(k, IsKeyChar) == |k|
    ensures Pieces(k) == [k]
  {
    assert k[0..] == k && k[..|k|] == k && k[|k|..] == "";
  }
}
