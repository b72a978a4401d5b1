/**
  Bracketed names by their parts: what storing a name means when it is a key followed by
  fields in brackets and empty brackets. Nothing in the meaning scans text, so it is an
  independent account of normalizeRackParams in internal/news_articles/rails_params.go.
 */
module RackNames {
  import opened Wrappers
  import opened Scanning
  import opened ParamTree
  import opened RackKeys
  import opened RackInsert
  import opened RackInsertLaws

  /** One part of a name after its key: "[field]" or "[]". */
  datatype Part = Named(field: string) | Empty

  function Text(parts: seq<Part>): (s: string)
    ensures parts == [] ==> s == ""
    ensures parts != [] ==> |s| >= 2 && s[0] == '['
    ensures |s| >= 2 * |parts|
  {
    if parts == [] then "" else PartText(parts[0]) + Text(parts[1..])
  }

  function PartText(part: Part): (s: string)
    ensures |s| >= 2 && s[0] == '['
  {
    match part
    case Named(f) => "[" + f + "]"
    case Empty => "[]"
  }

  ghost predicate PlainParts(parts: seq<Part>)
  {
    forall p :: p in parts && p.Named? ==> PlainKey(p.field)
  }

  // ----- The meaning -----

  /** The path of the fields exists, through hashes only. Empty brackets lead nowhere. */
  predicate Leads(t: Tree, parts: seq<Part>)
    decreases |parts|
  {
    parts == [] ||
    (parts[0].Named? && t.Hash? && Has(t.entries, parts[0].field) && Leads(Get(t.entries, parts[0].field), parts[1..]))
  }

  /** A name below an array joins its last item when that is a hash without the name's path. */
  predicate Joins(items: seq<Tree>, parts: seq<Part>)
  {
    items != [] && items[|items| - 1].Hash? && !Leads(items[|items| - 1], parts)
  }

  predicate LineBreak(parts: seq<Part>)
  {
    exists i :: 0 <= i < |parts| && parts[i].Named? && '\n' in parts[i].field
  }

  /**
    What stands under the key is a hash when a field comes next. It is also one when empty
    brackets come next and the name goes on with more than one field and has a line break:
    the source's pattern for the rest of an array name stops at a line break.
   */
  predicate HashNext(parts: seq<Part>)
    requires parts != []
  {
    parts[0].Named? || (parts != [Empty] && !(|parts| == 2 && parts[1].Named?) && LineBreak(parts))
  }

  /** The number of empty brackets in front. */
  function Empties(parts: seq<Part>): (n: nat)
    ensures n <= |parts|
    ensures forall i :: 0 <= i < n ==> parts[i].Empty?
    ensures n < |parts| ==> parts[n].Named?
  {
    if parts == [] || parts[0].Named? then 0 else 1 + Empties(parts[1..])
  }

  function Stored(es: seq<Entry>, k: string, parts: seq<Part>, value: Tree): Outcome
    decreases |parts|, 1
  {
    var held := Get(es, k);
    if parts == [] then Kept(es, k, value)
    else if HashNext(parts) then
      if held != Nil && !held.Hash? then BadRequest else
        match StoredBelow(if held.Hash? then held.entries else [], parts, value)
        case BadRequest => BadRequest
        case Done(_, sub) => Kept(es, k, Hash(sub))
    else
      if held != Nil && !held.Builder? then BadRequest else
        StoredInItems(es, k, if held.Builder? then held.items else [], parts, value)
  }

  function StoredInItems(es: seq<Entry>, k: string, items: seq<Tree>, parts: seq<Part>, value: Tree): Outcome
    requires parts != []
    decreases |parts|, 0
  {
    if parts == [Empty] then Kept(es, k, Builder(items + [value]))
    else if Joins(items, parts[1..]) then
      match StoredBelow(items[|items| - 1].entries, parts[1..], value)
      case BadRequest => BadRequest
      case Done(_, sub) => Kept(es, k, Builder(items[..|items| - 1] + [Hash(sub)]))
    else
      match StoredBelow([], parts[1..], value)
      case BadRequest => BadRequest
      case Done(item, _) => Kept(es, k, Builder(items + [item]))
  }

  /**
    Below a key the first field is the next key, and empty brackets before it are skipped.
    Empty brackets alone store nothing and hand back at most a list of the value.
   */
  function StoredBelow(es: seq<Entry>, parts: seq<Part>, value: Tree): Outcome
    decreases |parts|, 0
  {
    var n := Empties(parts);
    if n < |parts| then Stored(es, parts[n].field, parts[n + 1..], value)
    else Done(if parts == [Empty] && value != Nil then List([value]) else Nil, es)
  }

  function Kept(es: seq<Entry>, k: string, value: Tree): Outcome
  {
    Done(Hash(Put(es, k, value)), Put(es, k, value))
  }

  // ----- Names are read by their parts -----

  lemma PlainTail(parts: seq<Part>, n: nat)
    requires PlainParts(parts) && n <= |parts|
    ensures PlainParts(parts[n..])
    ensures n < |parts| && parts[n].Named? ==> PlainKey(parts[n].field) && parts[n].field != ""
  {
    if n < |parts| {
      assert parts[n] in parts;
    }
    assert forall p :: p in parts[n..] ==> p in parts;
  }

  /** n pairs of brackets. */
  function Brackets(n: nat): (s: string)
    ensures |s| == 2 * n
    ensures forall c :: c in s ==> IsBracket(c)
  {
    if n == 0 then "" else "[]" + Brackets(n - 1)
  }

  /** Empty brackets in front are leading brackets of the text. */
  lemma {:induction false} LeadOf(parts: seq<Part>, n: nat)
    requires n <= |parts| && forall i :: 0 <= i < n ==> parts[i].Empty?
    ensures Text(parts) == Brackets(n) + Text(parts[n..])
    decreases n
  {
    hide Text, Brackets;
    BracketsUnfold(n);
    if n == 0 {
      assert parts[0..] == parts;
    } else {
      assert parts[1..][n - 1..] == parts[n..];
      assert forall i :: 0 <= i < n - 1 ==> parts[1..][i] == parts[i + 1];
      LeadOf(parts[1..], n - 1);
      TextUnfolds(parts);
      Associates("[]", Brackets(n - 1), Text(parts[n..]));
    }
  }

  lemma BracketsUnfold(n: nat)
    ensures Brackets(n) == if n == 0 then "" else "[]" + Brackets(n - 1)
  {
  }

  lemma Associates(a: string, b: string, c: string)
    ensures (a + b) + c == a + (b + c)
  {
  }

  /** The text of parts with a field splits at the first field. */
  lemma SplitOfText(parts: seq<Part>, n: nat)
    requires PlainParts(parts) && n == Empties(parts) < |parts|
    ensures SplitKey(Text(parts)) == Split(parts[n].field, Text(parts[n + 1..]))
  {
    hide Text, SplitKey, PlainKey, PlainParts, Empties, Brackets;
    PlainTail(parts, n);
    LeadOf(parts, n);
    var f, rest := parts[n].field, Text(parts[n + 1..]);
    TextUnfolds(parts[n..]);
    assert parts[n..][1..] == parts[n + 1..];
    var open, close: string := Brackets(n) + "[", "]";
    Associates("[" + f, close, rest);
    Associates("[", f, close + rest);
    Associates(Brackets(n), "[", f + (close + rest));
    SplitOf(open, f, close, rest);
  }

  lemma TextUnfolds(parts: seq<Part>)
    requires parts != []
    ensures Text(parts) == PartText(parts[0]) + Text(parts[1..])
  {
  }

  lemma SplitOfBrackets(parts: seq<Part>)
    requires Empties(parts) == |parts|
    ensures SplitKey(Text(parts)) == Split("", "")
    ensures Text(parts) == "[]" <==> parts == [Empty]
  {
    hide Run, Text, Brackets;
    LeadOf(parts, |parts|);
    var lead := Brackets(|parts|);
    assert lead + Text(parts[|parts|..]) == lead;
    var none: string := "";
    assert lead + none == lead;
    RunBlock(lead, none, IsBracket);
    assert lead[|lead|..] == "";
    RunIs("", IsKeyChar, 0);
    RunIs("", IsClose, 0);
    if parts == [Empty] {
      OneEmpty();
    }
  }

  lemma OneEmpty()
    ensures Text([Empty]) == "[]"
  {
    assert [Empty][1..] == [];
    assert Text([Empty]) == "[]" + Text([]);
  }

  /** Names that split alike are stored alike. */
  lemma SplitDecides(es: seq<Entry>, a: string, b: string, value: Tree)
    requires SplitKey(a) == SplitKey(b)
    requires SplitKey(a).key != "" && SplitKey(a).after != "["
    ensures Insert(es, a, value) == Insert(es, b, value)
  {
    hide SplitKey, ChildKey, Put, Get, SlotIndex, SlotEntries, PutItem;
    assert ShapeOf(a) == ShapeOf(b);
  }

  lemma {:induction false} BreakInText(parts: seq<Part>)
    ensures '\n' in Text(parts) <==> LineBreak(parts)
    decreases |parts|
  {
    if parts != [] {
      BreakInText(parts[1..]);
      LineBreakUnfolds(parts);
      var head := PartText(parts[0]);
      assert '\n' in head <==> parts[0].Named? && '\n' in parts[0].field;
      TextUnfolds(parts);
      hide Text, LineBreak;
      assert '\n' in Text(parts) <==> '\n' in head || '\n' in Text(parts[1..]);
    }
  }

  lemma LineBreakUnfolds(parts: seq<Part>)
    requires parts != []
    ensures LineBreak(parts) <==> (parts[0].Named? && '\n' in parts[0].field) || LineBreak(parts[1..])
  {
    if LineBreak(parts) {
      var i :| 0 <= i < |parts| && parts[i].Named? && '\n' in parts[i].field;
      assert i > 0 ==> parts[1..][i - 1] == parts[i];
    }
    if LineBreak(parts[1..]) {
      var i :| 0 <= i < |parts| - 1 && parts[1..][i].Named? && '\n' in parts[1..][i].field;
      assert parts[i + 1] == parts[1..][i];
    }
  }

  /** What the scanner makes of the parts after a key. */
  lemma ShapeOfParts(name: string, k: string, parts: seq<Part>)
    requires PlainParts(parts) && k != "" && SplitKey(name) == Split(k, Text(parts))
    ensures parts == [] ==> ShapeOf(name) == Scalar(k)
    ensures parts == [Empty] ==> ShapeOf(name) == ArrayEnd(k)
    ensures parts != [] && HashNext(parts) ==> ShapeOf(name) == HashChild(k, Text(parts))
    ensures parts != [] && parts != [Empty] && !HashNext(parts) ==>
              ShapeOf(name) == ArrayChild(k, if |parts| == 2 then ChildName(parts[1]) else Text(parts[1..]))
  {
    hide SplitKey, ChildKey, Text, LineBreak, PlainKey, PlainParts;
    if parts == [Empty] {
      OneEmpty();
    } else if parts != [] {
      TextUnfolds(parts);
      PlainTail(parts, 0);
      PlainTail(parts, 1);
      if parts[0].Named? {
        NoChildOfField(parts[0].field, Text(parts[1..]));
      } else {
        ChildOfParts(parts);
      }
    }
  }

  function ChildName(part: Part): string
  {
    match part
    case Named(f) => f
    case Empty => "[]"
  }

  lemma ChildOfParts(parts: seq<Part>)
    requires PlainParts(parts) && |parts| > 1 && parts[0].Empty?
    ensures Text(parts) !in ["", "[", "[]"]
    ensures ChildKey(Text(parts)) ==
            if HashNext(parts) then None
            else Some(if |parts| == 2 then ChildName(parts[1]) else Text(parts[1..]))
  {
    hide ChildKey, Text, LineBreak, PlainKey, PlainParts;
    TextUnfolds(parts);
    var rest := parts[1..];
    var after := Text(parts);
    assert after == "[]" + Text(rest) && after[2..] == Text(rest);
    assert |after| >= 4;
    TextUnfolds(rest);
    PlainTail(parts, 1);
    if |parts| == 2 {
      assert rest[1..] == [] && Text(rest) == PartText(parts[1]);
    }
    BreakInText(rest);
    LineBreakUnfolds(parts);
    if |parts| == 2 && parts[1].Named? {
      ChildOfRecord(parts[1].field);
      assert "[]" + ("[" + parts[1].field + "]") == "[][" + parts[1].field + "]";
    } else {
      NotOneField(parts);
      SecondPattern(after);
    }
  }

  lemma SecondPattern(after: string)
    requires "[]" <= after && 4 <= |after|
    requires !("[][" <= after && 4 < |after| && IsClose(after[|after| - 1]) && PlainKey(after[3..|after| - 1]))
    ensures ChildKey(after) == if '\n' in after[2..] then None else Some(after[2..])
  {
    hide PlainKey;
  }

  /** Anything but one field has a bracket inside, which the array-of-hash pattern refuses. */
  lemma NotOneField(parts: seq<Part>)
    requires |parts| > 1 && parts[0].Empty? && !(|parts| == 2 && parts[1].Named?)
    ensures |Text(parts)| >= 4
    ensures 4 < |Text(parts)| ==> !PlainKey(Text(parts)[3..|Text(parts)| - 1])
  {
    hide Text;
    TextUnfolds(parts);
    TextUnfolds(parts[1..]);
    var after := Text(parts);
    var tail := Text(parts[1..][1..]);
    assert after == "[]" + (PartText(parts[1]) + tail);
    if 4 < |after| {
      var mid := after[3..|after| - 1];
      if parts[1].Empty? {
        assert after[3] == ']' && mid[0] == ']';
      } else {
        var f := parts[1].field;
        assert |tail| >= 2;
        assert after[3 + |f|] == ']' && mid[|f|] == ']';
      }
      assert ']' in mid;
    }
  }

  // ----- The test for a key the last record has -----

  lemma PiecesSkip(lead: string, key: string)
    requires forall c :: c in lead ==> IsBracket(c)
    ensures Pieces(lead + key) == Pieces(key)
  {
    hide Run, Pieces;
    var name := lead + key;
    var n := Run(key, IsBracket);
    SkipRun(lead, key);
    CutFurther(lead, key, n);
    var a := |lead| + n;
    var b := Run(key[n..], IsKeyChar);
    if b > 0 {
      FirstPiece(key, n, b);
      FirstPiece(name, a, b);
      CutFurther(lead, key, n + b);
      assert name[a..a + b] == name[a..][..b] && key[n..n + b] == key[n..][..b];
    } else {
      NoPiece(key, n);
      NoPiece(name, a);
    }
  }

  lemma SkipRun(lead: string, key: string)
    requires forall c :: c in lead ==> IsBracket(c)
    ensures Run(lead + key, IsBracket) == |lead| + Run(key, IsBracket)
  {
    var name := lead + key;
    var n := Run(key, IsBracket);
    assert forall i :: 0 <= i < |name| ==> name[i] == if i < |lead| then lead[i] else key[i - |lead|];
    assert forall i :: 0 <= i < |lead| ==> lead[i] in lead;
    RunIs(name, IsBracket, |lead| + n);
  }

  lemma CutFurther(lead: string, key: string, n: nat)
    requires n <= |key|
    ensures (lead + key)[|lead| + n..] == key[n..]
  {
  }

  lemma NoPiece(key: string, a: nat)
    requires a <= |key| && Run(key, IsBracket) == a && Run(key[a..], IsKeyChar) == 0
    ensures Pieces(key) == []
  {
    hide Run;
  }

  /** A field in front is the first piece. */
  lemma PiecesOfField(f: string, rest: string)
    requires PlainKey(f) && (rest == "" || rest[0] == '[')
    ensures Pieces("[" + f + "]" + rest) == [f] + Pieces(rest)
  {
    hide Run, Pieces, PlainKey, IsKeyChar;
    var open, close: string := "[", "]";
    var tail := close + rest;
    var name := open + (f + tail);
    assert name == "[" + f + "]" + rest;
    LeadRun(open, f, tail);
    KeyRun(f, close, rest);
    CutAfter(open, f + tail);
    CutAfter(f, tail);
    FirstPiece(name, 1, |f|);
    assert name[1..1 + |f|] == name[1..][..|f|] && name[1 + |f|..] == name[1..][|f|..];
    PiecesSkip(close, rest);
  }

  lemma FirstPiece(key: string, a: nat, b: nat)
    requires a <= |key| && Run(key, IsBracket) == a && Run(key[a..], IsKeyChar) == b > 0
    ensures a + b <= |key| && Pieces(key) == [key[a..a + b]] + Pieces(key[a + b..])
  {
    hide Run;
  }

  lemma {:induction false} PiecesLead(t: Tree, parts: seq<Part>)
    requires PlainParts(parts) && Empty !in parts
    ensures HasPieces(t, Pieces(Text(parts))) <==> Leads(t, parts)
    decreases |parts|
  {
    hide Text, Pieces, PlainKey, PlainParts;
    if parts == [] {
      NoPieces();
    } else {
      assert parts[0] in parts && forall p :: p in parts[1..] ==> p in parts;
      var f, rest := parts[0].field, Text(parts[1..]);
      PlainTail(parts, 0);
      PlainTail(parts, 1);
      TextUnfolds(parts);
      PiecesOfField(f, rest);
      assert ([f] + Pieces(rest))[1..] == Pieces(rest);
      if t.Hash? {
        PiecesLead(Get(t.entries, f), parts[1..]);
      }
    }
  }

  lemma NoPieces()
    ensures Pieces("") == []
  {
    RunIs("", IsBracket, 0);
    RunIs("", IsKeyChar, 0);
  }

  /** The text has a pair of empty brackets exactly when a part is empty. */
  lemma {:induction false} EmptyInText(parts: seq<Part>)
    requires PlainParts(parts)
    ensures HasEmptyBrackets(Text(parts)) <==> Empty in parts
    decreases |parts|
  {
    hide Text, PlainKey, PlainParts, HasEmptyBrackets;
    if parts == [] {
      NoBrackets("");
    } else {
      TextUnfolds(parts);
      PlainTail(parts, 0);
      PlainTail(parts, 1);
      EmptyInText(parts[1..]);
      assert parts == [parts[0]] + parts[1..];
      var tail := Text(parts[1..]);
      if parts[0].Empty? {
        FrontBrackets(tail);
      } else {
        FieldBrackets(parts[0].field, tail);
      }
    }
  }

  lemma NoBrackets(s: string)
    requires |s| < 2
    ensures !HasEmptyBrackets(s)
  {
  }

  lemma FrontBrackets(tail: string)
    ensures HasEmptyBrackets("[]" + tail)
  {
    var s := "[]" + tail;
    assert s[0] == '[' && s[0 + 1] == ']';
  }

  lemma FieldBrackets(f: string, tail: string)
    requires PlainKey(f)
    ensures HasEmptyBrackets("[" + f + "]" + tail) <==> HasEmptyBrackets(tail)
  {
    var s := "[" + f + "]" + tail;
    var n := |f| + 2;
    if HasEmptyBrackets(tail) {
      var i :| 0 <= i < |tail| - 1 && tail[i] == '[' && tail[i + 1] == ']';
      assert s[n + i] == '[' && s[n + i + 1] == ']';
    }
    if HasEmptyBrackets(s) {
      var i :| 0 <= i < |s| - 1 && s[i] == '[' && s[i + 1] == ']';
      BracketsAfterField(f, tail, i);
      assert tail[i - n] == '[' && tail[i - n + 1] == ']';
    }
  }

  lemma BracketsAfterField(f: string, tail: string, i: nat)
    requires PlainKey(f)
    requires var s := "[" + f + "]" + tail; i < |s| - 1 && s[i] == '[' && s[i + 1] == ']'
    ensures i >= |f| + 2
  {
    var s := "[" + f + "]" + tail;
    assert forall j :: 0 <= j < |f| ==> s[1 + j] == f[j] && f[j] in f;
    assert s[|f| + 1] == ']';
  }

  /** The name below an array: a lone field stands without its brackets. */
  function BelowName(parts: seq<Part>): string
  {
    if |parts| == 1 then ChildName(parts[0]) else Text(parts)
  }

  lemma KeyPathLeads(t: Tree, parts: seq<Part>)
    requires PlainParts(parts) && parts != []
    ensures HasKeyPath(t, BelowName(parts)) <==> Leads(t, parts)
  {
    hide Text, Pieces, PlainKey, PlainParts, HasEmptyBrackets, HasPieces, Leads;
    if |parts| == 1 && parts[0].Named? {
      PlainTail(parts, 0);
      PiecesOfPlain(parts[0].field);
      OneFieldLeads(t, parts[0].field);
      assert parts == [Named(parts[0].field)];
    } else {
      if |parts| == 1 {
        assert parts == [Empty];
        OneEmpty();
      }
      EmptyInText(parts);
      if Empty in parts {
        EmptyLeadsNowhere(t, parts);
      } else {
        PiecesLead(t, parts);
      }
    }
  }

  lemma OneFieldLeads(t: Tree, f: string)
    ensures Leads(t, [Named(f)]) <==> HasPieces(t, [f])
  {
    assert [Named(f)][1..] == [] && [f][1..] == [];
  }

  lemma {:induction false} EmptyLeadsNowhere(t: Tree, parts: seq<Part>)
    requires Empty in parts
    ensures !Leads(t, parts)
    decreases |parts|
  {
    if parts[0].Named? && t.Hash? && Has(t.entries, parts[0].field) {
      assert parts == [parts[0]] + parts[1..];
      EmptyLeadsNowhere(Get(t.entries, parts[0].field), parts[1..]);
    }
  }

  // ----- The main result -----

  lemma {:induction false} BelowByName(es: seq<Entry>, parts: seq<Part>, value: Tree)
    requires PlainParts(parts) && parts != []
    ensures Insert(es, Text(parts), value) == StoredBelow(es, parts, value)
    ensures Insert(es, BelowName(parts), value) == StoredBelow(es, parts, value)
    decreases |parts|, 0
  {
    hide Text, SplitKey, PlainKey, PlainParts, Insert, Stored, Empties;
    var n := Empties(parts);
    if n < |parts| {
      SplitOfText(parts, n);
      PlainTail(parts, n);
      PlainTail(parts, n + 1);
      var f, rest := parts[n].field, parts[n + 1..];
      SplitBare(f, Text(rest));
      SplitDecides(es, Text(parts), f + Text(rest), value);
      StoredByName(es, f, rest, value);
      if |parts| == 1 {
        assert rest == [] && f + Text(rest) == f;
      }
    } else {
      SplitOfBrackets(parts);
      KeylessInsert(es, Text(parts), value);
      if |parts| == 1 {
        assert parts == [Empty];
      }
    }
  }

  lemma KeylessInsert(es: seq<Entry>, name: string, value: Tree)
    requires SplitKey(name) == Split("", "")
    ensures Insert(es, name, value) == Done(if value != Nil && name == "[]" then List([value]) else Nil, es)
  {
    hide SplitKey;
  }

  /**
    A name made of a key and parts is stored as its parts say, for every tree: under the
    key, in the hash or the array that each part asks for, refused where a value of another
    kind stands in the way.
   */
  lemma {:induction false} StoredByName(es: seq<Entry>, k: string, parts: seq<Part>, value: Tree)
    requires PlainKey(k) && PlainParts(parts)
    ensures Insert(es, k + Text(parts), value) == Stored(es, k, parts, value)
    decreases |parts|, 1
  {
    hide Text, SplitKey, ShapeOf, PlainParts, Insert, Stored, StoredInItems, StoredBelow, HashNext;
    var name := k + Text(parts);
    SplitBare(k, Text(parts));
    ShapeOfParts(name, k, parts);
    var held := Get(es, k);
    if parts == [] {
      StoreScalar(es, name, k, value);
    } else if HashNext(parts) {
      if held == Nil || held.Hash? {
        BelowByName(if held.Hash? then held.entries else [], parts, value);
      }
      StoreInHash(es, name, k, parts, value);
    } else if parts == [Empty] {
      StoreAtEnd(es, name, k, value);
    } else {
      PlainTail(parts, 1);
      var rest := parts[1..];
      var items := if held.Builder? then held.items else [];
      assert |parts| == 2 ==> rest[0] == parts[1];
      BelowByName([], rest, value);
      if items != [] && items[|items| - 1].Hash? {
        BelowByName(items[|items| - 1].entries, rest, value);
        KeyPathLeads(items[|items| - 1], rest);
      }
      StoreInItem(es, name, k, parts, value);
    }
  }

  lemma StoreScalar(es: seq<Entry>, name: string, k: string, value: Tree)
    requires ShapeOf(name) == Scalar(k)
    ensures Insert(es, name, value) == Stored(es, k, [], value)
  {
    hide ShapeOf, Put, Get;
  }

  lemma StoreInHash(es: seq<Entry>, name: string, k: string, parts: seq<Part>, value: Tree)
    requires parts != [] && HashNext(parts) && ShapeOf(name) == HashChild(k, Text(parts))
    requires var held := Get(es, k);
             var sub := if held.Hash? then held.entries else [];
             held == Nil || held.Hash? ==> Insert(sub, Text(parts), value) == StoredBelow(sub, parts, value)
    ensures Insert(es, name, value) == Stored(es, k, parts, value)
  {
    hide ShapeOf, Put, Get, HashNext, Text, StoredBelow;
  }

  lemma StoreAtEnd(es: seq<Entry>, name: string, k: string, value: Tree)
    requires ShapeOf(name) == ArrayEnd(k)
    ensures Insert(es, name, value) == Stored(es, k, [Empty], value)
  {
    hide ShapeOf, Put, Get;
  }

  lemma StoreInItem(es: seq<Entry>, name: string, k: string, parts: seq<Part>, value: Tree)
    requires |parts| > 1 && !HashNext(parts) && ShapeOf(name) == ArrayChild(k, BelowName(parts[1..]))
    requires Insert([], BelowName(parts[1..]), value) == StoredBelow([], parts[1..], value)
    requires var items := if Get(es, k).Builder? then Get(es, k).items else [];
             items != [] && items[|items| - 1].Hash? ==>
               && Insert(items[|items| - 1].entries, BelowName(parts[1..]), value) ==
                  StoredBelow(items[|items| - 1].entries, parts[1..], value)
               && (HasKeyPath(items[|items| - 1], BelowName(parts[1..])) <==> Leads(items[|items| - 1], parts[1..]))
    ensures Insert(es, name, value) == Stored(es, k, parts, value)
  {
    hide ShapeOf, Put, Get, HashNext, StoredBelow, HasKeyPath, Leads, BelowName;
    var items := if Get(es, k).Builder? then Get(es, k).items else [];
    assert items != [] ==> forall x :: items[|items| - 1 := x] == items[..|items| - 1] + [x];
  }

  /** Brackets before the key and closing brackets after it are not read. */
  lemma LooseBrackets(es: seq<Entry>, lead: string, k: string, closes: string, parts: seq<Part>, value: Tree)
    requires PlainKey(k) && PlainParts(parts)
    requires (forall c :: c in lead ==> IsBracket(c)) && (forall c :: c in closes ==> IsClose(c))
    ensures Insert(es, lead + (k + (closes + Text(parts))), value) == Stored(es, k, parts, value)
  {
    hide Text, SplitKey, Insert, Stored, PlainParts, IsBracket, IsClose;
    SplitOf(lead, k, closes, Text(parts));
    SplitBare(k, Text(parts));
    SplitDecides(es, lead + (k + (closes + Text(parts))), k + Text(parts), value);
    StoredByName(es, k, parts, value);
  }

  /** A lone opening bracket at the end stays part of the key. */
  lemma OpenEnd(es: seq<Entry>, k: string, value: Tree)
    requires PlainKey(k)
    ensures Insert(es, k + "[", value) == Kept(es, k + "[", value)
  {
    hide SplitKey, ChildKey, Put, Get;
    SplitBare(k, "[");
  }

  // ----- Where a value lands -----

  /** A field part is a field step, empty brackets are an item step. */
  predicate Spells(path: seq<Step>, parts: seq<Part>)
  {
    |path| == |parts| &&
    forall i :: 0 <= i < |parts| ==>
      match parts[i]
      case Named(f) => path[i] == Field(f)
      case Empty => path[i].Item?
  }

  /** No two empty brackets stand side by side. */
  predicate Single(parts: seq<Part>)
  {
    forall i :: 0 <= i < |parts| - 1 ==> !(parts[i].Empty? && parts[i + 1].Empty?)
  }

  /** The items of an array that is there, or of none. */
  function ItemsUnder(es: seq<Entry>, k: string): seq<Tree>
  {
    if Get(es, k).Builder? then Get(es, k).items else []
  }

  /**
    The value is read again along the parts of the name: each field is a field of a hash and
    each pair of empty brackets an item of an array, the last one or one new after it.
   */
  lemma {:induction false} Lands(es: seq<Entry>, k: string, parts: seq<Part>, value: Tree) returns (path: seq<Step>)
    requires Single(parts) && !LineBreak(parts)
    requires Stored(es, k, parts, value).Done?
    ensures Spells(path, parts)
    ensures At(Hash(Stored(es, k, parts, value).entries), [Field(k)] + path) == Some(value)
    ensures Stored(es, k, parts, value).returned == Hash(Stored(es, k, parts, value).entries)
    ensures parts != [] && parts[0].Empty? ==>
              path[0] == Item(|ItemsUnder(es, k)| - (if |parts| > 1 && Joins(ItemsUnder(es, k), parts[1..]) then 1 else 0))
    decreases |parts|
  {
    hide Put, Get, Position, Joins, Leads, LineBreak, Stored, StoredInItems, StoredBelow, At, Spells, Single;
    var items := ItemsUnder(es, k);
    if parts == [] {
      path := [];
      StoredPlain(es, k, value);
      ReadField(es, k, value, path);
      AtEnd(value);
      SpellsNothing();
    } else if parts == [Empty] {
      path := [Item(|items|)];
      StoredLast(es, k, value);
      ReadField(es, k, Builder(items + [value]), path);
      assert path == [Item(|items|)] + [];
      ReadItem(items + [value], |items|, []);
      AtEnd(value);
      SpellsItem(path);
    } else {
      PartsAhead(parts);
      if parts[0].Named? {
        var sub := StoredInField(es, k, parts, value);
        var below := Lands(sub, parts[0].field, parts[1..], value);
        path := [Field(parts[0].field)] + below;
        ReadField(es, k, Hash(Stored(sub, parts[0].field, parts[1..], value).entries), path);
      } else {
        var f, rest := parts[1].field, parts[2..];
        var sub := StoredInItem(es, k, parts, value);
        var below := Lands(sub, f, rest, value);
        var joins := Joins(items, parts[1..]);
        if joins { JoinsSome(items, parts[1..]); }
        var i := if joins then |items| - 1 else |items|;
        var item := Hash(Stored(sub, f, rest, value).entries);
        var now := if joins then items[..|items| - 1] + [item] else items + [item];
        path := [Item(i)] + ([Field(f)] + below);
        ReadField(es, k, Builder(now), path);
        ReadItem(now, i, [Field(f)] + below);
        SpellsField(below, parts[1..]);
      }
      SpellsOn(path, parts);
    }
  }

  lemma JoinsSome(items: seq<Tree>, parts: seq<Part>)
    requires Joins(items, parts)
    ensures items != []
  {
  }

  /**
    "k[][f][g]": the array under k ends with a record that has the value at f, g. The name
    joins a last record that has no f or no g below it, and it is refused where k holds no
    array, or where f of the joined record holds no hash.
   */
  lemma RecordField(es: seq<Entry>, k: string, f: string, g: string, value: Tree)
    requires PlainKey(k) && PlainKey(f) && PlainKey(g) && '\n' !in f && '\n' !in g
    ensures var out := Insert(es, k + "[]" + ("[" + f + "]") + ("[" + g + "]"), value);
            var held, items := Get(es, k), ItemsUnder(es, k);
            var last := if items == [] then Nil else items[|items| - 1];
            var inner := if last.Hash? then Get(last.entries, f) else Nil;
            var joins := last.Hash? && !(inner.Hash? && Has(inner.entries, g));
            var i := if joins then |items| - 1 else |items|;
            && (out.Done? <==> (held == Nil || held.Builder?) && (joins ==> inner == Nil || inner.Hash?))
            && (out.Done? ==>
                  && Get(out.entries, k).Builder? && |Get(out.entries, k).items| == i + 1
                  && At(Hash(out.entries), [Field(k), Item(i), Field(f), Field(g)]) == Some(value))
  {
    hide Put, Get, Position, Insert, PlainKey, Stored, StoredInItems, At, Text, Joins, Leads, Spells, Single, LineBreak;
    var parts := [Empty, Named(f), Named(g)];
    RecordName(k, f, g);
    StoredByName(es, k, parts, value);
    assert k + "[]" + ("[" + f + "]") + ("[" + g + "]") == k + Text(parts);
    RecordDone(es, k, f, g, value);
    RecordJoins(ItemsUnder(es, k), f, g);
    if Stored(es, k, parts, value).Done? {
      var path := Lands(es, k, parts, value);
      SpelledRecord(path, f, g);
      assert [Field(k)] + path == [Field(k), path[0], Field(f), Field(g)];
    }
  }

  lemma RecordName(k: string, f: string, g: string)
    requires PlainKey(f) && PlainKey(g) && '\n' !in f && '\n' !in g
    ensures var parts := [Empty, Named(f), Named(g)];
            && k + Text(parts) == k + "[]" + ("[" + f + "]") + ("[" + g + "]")
            && PlainParts(parts) && Single(parts) && !LineBreak(parts)
            && parts[1..] == [Named(f), Named(g)] && parts[2..] == [Named(g)]
  {
    hide Text, PlainKey;
    var parts := [Empty, Named(f), Named(g)];
    assert parts[1..] == [Named(f), Named(g)] && parts[2..] == [Named(g)];
    assert parts[1..][1..] == [Named(g)] && parts[2..][1..] == [];
    TextUnfolds(parts);
    TextUnfolds(parts[1..]);
    TextUnfolds(parts[2..]);
    var inF, inG := "[" + f + "]", "[" + g + "]";
    assert inG + "" == inG;
    Associates(k + "[]", inF, inG);
    Associates(k, "[]", inF + inG);
  }

  lemma SpelledRecord(path: seq<Step>, f: string, g: string)
    requires Spells(path, [Empty, Named(f), Named(g)])
    ensures path == [path[0], Field(f), Field(g)] && path[0].Item?
    ensures [Field(f)] + path == [Field(f), path[0], path[1], path[2]]
  {
    var parts := [Empty, Named(f), Named(g)];
    assert parts[0] == Empty && parts[1] == Named(f) && parts[2] == Named(g);
  }

  lemma RecordJoins(items: seq<Tree>, f: string, g: string)
    ensures Joins(items, [Named(f), Named(g)]) <==>
            var last := if items == [] then Nil else items[|items| - 1];
            var inner := if last.Hash? then Get(last.entries, f) else Nil;
            last.Hash? && !(inner.Hash? && Has(inner.entries, g))
  {
    hide Position, Has, Get;
    if items != [] && items[|items| - 1].Hash? {
      var last := items[|items| - 1];
      TwoFields(last, f, g);
      if Get(last.entries, f).Hash? { MissingIsNil(last.entries, f); }
    }
  }

  lemma TwoFields(t: Tree, f: string, g: string)
    ensures Leads(t, [Named(f), Named(g)]) <==>
            && t.Hash? && Has(t.entries, f)
            && Get(t.entries, f).Hash? && Has(Get(t.entries, f).entries, g)
  {
    hide Position, Has, Get;
    assert [Named(f), Named(g)][1..] == [Named(g)] && [Named(g)][1..] == [];
    assert forall u: Tree :: Leads(u, [Named(g)]) <==> u.Hash? && Has(u.entries, g);
  }

  lemma MissingIsNil(es: seq<Entry>, f: string)
    requires Get(es, f) != Nil
    ensures Has(es, f)
  {
  }

  lemma FieldDone(es: seq<Entry>, f: string, g: string, value: Tree)
    ensures Stored(es, f, [Named(g)], value).Done? <==> Get(es, f) == Nil || Get(es, f).Hash?
  {
    hide Put, Get, StoredInItems;
    var parts := [Named(g)];
    assert Empties(parts) == 0 && parts[1..] == [];
    assert forall sub :: StoredBelow(sub, parts, value) == Stored(sub, g, [], value) == Kept(sub, g, value);
  }

  lemma RecordDone(es: seq<Entry>, k: string, f: string, g: string, value: Tree)
    requires '\n' !in f && '\n' !in g
    ensures var out := Stored(es, k, [Empty, Named(f), Named(g)], value);
            var held, items := Get(es, k), ItemsUnder(es, k);
            var joins := Joins(items, [Named(f), Named(g)]);
            && (out.Done? <==>
                  && (held == Nil || held.Builder?)
                  && (joins ==> var inner := Get(items[|items| - 1].entries, f); inner == Nil || inner.Hash?))
            && (out.Done? ==> Get(out.entries, k).Builder? &&
                              |Get(out.entries, k).items| == if joins then |items| else |items| + 1)
  {
    hide Put, Get, Leads, Stored;
    var parts, items := [Empty, Named(f), Named(g)], ItemsUnder(es, k);
    assert parts[1..] == [Named(f), Named(g)] && parts[1..][1..] == [Named(g)];
    assert !HashNext(parts);
    var joins := Joins(items, parts[1..]);
    var sub := if joins then items[|items| - 1].entries else [];
    FieldDone(sub, f, g, value);
    EmptyHashGet(f);
    assert Empties(parts[1..]) == 0;
    assert StoredBelow(sub, parts[1..], value) == Stored(sub, f, [Named(g)], value);
    RecordUnfolds(es, k, parts, value);
  }

  lemma EmptyHashGet(f: string)
    ensures Get([], f) == Nil
  {
  }

  lemma RecordUnfolds(es: seq<Entry>, k: string, parts: seq<Part>, value: Tree)
    requires |parts| > 1 && !HashNext(parts)
    ensures var out, held, items := Stored(es, k, parts, value), Get(es, k), ItemsUnder(es, k);
            var joins := Joins(items, parts[1..]);
            var below := StoredBelow(if joins then items[|items| - 1].entries else [], parts[1..], value);
            && (out.Done? <==> (held == Nil || held.Builder?) && below.Done?)
            && (out.Done? ==> Get(out.entries, k).Builder? &&
                              |Get(out.entries, k).items| == if joins then |items| else |items| + 1)
  {
    hide Put, Get, Leads, HashNext, StoredBelow;
    var items := ItemsUnder(es, k);
    forall v ensures Get(Put(es, k, v), k) == v {
      PutLaws(es, k, v, k);
    }
  }

  lemma AtEnd(t: Tree)
    ensures At(t, []) == Some(t)
  {
  }

  lemma ReadField(es: seq<Entry>, k: string, value: Tree, path: seq<Step>)
    ensures At(Hash(Put(es, k, value)), [Field(k)] + path) == At(value, path)
  {
    hide Put, Get, Position;
    AtAfterPut(es, k, value, [Field(k)] + path);
    assert ([Field(k)] + path)[1..] == path;
  }

  lemma ReadItem(items: seq<Tree>, i: nat, path: seq<Step>)
    requires i < |items|
    ensures At(Builder(items), [Item(i)] + path) == At(items[i], path)
  {
    assert ([Item(i)] + path)[1..] == path;
  }

  lemma SpellsNothing()
    ensures Spells([], [])
  {
  }

  lemma SpellsItem(path: seq<Step>)
    requires |path| == 1 && path[0].Item?
    ensures Spells(path, [Empty])
  {
  }

  lemma SpellsField(below: seq<Step>, parts: seq<Part>)
    requires parts != [] && parts[0].Named? && Spells(below, parts[1..])
    ensures Spells([Field(parts[0].field)] + below, parts)
  {
    var path := [Field(parts[0].field)] + below;
    SpellsOn(path, parts);
  }

  lemma SpellsOn(path: seq<Step>, parts: seq<Part>)
    requires parts != [] && path != [] && Spells(path[1..], parts[1..])
    requires if parts[0].Named? then path[0] == Field(parts[0].field) else path[0].Item?
    ensures Spells(path, parts)
  {
    forall i | 1 <= i < |parts| ensures match parts[i] case Named(f) => path[i] == Field(f) case Empty => path[i].Item? {
      assert parts[i] == parts[1..][i - 1] && path[i] == path[1..][i - 1];
    }
  }

  /** Single brackets and no line break are properties of every rest of a name. */
  lemma PartsAhead(parts: seq<Part>)
    requires parts != [] && parts != [Empty] && Single(parts) && !LineBreak(parts)
    ensures Single(parts[1..]) && !LineBreak(parts[1..])
    ensures HashNext(parts) <==> parts[0].Named?
    ensures parts[0].Empty? ==>
              |parts| > 1 && parts[1].Named? && Single(parts[2..]) && !LineBreak(parts[2..]) && parts[1..][1..] == parts[2..]
  {
    hide LineBreak;
    LineBreakUnfolds(parts);
    if parts[0].Empty? {
      LineBreakUnfolds(parts[1..]);
      assert parts[1..][1..] == parts[2..];
    }
  }

  lemma StoredPlain(es: seq<Entry>, k: string, value: Tree)
    ensures Stored(es, k, [], value) == Kept(es, k, value)
  {
  }

  lemma StoredLast(es: seq<Entry>, k: string, value: Tree)
    requires Stored(es, k, [Empty], value).Done?
    ensures Stored(es, k, [Empty], value) == Kept(es, k, Builder(ItemsUnder(es, k) + [value]))
  {
    hide Put, Get;
  }

  lemma StoredInField(es: seq<Entry>, k: string, parts: seq<Part>, value: Tree) returns (sub: seq<Entry>)
    requires parts != [] && parts[0].Named? && Stored(es, k, parts, value).Done?
    ensures Stored(sub, parts[0].field, parts[1..], value).Done?
    ensures Stored(es, k, parts, value) == Kept(es, k, Hash(Stored(sub, parts[0].field, parts[1..], value).entries))
  {
    hide Put, Get, StoredInItems;
    sub := if Get(es, k).Hash? then Get(es, k).entries else [];
    assert Empties(parts) == 0;
  }

  lemma StoredInItem(es: seq<Entry>, k: string, parts: seq<Part>, value: Tree) returns (sub: seq<Entry>)
    requires |parts| > 1 && parts[0].Empty? && parts[1].Named? && !HashNext(parts) && Stored(es, k, parts, value).Done?
    ensures Stored(sub, parts[1].field, parts[2..], value).Done?
    ensures var items, out := ItemsUnder(es, k), Stored(sub, parts[1].field, parts[2..], value);
            Stored(es, k, parts, value) ==
            Kept(es, k, Builder(if Joins(items, parts[1..]) then items[..|items| - 1] + [Hash(out.entries)]
                                else items + [out.returned]))
  {
    hide Put, Get, HashNext, Leads;
    var items := ItemsUnder(es, k);
    sub := if Joins(items, parts[1..]) then items[|items| - 1].entries else [];
    assert Stored(es, k, parts, value) == StoredInItems(es, k, items, parts, value);
    assert Empties(parts[1..]) == 0 && parts[1..][1..] == parts[2..] && parts[1..][0] == parts[1];
    assert StoredBelow(sub, parts[1..], value) == Stored(sub, parts[1].field, parts[2..], value);
  }
}
