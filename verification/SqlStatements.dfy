/**
  The UPDATE and INSERT statements that the query builders of internal/db write, read from
  their text and run on tables.
 */
module SqlStatements {
  import opened Decimal
  import opened Fields
  import opened IndexRecords
  import opened Scanning
  import opened Wrappers

  // ----- Tokens -----

  datatype Token = Word(text: string) | Mark(c: char)

  predicate IsWordChar(c: char)
  {
    'a' <= c <= 'z' || 'A' <= c <= 'Z' || '0' <= c <= '9' || c == '_' || c == '.'
  }

  predicate WordText(s: string) { s != "" && forall c :: c in s ==> IsWordChar(c) }

  predicate IsNameChar(c: char) { 'a' <= c <= 'z' || '0' <= c <= '9' || c == '_' }

  /** Lower-case names of tables and columns. */
  predicate Identifier(s: string) { s != "" && forall c :: c in s ==> IsNameChar(c) }

  function Tokens(s: string): seq<Token>
    decreases |s|
  {
    if s == "" then []
    else if s[0] == ' ' then Tokens(s[1..])
    else if IsWordChar(s[0]) then
      var n := 1 + Run(s[1..], IsWordChar);
      [Word(s[..n])] + Tokens(s[n..])
    else [Mark(s[0])] + Tokens(s[1..])
  }

  predicate EndsWord(rest: string) { rest == "" || !IsWordChar(rest[0]) }

  lemma SpaceToken(rest: string)
    ensures Tokens(" " + rest) == Tokens(rest)
  {
    assert (" " + rest)[1..] == rest;
  }

  lemma MarkToken(c: char, rest: string)
    requires !IsWordChar(c) && c != ' '
    ensures Tokens([c] + rest) == [Mark(c)] + Tokens(rest)
  {
    assert ([c] + rest)[1..] == rest;
  }

  lemma WordToken(w: string, rest: string)
    requires WordText(w) && EndsWord(rest)
    ensures Tokens(w + rest) == [Word(w)] + Tokens(rest)
  {
    hide Tokens;
    var s := w + rest;
    assert s[1..] == w[1..] + rest;
    RunBlock(w[1..], rest, IsWordChar);
    assert w[0] in w;
    FirstWord(s, |w|);
    assert s[..|w|] == w && s[|w|..] == rest;
  }

  lemma FirstWord(s: string, n: nat)
    requires s != "" && IsWordChar(s[0]) && n == 1 + Run(s[1..], IsWordChar)
    ensures Tokens(s) == [Word(s[..n])] + Tokens(s[n..])
  {
  }

  lemma NatWord(n: nat)
    ensures WordText(NatText(n))
  {
    forall c | c in NatText(n) ensures IsWordChar(c) {
      assert IsDigit(c);
    }
  }

  lemma IdentifierWord(s: string)
    requires Identifier(s)
    ensures WordText(s)
  {
  }

  // ----- Statements -----

  datatype Expr = Param(n: nat) | Now

  datatype Statement =
    | Update(table: string, sets: seq<(string, Expr)>, idColumn: string, id: Expr)
    | Insert(table: string, columns: seq<string>, values: seq<Expr>)

  function ParseExpr(ts: seq<Token>): (r: Option<(Expr, seq<Token>)>)
    ensures r.Some? ==> |r.value.1| < |ts|
  {
    if |ts| >= 2 && ts[0] == Mark('$') && ts[1].Word? && AllDigits(ts[1].text) then
      Some((Param(TextNat(ts[1].text)), ts[2..]))
    else if |ts| >= 3 && ts[..3] == [Word("now"), Mark('('), Mark(')')] then Some((Now, ts[3..]))
    else None
  }

  function ParseSets(ts: seq<Token>): Option<(seq<(string, Expr)>, seq<Token>)>
    decreases |ts|
  {
    if |ts| < 2 || !ts[0].Word? || ts[1] != Mark('=') then None else
      match ParseExpr(ts[2..])
      case None => None
      case Some((e, rest)) =>
        if rest != [] && rest[0] == Mark(',') then
          match ParseSets(rest[1..])
          case None => None
          case Some((sets, rest')) => Some(([(ts[0].text, e)] + sets, rest'))
        else Some(([(ts[0].text, e)], rest))
  }

  function ParseNames(ts: seq<Token>): Option<(seq<string>, seq<Token>)>
    decreases |ts|
  {
    if ts == [] || !ts[0].Word? then None
    else if |ts| > 1 && ts[1] == Mark(',') then
      match ParseNames(ts[2..])
      case None => None
      case Some((names, rest)) => Some(([ts[0].text] + names, rest))
    else Some(([ts[0].text], ts[1..]))
  }

  function ParseExprs(ts: seq<Token>): Option<(seq<Expr>, seq<Token>)>
    decreases |ts|
  {
    match ParseExpr(ts)
    case None => None
    case Some((e, rest)) =>
      if rest != [] && rest[0] == Mark(',') then
        match ParseExprs(rest[1..])
        case None => None
        case Some((es, rest')) => Some(([e] + es, rest'))
      else Some(([e], rest))
  }

  function ParseUpdate(ts: seq<Token>): Option<Statement>
  {
    if |ts| < 3 || ts[0] != Word("UPDATE") || !ts[1].Word? || ts[2] != Word("SET") then None else
      match ParseSets(ts[3..])
      case None => None
      case Some((sets, rest)) =>
        if |rest| < 3 || rest[0] != Word("WHERE") || !rest[1].Word? || rest[2] != Mark('=') then None else
          match ParseExpr(rest[3..])
          case None => None
          case Some((e, end)) => if end == [] then Some(Update(ts[1].text, sets, rest[1].text, e)) else None
  }

  function ParseInsert(ts: seq<Token>): Option<Statement>
  {
    if |ts| < 4 || ts[0] != Word("INSERT") || ts[1] != Word("INTO") || !ts[2].Word? || ts[3] != Mark('(') then None else
      match ParseNames(ts[4..])
      case None => None
      case Some((names, rest)) =>
        if |rest| < 3 || rest[..3] != [Mark(')'), Word("VALUES"), Mark('(')] then None else
          match ParseExprs(rest[3..])
          case None => None
          case Some((values, end)) =>
            if end == [Mark(')'), Word("RETURNING"), Word("id")] then Some(Insert(ts[2].text, names, values)) else None
  }

  function Parse(text: string): Option<Statement>
  {
    var ts := Tokens(text);
    match ParseUpdate(ts)
    case Some(s) => Some(s)
    case None => ParseInsert(ts)
  }

  // ----- Running a statement -----

  type Table = map<int, Record>
  type Database = map<string, Table>

  function Names(sets: seq<(string, Expr)>): (r: seq<string>)
    ensures |r| == |sets|
    ensures forall i :: 0 <= i < |r| ==> r[i] == sets[i].0
  {
    if sets == [] then [] else [sets[0].0] + Names(sets[1..])
  }

  function Exprs(sets: seq<(string, Expr)>): (r: seq<Expr>)
    ensures |r| == |sets|
    ensures forall i :: 0 <= i < |r| ==> r[i] == sets[i].1
  {
    if sets == [] then [] else [sets[0].1] + Exprs(sets[1..])
  }

  /** The placeholders of a list of expressions, from the left. */
  function Params(es: seq<Expr>): seq<nat>
  {
    if es == [] then [] else (if es[0].Param? then [es[0].n] else []) + Params(es[1..])
  }

  predicate InRange(e: Expr, args: seq<Json>) { e.Param? ==> 1 <= e.n <= |args| }

  function Value(e: Expr, args: seq<Json>, now: Json): Json
    requires InRange(e, args)
  {
    if e.Now? then now else args[e.n - 1]
  }

  function Assigned(row: Record, names: seq<string>, values: seq<Expr>, args: seq<Json>, now: Json): Record
    requires |names| == |values| && forall e :: e in values ==> InRange(e, args)
    decreases |names|
  {
    if names == [] then row else
      var k := |names| - 1;
      assert values[k] in values;
      Assigned(row, names[..k], values[..k], args, now)[names[k] := Value(values[k], args, now)]
  }

  /**
    The tables after a statement; None when the server refuses it: unknown table, a column
    named twice, placeholders without an argument, or lists of unequal length.
   */
  function Execute(text: string, args: seq<Json>, db: Database, now: Json, newId: int): Option<Database>
  {
    match Parse(text)
    case Some(Update(table, sets, idColumn, id)) =>
      if table !in db || !Distinct(Names(sets)) || idColumn != "id" then None
      else if !(forall e :: e in Exprs(sets) + [id] ==> InRange(e, args)) then None
      else
        assert id in Exprs(sets) + [id] && forall e :: e in Exprs(sets) ==> e in Exprs(sets) + [id];
        var key := Value(id, args, now);
        if key.JInt? && key.n in db[table] then
          Some(db[table := db[table][key.n := Assigned(db[table][key.n], Names(sets), Exprs(sets), args, now)]])
        else Some(db)
    case Some(Insert(table, columns, values)) =>
      if table !in db || !Distinct(columns) || |columns| != |values| || newId in db[table] then None
      else if !(forall e :: e in values ==> InRange(e, args)) then None
      else Some(db[table := db[table][newId := Assigned(map[], columns, values, args, now)]])
    case None => None
  }
}
