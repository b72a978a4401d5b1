/** The texts of the statements, and that reading them gives the statement back. */
module SqlTexts {
  import opened Decimal
  import opened IndexRecords
  import opened Scanning
  import opened SqlStatements
  import opened Wrappers

  // ----- Texts -----

  function Join(parts: seq<string>, separator: string): string
  {
    if parts == [] then ""
    else if |parts| == 1 then parts[0]
    else parts[0] + separator + Join(parts[1..], separator)
  }

  function ExprText(e: Expr): string
  {
    match e
    case Param(n) => "$" + NatText(n)
    case Now => "now()"
  }

  function PartText(part: (string, Expr), equals: string): string
  {
    part.0 + equals + ExprText(part.1)
  }

  function PartTexts(sets: seq<(string, Expr)>, equals: string): (r: seq<string>)
    ensures |r| == |sets|
    ensures forall i :: 0 <= i < |r| ==> r[i] == PartText(sets[i], equals)
  {
    if sets == [] then [] else [PartText(sets[0], equals)] + PartTexts(sets[1..], equals)
  }

  function ExprTexts(es: seq<Expr>): (r: seq<string>)
    ensures |r| == |es|
    ensures forall i :: 0 <= i < |r| ==> r[i] == ExprText(es[i])
  {
    if es == [] then [] else [ExprText(es[0])] + ExprTexts(es[1..])
  }

  /** The builders write the equals sign with or without spaces around it. */
  predicate EqualsSign(s: string) { s == "=" || s == " = " }

  // ----- Their tokens -----

  function ExprTokens(e: Expr): seq<Token>
  {
    match e
    case Param(n) => [Mark('$'), Word(NatText(n))]
    case Now => [Word("now"), Mark('('), Mark(')')]
  }

  function Comma(ts: seq<Token>): seq<Token> { if ts == [] then [] else [Mark(',')] + ts }

  function SetTokens(sets: seq<(string, Expr)>): seq<Token>
  {
    if sets == [] then [] else
      [Word(sets[0].0), Mark('=')] + (ExprTokens(sets[0].1) + Comma(SetTokens(sets[1..])))
  }

  function NameTokens(names: seq<string>): seq<Token>
  {
    if names == [] then [] else [Word(names[0])] + Comma(NameTokens(names[1..]))
  }

  function ExprListTokens(es: seq<Expr>): seq<Token>
  {
    if es == [] then [] else
      ExprTokens(es[0]) + Comma(ExprListTokens(es[1..]))
  }

  lemma ExprTextTokens(e: Expr, rest: string)
    requires EndsWord(rest)
    ensures Tokens(ExprText(e) + rest) == ExprTokens(e) + Tokens(rest)
  {
    hide Tokens, WordText;
    match e {
      case Param(n) =>
        NatWord(n);
        WordToken(NatText(n), rest);
        assert ExprText(e) + rest == ['$'] + (NatText(n) + rest);
        MarkToken('$', NatText(n) + rest);
        assert [Mark('$')] + ([Word(NatText(n))] + Tokens(rest)) == ExprTokens(e) + Tokens(rest);
      case Now =>
        assert ExprText(e) + rest == "now" + ("(" + (")" + rest));
        LiteralWord("now");
        WordToken("now", "(" + (")" + rest));
        MarkToken('(', ")" + rest);
        MarkToken(')', rest);
        assert [Word("now")] + ([Mark('(')] + ([Mark(')')] + Tokens(rest))) == ExprTokens(e) + Tokens(rest);
    }
  }

  lemma LiteralWord(s: string)
    requires s in ["now", "UPDATE", "SET", "WHERE", "INSERT", "INTO", "VALUES", "RETURNING", "id"]
    ensures WordText(s)
  {
  }

  lemma EqualsTokens(equals: string, rest: string)
    requires EqualsSign(equals)
    ensures EndsWord(equals + rest) && Tokens(equals + rest) == [Mark('=')] + Tokens(rest)
  {
    hide Tokens;
    if equals == "=" {
      MarkToken('=', rest);
    } else {
      assert equals + rest == " " + ("=" + (" " + rest));
      SpaceToken("=" + (" " + rest));
      MarkToken('=', " " + rest);
      SpaceToken(rest);
    }
  }

  lemma PartTokens(part: (string, Expr), equals: string, rest: string)
    requires Identifier(part.0) && EqualsSign(equals) && EndsWord(rest)
    ensures Tokens(PartText(part, equals) + rest) == [Word(part.0), Mark('=')] + ExprTokens(part.1) + Tokens(rest)
  {
    hide Tokens, ExprText, ExprTokens, Identifier, WordText, EqualsSign;
    var tail := ExprText(part.1) + rest;
    assert PartText(part, equals) + rest == part.0 + (equals + tail);
    IdentifierWord(part.0);
    EqualsTokens(equals, tail);
    WordToken(part.0, equals + tail);
    ExprTextTokens(part.1, rest);
    assert [Word(part.0)] + ([Mark('=')] + (ExprTokens(part.1) + Tokens(rest))) ==
           [Word(part.0), Mark('=')] + ExprTokens(part.1) + Tokens(rest);
  }

  lemma CommaTokens(rest: string)
    ensures EndsWord(", " + rest) && Tokens(", " + rest) == [Mark(',')] + Tokens(rest)
  {
    hide Tokens;
    assert ", " + rest == "," + (" " + rest);
    MarkToken(',', " " + rest);
    SpaceToken(rest);
  }

  predicate Identifiers(names: seq<string>) { forall n :: n in names ==> Identifier(n) }

  lemma Associates(a: seq<Token>, b: seq<Token>, c: seq<Token>)
    ensures (a + b) + c == a + (b + c)
    ensures (a + b)[|a|..] == b
  {
  }

  lemma SetsUnfold(sets: seq<(string, Expr)>, rest: seq<Token>)
    requires sets != []
    ensures SetTokens(sets) + rest ==
            [Word(sets[0].0), Mark('=')] + (ExprTokens(sets[0].1) + (Comma(SetTokens(sets[1..])) + rest))
    ensures |sets| > 1 ==> SetTokens(sets[1..]) != []
  {
    hide ExprTokens, Comma;
    var e, more := ExprTokens(sets[0].1), Comma(SetTokens(sets[1..]));
    Associates([Word(sets[0].0), Mark('=')], e + more, rest);
    Associates(e, more, rest);
  }

  lemma NothingToRead()
    ensures SetTokens([]) == [] && NameTokens([]) == [] && ExprListTokens([]) == []
  {
  }

  lemma NamesUnfold(names: seq<string>, rest: seq<Token>)
    requires names != []
    ensures NameTokens(names) + rest == [Word(names[0])] + (Comma(NameTokens(names[1..])) + rest)
    ensures |names| > 1 ==> NameTokens(names[1..]) != []
  {
    hide Comma;
    Associates([Word(names[0])], Comma(NameTokens(names[1..])), rest);
  }

  lemma ExprsUnfold(es: seq<Expr>, rest: seq<Token>)
    requires es != []
    ensures ExprListTokens(es) + rest == ExprTokens(es[0]) + (Comma(ExprListTokens(es[1..])) + rest)
    ensures |es| > 1 ==> ExprListTokens(es[1..]) != []
  {
    hide Comma;
    Associates(ExprTokens(es[0]), Comma(ExprListTokens(es[1..])), rest);
    if |es| > 1 {
      assert |ExprTokens(es[1])| > 0;
    }
  }

  /** The rest of a list after its first item: a comma and more, or nothing. */
  lemma CommaMore(ts: seq<Token>, rest: seq<Token>)
    ensures ts != [] ==> Comma(ts) + rest == [Mark(',')] + (ts + rest)
    ensures ts == [] ==> Comma(ts) + rest == rest
  {
  }

  lemma JoinUnfold(parts: seq<string>, rest: string)
    requires parts != []
    ensures Join(parts, ", ") + rest ==
            parts[0] + if |parts| > 1 then ", " + (Join(parts[1..], ", ") + rest) else rest
  {
    hide Join;
    JoinFirst(parts);
    if |parts| > 1 {
      TextsAssociate(parts[0], ", ", Join(parts[1..], ", "), rest);
    }
  }

  lemma JoinFirst(parts: seq<string>)
    requires parts != []
    ensures Join(parts, ", ") == if |parts| > 1 then parts[0] + ", " + Join(parts[1..], ", ") else parts[0]
  {
  }

  lemma {:induction false} SetsTokens(sets: seq<(string, Expr)>, equals: string, rest: string)
    requires sets != [] && (forall s :: s in sets ==> Identifier(s.0)) && EqualsSign(equals) && EndsWord(rest)
    ensures Tokens(Join(PartTexts(sets, equals), ", ") + rest) == SetTokens(sets) + Tokens(rest)
    decreases |sets|
  {
    hide Tokens, PartText, PartTexts, Join, ExprTokens, Identifier, EqualsSign, SetTokens, Comma, EndsWord;
    var texts := PartTexts(sets, equals);
    assert sets[0] in sets;
    JoinUnfold(texts, rest);
    SetsUnfold(sets, Tokens(rest));
    CommaMore(SetTokens(sets[1..]), Tokens(rest));
    var head := [Word(sets[0].0), Mark('=')];
    if |sets| == 1 {
      assert sets[1..] == [] && |texts| == 1;
      PartTokens(sets[0], equals, rest);
      NothingToRead();
      Associates(head, ExprTokens(sets[0].1), Tokens(rest));
    } else {
      assert forall s :: s in sets[1..] ==> s in sets;
      var tail := Join(texts[1..], ", ") + rest;
      assert texts[1..] == PartTexts(sets[1..], equals);
      SetsTokens(sets[1..], equals, rest);
      CommaTokens(tail);
      PartTokens(sets[0], equals, ", " + tail);
      Associates(head, ExprTokens(sets[0].1), [Mark(',')] + (SetTokens(sets[1..]) + Tokens(rest)));
    }
  }

  lemma {:induction false} NamesTokens(names: seq<string>, rest: string)
    requires names != [] && Identifiers(names) && EndsWord(rest)
    ensures Tokens(Join(names, ", ") + rest) == NameTokens(names) + Tokens(rest)
    decreases |names|
  {
    hide Tokens, Identifier, WordText, Join, NameTokens, Comma, EndsWord;
    assert names[0] in names;
    IdentifierWord(names[0]);
    JoinUnfold(names, rest);
    NamesUnfold(names, Tokens(rest));
    CommaMore(NameTokens(names[1..]), Tokens(rest));
    if |names| == 1 {
      WordToken(names[0], rest);
      NothingToRead();
      assert names[1..] == [];
    } else {
      assert forall n :: n in names[1..] ==> n in names;
      var tail := Join(names[1..], ", ") + rest;
      NamesTokens(names[1..], rest);
      CommaTokens(tail);
      WordToken(names[0], ", " + tail);
    }
  }

  lemma {:induction false} ExprsTokens(es: seq<Expr>, rest: string)
    requires es != [] && EndsWord(rest)
    ensures Tokens(Join(ExprTexts(es), ", ") + rest) == ExprListTokens(es) + Tokens(rest)
    decreases |es|
  {
    hide Tokens, ExprText, ExprTexts, ExprTokens, Join, ExprListTokens, Comma, EndsWord;
    var texts := ExprTexts(es);
    JoinUnfold(texts, rest);
    ExprsUnfold(es, Tokens(rest));
    CommaMore(ExprListTokens(es[1..]), Tokens(rest));
    if |es| == 1 {
      assert es[1..] == [];
      ExprTextTokens(es[0], rest);
      NothingToRead();
    } else {
      var tail := Join(texts[1..], ", ") + rest;
      assert texts[1..] == ExprTexts(es[1..]);
      ExprsTokens(es[1..], rest);
      CommaTokens(tail);
      ExprTextTokens(es[0], ", " + tail);
    }
  }

  // ----- Reading the tokens -----

  predicate NoComma(rest: seq<Token>) { rest == [] || rest[0] != Mark(',') }

  lemma ExprReads(e: Expr, rest: seq<Token>)
    ensures ParseExpr(ExprTokens(e) + rest) == Some((e, rest))
  {
    var ts := ExprTokens(e) + rest;
    match e {
      case Param(n) =>
        NatTextReads(n);
        assert ts[2..] == rest;
      case Now =>
        assert ts[3..] == rest && ts[..3] == [Word("now"), Mark('('), Mark(')')];
    }
  }

  lemma {:induction false} SetsRead(sets: seq<(string, Expr)>, rest: seq<Token>)
    requires sets != [] && NoComma(rest)
    ensures ParseSets(SetTokens(sets) + rest) == Some((sets, rest))
    decreases |sets|
  {
    hide ParseExpr, ExprTokens, SetTokens;
    SetsUnfold(sets, rest);
    var tail := Comma(SetTokens(sets[1..])) + rest;
    Associates([Word(sets[0].0), Mark('=')], ExprTokens(sets[0].1) + tail, []);
    ExprReads(sets[0].1, tail);
    if |sets| > 1 {
      assert tail[1..] == SetTokens(sets[1..]) + rest;
      SetsRead(sets[1..], rest);
      assert [(sets[0].0, sets[0].1)] + sets[1..] == sets;
    } else {
      NothingToRead();
      assert sets[1..] == [];
      assert tail == rest && [(sets[0].0, sets[0].1)] == sets;
    }
  }

  lemma {:induction false} NamesRead(names: seq<string>, rest: seq<Token>)
    requires names != [] && NoComma(rest)
    ensures ParseNames(NameTokens(names) + rest) == Some((names, rest))
    decreases |names|
  {
    hide NameTokens;
    NamesUnfold(names, rest);
    var tail := Comma(NameTokens(names[1..])) + rest;
    var ts := [Word(names[0])] + tail;
    assert ts[1..] == tail && NameTokens(names) + rest == ts;
    if |names| > 1 {
      CommaMore(NameTokens(names[1..]), rest);
      assert tail[1..] == NameTokens(names[1..]) + rest && ts[2..] == tail[1..];
      NamesRead(names[1..], rest);
      assert [names[0]] + names[1..] == names;
    } else {
      NothingToRead();
      assert names[1..] == [];
      assert tail == rest && [names[0]] == names;
    }
  }

  lemma {:induction false} ExprsRead(es: seq<Expr>, rest: seq<Token>)
    requires es != [] && NoComma(rest)
    ensures ParseExprs(ExprListTokens(es) + rest) == Some((es, rest))
    decreases |es|
  {
    hide ParseExpr, ExprTokens, ExprListTokens;
    ExprsUnfold(es, rest);
    var tail := Comma(ExprListTokens(es[1..])) + rest;
    ExprReads(es[0], tail);
    if |es| > 1 {
      assert tail[1..] == ExprListTokens(es[1..]) + rest;
      ExprsRead(es[1..], rest);
      assert [es[0]] + es[1..] == es;
    } else {
      NothingToRead();
      assert es[1..] == [];
      assert tail == rest && [es[0]] == es;
    }
  }

  // ----- Whole statements -----

  function UpdateText(table: string, sets: seq<(string, Expr)>, equals: string, idColumn: string, n: nat): string
  {
    "UPDATE public." + table +
    (" SET " + (Join(PartTexts(sets, equals), ", ") + (" WHERE " + (idColumn + (equals + ("$" + NatText(n)))))))
  }

  function InsertText(table: string, columns: seq<string>, values: seq<Expr>): string
  {
    "INSERT INTO public." + table +
    (" (" + (Join(columns, ", ") + (") VALUES (" + (Join(ExprTexts(values), ", ") + ") RETURNING id"))))
  }

  /** A keyword between spaces. */
  lemma KeywordTokens(word: string, rest: string)
    requires word in ["UPDATE", "SET", "WHERE", "INSERT", "INTO", "VALUES", "RETURNING", "id"]
    ensures Tokens(" " + (word + (" " + rest))) == [Word(word)] + Tokens(rest)
    ensures Tokens(word + (" " + rest)) == [Word(word)] + Tokens(rest)
  {
    hide Tokens, WordText;
    LiteralWord(word);
    SpaceToken(word + (" " + rest));
    WordToken(word, " " + rest);
    SpaceToken(rest);
  }

  lemma TableTokens(table: string, rest: string)
    requires Identifier(table) && EndsWord(rest)
    ensures Tokens("public." + table + rest) == [Word("public." + table)] + Tokens(rest)
  {
    hide Tokens;
    assert WordText("public." + table);
    WordToken("public." + table, rest);
  }

  /** The text from the condition on. */
  function ConditionText(idColumn: string, equals: string, n: nat): string
  {
    " WHERE " + (idColumn + (equals + ("$" + NatText(n))))
  }

  function ConditionTokens(idColumn: string, n: nat): seq<Token>
  {
    [Word("WHERE"), Word(idColumn), Mark('=')] + ExprTokens(Param(n))
  }

  lemma ConditionRead(idColumn: string, equals: string, n: nat)
    requires Identifier(idColumn) && EqualsSign(equals)
    ensures Tokens(ConditionText(idColumn, equals, n)) == ConditionTokens(idColumn, n)
    ensures EndsWord(ConditionText(idColumn, equals, n))
  {
    hide Tokens, Identifier, WordText, EqualsSign;
    var id := "$" + NatText(n);
    var tail := equals + id;
    var condition := idColumn + tail;
    ExprTextTokens(Param(n), "");
    assert id + "" == id;
    NoTokens();
    EqualsTokens(equals, id);
    IdentifierWord(idColumn);
    WordToken(idColumn, tail);
    KeywordTokens("WHERE", condition);
    assert " WHERE " + condition == " " + ("WHERE" + (" " + condition));
  }

  lemma UpdateTokens(table: string, sets: seq<(string, Expr)>, equals: string, idColumn: string, n: nat)
    requires Identifier(table) && Identifier(idColumn) && EqualsSign(equals)
    requires sets != [] && forall s :: s in sets ==> Identifier(s.0)
    ensures Tokens(UpdateText(table, sets, equals, idColumn, n)) ==
            [Word("UPDATE"), Word("public." + table), Word("SET")] + (SetTokens(sets) +
            [Word("WHERE"), Word(idColumn), Mark('=')] + ExprTokens(Param(n)))
  {
    hide Tokens, Identifier, WordText, EqualsSign, PartTexts, Join, SetTokens, NatText, ExprTokens;
    var parts, condition := Join(PartTexts(sets, equals), ", "), ConditionText(idColumn, equals, n);
    ConditionRead(idColumn, equals, n);
    SetsTokens(sets, equals, condition);
    KeywordTokens("SET", parts + condition);
    assert " SET " + (parts + condition) == " " + ("SET" + (" " + (parts + condition)));
    TableTokens(table, " SET " + (parts + condition));
    var rest := "public." + table + (" SET " + (parts + condition));
    KeywordTokens("UPDATE", rest);
    assert UpdateText(table, sets, equals, idColumn, n) == "UPDATE" + (" " + rest);
    Associates(SetTokens(sets), [Word("WHERE"), Word(idColumn), Mark('=')], ExprTokens(Param(n)));
  }

  lemma NoTokens()
    ensures Tokens("") == []
  {
  }

  /** The text of an update reads back as that update. */
  lemma UpdateReads(table: string, sets: seq<(string, Expr)>, equals: string, idColumn: string, n: nat)
    requires Identifier(table) && Identifier(idColumn) && EqualsSign(equals)
    requires sets != [] && forall s :: s in sets ==> Identifier(s.0)
    ensures Parse(UpdateText(table, sets, equals, idColumn, n)) ==
            Some(Update("public." + table, sets, idColumn, Param(n)))
  {
    hide Tokens, UpdateText, Identifier, EqualsSign, SetTokens, ParseSets, ParseExpr, ExprTokens, ParseInsert;
    UpdateTokens(table, sets, equals, idColumn, n);
    var ts := Tokens(UpdateText(table, sets, equals, idColumn, n));
    var rest := [Word("WHERE"), Word(idColumn), Mark('=')] + ExprTokens(Param(n));
    assert ts[3..] == SetTokens(sets) + rest;
    SetsRead(sets, rest);
    assert rest[3..] == ExprTokens(Param(n)) + [];
    ExprReads(Param(n), []);
  }

  lemma MarkedTokens(rest: string)
    ensures Tokens(" (" + rest) == [Mark('(')] + Tokens(rest)
    ensures Tokens(") VALUES (" + rest) == [Mark(')'), Word("VALUES"), Mark('(')] + Tokens(rest)
    ensures Tokens(") RETURNING id") == [Mark(')'), Word("RETURNING"), Word("id")]
    ensures EndsWord(" (" + rest) && EndsWord(") VALUES (" + rest) && EndsWord(") RETURNING id")
  {
    hide Tokens, WordText;
    assert " (" + rest == " " + ("(" + rest);
    SpaceToken("(" + rest);
    MarkToken('(', rest);
    assert ") VALUES (" + rest == ")" + (" " + ("VALUES" + (" " + ("(" + rest))));
    MarkToken(')', " " + ("VALUES" + (" " + ("(" + rest))));
    KeywordTokens("VALUES", "(" + rest);
    assert [Mark(')')] + ([Word("VALUES")] + ([Mark('(')] + Tokens(rest))) ==
           [Mark(')'), Word("VALUES"), Mark('(')] + Tokens(rest);
    ReturningTokens();
  }

  lemma ReturningTokens()
    ensures Tokens(") RETURNING id") == [Mark(')'), Word("RETURNING"), Word("id")]
  {
    hide Tokens, WordText;
    LiteralWord("id");
    NoTokens();
    WordToken("id", "");
    assert "id" + "" == "id";
    KeywordTokens("RETURNING", "id");
    MarkToken(')', " " + ("RETURNING" + (" " + "id")));
    assert ") RETURNING id" == ")" + (" " + ("RETURNING" + (" " + "id")));
  }

  lemma InsertTokens(table: string, columns: seq<string>, values: seq<Expr>)
    requires Identifier(table) && columns != [] && Identifiers(columns) && values != []
    ensures Tokens(InsertText(table, columns, values)) ==
            [Word("INSERT"), Word("INTO"), Word("public." + table), Mark('(')] + (NameTokens(columns) +
            ([Mark(')'), Word("VALUES"), Mark('(')] + (ExprListTokens(values) +
            [Mark(')'), Word("RETURNING"), Word("id")])))
  {
    hide Tokens, Identifier, Identifiers, WordText, ExprTexts, Join, NameTokens, ExprListTokens, EndsWord;
    var end := ") RETURNING id";
    var items := Join(ExprTexts(values), ", ") + end;
    var tail := Join(columns, ", ") + (") VALUES (" + items);
    MarkedTokens(items);
    MarkedTokens(tail);
    ExprsTokens(values, end);
    NamesTokens(columns, ") VALUES (" + items);
    TableTokens(table, " (" + tail);
    var rest := "public." + table + (" (" + tail);
    KeywordTokens("INTO", rest);
    KeywordTokens("INSERT", "INTO" + (" " + rest));
    InsertPieces(table, columns, values);
  }

  lemma InsertPieces(table: string, columns: seq<string>, values: seq<Expr>)
    ensures var items := Join(ExprTexts(values), ", ") + ") RETURNING id";
            var tail := Join(columns, ", ") + (") VALUES (" + items);
            InsertText(table, columns, values) == "INSERT" + (" " + ("INTO" + (" " + ("public." + table + (" (" + tail)))))
  {
    hide Join, ExprTexts;
  }

  lemma InsertReads(table: string, columns: seq<string>, values: seq<Expr>)
    requires Identifier(table) && columns != [] && Identifiers(columns) && values != []
    ensures Parse(InsertText(table, columns, values)) == Some(Insert("public." + table, columns, values))
  {
    hide Tokens, InsertText, Identifier, Identifiers, NameTokens, ExprListTokens, ParseNames, ParseExprs, ParseSets,
      ParseExpr;
    InsertTokens(table, columns, values);
    var ts := Tokens(InsertText(table, columns, values));
    var end := [Mark(')'), Word("RETURNING"), Word("id")];
    var rest := [Mark(')'), Word("VALUES"), Mark('(')] + (ExprListTokens(values) + end);
    assert ts[4..] == NameTokens(columns) + rest;
    NamesRead(columns, rest);
    assert rest[3..] == ExprListTokens(values) + end && rest[..3] == [Mark(')'), Word("VALUES"), Mark('(')];
    ExprsRead(values, end);
  }

  /** Two parts written as one with the separator between them. */
  lemma {:induction false} JoinTwo(parts: seq<string>, a: string, b: string, separator: string)
    ensures Join(parts + [a + separator + b], separator) == Join(parts + [a, b], separator)
    decreases |parts|
  {
    if parts == [] {
      assert [a, b][1..] == [b] && parts + [a, b] == [a, b] && parts + [a + separator + b] == [a + separator + b];
    } else {
      assert (parts + [a + separator + b])[1..] == parts[1..] + [a + separator + b];
      assert (parts + [a, b])[1..] == parts[1..] + [a, b];
      JoinTwo(parts[1..], a, b, separator);
    }
  }
}
