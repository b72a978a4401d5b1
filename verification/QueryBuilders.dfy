/**
  The query builders of internal/db: whatever order a map is walked in, the statement they
  write, run with its arguments, writes exactly the requested columns of exactly one row.
 */
module QueryBuilders {
  import opened DayChanges
  import opened Decimal
  import opened Fields
  import opened IndexRecords
  import opened SqlStatements
  import opened SqlTexts
  import opened Wrappers

  // ----- What a statement is meant to do -----

  function Written(rows: Table, id: int, values: Record, now: Json): Table
  {
    if id in rows then rows[id := rows[id] + values + map["updated_at" := now]] else rows
  }

  function Inserted(rows: Table, newId: int, values: Record, now: Json): Table
  {
    rows[newId := values + map["created_at" := now, "updated_at" := now]]
  }

  /** The placeholders of a statement, from the left. */
  function Placeholders(s: Statement): seq<nat>
  {
    match s
    case Update(_, sets, _, id) => Params(Exprs(sets) + [id])
    case Insert(_, _, values) => Params(values)
  }

  function UpTo(n: nat): (r: seq<nat>)
    ensures |r| == n && forall i :: 0 <= i < n ==> r[i] == i + 1
  {
    seq(n, i => i + 1)
  }

  /** Each placeholder from 1 to the number of arguments stands once, in order. */
  predicate UsesEachOnce(query: string, args: seq<Json>)
  {
    Parse(query).Some? && Placeholders(Parse(query).value) == UpTo(|args|)
  }

  /** On every database, the row with this id gets these values and a new updated_at; nothing else changes. */
  ghost predicate WritesExactly(query: string, args: seq<Json>, table: string, id: int, values: Record)
  {
    && UsesEachOnce(query, args)
    && forall db: Database, now, newId :: "public." + table in db ==>
         Execute(query, args, db, now, newId) ==
         Some(db["public." + table := Written(db["public." + table], id, values, now)])
  }

  ghost predicate InsertsExactly(query: string, args: seq<Json>, table: string, values: Record)
  {
    && UsesEachOnce(query, args)
    && forall db: Database, now, newId :: "public." + table in db && newId !in db["public." + table] ==>
         Execute(query, args, db, now, newId) ==
         Some(db["public." + table := Inserted(db["public." + table], newId, values, now)])
  }

  /** The server refuses the statement whatever the tables hold. */
  ghost predicate AlwaysRefused(query: string, args: seq<Json>)
  {
    forall db: Database, now, newId :: Execute(query, args, db, now, newId) == None
  }

  // ----- Columns and their numbers -----

  function Numbers(n: nat): (r: seq<Expr>)
    ensures |r| == n && forall i :: 0 <= i < n ==> r[i] == Param(i + 1)
  {
    seq(n, i requires i >= 0 => Param(i + 1))
  }

  function Numbered(keys: seq<string>): (r: seq<(string, Expr)>)
    ensures |r| == |keys| && forall i :: 0 <= i < |r| ==> r[i] == (keys[i], Param(i + 1))
  {
    seq(|keys|, i requires 0 <= i < |keys| => (keys[i], Param(i + 1)))
  }

  function UpdateSets(keys: seq<string>): seq<(string, Expr)>
  {
    Numbered(keys) + [("updated_at", Now)]
  }

  /** The keys name each value once, and the arguments hold the values in the same order. */
  ghost predicate Listing(keys: seq<string>, args: seq<Json>, values: Record)
  {
    && |args| == |keys|
    && Distinct(keys)
    && (forall i :: 0 <= i < |keys| ==> keys[i] in values && args[i] == values[keys[i]])
    && (forall k :: k in values ==> k in keys)
  }

  /** The values that a builder lets through. */
  function Requested(values: Record, allowed: seq<string>): Record
  {
    map k | k in values && k in allowed :: values[k]
  }

  lemma NumbersInRange(n: nat, args: seq<Json>)
    requires n <= |args|
    ensures forall e :: e in Numbers(n) ==> InRange(e, args)
  {
  }

  lemma {:induction false} AssignedPrefix(row: Record, keys: seq<string>, args: seq<Json>, values: Record, now: Json,
                                          k: nat)
    requires k <= |keys| <= |args|
    requires forall i :: 0 <= i < |keys| ==> keys[i] in values && args[i] == values[keys[i]]
    ensures forall e :: e in Numbers(k) ==> InRange(e, args)
    ensures Assigned(row, keys[..k], Numbers(k), args, now) == row + Requested(values, keys[..k])
    decreases k
  {
    hide Requested, Assigned;
    NumbersInRange(k, args);
    if k == 0 {
      NothingAssigned(row, values, args, now);
      assert Numbers(0) == [] && keys[..0] == [];
    } else {
      AssignedPrefix(row, keys, args, values, now, k - 1);
      assert keys[..k][..k - 1] == keys[..k - 1] && Numbers(k)[..k - 1] == Numbers(k - 1);
      LastAssigned(row, keys[..k], Numbers(k), args, now);
      RequestedSnoc(row, values, keys, k);
    }
  }

  lemma NothingAssigned(row: Record, values: Record, args: seq<Json>, now: Json)
    ensures Assigned(row, [], [], args, now) == row + Requested(values, [])
  {
  }

  lemma LastAssigned(row: Record, names: seq<string>, es: seq<Expr>, args: seq<Json>, now: Json)
    requires |names| == |es| > 0 && forall e :: e in es ==> InRange(e, args)
    ensures var k := |names| - 1;
            (forall e :: e in es[..k] ==> InRange(e, args)) && es[k] in es &&
            Assigned(row, names, es, args, now) ==
            Assigned(row, names[..k], es[..k], args, now)[names[k] := Value(es[k], args, now)]
  {
  }

  lemma RequestedSnoc(row: Record, values: Record, keys: seq<string>, k: nat)
    requires 0 < k <= |keys| && keys[k - 1] in values
    ensures row + Requested(values, keys[..k]) ==
            (row + Requested(values, keys[..k - 1]))[keys[k - 1] := values[keys[k - 1]]]
  {
    assert keys[..k] == keys[..k - 1] + [keys[k - 1]];
  }

  lemma AssignedKeys(row: Record, keys: seq<string>, args: seq<Json>, more: seq<Json>, values: Record, now: Json)
    requires Listing(keys, args, values)
    ensures forall e :: e in Numbers(|keys|) ==> InRange(e, args + more)
    ensures Assigned(row, keys, Numbers(|keys|), args + more, now) == row + values
  {
    hide Assigned;
    AssignedPrefix(row, keys, args + more, values, now, |keys|);
    assert keys[..|keys|] == keys && Requested(values, keys) == values;
  }

  function NumbersFrom(from: nat, n: nat): (r: seq<Expr>)
    ensures |r| == n && forall i :: 0 <= i < n ==> r[i] == Param(from + i + 1)
  {
    seq(n, i requires i >= 0 => Param(from + i + 1))
  }

  lemma ParamsNumbers(n: nat, rest: seq<Expr>)
    ensures Params(Numbers(n) + rest) == UpTo(n) + Params(rest)
  {
    ParamsFrom(0, n, rest);
    assert NumbersFrom(0, n) == Numbers(n) && UpTo(n)[0..] == UpTo(n);
  }

  lemma {:induction false} ParamsFrom(from: nat, n: nat, rest: seq<Expr>)
    ensures Params(NumbersFrom(from, n) + rest) == UpTo(from + n)[from..] + Params(rest)
    decreases n
  {
    hide Params, UpTo;
    var es := NumbersFrom(from, n) + rest;
    if n == 0 {
      assert es == rest && UpTo(from)[from..] == [];
    } else {
      var more := NumbersFrom(from + 1, n - 1) + rest;
      assert es == [Param(from + 1)] + more;
      ParamFirst(from + 1, more);
      ParamsFrom(from + 1, n - 1, rest);
      NextNumber(from, n);
      assert ([from + 1] + UpTo(from + n)[from + 1..]) + Params(rest) == [from + 1] + (UpTo(from + n)[from + 1..] + Params(rest));
    }
  }

  lemma ParamFirst(n: nat, more: seq<Expr>)
    ensures Params([Param(n)] + more) == [n] + Params(more)
  {
    assert ([Param(n)] + more)[1..] == more;
  }

  lemma NextNumber(from: nat, n: nat)
    requires n > 0
    ensures UpTo(from + n)[from..] == [from + 1] + UpTo(from + n)[from + 1..]
  {
  }

  // ----- Updates -----

  lemma UpdateRow(row: Record, keys: seq<string>, args: seq<Json>, id: int, values: Record, now: Json)
    requires Listing(keys, args, values)
    ensures var names, es := keys + ["updated_at"], Numbers(|keys|) + [Now];
            (forall e :: e in es ==> InRange(e, args + [JInt(id)])) &&
            Assigned(row, names, es, args + [JInt(id)], now) == row + values + map["updated_at" := now]
  {
    hide Assigned, Listing;
    var names, es, all := keys + ["updated_at"], Numbers(|keys|) + [Now], args + [JInt(id)];
    AssignedKeys(row, keys, args, [JInt(id)], values, now);
    LastAssigned(row, names, es, all, now);
    ListingLengths(keys, args, values);
    assert names[..|keys|] == keys && es[..|keys|] == Numbers(|keys|);
  }

  lemma ListingLengths(keys: seq<string>, args: seq<Json>, values: Record)
    requires Listing(keys, args, values)
    ensures |keys| == |args| && Distinct(keys)
    ensures forall k :: k in values <==> k in keys
  {
  }

  lemma SetsNamed(keys: seq<string>)
    ensures Names(UpdateSets(keys)) == keys + ["updated_at"]
    ensures Exprs(UpdateSets(keys)) == Numbers(|keys|) + [Now]
  {
  }

  lemma SetsDistinct(keys: seq<string>)
    requires Distinct(keys)
    ensures Distinct(keys + ["updated_at"]) <==> "updated_at" !in keys
  {
    var names := keys + ["updated_at"];
    if "updated_at" in keys {
      var i :| 0 <= i < |keys| && keys[i] == "updated_at";
      assert names[i] == names[|keys|];
    }
  }

  lemma SetsIdentified(keys: seq<string>)
    requires Identifiers(keys)
    ensures UpdateSets(keys) != [] && forall s :: s in UpdateSets(keys) ==> Identifier(s.0)
  {
    hide Identifier;
    UpdatedAtIdentifier();
    forall s | s in UpdateSets(keys) ensures Identifier(s.0) {
      if s != ("updated_at", Now) {
        assert s in Numbered(keys);
        assert s.0 in keys;
      }
    }
  }

  lemma UpdatedAtIdentifier()
    ensures Identifier("updated_at") && Identifier("created_at") && Identifier("id")
  {
  }

  /** The update over the listed keys writes their values, or is refused when it names updated_at twice. */
  lemma UpdateWrites(table: string, keys: seq<string>, equals: string, args: seq<Json>, id: int, values: Record)
    requires Identifier(table) && Identifiers(keys) && EqualsSign(equals) && Listing(keys, args, values)
    ensures var query := UpdateText(table, UpdateSets(keys), equals, "id", |keys| + 1);
            if "updated_at" in values then AlwaysRefused(query, args + [JInt(id)])
            else WritesExactly(query, args + [JInt(id)], table, id, values)
  {
    hide Identifier, Identifiers, EqualsSign, Listing, UpdateText, UpdateSets, Parse, Assigned, Distinct;
    var query := UpdateText(table, UpdateSets(keys), equals, "id", |keys| + 1);
    UpdatedAtIdentifier();
    SetsIdentified(keys);
    SetsNamed(keys);
    ListingLengths(keys, args, values);
    SetsDistinct(keys);
    UpdateReads(table, UpdateSets(keys), equals, "id", |keys| + 1);
    if "updated_at" !in values {
      UpdatePlaceholders(keys);
      assert |args + [JInt(id)]| == |keys| + 1;
      forall db: Database, now, newId | "public." + table in db
        ensures Execute(query, args + [JInt(id)], db, now, newId) ==
                Some(db["public." + table := Written(db["public." + table], id, values, now)])
      {
        UpdateRuns(query, table, keys, args, id, values, db, now, newId);
      }
    }
  }

  lemma UpdatePlaceholders(keys: seq<string>)
    ensures Params(Exprs(UpdateSets(keys)) + [Param(|keys| + 1)]) == UpTo(|keys| + 1)
  {
    hide UpdateSets;
    SetsNamed(keys);
    ParamsNumbers(|keys|, [Now, Param(|keys| + 1)]);
    assert Numbers(|keys|) + [Now] + [Param(|keys| + 1)] == Numbers(|keys|) + [Now, Param(|keys| + 1)];
    TwoParams(|keys| + 1);
    assert UpTo(|keys|) + [|keys| + 1] == UpTo(|keys| + 1);
  }

  lemma TwoParams(n: nat)
    ensures Params([Now, Param(n)]) == [n] && Params([Now, Now]) == []
  {
    assert [Now, Param(n)][1..] == [Param(n)] && [Param(n)][1..] == [];
    assert Params([Param(n)]) == [n] && Params([Now, Param(n)]) == Params([Param(n)]);
    assert [Now, Now][1..] == [Now] && [Now][1..] == [];
    assert Params([Now]) == [] && Params([Now, Now]) == Params([Now]);
  }

  lemma UpdateRuns(query: string, table: string, keys: seq<string>, args: seq<Json>, id: int, values: Record,
                   db: Database, now: Json, newId: int)
    requires Listing(keys, args, values) && "updated_at" !in values
    requires Parse(query) == Some(Update("public." + table, UpdateSets(keys), "id", Param(|keys| + 1)))
    requires "public." + table in db
    ensures Execute(query, args + [JInt(id)], db, now, newId) ==
            Some(db["public." + table := Written(db["public." + table], id, values, now)])
  {
    hide Listing, Parse, UpdateSets, Assigned, Distinct;
    ListingLengths(keys, args, values);
    SetsNamed(keys);
    SetsDistinct(keys);
    var all := args + [JInt(id)];
    assert all[|keys|] == JInt(id) && InRange(Param(|keys| + 1), all);
    var rows := db["public." + table];
    UpdateRow(map[], keys, args, id, values, now);
    if id in rows {
      UpdateRow(rows[id], keys, args, id, values, now);
    } else {
      assert db["public." + table := rows] == db;
    }
  }

  // ----- The update builders -----

  /** The columns seen so far, in the order they were seen. */
  ghost predicate Seen(keys: seq<string>, args: seq<Json>, values: Record, allowed: seq<string>, todo: set<string>)
  {
    && |args| == |keys|
    && Distinct(keys)
    && todo <= values.Keys
    && (forall i :: 0 <= i < |keys| ==>
          keys[i] in values && keys[i] in allowed && keys[i] !in todo && args[i] == values[keys[i]])
    && (forall k :: k in values && k in allowed && k !in todo ==> k in keys)
  }

  lemma SeenOne(keys: seq<string>, args: seq<Json>, values: Record, allowed: seq<string>, todo: set<string>,
                key: string)
    requires Seen(keys, args, values, allowed, todo) && key in todo
    ensures if key in allowed then Seen(keys + [key], args + [values[key]], values, allowed, todo - {key})
            else Seen(keys, args, values, allowed, todo - {key})
  {
    if key in allowed {
      var keys' := keys + [key];
      assert keys'[|keys|] == key;
      forall k | k in values && k in allowed && k !in todo - {key} ensures k in keys' {
        if k != key {
          assert k in keys;
        }
      }
    }
  }

  lemma AllSeen(keys: seq<string>, args: seq<Json>, values: Record, allowed: seq<string>, todo: set<string>)
    requires Seen(keys, args, values, allowed, todo) && Identifiers(allowed)
    requires forall k :: k in todo ==> k !in allowed
    ensures Listing(keys, args, Requested(values, allowed)) && Identifiers(keys)
  {
    hide Identifier;
    forall n | n in keys ensures Identifier(n) {
      var i :| 0 <= i < |keys| && keys[i] == n;
      assert keys[i] in allowed;
    }
  }

  lemma PartTextsAre(key: string, n: nat, equals: string)
    ensures PartText((key, Param(n)), equals) == key + equals + ("$" + NatText(n))
    ensures PartText(("updated_at", Now), equals) == "updated_at" + equals + "now()"
  {
    hide NatText;
  }

  lemma PartsSnoc(keys: seq<string>, key: string, equals: string)
    ensures PartTexts(Numbered(keys + [key]), equals) ==
            PartTexts(Numbered(keys), equals) + [key + equals + ("$" + NatText(|keys| + 1))]
    ensures PartTexts(UpdateSets(keys), equals) == PartTexts(Numbered(keys), equals) + ["updated_at" + equals + "now()"]
  {
    hide NatText, PartTexts, PartText, Numbered;
    PartTextsAre(key, |keys| + 1, equals);
    var now := "updated_at" + equals + "now()";
    var last := key + equals + ("$" + NatText(|keys| + 1));
    var before := PartTexts(Numbered(keys), equals);
    var a, b := PartTexts(Numbered(keys + [key]), equals), PartTexts(UpdateSets(keys), equals);
    forall i | 0 <= i <= |keys| ensures a[i] == (before + [last])[i] && b[i] == (before + [now])[i] {
    }
  }

  lemma UpdateTextIs(table: string, parts: string, idColumn: string, keys: seq<string>, equals: string, n: nat)
    requires parts == Join(PartTexts(UpdateSets(keys), equals), ", ")
    ensures "UPDATE public." + table + " SET " + parts + " WHERE " + idColumn + equals + "$" + NatText(n) ==
            UpdateText(table, UpdateSets(keys), equals, idColumn, n)
  {
    hide Join, PartTexts, UpdateSets, NatText;
  }

  /** The last part, the condition, and the id as last argument complete any of the updates. */
  lemma Completed(table: string, keys: seq<string>, equals: string, args: seq<Json>, id: int, values: Record,
                  parts: seq<string>, query: string)
    requires Identifier(table) && Identifiers(keys) && EqualsSign(equals) && Listing(keys, args, values)
    requires parts == PartTexts(Numbered(keys), equals) + ["updated_at" + equals + "now()"]
    requires query ==
             "UPDATE public." + table + " SET " + Join(parts, ", ") + " WHERE " + "id" + equals + "$" + NatText(|keys| + 1)
    ensures if "updated_at" in values then AlwaysRefused(query, args + [JInt(id)])
            else WritesExactly(query, args + [JInt(id)], table, id, values)
  {
    hide Identifier, Identifiers, Listing, PartTexts, UpdateSets, Numbered, UpdateText, Parse, Join, NatText,
      WritesExactly, AlwaysRefused, EqualsSign;
    PartsSnoc(keys, "", equals);
    UpdateTextIs(table, Join(parts, ", "), "id", keys, equals, |keys| + 1);
    UpdateWrites(table, keys, equals, args, id, values);
  }

  /** The source walks the map in an order of its own; any order gives a statement with the same effect. */
  method BuildUpdateQuery(table: string, idColumn: string, id: int, updates: Record, allowed: seq<string>)
    returns (query: string, args: seq<Json>)
    requires Identifier(table) && Identifier(idColumn) && Identifiers(allowed)
    ensures idColumn == "id" ==>
              var values := Requested(updates, allowed);
              if "updated_at" in values then AlwaysRefused(query, args)
              else WritesExactly(query, args, table, id, values)
  {
    hide Identifier, Identifiers, Seen, Listing, PartTexts, UpdateSets, Numbered, UpdateText, Parse, Join, NatText,
      WritesExactly, AlwaysRefused, Requested;
    var setParts, todo, pos := [], updates.Keys, 1;
    args := [];
    ghost var keys := [];
    SeenNone(updates, allowed);
    while todo != {}
      invariant Seen(keys, args, updates, allowed, todo)
      invariant setParts == PartTexts(Numbered(keys), "=") && pos == |keys| + 1
      invariant todo <= updates.Keys
      decreases |todo|
    {
      var key :| key in todo;
      SeenOne(keys, args, updates, allowed, todo, key);
      todo := todo - {key};
      if key !in allowed {
        continue;
      }
      PartsSnoc(keys, key, "=");
      setParts := setParts + [key + "=$" + NatText(pos)];
      assert key + "=$" + NatText(pos) == key + "=" + ("$" + NatText(pos));
      args := args + [updates[key]];
      keys := keys + [key];
      pos := pos + 1;
    }
    setParts := setParts + ["updated_at" + "=" + "now()"];
    AllSeen(keys, args, updates, allowed, todo);
    query := "UPDATE public." + table + " SET " + Join(setParts, ", ") + " WHERE " + idColumn + "=" + "$" + NatText(pos);
    if idColumn == "id" {
      Completed(table, keys, "=", args, id, Requested(updates, allowed), setParts, query);
    }
    args := args + [JInt(id)];
  }

  lemma SeenNone(values: Record, allowed: seq<string>)
    ensures Seen([], [], values, allowed, values.Keys)
    ensures PartTexts(Numbered([]), "=") == []
  {
  }

  const EDITABLE: seq<string> := ["attention", "name", "address_1", "address_2", "address_3", "address_4", "city",
                                  "state_province", "postal_code", "latitude", "longitude"]

  lemma EditableColumns()
    ensures Identifiers(EDITABLE) && Distinct(EDITABLE) && "updated_at" !in EDITABLE
  {
    hide Identifier;
    ShortNames();
    LongNames();
  }

  lemma ShortNames()
    ensures Identifier("attention") && Identifier("name") && Identifier("city") && Identifier("latitude")
    ensures Identifier("longitude") && Identifier("day") && Identifier("addresses") && Identifier("services")
  {
  }

  lemma LongNames()
    ensures Identifier("address_1") && Identifier("address_2") && Identifier("address_3") && Identifier("address_4")
    ensures Identifier("state_province") && Identifier("postal_code") && Identifier("opens_at") && Identifier("closes_at")
    ensures Identifier("schedule_days")
  {
  }

  ghost function Left(values: Record, done: seq<string>): set<string>
  {
    set k | k in values && k !in done
  }

  /** The source walks its list of editable columns. */
  method BuildAddressUpdateQuery(id: int, changes: Record) returns (query: string, args: seq<Json>)
    ensures WritesExactly(query, args, "addresses", id, Requested(changes, EDITABLE))
  {
    hide Identifier, Identifiers, Seen, Listing, PartTexts, UpdateSets, Numbered, UpdateText, Parse, Join, NatText,
      WritesExactly, AlwaysRefused, Requested, Left;
    var setParts, pos := [], 1;
    args := [];
    ghost var keys := [];
    SeenNone(changes, EDITABLE);
    LeftAll(changes);
    assert EDITABLE[..0] == [];
    EditableColumns();
    for i := 0 to |EDITABLE|
      invariant Seen(keys, args, changes, EDITABLE, Left(changes, EDITABLE[..i]))
      invariant setParts == PartTexts(Numbered(keys), "=") && pos == |keys| + 1
    {
      var name := EDITABLE[i];
      LeftOne(changes, EDITABLE, i);
      if name !in changes {
        continue;
      }
      SeenOne(keys, args, changes, EDITABLE, Left(changes, EDITABLE[..i]), name);
      PartsSnoc(keys, name, "=");
      setParts := setParts + [name + "=$" + NatText(pos)];
      assert name + "=$" + NatText(pos) == name + "=" + ("$" + NatText(pos));
      args := args + [changes[name]];
      keys := keys + [name];
      pos := pos + 1;
    }
    setParts := setParts + ["updated_at" + "=" + "now()"];
    LeftNone(changes, EDITABLE);
    AllSeen(keys, args, changes, EDITABLE, Left(changes, EDITABLE[..|EDITABLE|]));
    RequestedOnly(changes, EDITABLE);
    ShortNames();
    query := "UPDATE public." + "addresses" + " SET " + Join(setParts, ", ") + " WHERE " + "id" + "=" + "$" + NatText(pos);
    Completed("addresses", keys, "=", args, id, Requested(changes, EDITABLE), setParts, query);
    args := args + [JInt(id)];
  }

  lemma LeftAll(values: Record)
    ensures Left(values, []) == values.Keys
  {
  }

  lemma LeftOne(values: Record, names: seq<string>, i: nat)
    requires i < |names| && Distinct(names)
    ensures names[i] in values ==> names[i] in Left(values, names[..i])
    ensures Left(values, names[..i + 1]) == Left(values, names[..i]) - {names[i]}
    ensures names[i] !in values ==> Left(values, names[..i + 1]) == Left(values, names[..i])
    ensures names[i] in names
  {
    assert names[..i + 1] == names[..i] + [names[i]];
  }

  lemma LeftNone(values: Record, names: seq<string>)
    ensures forall k :: k in Left(values, names[..|names|]) ==> k !in names
  {
    assert names[..|names|] == names;
  }

  lemma RequestedOnly(values: Record, allowed: seq<string>)
    ensures forall k :: k in Requested(values, allowed) <==> k in values && k in allowed
  {
  }

  // ----- Schedule days -----

  /** A column is provided or not; a provided one may be null. */
  function Nilable(value: Option<int>): Json { if value.Some? then JInt(value.value) else JNull }

  function ScheduleColumns(c: ScheduleChanges): Record
  {
    var d: Record := if c.day.Some? then map["day" := JText(c.day.value)] else map[];
    var o := if c.opensAt.Some? then d["opens_at" := Nilable(c.opensAt.value)] else d;
    if c.closesAt.Some? then o["closes_at" := Nilable(c.closesAt.value)] else o
  }

  lemma ListingSnoc(keys: seq<string>, args: seq<Json>, values: Record, key: string, value: Json)
    requires Listing(keys, args, values) && key !in values
    ensures Listing(keys + [key], args + [value], values[key := value])
  {
    forall k | k in values[key := value] ensures k in keys + [key] {
      if k != key {
        assert k in keys;
      }
    }
  }

  lemma IdentifiersSnoc(keys: seq<string>, key: string)
    requires Identifiers(keys) && Identifier(key)
    ensures Identifiers(keys + [key])
  {
    hide Identifier;
  }

  /** No provided column gives no statement. */
  method BuildScheduleDayUpdate(id: int, changes: ScheduleChanges) returns (query: string, args: seq<Json>)
    ensures if ScheduleColumns(changes) == map[] then query == "" && args == []
            else WritesExactly(query, args, "schedule_days", id, ScheduleColumns(changes))
  {
    hide Identifier, Identifiers, Listing, PartTexts, Numbered, Join, NatText, WritesExactly, AlwaysRefused,
      ScheduleColumns;
    ghost var keys;
    var setParts;
    setParts, args, keys := ScheduleParts(changes);
    ListingLengths(keys, args, ScheduleColumns(changes));
    if |setParts| == 0 {
      return "", [];
    }
    assert keys[0] in ScheduleColumns(changes);
    ShortNames();
    LongNames();
    setParts := setParts + ["updated_at" + " = " + "now()"];
    query := "UPDATE public." + "schedule_days" + " SET " + Join(setParts, ", ") +
             " WHERE " + "id" + " = " + "$" + NatText(|args| + 1);
    ScheduleNames(changes);
    Completed("schedule_days", keys, " = ", args, id, ScheduleColumns(changes), setParts, query);
    args := args + [JInt(id)];
  }

  lemma ScheduleNames(changes: ScheduleChanges)
    ensures "updated_at" !in ScheduleColumns(changes)
  {
  }

  /** The parts and arguments of the provided columns. */
  method ScheduleParts(changes: ScheduleChanges) returns (parts: seq<string>, args: seq<Json>, ghost keys: seq<string>)
    ensures Listing(keys, args, ScheduleColumns(changes)) && Identifiers(keys)
    ensures parts == PartTexts(Numbered(keys), " = ")
  {
    hide Identifier, Identifiers, Listing, PartTexts, Numbered;
    parts, args := [], [];
    ghost var values: Record;
    keys, values := [], map[];
    NoColumns();
    ShortNames();
    LongNames();
    if changes.day.Some? {
      parts, args, keys, values := AddColumn(parts, args, "day", JText(changes.day.value), keys, values);
    }
    if changes.opensAt.Some? {
      parts, args, keys, values := AddColumn(parts, args, "opens_at", Nilable(changes.opensAt.value), keys, values);
    }
    if changes.closesAt.Some? {
      parts, args, keys, values := AddColumn(parts, args, "closes_at", Nilable(changes.closesAt.value), keys, values);
    }
  }

  lemma NoColumns()
    ensures Listing([], [], map[]) && Identifiers([])
    ensures PartTexts(Numbered([]), " = ") == [] && PartTexts(Numbered([]), "=") == []
  {
  }

  /** One argument and the part that names it by its number. */
  method AddColumn(parts: seq<string>, args: seq<Json>, key: string, value: Json, ghost keys: seq<string>,
                   ghost values: Record)
    returns (parts': seq<string>, args': seq<Json>, ghost keys': seq<string>, ghost values': Record)
    requires Listing(keys, args, values) && key !in values && Identifier(key) && Identifiers(keys)
    requires parts == PartTexts(Numbered(keys), " = ")
    ensures args' == args + [value] && values' == values[key := value] && keys' == keys + [key]
    ensures Listing(keys', args', values') && Identifiers(keys') && parts' == PartTexts(Numbered(keys'), " = ")
  {
    hide Identifier, Identifiers, Listing, PartTexts, Numbered, NatText;
    ListingSnoc(keys, args, values, key, value);
    ListingLengths(keys, args, values);
    IdentifiersSnoc(keys, key);
    PartsSnoc(keys, key, " = ");
    args' := args + [value];
    parts' := parts + [key + " = $" + NatText(|args'|)];
    assert key + " = $" + NatText(|args'|) == key + " = " + ("$" + NatText(|args'|));
    keys', values' := keys + [key], values[key := value];
  }

  // ----- Named fields of a service -----

  lemma {:induction false} FieldsListed(fields: seq<Field>)
    requires Distinct(FieldNames(fields))
    ensures Listing(FieldNames(fields), FieldValues(fields), FieldMap(fields))
    decreases |fields|
  {
    if fields == [] {
    } else {
      var front, last := fields[..|fields| - 1], fields[|fields| - 1];
      assert FieldNames(fields) == FieldNames(front) + [last.name];
      assert FieldValues(fields) == FieldValues(front) + [last.value];
      assert forall i :: 0 <= i < |front| ==> FieldNames(fields)[i] == FieldNames(front)[i];
      assert Distinct(FieldNames(front));
      FieldsListed(front);
      FieldKeys(front);
      ListingSnoc(FieldNames(front), FieldValues(front), FieldMap(front), last.name, last.value);
    }
  }

  lemma RepeatedRefused(table: string, keys: seq<string>, equals: string, args: seq<Json>, n: nat)
    requires Identifier(table) && Identifiers(keys) && EqualsSign(equals) && !Distinct(keys)
    ensures AlwaysRefused(UpdateText(table, UpdateSets(keys), equals, "id", n), args)
  {
    hide Identifier, Identifiers, EqualsSign, UpdateText, UpdateSets, Parse;
    UpdatedAtIdentifier();
    SetsIdentified(keys);
    SetsNamed(keys);
    UpdateReads(table, UpdateSets(keys), equals, "id", n);
    RepeatedMore(keys);
  }

  lemma RepeatedMore(keys: seq<string>)
    requires !Distinct(keys)
    ensures !Distinct(keys + ["updated_at"])
  {
    var i, j :| 0 <= i < j < |keys| && keys[i] == keys[j];
    var names := keys + ["updated_at"];
    assert names[i] == names[j];
  }

  method BuildServiceUpdate(id: int, fields: seq<Field>) returns (query: string, args: seq<Json>)
    requires Identifiers(FieldNames(fields))
    ensures if Distinct(FieldNames(fields)) && "updated_at" !in FieldNames(fields)
            then WritesExactly(query, args, "services", id, FieldMap(fields))
            else AlwaysRefused(query, args)
  {
    hide Identifier, Identifiers, Listing, PartTexts, UpdateSets, Numbered, Join, NatText, WritesExactly,
      AlwaysRefused, Distinct,
      FieldMap, UpdateText;
    var setParts := [];
    args := [];
    ghost var names := FieldNames(fields);
    NoColumns();
    assert names[..0] == [];
    for i := 0 to |fields|
      invariant setParts == PartTexts(Numbered(names[..i]), "=")
      invariant args == FieldValues(fields[..i])
    {
      PartsSnoc(names[..i], names[i], "=");
      assert names[..i + 1] == names[..i] + [names[i]];
      setParts := setParts + [fields[i].name + "=$" + NatText(i + 1)];
      assert fields[i].name + "=$" + NatText(i + 1) == names[i] + "=" + ("$" + NatText(|names[..i]| + 1));
      args := args + [fields[i].value];
    }
    assert names[..|names|] == names && fields[..|fields|] == fields;
    setParts := setParts + ["updated_at" + "=" + "now()"];
    query := "UPDATE public." + "services" + " SET " + Join(setParts, ", ") +
             " WHERE " + "id" + "=" + "$" + NatText(|fields| + 1);
    ShortNames();
    if Distinct(names) {
      FieldsListed(fields);
      FieldKeys(fields);
      Completed("services", names, "=", args, id, FieldMap(fields), setParts, query);
    } else {
      PartsSnoc(names, "", "=");
      UpdateTextIs("services", Join(setParts, ", "), "id", names, "=", |fields| + 1);
      RepeatedRefused("services", names, "=", args + [JInt(id)], |fields| + 1);
    }
    args := args + [JInt(id)];
  }

  // ----- The insert builder -----

  function InsertColumns(keys: seq<string>): seq<string> { keys + ["created_at", "updated_at"] }

  function InsertValues(n: nat): seq<Expr> { Numbers(n) + [Now, Now] }

  lemma InsertColumnsDistinct(keys: seq<string>)
    requires Distinct(keys)
    ensures Distinct(InsertColumns(keys)) <==> "created_at" !in keys && "updated_at" !in keys
  {
    var names := InsertColumns(keys);
    if "created_at" in keys {
      var i :| 0 <= i < |keys| && keys[i] == "created_at";
      assert names[i] == names[|keys|];
    }
    if "updated_at" in keys {
      var i :| 0 <= i < |keys| && keys[i] == "updated_at";
      assert names[i] == names[|keys| + 1];
    }
  }

  lemma InsertRow(keys: seq<string>, args: seq<Json>, values: Record, now: Json)
    requires Listing(keys, args, values)
    ensures (forall e :: e in InsertValues(|keys|) ==> InRange(e, args)) &&
            Assigned(map[], InsertColumns(keys), InsertValues(|keys|), args, now) ==
            values + map["created_at" := now, "updated_at" := now]
  {
    hide Assigned, Listing;
    ListingLengths(keys, args, values);
    var names, es := InsertColumns(keys), InsertValues(|keys|);
    AssignedKeys(map[], keys, args, [], values, now);
    assert args + [] == args;
    LastAssigned(map[], names, es, args, now);
    var names', es' := names[..|keys| + 1], es[..|keys| + 1];
    LastAssigned(map[], names', es', args, now);
    assert names'[..|keys|] == keys && es'[..|keys|] == Numbers(|keys|);
    assert map[] + values == values;
  }

  lemma InsertIdentified(keys: seq<string>)
    requires Identifiers(keys)
    ensures Identifiers(InsertColumns(keys))
  {
    hide Identifier;
    UpdatedAtIdentifier();
  }

  lemma InsertWrites(table: string, keys: seq<string>, args: seq<Json>, values: Record)
    requires Identifier(table) && Identifiers(keys) && Listing(keys, args, values)
    ensures var query := InsertText(table, InsertColumns(keys), InsertValues(|keys|));
            if "created_at" in values || "updated_at" in values then AlwaysRefused(query, args)
            else InsertsExactly(query, args, table, values)
  {
    hide Identifier, Identifiers, Listing, InsertText, Parse, Assigned, Distinct;
    var query := InsertText(table, InsertColumns(keys), InsertValues(|keys|));
    InsertIdentified(keys);
    InsertReads(table, InsertColumns(keys), InsertValues(|keys|));
    ListingLengths(keys, args, values);
    InsertColumnsDistinct(keys);
    ParamsNumbers(|keys|, [Now, Now]);
    TwoParams(0);
    assert UpTo(|keys|) + [] == UpTo(|keys|);
    forall now: Json
      ensures (forall e :: e in InsertValues(|keys|) ==> InRange(e, args)) &&
              Assigned(map[], InsertColumns(keys), InsertValues(|keys|), args, now) ==
              values + map["created_at" := now, "updated_at" := now]
    {
      InsertRow(keys, args, values, now);
    }
  }

  lemma ExprTextsAre(n: nat)
    ensures ExprText(Param(n)) == "$" + NatText(n) && ExprText(Now) == "now()"
  {
    hide NatText;
  }

  lemma NumbersSnoc(n: nat)
    ensures ExprTexts(Numbers(n + 1)) == ExprTexts(Numbers(n)) + ["$" + NatText(n + 1)]
    ensures ExprTexts(Numbers(0)) == []
  {
    hide NatText, ExprTexts, ExprText;
    ExprTextsAre(n + 1);
    var a, b := ExprTexts(Numbers(n + 1)), ExprTexts(Numbers(n)) + [ExprText(Param(n + 1))];
    assert forall i :: 0 <= i <= n ==> a[i] == b[i];
  }

  lemma NowTwice(n: nat)
    ensures ExprTexts(InsertValues(n)) == ExprTexts(Numbers(n)) + ["now()", "now()"]
  {
    hide NatText, ExprTexts, ExprText;
    ExprTextsAre(0);
    var a, b := ExprTexts(InsertValues(n)), ExprTexts(Numbers(n)) + [ExprText(Now), ExprText(Now)];
    assert forall i :: 0 <= i < n + 2 ==> a[i] == b[i];
  }

  lemma InsertTextIs(table: string, cols: string, vals: string, keys: seq<string>)
    requires cols == Join(InsertColumns(keys), ", ") && vals == Join(ExprTexts(InsertValues(|keys|)), ", ")
    ensures "INSERT INTO public." + table + " (" + cols + ") VALUES (" + vals + ") RETURNING id" ==
            InsertText(table, InsertColumns(keys), InsertValues(|keys|))
  {
    hide Join, InsertColumns, InsertValues, ExprTexts;
  }

  method BuildInsertQuery(table: string, values: Record, allowed: seq<string>) returns (query: string, args: seq<Json>)
    requires Identifier(table) && Identifiers(allowed)
    ensures var inserted := Requested(values, allowed);
            if "created_at" in inserted || "updated_at" in inserted then AlwaysRefused(query, args)
            else InsertsExactly(query, args, table, inserted)
  {
    hide Identifier, Identifiers, Seen, Listing, InsertColumns, InsertValues, ExprTexts, InsertText, Parse, Join,
      NatText,
      InsertsExactly, AlwaysRefused, Requested;
    var colParts, valParts, todo, pos := [], [], values.Keys, 1;
    args := [];
    ghost var keys := [];
    SeenNone(values, allowed);
    NumbersSnoc(0);
    while todo != {}
      invariant Seen(keys, args, values, allowed, todo)
      invariant colParts == keys && valParts == ExprTexts(Numbers(|keys|)) && pos == |keys| + 1
      invariant todo <= values.Keys
      decreases |todo|
    {
      var key :| key in todo;
      SeenOne(keys, args, values, allowed, todo, key);
      todo := todo - {key};
      if key !in allowed {
        continue;
      }
      NumbersSnoc(|keys|);
      colParts := colParts + [key];
      valParts := valParts + ["$" + NatText(pos)];
      args := args + [values[key]];
      keys := keys + [key];
      pos := pos + 1;
    }
    NowTwice(|keys|);
    JoinTwo(colParts, "created_at", "updated_at", ", ");
    JoinTwo(valParts, "now()", "now()", ", ");
    colParts := colParts + ["created_at" + ", " + "updated_at"];
    valParts := valParts + ["now()" + ", " + "now()"];
    AllSeen(keys, args, values, allowed, todo);
    var cols, vals := Join(colParts, ", "), Join(valParts, ", ");
    InsertColumnsAre(keys);
    query := "INSERT INTO public." + table + " (" + cols + ") VALUES (" + vals + ") RETURNING id";
    InsertTextIs(table, cols, vals, keys);
    InsertWrites(table, keys, args, Requested(values, allowed));
  }

  lemma InsertColumnsAre(keys: seq<string>)
    ensures InsertColumns(keys) == keys + ["created_at", "updated_at"]
  {
  }
}
