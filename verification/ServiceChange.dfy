/**
  The transaction of a service change request: UpdateServiceChangeRequest of
  internal/db/service_change_requests.go. Every statement may fail, and then nothing is kept.
 */
module ServiceChange {
  import opened FieldOrder
  import opened Fields
  import opened IndexRecords
  import opened QueryBuilders
  import opened ServicePayload
  import opened SqlStatements
  import opened SqlTexts
  import opened Wrappers

  const PENDING := 0
  const EDIT := 1

  datatype RequestRow = RequestRow(id: int, kind: string, objectId: int, status: int, action: int, resourceId: Json)

  datatype StoredChange = StoredChange(requestId: int, field: Field)

  datatype ChangeTables = ChangeTables(
    services: Table,
    categories: seq<(int, Item)>,
    eligibilities: seq<(int, int)>,
    requests: seq<RequestRow>,
    changes: seq<StoredChange>,
    nextRequestId: int)

  datatype Result = Committed(requestId: int) | InvalidService | Aborted

  // ----- Association rows -----

  /** The rows of one service, in order. */
  function RowsOf<T>(rows: seq<(int, T)>, id: int): seq<T>
  {
    if rows == [] then [] else (if rows[0].0 == id then [rows[0].1] else []) + RowsOf(rows[1..], id)
  }

  function WithoutRows<T>(rows: seq<(int, T)>, id: int): seq<(int, T)>
  {
    if rows == [] then [] else (if rows[0].0 == id then [] else [rows[0]]) + WithoutRows(rows[1..], id)
  }

  function Tagged<T>(id: int, items: seq<T>): (r: seq<(int, T)>)
    ensures |r| == |items| && forall i :: 0 <= i < |r| ==> r[i] == (id, items[i])
  {
    seq(|items|, i requires 0 <= i < |items| => (id, items[i]))
  }

  function Replaced<T>(rows: seq<(int, T)>, id: int, items: Option<seq<T>>): seq<(int, T)>
  {
    if items.None? then rows else WithoutRows(rows, id) + Tagged(id, items.value)
  }

  lemma {:induction false} RowsAppend<T>(a: seq<(int, T)>, b: seq<(int, T)>, id: int)
    ensures RowsOf(a + b, id) == RowsOf(a, id) + RowsOf(b, id)
    decreases |a|
  {
    if a == [] {
      assert a + b == b;
    } else {
      var head := if a[0].0 == id then [a[0].1] else [];
      assert (a + b)[1..] == a[1..] + b && (a + b)[0] == a[0];
      RowsAppend(a[1..], b, id);
      RowsUnfold(a + b, id);
      assert head + (RowsOf(a[1..], id) + RowsOf(b, id)) == (head + RowsOf(a[1..], id)) + RowsOf(b, id);
    }
  }

  lemma RowsUnfold<T>(rows: seq<(int, T)>, id: int)
    requires rows != []
    ensures RowsOf(rows, id) == (if rows[0].0 == id then [rows[0].1] else []) + RowsOf(rows[1..], id)
  {
  }

  lemma {:induction false} RowsWithout<T>(rows: seq<(int, T)>, id: int, other: int)
    ensures RowsOf(WithoutRows(rows, id), other) == if other == id then [] else RowsOf(rows, other)
    decreases |rows|
  {
    if rows != [] {
      RowsWithout(rows[1..], id, other);
      var head := if rows[0].0 == id then [] else [rows[0]];
      RowsAppend(head, WithoutRows(rows[1..], id), other);
    }
  }

  lemma {:induction false} RowsTagged<T>(id: int, items: seq<T>, other: int)
    ensures RowsOf(Tagged(id, items), other) == if other == id then items else []
    decreases |items|
  {
    if items != [] {
      assert Tagged(id, items)[1..] == Tagged(id, items[1..]);
      RowsTagged(id, items[1..], other);
      assert [items[0]] + items[1..] == items;
    }
  }

  /** A supplied list replaces the rows of that service; every other service keeps its own. */
  lemma AssociationsReplaced<T>(rows: seq<(int, T)>, id: int, items: Option<seq<T>>, other: int)
    ensures RowsOf(Replaced(rows, id, items), other) ==
            if other == id && items.Some? then items.value else RowsOf(rows, other)
  {
    if items.Some? {
      RowsAppend(WithoutRows(rows, id), Tagged(id, items.value), other);
      RowsWithout(rows, id, other);
      RowsTagged(id, items.value, other);
    }
  }

  // ----- What the transaction commits -----

  function Stored(id: int, fields: seq<Field>): (r: seq<StoredChange>)
    ensures |r| == |fields| && forall i :: 0 <= i < |r| ==> r[i] == StoredChange(id, fields[i])
  {
    seq(|fields|, i requires 0 <= i < |fields| => StoredChange(id, fields[i]))
  }

  function ResourceOf(row: Record): Json
  {
    if "resource_id" in row && row["resource_id"].JInt? then row["resource_id"] else JNull
  }

  function Changed(t: ChangeTables, id: int, fields: seq<Field>, categories: Option<seq<Item>>,
                   eligibilities: Option<seq<int>>, audit: seq<Field>, now: Json): ChangeTables
    requires id in t.services
  {
    ChangeTables(
      if fields == [] then t.services else Written(t.services, id, FieldMap(fields), now),
      Replaced(t.categories, id, categories),
      Replaced(t.eligibilities, id, eligibilities),
      t.requests + [RequestRow(t.nextRequestId, "ServiceChangeRequest", id, PENDING, EDIT, ResourceOf(t.services[id]))],
      t.changes + Stored(t.nextRequestId, audit),
      t.nextRequestId + 1)
  }

  /** The columns that the server accepts in one update. */
  predicate Acceptable(fields: seq<Field>)
  {
    Distinct(FieldNames(fields)) && "updated_at" !in FieldNames(fields)
  }

  class ChangeStore {
    var tables: ChangeTables

    constructor (tables: ChangeTables)
      ensures this.tables == tables
    {
      this.tables := tables;
    }

    /** fails(k) says whether the k-th statement of the transaction fails, from its begin to its commit. */
    method UpdateServiceChangeRequest(id: int, fields: seq<Field>, categories: Option<seq<Item>>,
                                      eligibilities: Option<seq<int>>, audit: seq<Field>, now: Json, fails: nat -> bool)
      returns (result: Result)
      requires Identifiers(FieldNames(fields))
      modifies this
      ensures !result.Committed? ==> tables == old(tables)
      ensures result.Committed? ==>
                && id in old(tables).services
                && tables == Changed(old(tables), id, fields, categories, eligibilities, audit, now)
                && result.requestId == old(tables).nextRequestId
      ensures result.InvalidService? <==> !fails(0) && !fails(1) && id !in old(tables).services
      ensures id in old(tables).services && (forall k :: !fails(k)) && (fields == [] || Acceptable(fields)) ==>
                result.Committed?
    {
      hide Written, FieldMap, Replaced, Acceptable, Identifiers, Stored, ResourceOf;
      var tx := tables;
      if fails(0) || fails(1) {
        return Aborted;
      }
      if id !in tx.services {
        return InvalidService;
      }
      var resourceId := ResourceOf(tx.services[id]);
      var step := 2;
      if |fields| != 0 {
        var services := RunUpdate(tx.services, id, fields, now);
        if services.None? || fails(step) {
          return Aborted;
        }
        tx := tx.(services := services.value);
        step := step + 1;
      }
      var replaced;
      replaced, step := ReplaceRows(tx.categories, id, categories, step, fails);
      if replaced.None? {
        return Aborted;
      }
      tx := tx.(categories := replaced.value);
      var replacedIds;
      replacedIds, step := ReplaceRows(tx.eligibilities, id, eligibilities, step, fails);
      if replacedIds.None? {
        return Aborted;
      }
      tx := tx.(eligibilities := replacedIds.value);
      if fails(step) {
        return Aborted;
      }
      var requestId := tx.nextRequestId;
      tx := tx.(requests := tx.requests + [RequestRow(requestId, "ServiceChangeRequest", id, PENDING, EDIT, resourceId)],
                nextRequestId := requestId + 1);
      var changes := InsertAudit(tx.changes, requestId, audit, step + 1, fails);
      if changes.None? || fails(step + 1 + |audit|) {
        return Aborted;
      }
      tables := tx.(changes := changes.value);
      return Committed(requestId);
    }
  }

  /** Runs the update statement that the builder writes; None when the server refuses it. */
  method RunUpdate(services: Table, id: int, fields: seq<Field>, now: Json) returns (r: Option<Table>)
    requires Identifiers(FieldNames(fields))
    ensures r == if Acceptable(fields) then Some(Written(services, id, FieldMap(fields), now)) else None
  {
    hide Written, FieldMap, Identifiers, Execute, Distinct, UsesEachOnce;
    var query, args := BuildServiceUpdate(id, fields);
    var db := map["public.services" := services];
    assert "public." + "services" == "public.services";
    var after := Execute(query, args, db, now, 0);
    if after.None? {
      return None;
    }
    return Some(after.value["public.services"]);
  }

  /** One audit row for each field change, one statement each. */
  method InsertAudit(rows: seq<StoredChange>, requestId: int, audit: seq<Field>, first: nat, fails: nat -> bool)
    returns (r: Option<seq<StoredChange>>)
    ensures r.Some? ==> r.value == rows + Stored(requestId, audit)
    ensures (forall k :: !fails(k)) ==> r.Some?
  {
    var changes := rows;
    for i := 0 to |audit|
      invariant changes == rows + Stored(requestId, audit[..i])
    {
      if fails(first + i) {
        return None;
      }
      changes := changes + [StoredChange(requestId, audit[i])];
      assert Stored(requestId, audit[..i + 1]) == Stored(requestId, audit[..i]) + [StoredChange(requestId, audit[i])];
    }
    assert audit[..|audit|] == audit;
    return Some(changes);
  }

  /** Deletes the rows of the service and inserts the given ones, one statement each. */
  method ReplaceRows<T>(rows: seq<(int, T)>, id: int, items: Option<seq<T>>, first: nat, fails: nat -> bool)
    returns (r: Option<seq<(int, T)>>, step: nat)
    ensures r.Some? ==> r.value == Replaced(rows, id, items)
    ensures (forall k :: !fails(k)) ==> r.Some?
  {
    step := first;
    if items.None? {
      return Some(rows), step;
    }
    if fails(step) {
      return None, step;
    }
    step := step + 1;
    var kept := WithoutRows(rows, id);
    for i := 0 to |items.value|
      invariant kept == WithoutRows(rows, id) + Tagged(id, items.value[..i])
    {
      if fails(step) {
        return None, step;
      }
      kept := kept + [(id, items.value[i])];
      step := step + 1;
    }
    assert items.value[..|items.value|] == items.value;
    return Some(kept), step;
  }

  // ----- The audit replays -----

  /** The fields stored for one request, in order. */
  function ChangesOf(changes: seq<StoredChange>, requestId: int): seq<Field>
  {
    if changes == [] then [] else
      (if changes[0].requestId == requestId then [changes[0].field] else []) + ChangesOf(changes[1..], requestId)
  }

  /** Writing the stored scalar fields, one after another, on a row. */
  function Replay(row: Record, stored: seq<Field>): Record
  {
    if stored == [] then row else
      var last := stored[|stored| - 1];
      var before := Replay(row, stored[..|stored| - 1]);
      if last.name in SCALARS then before[last.name := last.value] else before
  }

  function ScalarPart(stored: seq<Field>): (r: seq<Field>)
    ensures forall f :: f in r <==> f in stored && f.name in SCALARS
  {
    if stored == [] then [] else
      var last := stored[|stored| - 1];
      assert forall f :: f in stored <==> f in stored[..|stored| - 1] || f == last;
      ScalarPart(stored[..|stored| - 1]) + (if last.name in SCALARS then [last] else [])
  }

  lemma {:induction false} ReplayWrites(row: Record, stored: seq<Field>)
    ensures Replay(row, stored) == row + FieldMap(ScalarPart(stored))
    decreases |stored|
  {
    hide FieldMap;
    if stored == [] {
      NothingWritten();
      assert row + map[] == row;
    } else {
      var front, last := stored[..|stored| - 1], stored[|stored| - 1];
      ReplayWrites(row, front);
      if last.name in SCALARS {
        FieldMapSnoc(ScalarPart(front), last);
        OneMore(row, FieldMap(ScalarPart(front)), last);
      } else {
        assert ScalarPart(stored) == ScalarPart(front);
      }
    }
  }

  lemma OneMore(row: Record, values: Record, last: Field)
    ensures row + values[last.name := last.value] == (row + values)[last.name := last.value]
  {
  }

  lemma FieldMapSnoc(front: seq<Field>, last: Field)
    ensures FieldMap(front + [last]) == FieldMap(front)[last.name := last.value]
  {
    assert (front + [last])[..|front|] == front;
  }

  lemma {:induction false} NoneStored(changes: seq<StoredChange>, requestId: int)
    requires forall c :: c in changes ==> c.requestId != requestId
    ensures ChangesOf(changes, requestId) == []
    decreases |changes|
  {
    if changes != [] {
      assert changes[0] in changes && forall c :: c in changes[1..] ==> c in changes;
      NoneStored(changes[1..], requestId);
    }
  }

  lemma {:induction false} StoredAfter(changes: seq<StoredChange>, requestId: int, audit: seq<Field>)
    requires forall c :: c in changes ==> c.requestId != requestId
    ensures ChangesOf(changes + Stored(requestId, audit), requestId) == audit
    decreases |changes| + |audit|
  {
    hide Stored;
    var all := changes + Stored(requestId, audit);
    if changes != [] {
      assert changes[0] in changes && forall c :: c in changes[1..] ==> c in changes;
      assert all[1..] == changes[1..] + Stored(requestId, audit);
      StoredAfter(changes[1..], requestId, audit);
    } else if audit != [] {
      assert all[1..] == [] + Stored(requestId, audit[1..]);
      StoredAfter([], requestId, audit[1..]);
      assert [audit[0]] + audit[1..] == audit;
    }
  }

  /** Requests are numbered upward, so a new number has no rows yet. */
  ghost predicate NumbersFresh(t: ChangeTables)
  {
    forall c :: c in t.changes ==> c.requestId < t.nextRequestId
  }

  function Ids(items: Option<seq<Item>>): Option<seq<int>>
  {
    if items.None? then None
    else Some(seq(|items.value|, i requires 0 <= i < |items.value| => items.value[i].id))
  }

  function Applied(t: ChangeTables, id: int, p: Parsed, now: Json): ChangeTables
    requires id in t.services
  {
    Changed(t, id, p.serviceFields, p.categories, Ids(p.eligibilities), p.fieldChanges, now)
  }

  /**
    Replaying the scalar fields stored for the request on the old row gives the committed row,
    but for its new updated_at; every other row is as before.
   */
  lemma AuditReplays(t: ChangeTables, id: int, raw: Raw, codec: Codec, now: Json)
    requires id in t.services && NumbersFresh(t) && Meaning(raw, codec).Some?
    ensures var p := Meaning(raw, codec).value;
            var b := Applied(t, id, p, now);
            var replayed := Replay(t.services[id], ChangesOf(b.changes, t.nextRequestId));
            && NumbersFresh(b)
            && b.services == (if p.serviceFields == [] then t.services
                              else t.services[id := replayed + map["updated_at" := now]])
            && (p.serviceFields == [] ==> replayed == t.services[id])
  {
    hide Meaning, FieldMap, Replay, ChangesOf, ScalarPart, Replaced, Stored;
    var p := Meaning(raw, codec).value;
    AuditCovers(raw, codec);
    StoredAfter(t.changes, t.nextRequestId, p.fieldChanges);
    ReplayWrites(t.services[id], p.fieldChanges);
    DistinctValues(p.serviceFields);
    SameFieldMap(p.serviceFields, ScalarPart(p.fieldChanges));
    StoredNumbers(t.nextRequestId, p.fieldChanges);
    if p.serviceFields == [] {
      NothingWritten();
      assert t.services[id] + map[] == t.services[id];
    }
  }

  lemma StoredNumbers(id: int, fields: seq<Field>)
    ensures forall c :: c in Stored(id, fields) ==> c.requestId == id
  {
  }

  lemma NothingWritten()
    ensures FieldMap([]) == map[]
  {
  }

  lemma ScalarsAcceptable(raw: Raw, codec: Codec)
    requires Meaning(raw, codec).Some?
    ensures var fields := Meaning(raw, codec).value.serviceFields;
            Identifiers(FieldNames(fields)) && Acceptable(fields)
  {
    hide Meaning, Identifier;
    AuditCovers(raw, codec);
    ScalarIdentifiers();
    var fields := Meaning(raw, codec).value.serviceFields;
    forall n | n in FieldNames(fields) ensures n in SCALARS {
      var i :| 0 <= i < |fields| && FieldNames(fields)[i] == n;
      assert fields[i] in fields;
    }
  }

  lemma ScalarIdentifiers()
    ensures Identifiers(SCALARS) && "updated_at" !in SCALARS
  {
    hide Identifier;
    NameIdentifiers();
    DescriptionIdentifiers();
    ContactIdentifiers();
  }

  lemma NameIdentifiers()
    ensures Identifier("name") && Identifier("alternate_name") && Identifier("eligibility") && Identifier("fee")
  {
  }

  lemma DescriptionIdentifiers()
    ensures Identifier("short_description") && Identifier("long_description") && Identifier("required_documents")
    ensures Identifier("application_process")
  {
  }

  lemma ContactIdentifiers()
    ensures Identifier("email") && Identifier("interpretation_services") && Identifier("url") && Identifier("wait_time")
    ensures Identifier("internal_note")
  {
  }

  /** The whole request: refused before anything is written, or committed as it reads, or not at all. */
  method UpdateService(store: ChangeStore, id: int, request: Option<Raw>, codec: Codec, now: Json, fails: nat -> bool)
    returns (result: Option<Result>, answer: seq<Field>)
    requires request.Some? ==> Distinct(NamesOf(Ordering(request.value)))
    modifies store
    ensures result.None? <==> request.None? || Meaning(request.value, codec).None?
    ensures (result.None? || !result.value.Committed?) ==> store.tables == old(store.tables)
    ensures result.Some? && result.value.Committed? ==>
              var p := Meaning(request.value, codec).value;
              && id in old(store.tables).services
              && store.tables == Applied(old(store.tables), id, p, now)
              && answer == p.response
    ensures result.Some? && id in old(store.tables).services && (forall k :: !fails(k)) ==> result.value.Committed?
  {
    hide Meaning, Changed, Acceptable, Identifiers;
    var parsed := ParsePayload(request, codec);
    if parsed.None? {
      return None, [];
    }
    ScalarsAcceptable(request.value, codec);
    var p := parsed.value;
    var outcome := store.UpdateServiceChangeRequest(id, p.serviceFields, p.categories, Ids(p.eligibilities),
                                                    p.fieldChanges, now, fails);
    return Some(outcome), p.response;
  }
}
