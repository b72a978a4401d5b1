/**
  Change requests of resources and schedule days: the status names, UpdateResource of
  internal/db/resources.go, and the two transactions for schedule days of internal/db/schedules.go.
 */
module ChangeRequests {
  import opened DayChanges
  import opened FieldOrder
  import opened Fields
  import opened IndexRecords
  import opened OpenTimes
  import opened QueryBuilders
  import opened ServiceChange
  import opened ServicePayload
  import opened SqlStatements
  import opened SqlTexts
  import opened Wrappers

  // ----- Status names -----

  /** The code of a status that a request names; None when there is no such status. */
  function StatusCode(status: string): Option<int>
  {
    match status
    case "pending" => Some(0)
    case "approved" => Some(1)
    case "rejected" => Some(2)
    case "inactive" => Some(3)
    case _ => None
  }

  /** What the audit keeps of a status value. */
  function StatusText(value: Json): Json
  {
    match value
    case JInt(n) =>
      if n == 0 then JText("pending")
      else if n == 1 then JText("approved")
      else if n == 2 then JText("rejected")
      else if n == 3 then JText("inactive")
      else value
    case _ => value
  }

  /** The audit keeps the name that the request used, and only the four codes are turned into names. */
  lemma StatusNames(status: string, n: int)
    ensures StatusCode(status) == Some(n) <==> StatusText(JInt(n)) == JText(status)
  {
  }

  // ----- A resource -----

  const ALLOWED: seq<string> := ["name", "alternate_name", "short_description", "long_description", "website", "email",
                                 "legal_status", "internal_note", "status"]

  lemma AllowedColumns()
    ensures Identifiers(ALLOWED) && "updated_at" !in ALLOWED
  {
    hide Identifier;
    NameIdentifiers();
    DescriptionIdentifiers();
    ContactIdentifiers();
    MoreIdentifiers();
  }

  lemma MoreIdentifiers()
    ensures Identifier("website") && Identifier("legal_status") && Identifier("status") && Identifier("resources")
  {
  }

  datatype ResourceTables = ResourceTables(
    resources: Table, requests: seq<RequestRow>, changes: seq<StoredChange>, nextRequestId: int)

  function Audited(name: string, value: Json): Json { if name == "status" then StatusText(value) else value }

  /** One audit field for each change, in any order. */
  ghost predicate Audits(fields: seq<Field>, changes: Record, todo: set<string>)
  {
    && Distinct(FieldNames(fields))
    && (forall f :: f in fields ==> f.name in changes && f.name !in todo && f.value == Audited(f.name, changes[f.name]))
    && (forall k :: k in changes && k !in todo ==> Field(k, Audited(k, changes[k])) in fields)
  }

  lemma AuditsOne(fields: seq<Field>, changes: Record, todo: set<string>, key: string)
    requires Audits(fields, changes, todo) && key in todo && todo <= changes.Keys
    ensures Audits(fields + [Field(key, Audited(key, changes[key]))], changes, todo - {key})
  {
    hide Audited;
    var fields' := fields + [Field(key, Audited(key, changes[key]))];
    var names := FieldNames(fields');
    forall i, j | 0 <= i < j < |names| ensures names[i] != names[j] {
      assert FieldNames(fields)[i] == names[i] && fields[i] in fields;
      if j < |fields| {
        assert FieldNames(fields)[j] == names[j];
      }
    }
    assert fields'[|fields|] in fields';
    forall k | k in changes && k !in todo - {key} ensures Field(k, Audited(k, changes[k])) in fields' {
      if k != key {
        assert Field(k, Audited(k, changes[k])) in fields;
      }
    }
  }

  /** The audit has each change once: a known status code under its name, and every other value as it is. */
  lemma AuditSays(fields: seq<Field>, changes: Record, name: string)
    requires Audits(fields, changes, {}) && name in changes
    ensures exists f :: f in fields && f.name == name
    ensures forall f :: f in fields && f.name == name && name != "status" ==> f.value == changes[name]
    ensures forall f, code, status ::
              (f in fields && f.name == name && name == "status" && changes[name] == JInt(code) &&
               StatusCode(status) == Some(code)) ==> f.value == JText(status)
  {
    hide StatusCode, StatusText;
    assert Field(name, Audited(name, changes[name])) in fields;
    forall f, code, status | f in fields && f.name == name && name == "status" && changes[name] == JInt(code) &&
                             StatusCode(status) == Some(code)
      ensures f.value == JText(status)
    {
      StatusNames(status, code);
    }
  }

  class ResourceStore {
    var tables: ResourceTables

    constructor (tables: ResourceTables)
      ensures this.tables == tables
    {
      this.tables := tables;
    }

    /**
      The source walks the map of changes twice, each time in an order of its own. The request
      row refers to the resource, so a missing one stops the transaction.
     */
    method UpdateResource(id: int, changes: Record, now: Json, fails: nat -> bool)
      returns (result: Result, ghost audit: seq<Field>)
      modifies this
      ensures !result.Committed? ==> tables == old(tables)
      ensures result.Committed? ==>
                && Audits(audit, changes, {})
                && tables == ResourceTables(
                     if changes == map[] then old(tables).resources
                     else Written(old(tables).resources, id, Requested(changes, ALLOWED), now),
                     old(tables).requests +
                       [RequestRow(result.requestId, "ResourceChangeRequest", id, PENDING, EDIT, JInt(id))],
                     old(tables).changes + Stored(result.requestId, audit),
                     result.requestId + 1)
      ensures result.Committed? ==> id in old(tables).resources
      ensures (forall k :: !fails(k)) && id in old(tables).resources ==> result.Committed?
    {
      hide Requested, Audits, Stored, Audited;
      audit := [];
      var tx := tables;
      if fails(0) {
        return Aborted, [];
      }
      if changes != map[] {
        var resources := RunResourceUpdate(tx.resources, id, changes, now);
        if fails(1) {
          return Aborted, [];
        }
        tx := tx.(resources := resources);
      }
      if fails(2) || id !in tx.resources {
        return Aborted, [];
      }
      var requestId := tx.nextRequestId;
      var stored;
      stored, audit := AuditChanges(tx.changes, requestId, changes, fails);
      if stored.None? {
        return Aborted, [];
      }
      if fails(3 + |changes|) {
        return Aborted, [];
      }
      tables := ResourceTables(
        tx.resources,
        tx.requests + [RequestRow(requestId, "ResourceChangeRequest", id, PENDING, EDIT, JInt(id))],
        stored.value, requestId + 1);
      return Committed(requestId), audit;
    }
  }

  method RunResourceUpdate(resources: Table, id: int, changes: Record, now: Json) returns (r: Table)
    ensures r == Written(resources, id, Requested(changes, ALLOWED), now)
  {
    hide Written, Execute, Identifiers, UsesEachOnce, AlwaysRefused;
    AllowedColumns();
    MoreIdentifiers();
    UpdatedAtIdentifier();
    RequestedOnly(changes, ALLOWED);
    var query, args := BuildUpdateQuery("resources", "id", id, changes, ALLOWED);
    var db := map["public.resources" := resources];
    assert "public." + "resources" == "public.resources";
    return Execute(query, args, db, now, 0).value["public.resources"];
  }

  method AuditChanges(rows: seq<StoredChange>, requestId: int, changes: Record, fails: nat -> bool)
    returns (r: Option<seq<StoredChange>>, ghost audit: seq<Field>)
    ensures r.Some? ==> Audits(audit, changes, {}) && r.value == rows + Stored(requestId, audit)
    ensures (forall k :: !fails(k)) ==> r.Some?
  {
    hide Audits, Audited;
    audit := [];
    NothingAudited(changes);
    var stored, todo, step := rows, changes.Keys, 3;
    while todo != {}
      invariant Audits(audit, changes, todo) && todo <= changes.Keys
      invariant stored == rows + Stored(requestId, audit)
      decreases |todo|
    {
      var key :| key in todo;
      AuditsOne(audit, changes, todo, key);
      todo := todo - {key};
      if fails(step) {
        return None, [];
      }
      step := step + 1;
      var field := Field(key, Audited(key, changes[key]));
      assert Stored(requestId, audit + [field]) == Stored(requestId, audit) + [StoredChange(requestId, field)];
      stored := stored + [StoredChange(requestId, field)];
      audit := audit + [field];
    }
    return Some(stored), audit;
  }

  lemma NothingAudited(changes: Record)
    ensures Audits([], changes, changes.Keys)
  {
  }

  // ----- A schedule day -----

  /** The row of a schedule day after a change. */
  function DayChanged(days: Table, id: int, c: ScheduleChanges, now: Json): Table
  {
    if DeletesDay(c) then days - {id}
    else if ScheduleColumns(c) == map[] then days
    else Written(days, id, ScheduleColumns(c), now)
  }

  method ChangeScheduleDay(days: Table, id: int, c: ScheduleChanges, now: Json) returns (r: Table)
    ensures r == DayChanged(days, id, c, now)
  {
    hide Written, Execute, UsesEachOnce, ScheduleColumns;
    if c.opensAt == Some(None) && c.closesAt == Some(None) {
      return days - {id};
    }
    var query, args := BuildScheduleDayUpdate(id, c);
    if query == "" {
      EmptyRefused(args);
      return days;
    }
    var db := map["public.schedule_days" := days];
    assert "public." + "schedule_days" == "public.schedule_days";
    return Execute(query, args, db, now, 0).value["public.schedule_days"];
  }

  /** The empty text is no statement, so a builder that writes it wrote nothing to run. */
  lemma EmptyRefused(args: seq<Json>)
    ensures !UsesEachOnce("", args)
  {
    NoTokens();
  }

  /** After a change the row is gone exactly when both times were given as null; otherwise unnamed columns stay. */
  lemma DayKept(days: Table, id: int, c: ScheduleChanges, now: Json)
    requires id in days
    ensures id !in DayChanged(days, id, c, now) <==> DeletesDay(c)
    ensures forall other :: other != id ==>
              (other in DayChanged(days, id, c, now) <==> other in days) &&
              (other in days ==> DayChanged(days, id, c, now)[other] == days[other])
    ensures !DeletesDay(c) ==>
              forall k :: k !in ScheduleColumns(c) && k != "updated_at" && k in days[id] ==>
                k in DayChanged(days, id, c, now)[id] && DayChanged(days, id, c, now)[id][k] == days[id][k]
  {
    hide ScheduleColumns;
  }

  /** The columns of a row that hold a day. */
  function DayColumns(d: ScheduleDay): Record
  {
    map["day" := JText(d.day), "opens_at" := Nilable(d.opensAt), "closes_at" := Nilable(d.closesAt)]
  }

  /** The columns of a row hold this day. */
  predicate HoldsDay(row: Record, d: ScheduleDay)
  {
    && "day" in row && row["day"] == JText(d.day)
    && "opens_at" in row && row["opens_at"] == Nilable(d.opensAt)
    && "closes_at" in row && row["closes_at"] == Nilable(d.closesAt)
  }

  /** A row that is kept holds the changed day: the statement and the change of the day agree. */
  lemma DayWritten(days: Table, id: int, d: ScheduleDay, c: ScheduleChanges, now: Json)
    requires id in days && !DeletesDay(c) && HoldsDay(days[id], d)
    ensures id in DayChanged(days, id, c, now) && HoldsDay(DayChanged(days, id, c, now)[id], ChangedDay(d, c))
  {
    hide ScheduleColumns;
    ProvidedDay(c);
    ProvidedTimes(c);
    assert "day"[0] != "updated_at"[0] && "opens_at"[0] != "updated_at"[0] && "closes_at"[0] != "updated_at"[0];
  }

  lemma ProvidedDay(c: ScheduleChanges)
    ensures var columns := ScheduleColumns(c);
            ("day" in columns <==> c.day.Some?) && (c.day.Some? ==> columns["day"] == JText(c.day.value))
  {
    assert "day"[0] != "opens_at"[0] && "day"[0] != "closes_at"[0];
  }

  lemma ProvidedTimes(c: ScheduleChanges)
    ensures var columns := ScheduleColumns(c);
            && ("opens_at" in columns <==> c.opensAt.Some?)
            && (c.opensAt.Some? ==> columns["opens_at"] == Nilable(c.opensAt.value))
            && ("closes_at" in columns <==> c.closesAt.Some?)
            && (c.closesAt.Some? ==> columns["closes_at"] == Nilable(c.closesAt.value))
  {
    assert "day"[0] != "opens_at"[0] && "day"[0] != "closes_at"[0] && "opens_at"[0] != "closes_at"[0];
  }

  // ----- The transactions of a schedule day -----

  datatype DayTables = DayTables(
    days: Table, nextDayId: int, schedules: Table, services: Table, resources: Table,
    requests: seq<RequestRow>, changes: seq<StoredChange>, nextRequestId: int)

  function Reference(row: Record, column: string): Option<int>
  {
    if column in row && row[column].JInt? then Some(row[column].n) else None
  }

  /** The resource of a schedule: its own, or else that of its service; None when neither is known. */
  function ScheduleResource(t: DayTables, scheduleId: int): Option<int>
  {
    if scheduleId !in t.schedules then None else
      var row := t.schedules[scheduleId];
      match Reference(row, "resource_id")
      case Some(r) => Some(r)
      case None =>
        match Reference(row, "service_id")
        case None => None
        case Some(s) => if s in t.services then Reference(t.services[s], "resource_id") else None
  }

  function DayResource(t: DayTables, dayId: int): Option<int>
  {
    if dayId !in t.days then None else
      match Reference(t.days[dayId], "schedule_id")
      case None => None
      case Some(s) => ScheduleResource(t, s)
  }

  /** The column names a row. */
  ghost predicate Names(row: Record, column: string, id: int) { column in row && row[column] == JInt(id) }

  /** The schedule belongs to the resource itself, or to a service of it and to no resource. */
  ghost predicate ScheduleBelongs(t: DayTables, scheduleId: int, r: int)
  {
    && scheduleId in t.schedules
    && var row := t.schedules[scheduleId];
       || Names(row, "resource_id", r)
       || ((forall other :: !Names(row, "resource_id", other)) &&
           exists s :: Names(row, "service_id", s) && s in t.services && Names(t.services[s], "resource_id", r))
  }

  lemma ReferenceNames(row: Record, column: string, id: int)
    ensures Reference(row, column) == Some(id) <==> Names(row, column, id)
  {
  }

  lemma ScheduleResourceBelongs(t: DayTables, scheduleId: int, r: int)
    ensures ScheduleResource(t, scheduleId) == Some(r) <==> ScheduleBelongs(t, scheduleId, r)
  {
    hide Reference, Names;
    forall row, column, id ensures Reference(row, column) == Some(id) <==> Names(row, column, id) {
      ReferenceNames(row, column, id);
    }
  }

  /** The resource of a change request about a day is the one that the schedule of the day belongs to. */
  lemma DayBelongs(t: DayTables, dayId: int, r: int)
    ensures DayResource(t, dayId) == Some(r) <==>
            dayId in t.days && exists s :: Names(t.days[dayId], "schedule_id", s) && ScheduleBelongs(t, s, r)
  {
    hide Reference, Names, ScheduleResource, ScheduleBelongs;
    forall row, column, id ensures Reference(row, column) == Some(id) <==> Names(row, column, id) {
      ReferenceNames(row, column, id);
    }
    forall s ensures ScheduleResource(t, s) == Some(r) <==> ScheduleBelongs(t, s, r) {
      ScheduleResourceBelongs(t, s, r);
    }
  }

  /** The resource is known and exists, as the change request refers to it. */
  predicate Known(t: DayTables, r: Option<int>) { r.Some? && r.value in t.resources }

  function NewDay(scheduleId: int, c: ScheduleChanges, now: Json): Record
    requires c.day.Some?
  {
    DayColumns(ScheduleDay(c.day.value, c.opensAt.GetOr(None), c.closesAt.GetOr(None))) +
    map["schedule_id" := JInt(scheduleId), "created_at" := now, "updated_at" := now]
  }

  /** A new day has its name, the times that are given, its schedule and both timestamps, and nothing else. */
  lemma NewDaySays(scheduleId: int, c: ScheduleChanges, now: Json)
    requires c.day.Some?
    ensures var row := NewDay(scheduleId, c, now);
            && row.Keys == {"day", "opens_at", "closes_at", "schedule_id", "created_at", "updated_at"}
            && row["day"] == JText(c.day.value)
            && row["opens_at"] == (if c.opensAt.Some? && c.opensAt.value.Some? then JInt(c.opensAt.value.value) else JNull)
            && row["closes_at"] == (if c.closesAt.Some? && c.closesAt.value.Some? then JInt(c.closesAt.value.value) else JNull)
            && row["schedule_id"] == JInt(scheduleId) && row["created_at"] == now && row["updated_at"] == now
  {
    assert "day"[0] == 'd' && "opens_at"[0] == 'o' && "closes_at"[0] == 'c' && "closes_at"[1] == 'l' &&
           "schedule_id"[0] == 's' && "created_at"[0] == 'c' && "created_at"[1] == 'r' && "updated_at"[0] == 'u';
  }

  /** The rows with one more change request about a day, and its audit. */
  function DayRequested(t: DayTables, dayId: int, resourceId: int, audit: seq<Field>): DayTables
  {
    t.(requests := t.requests +
         [RequestRow(t.nextRequestId, "ScheduleDayChangeRequest", dayId, PENDING, EDIT, JInt(resourceId))],
       changes := t.changes + Stored(t.nextRequestId, audit),
       nextRequestId := t.nextRequestId + 1)
  }

  class DayStore {
    var tables: DayTables

    constructor (tables: DayTables)
      ensures this.tables == tables
    {
      this.tables := tables;
    }

    /** All or nothing: the changed or deleted row, one request that names the resource, and its audit. */
    method UpdateScheduleDay(id: int, c: ScheduleChanges, audit: seq<Field>, now: Json, fails: nat -> bool)
      returns (result: Result)
      modifies this
      ensures !result.Committed? ==> tables == old(tables)
      ensures result.Committed? ==>
                && Known(old(tables), DayResource(old(tables), id))
                && result.requestId == old(tables).nextRequestId
                && tables == DayRequested(old(tables).(days := DayChanged(old(tables).days, id, c, now)), id,
                                       DayResource(old(tables), id).value, audit)
      ensures (forall k :: !fails(k)) ==> (result.Committed? <==> Known(old(tables), DayResource(old(tables), id)))
    {
      hide DayChanged, DayResource, Stored;
      var tx := tables;
      if fails(0) || fails(1) {
        return Aborted;
      }
      var resource := DayResource(tx, id);
      if resource.None? {
        return Aborted;
      }
      var days := ChangeScheduleDay(tx.days, id, c, now);
      if fails(2) {
        return Aborted;
      }
      result := StoreRequest(tx.(days := days), id, resource.value, audit, fails);
    }

    /** The same for a new day; a change that would delete it at once inserts no row and is audited for day 0. */
    method InsertScheduleDay(scheduleId: int, c: ScheduleChanges, audit: seq<Field>, now: Json, fails: nat -> bool)
      returns (result: Result)
      modifies this
      ensures !result.Committed? ==> tables == old(tables)
      ensures result.Committed? ==>
                && Known(old(tables), ScheduleResource(old(tables), scheduleId)) && (DeletesDay(c) || c.day.Some?)
                && result.requestId == old(tables).nextRequestId
                && var r := ScheduleResource(old(tables), scheduleId).value;
                   var dayId := old(tables).nextDayId;
                   tables == if DeletesDay(c) then DayRequested(old(tables), 0, r, audit)
                             else DayRequested(old(tables).(days := old(tables).days[dayId := NewDay(scheduleId, c, now)],
                                                         nextDayId := dayId + 1), dayId, r, audit)
      ensures (forall k :: !fails(k)) ==>
                (result.Committed? <==>
                 Known(old(tables), ScheduleResource(old(tables), scheduleId)) && (DeletesDay(c) || c.day.Some?))
    {
      hide ScheduleResource, Stored, NewDay;
      var tx := tables;
      if fails(0) || fails(1) {
        return Aborted;
      }
      var resource := ScheduleResource(tx, scheduleId);
      if resource.None? {
        return Aborted;
      }
      var dayId := 0;
      if !DeletesDay(c) {
        if c.day.None? || fails(2) {
          return Aborted;
        }
        dayId := tx.nextDayId;
        tx := tx.(days := tx.days[dayId := NewDay(scheduleId, c, now)], nextDayId := dayId + 1);
      }
      result := StoreRequest(tx, dayId, resource.value, audit, fails);
    }

    /** The request row, the audit rows and the commit. */
    method StoreRequest(tx: DayTables, dayId: int, resourceId: int, audit: seq<Field>, fails: nat -> bool)
      returns (result: Result)
      modifies this
      ensures result.Committed? || result.Aborted?
      ensures result.Aborted? ==> tables == old(tables)
      ensures result.Committed? ==>
                resourceId in tx.resources && result.requestId == tx.nextRequestId &&
                tables == DayRequested(tx, dayId, resourceId, audit)
      ensures (forall k :: !fails(k)) && resourceId in tx.resources ==> result.Committed?
    {
      hide Stored;
      if fails(3) || resourceId !in tx.resources {
        return Aborted;
      }
      var requestId := tx.nextRequestId;
      var changes := InsertAudit(tx.changes, requestId, audit, 4, fails);
      if changes.None? || fails(4 + |audit|) {
        return Aborted;
      }
      tables := tx.(
        requests := tx.requests +
          [RequestRow(requestId, "ScheduleDayChangeRequest", dayId, PENDING, EDIT, JInt(resourceId))],
        changes := changes.value,
        nextRequestId := requestId + 1);
      return Committed(requestId);
    }
  }
}
