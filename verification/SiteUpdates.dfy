/**
  The row changes that the handlers commit, and which records of the search index they
  leave as they are.
 */
module SiteUpdates {
  import opened DayChanges
  import opened IndexRecords
  import opened OpenTimes
  import opened SiteTables
  import opened Wrappers

  function Touched(columns: Record, now: string): Record
  {
    columns["updated_at" := JText(now)]
  }

  function TouchResource(t: Tables, id: int, now: string): Tables
  {
    if id in t.resources then
      t.(resources := t.resources[id := t.resources[id].(columns := Touched(t.resources[id].columns, now))])
    else t
  }

  // ----- Deactivation -----

  function DeactivatedRow(row: ServiceRow, now: string): ServiceRow
  {
    row.(status := Some(INACTIVE), columns := Touched(row.columns, now))
  }

  predicate ApprovedUnder(row: ServiceRow, resourceId: int)
  {
    row.resourceId == Some(resourceId) && row.status == Some(APPROVED)
  }

  /** The resource and its approved services become inactive. */
  function DeactivateResource(t: Tables, id: int, now: string): Tables
    requires id in t.resources
  {
    var row := t.resources[id];
    t.(resources := t.resources[id := row.(status := Some(INACTIVE), columns := Touched(row.columns, now))],
       services := map s | s in t.services ::
         if ApprovedUnder(t.services[s], id) then DeactivatedRow(t.services[s], now) else t.services[s])
  }

  /** The ids that the deactivation returns, in scan order. */
  function ApprovedServicesOf(t: Tables, ids: seq<int>, resourceId: int): (r: seq<int>)
    ensures forall id :: id in r <==> id in ids && id in t.services && ApprovedUnder(t.services[id], resourceId)
  {
    if ids == [] then [] else
      (if ids[0] in t.services && ApprovedUnder(t.services[ids[0]], resourceId) then [ids[0]] else []) +
      ApprovedServicesOf(t, ids[1..], resourceId)
  }

  function DeactivateService(t: Tables, id: int, now: string): Tables
    requires id in t.services
  {
    var row := t.services[id];
    var t' := t.(services := t.services[id := DeactivatedRow(row, now)]);
    if row.resourceId.Some? then TouchResource(t', row.resourceId.value, now) else t'
  }

  // ----- Creation -----

  /** Associations are given by id; notes, instructions and the schedule come with the ids they get. */
  datatype NewService = NewService(
    name: Json, columns: Record, categories: seq<int>, eligibilities: seq<int>,
    notes: seq<(int, Json)>, instructions: seq<(int, Json)>, schedule: Option<(int, seq<DayRow>)>)

  /** The rows of one kind that an owner gets, in order. */
  function OwnedRows(owner: Owner, kind: string, values: seq<(int, Json)>): (rows: seq<Attachment>)
    ensures |rows| == |values|
    ensures forall i :: 0 <= i < |rows| ==> rows[i] == Attachment(values[i].0, owner, kind, values[i].1)
  {
    seq(|values|, i requires 0 <= i < |values| => Attachment(values[i].0, owner, kind, values[i].1))
  }

  /** Join rows hold the ids they point to. */
  function Joined(ids: seq<int>): (values: seq<(int, Json)>)
    ensures |values| == |ids| && forall i :: 0 <= i < |ids| ==> values[i] == (ids[i], JInt(ids[i]))
  {
    seq(|ids|, i requires 0 <= i < |ids| => (ids[i], JInt(ids[i])))
  }

  function NewRows(owner: Owner, n: NewService): seq<Attachment>
  {
    OwnedRows(owner, "category", Joined(n.categories)) + OwnedRows(owner, "eligibility", Joined(n.eligibilities)) +
    OwnedRows(owner, "note", n.notes) + OwnedRows(owner, "instruction", n.instructions)
  }

  /** One approved service, with its associations and schedule. */
  function InsertService(t: Tables, resourceId: int, n: NewService, now: string): Tables
  {
    var id := t.nextServiceId;
    var owner := OfService(id);
    var columns := Touched(n.columns["created_at" := JText(now)], now);
    t.(services := t.services[id := ServiceRow(Some(APPROVED), Some(resourceId), n.name, columns)],
       serviceIds := t.serviceIds + [id],
       nextServiceId := id + 1,
       attachments := t.attachments + NewRows(owner, n),
       schedules := if n.schedule.Some?
                    then t.schedules + [ScheduleRow(n.schedule.value.0, owner, n.schedule.value.1)]
                    else t.schedules)
  }

  function InsertServices(t: Tables, resourceId: int, news: seq<NewService>, now: string): Tables
    decreases |news|
  {
    if news == [] then t else InsertServices(InsertService(t, resourceId, news[0], now), resourceId, news[1..], now)
  }

  // ----- Smaller changes -----

  function MarkCertified(t: Tables, id: int, now: string): Tables
    requires id in t.resources
  {
    var row := t.resources[id];
    t.(resources := t.resources[id := row.(columns :=
      Touched(row.columns["certified" := JBool(true)]["certified_at" := JText(now)], now))])
  }

  function AddRow(t: Tables, row: Attachment): Tables
  {
    t.(attachments := t.attachments + [row])
  }

  function AddNote(t: Tables, owner: Owner, id: int, note: Json): Tables
  {
    AddRow(t, Attachment(id, owner, "note", note))
  }

  /** The first row of a kind with an id. */
  function FindRow(rows: seq<Attachment>, kind: string, id: int): (found: Option<Attachment>)
    ensures found.Some? ==> found.value in rows && found.value.kind == kind && found.value.id == id
    ensures found.None? <==> forall row :: row in rows ==> row.kind != kind || row.id != id
  {
    if rows == [] then None
    else if rows[0].kind == kind && rows[0].id == id then Some(rows[0])
    else FindRow(rows[1..], kind, id)
  }

  function WithoutRow(rows: seq<Attachment>, row: Attachment): seq<Attachment>
  {
    if rows == [] then []
    else if rows[0] == row then rows[1..]
    else [rows[0]] + WithoutRow(rows[1..], row)
  }

  function WithValue(rows: seq<Attachment>, row: Attachment, value: Json): seq<Attachment>
  {
    if rows == [] then []
    else if rows[0] == row then [row.(value := value)] + rows[1..]
    else [rows[0]] + WithValue(rows[1..], row, value)
  }

  function DropRow(t: Tables, row: Attachment): Tables
  {
    t.(attachments := WithoutRow(t.attachments, row))
  }

  function SetRow(t: Tables, row: Attachment, value: Json): Tables
  {
    t.(attachments := WithValue(t.attachments, row, value))
  }

  function RenameEligibility(t: Tables, id: int, name: Json): Tables
  {
    t.(eligibilities := t.eligibilities[id := name])
  }

  /** A new address of a resource. */
  function AddAddressRow(t: Tables, resourceId: int, address: IndexAddress): Tables
  {
    t.(addresses := t.addresses + [AddressRow(t.nextAddressId, Some(resourceId), address)],
       nextAddressId := t.nextAddressId + 1)
  }

  // ----- Schedule days -----

  predicate HasDay(rows: seq<DayRow>, id: int) { exists row :: row in rows && row.id == id }

  /** The schedule that a day belongs to. */
  function ScheduleOfDay(rows: seq<ScheduleRow>, id: int): (found: Option<ScheduleRow>)
    ensures found.Some? ==> found.value in rows && HasDay(found.value.days, id)
    ensures found.None? <==> forall row :: row in rows ==> !HasDay(row.days, id)
  {
    if rows == [] then None
    else if HasDay(rows[0].days, id) then Some(rows[0])
    else ScheduleOfDay(rows[1..], id)
  }

  function FindSchedule(rows: seq<ScheduleRow>, id: int): (found: Option<ScheduleRow>)
    ensures found.Some? ==> found.value in rows && found.value.id == id
    ensures found.None? <==> forall row :: row in rows ==> row.id != id
  {
    if rows == [] then None
    else if rows[0].id == id then Some(rows[0])
    else FindSchedule(rows[1..], id)
  }

  /** The days after the first with this id is changed or goes. */
  function EditedDays(rows: seq<DayRow>, id: int, c: ScheduleChanges): seq<DayRow>
  {
    if rows == [] then []
    else if rows[0].id == id then
      (if DeletesDay(c) then [] else [DayRow(id, ChangedDay(rows[0].day, c))]) + rows[1..]
    else [rows[0]] + EditedDays(rows[1..], id, c)
  }

  function WithDays(rows: seq<ScheduleRow>, row: ScheduleRow, days: seq<DayRow>): seq<ScheduleRow>
  {
    if rows == [] then []
    else if rows[0] == row then [row.(days := days)] + rows[1..]
    else [rows[0]] + WithDays(rows[1..], row, days)
  }

  function EditDay(t: Tables, row: ScheduleRow, id: int, c: ScheduleChanges): Tables
  {
    t.(schedules := WithDays(t.schedules, row, EditedDays(row.days, id, c)))
  }

  /** A day that the change would delete at once is not inserted. */
  function AddDay(t: Tables, row: ScheduleRow, id: int, c: ScheduleChanges): Tables
  {
    if DeletesDay(c) then t else
      var day := ScheduleDay(c.day.GetOr(""), c.opensAt.GetOr(None), c.closesAt.GetOr(None));
      t.(schedules := WithDays(t.schedules, row, row.days + [DayRow(id, day)]))
  }

  function Link(t: Tables, serviceId: int, addressId: int): Tables
  {
    t.(links := t.links + [(serviceId, addressId)])
  }

  function WithoutLink(links: seq<(int, int)>, link: (int, int)): (r: seq<(int, int)>)
    ensures forall l :: l in r <==> l in links && l != link
  {
    if links == [] then [] else
      (if links[0] == link then [] else [links[0]]) + WithoutLink(links[1..], link)
  }

  function Unlink(t: Tables, serviceId: int, addressId: int): Tables
  {
    t.(links := WithoutLink(t.links, (serviceId, addressId)))
  }

  // ----- Change requests -----

  /** An edit of a resource: absent parts stay. */
  function ChangeResource(t: Tables, id: int, status: Option<int>, name: Option<Json>, columns: Record,
                          now: string): Tables
  {
    if id !in t.resources then t else
      var row := t.resources[id];
      t.(resources := t.resources[id := ResourceRow(
        if status.Some? then status else row.status, name.GetOr(row.name), Touched(row.columns + columns, now))])
  }

  function WithoutKind(rows: seq<Attachment>, owner: Owner, kind: string): seq<Attachment>
  {
    if rows == [] then [] else
      (if rows[0].owner == owner && rows[0].kind == kind then [] else [rows[0]]) + WithoutKind(rows[1..], owner, kind)
  }

  /** Deletes the associations of a kind and inserts the given ones. */
  function Replace(rows: seq<Attachment>, owner: Owner, kind: string, ids: Option<seq<int>>): seq<Attachment>
  {
    if ids.None? then rows else WithoutKind(rows, owner, kind) + OwnedRows(owner, kind, Joined(ids.value))
  }

  /** An edit of a service: named columns, and whole association lists. */
  function ChangeService(t: Tables, id: int, name: Option<Json>, columns: Record,
                         categories: Option<seq<int>>, eligibilities: Option<seq<int>>, now: string): Tables
    requires id in t.services
  {
    var row := t.services[id];
    var owner := OfService(id);
    t.(services := t.services[id := row.(name := name.GetOr(row.name), columns := Touched(row.columns + columns, now))],
       attachments := Replace(Replace(t.attachments, owner, "category", categories), owner, "eligibility", eligibilities))
  }

  // ----- Whole commits -----

  function AddServices(t: Tables, resourceId: int, news: seq<NewService>, now: string): Tables
  {
    TouchResource(InsertServices(t, resourceId, news, now), resourceId, now)
  }

  function NoteOnResource(t: Tables, id: int, row: int, note: Json, now: string): Tables
  {
    TouchResource(AddNote(t, OfResource(id), row, note), id, now)
  }

  function EditResource(t: Tables, id: int, status: Option<int>, name: Option<Json>, columns: Record,
                        now: string): Tables
  {
    TouchResource(ChangeResource(t, id, status, name, columns, now), id, now)
  }

  function EditService(t: Tables, id: int, name: Option<Json>, columns: Record,
                       categories: Option<seq<int>>, eligibilities: Option<seq<int>>, now: string): Tables
    requires id in t.services
  {
    var t' := ChangeService(t, id, name, columns, categories, eligibilities, now);
    if t.services[id].resourceId.Some? then TouchResource(t', t.services[id].resourceId.value, now) else t'
  }

  // ----- Which lookups a change leaves alone -----

  ghost predicate AttachedSame(a: seq<Attachment>, b: seq<Attachment>, owner: Owner)
  {
    forall kind :: Attached(a, owner, kind) == Attached(b, owner, kind)
  }

  lemma {:induction false} AttachedAppend(a: seq<Attachment>, b: seq<Attachment>, owner: Owner, kind: string)
    ensures Attached(a + b, owner, kind) == Attached(a, owner, kind) + Attached(b, owner, kind)
    decreases |a|
  {
    if a == [] {
      assert a + b == b;
    } else {
      assert (a + b)[1..] == a[1..] + b;
      AttachedAppend(a[1..], b, owner, kind);
    }
  }

  lemma {:induction false} AttachedElsewhere(rows: seq<Attachment>, owner: Owner, kind: string)
    requires forall row :: row in rows ==> row.owner != owner || row.kind != kind
    ensures Attached(rows, owner, kind) == []
    decreases |rows|
  {
    if rows != [] {
      assert rows[0] in rows && forall row :: row in rows[1..] ==> row in rows;
      AttachedElsewhere(rows[1..], owner, kind);
    }
  }

  /** Rows that belong to another owner are not seen. */
  lemma AppendElsewhere(rows: seq<Attachment>, more: seq<Attachment>, owner: Owner)
    requires forall row :: row in more ==> row.owner != owner
    ensures AttachedSame(rows, rows + more, owner)
  {
    forall kind ensures Attached(rows, owner, kind) == Attached(rows + more, owner, kind) {
      AttachedAppend(rows, more, owner, kind);
      AttachedElsewhere(more, owner, kind);
    }
  }

  lemma {:induction false} WithoutKindElsewhere(rows: seq<Attachment>, other: Owner, k: string, owner: Owner,
                                                kind: string)
    requires owner != other || kind != k
    ensures Attached(WithoutKind(rows, other, k), owner, kind) == Attached(rows, owner, kind)
    decreases |rows|
  {
    if rows != [] {
      WithoutKindElsewhere(rows[1..], other, k, owner, kind);
      var head := if rows[0].owner == other && rows[0].kind == k then [] else [rows[0]];
      AttachedAppend(head, WithoutKind(rows[1..], other, k), owner, kind);
      AttachedAppend([rows[0]], rows[1..], owner, kind);
      assert [rows[0]] + rows[1..] == rows;
    }
  }

  lemma ReplaceElsewhere(rows: seq<Attachment>, other: Owner, k: string, ids: Option<seq<int>>, owner: Owner)
    requires owner != other
    ensures AttachedSame(rows, Replace(rows, other, k, ids), owner)
  {
    if ids.Some? {
      var kept, more := WithoutKind(rows, other, k), OwnedRows(other, k, Joined(ids.value));
      AppendElsewhere(kept, more, owner);
      forall kind ensures Attached(rows, owner, kind) == Attached(kept, owner, kind) {
        WithoutKindElsewhere(rows, other, k, owner, kind);
      }
    }
  }

  lemma {:induction false} ScheduleAppend(rows: seq<ScheduleRow>, row: ScheduleRow, owner: Owner)
    requires row.owner != owner
    ensures ScheduleOf(rows + [row], owner) == ScheduleOf(rows, owner)
    decreases |rows|
  {
    if rows == [] {
      assert rows + [row] == [row] && [row][1..] == [];
    } else {
      assert (rows + [row])[1..] == rows[1..] + [row];
      ScheduleAppend(rows[1..], row, owner);
    }
  }

  lemma {:induction false} LinksElsewhere(rows: seq<AddressRow>, a: seq<(int, int)>, b: seq<(int, int)>, id: int)
    requires forall address :: (id, address) in a <==> (id, address) in b
    ensures AddressesOfService(rows, a, id) == AddressesOfService(rows, b, id)
    decreases |rows|
  {
    if rows != [] {
      LinksElsewhere(rows[1..], a, b, id);
    }
  }

  /** Deleting a row shortens the list it is in and no other. */
  lemma {:induction false} DroppedLists(rows: seq<Attachment>, row: Attachment, owner: Owner, kind: string)
    requires row in rows
    ensures if owner == row.owner && kind == row.kind
            then |Attached(WithoutRow(rows, row), owner, kind)| < |Attached(rows, owner, kind)|
            else Attached(WithoutRow(rows, row), owner, kind) == Attached(rows, owner, kind)
    decreases |rows|
  {
    if rows[0] != row {
      assert row in rows[1..];
      DroppedLists(rows[1..], row, owner, kind);
      AttachedHead(rows[0], rows[1..], owner, kind);
      AttachedHead(rows[0], WithoutRow(rows[1..], row), owner, kind);
      assert [rows[0]] + rows[1..] == rows;
    }
  }

  lemma AttachedHead(head: Attachment, rest: seq<Attachment>, owner: Owner, kind: string)
    ensures Attached([head] + rest, owner, kind) ==
            (if head.owner == owner && head.kind == kind then [head.value] else []) + Attached(rest, owner, kind)
  {
    assert ([head] + rest)[1..] == rest;
  }

  /** A new value shows in the list of its row, and only when it differs. */
  lemma {:induction false} ChangedLists(rows: seq<Attachment>, row: Attachment, value: Json, owner: Owner, kind: string)
    requires row in rows
    ensures |Attached(WithValue(rows, row, value), owner, kind)| == |Attached(rows, owner, kind)|
    ensures Attached(WithValue(rows, row, value), owner, kind) == Attached(rows, owner, kind) <==>
            owner != row.owner || kind != row.kind || value == row.value
    decreases |rows|
  {
    hide Attached;
    assert [rows[0]] + rows[1..] == rows;
    AttachedHead(rows[0], rows[1..], owner, kind);
    if rows[0] == row {
      var rest := Attached(rows[1..], owner, kind);
      AttachedHead(row.(value := value), rows[1..], owner, kind);
      assert ([value] + rest)[0] == value && ([row.value] + rest)[0] == row.value;
    } else {
      assert row in rows[1..];
      var rest := WithValue(rows[1..], row, value);
      ChangedLists(rows[1..], row, value, owner, kind);
      AttachedHead(rows[0], rest, owner, kind);
      SameTails(if rows[0].owner == owner && rows[0].kind == kind then [rows[0].value] else [],
                Attached(rest, owner, kind), Attached(rows[1..], owner, kind));
    }
  }

  lemma SameTails(head: seq<Json>, a: seq<Json>, b: seq<Json>)
    ensures head + a == head + b <==> a == b
  {
    assert (head + a)[|head|..] == a && (head + b)[|head|..] == b;
  }

  /** Joined names change exactly for the lists that hold the renamed id. */
  lemma {:induction false} RenamedLists(names: map<int, Json>, ids: seq<Json>, id: int, name: Json)
    requires id in names && names[id] != name
    ensures |Names(names[id := name], ids)| == |Names(names, ids)|
    ensures Names(names[id := name], ids) == Names(names, ids) <==> JInt(id) !in ids
    decreases |ids|
  {
    if ids != [] {
      RenamedLists(names, ids[1..], id, name);
      var renamed := names[id := name];
      assert ids == [ids[0]] + ids[1..];
      if ids[0] == JInt(id) {
        assert Names(renamed, ids)[0] == name && Names(names, ids)[0] == names[id];
      } else {
        var head := if ids[0].JInt? && ids[0].n in names then [names[ids[0].n]] else [];
        SameTails(head, Names(renamed, ids[1..]), Names(names, ids[1..]));
      }
    }
  }

  lemma {:induction false} DaysElsewhere(rows: seq<ScheduleRow>, row: ScheduleRow, days: seq<DayRow>, owner: Owner)
    requires row.owner != owner
    ensures ScheduleOf(WithDays(rows, row, days), owner) == ScheduleOf(rows, owner)
    decreases |rows|
  {
    if rows != [] {
      DaysElsewhere(rows[1..], row, days, owner);
      var rows' := WithDays(rows, row, days);
      assert rows'[1..] == if rows[0] == row then rows[1..] else WithDays(rows[1..], row, days);
    }
  }

  /** Two tables that agree on the resource of every listed service. */
  ghost predicate SameOwners(a: Tables, b: Tables, ids: seq<int>)
  {
    forall id :: id in ids ==>
      (id in a.services <==> id in b.services) &&
      (id in a.services ==> a.services[id].resourceId == b.services[id].resourceId)
  }

  /** Two tables that agree on the resource and the name of every listed service. */
  ghost predicate SameListing(a: Tables, b: Tables, ids: seq<int>)
  {
    SameOwners(a, b, ids) &&
    forall id :: id in ids && id in a.services && id in b.services ==> a.services[id].name == b.services[id].name
  }

  lemma {:induction false} ListingSame(a: Tables, b: Tables, ids: seq<int>, resourceId: int)
    requires SameOwners(a, b, ids)
    ensures ServicesOf(a, ids, resourceId) == ServicesOf(b, ids, resourceId)
    decreases |ids|
  {
    if ids != [] {
      var head, rest := ids[0], ids[1..];
      assert head in ids;
      forall id | id in rest ensures id in ids { }
      ListingSame(a, b, rest, resourceId);
      assert (head in a.services && a.services[head].resourceId == Some(resourceId)) ==
             (head in b.services && b.services[head].resourceId == Some(resourceId));
    }
  }

  lemma {:induction false} NamesSame(a: Tables, b: Tables, ids: seq<int>)
    requires SameListing(a, b, ids)
    ensures NamesOf(a, ids) == NamesOf(b, ids)
    decreases |ids|
  {
    if ids != [] {
      var head, rest := ids[0], ids[1..];
      assert head in ids;
      forall id | id in rest ensures id in ids { }
      NamesSame(a, b, rest);
      assert (head in a.services) == (head in b.services);
      assert NamesOf(a, rest) == NamesOf(b, rest);
    }
  }
}
