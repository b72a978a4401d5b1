/**
  The commits of the handlers: which objects each one must refresh, and that it keeps the
  rows from which every record can be built.
 */
module SiteSteps {
  import opened DayChanges
  import opened IndexRecords
  import opened OpenTimes
  import opened SearchIndex
  import opened SiteFrames
  import opened SiteTables
  import opened SiteUpdates
  import opened Wrappers

  // ----- Rows that every record can be built from -----

  ghost predicate StampsParse(columns: Record, reformat: Reformat)
  {
    forall name :: name in STAMPS && name in columns && columns[name].JText? ==> reformat(columns[name].s).Some?
  }

  ghost predicate DaysNamed(days: seq<DayRow>)
  {
    forall row :: row in days ==> Abbreviation(row.day.day).Some?
  }

  /** Timestamps parse, days are weekdays, and every service has an existing resource. */
  ghost predicate Sound(t: Tables, reformat: Reformat)
  {
    && WellFormed(t)
    && (forall id :: id in t.resources ==> StampsParse(t.resources[id].columns, reformat))
    && (forall id :: id in t.services ==> StampsParse(t.services[id].columns, reformat))
    && (forall id :: id in t.services ==> t.services[id].resourceId.Some? && t.services[id].resourceId.value in t.resources)
    && (forall row :: row in t.schedules ==> DaysNamed(row.days))
  }

  lemma DaysBuild(days: seq<DayRow>)
    requires DaysNamed(days)
    ensures ScheduleTimes(DaysOf(days)).Times?
  {
    hide Abbreviation, HasSlot, ScheduleTimes;
    RefusedExactly(DaysOf(days));
    forall d | d in DaysOf(days) ensures Abbreviation(d.day).Some? {
      var i :| 0 <= i < |days| && DaysOf(days)[i] == d;
      assert days[i] in days;
    }
  }

  lemma {:induction false} StampedBuilds(r: Record, names: seq<string>, reformat: Reformat)
    requires forall name :: name in names && name in r && r[name].JText? ==> reformat(r[name].s).Some?
    requires forall i, j :: 0 <= i < j < |names| ==> names[i] != names[j]
    ensures Stamped(r, names, reformat).Some?
    decreases |names|
  {
    if names != [] {
      var first, rest := names[0], names[1..];
      assert first in names;
      forall name | name in rest ensures name in names && name != first {
        var k :| 0 <= k < |rest| && rest[k] == name;
        assert names[k + 1] == name;
      }
      if first in r && r[first].JText? {
        StampedBuilds(r[first := JText(reformat(r[first].s).value)], rest, reformat);
      } else {
        StampedBuilds(r, rest, reformat);
      }
    }
  }

  lemma {:induction false} ScheduleNamed(rows: seq<ScheduleRow>, owner: Owner)
    requires forall row :: row in rows ==> DaysNamed(row.days)
    ensures OpenTimesField(ScheduleOf(rows, owner)).Some?
    decreases |rows|
  {
    hide DaysNamed;
    if rows != [] {
      assert rows[0] in rows;
      if rows[0].owner == owner {
        DaysBuild(rows[0].days);
      } else {
        assert forall row :: row in rows[1..] ==> row in rows;
        ScheduleNamed(rows[1..], owner);
      }
    }
  }

  lemma ColumnsBuild(row: Record, extra: Record, reformat: Reformat)
    requires StampsParse(row, reformat)
    requires extra.Keys !! {"created_at", "updated_at", "certified_at", "verified_at"}
    ensures Stamped(row + extra, STAMPS, reformat).Some?
  {
    hide Stamped;
    StampedBuilds(row + extra, STAMPS, reformat);
  }

  /** From sound rows every record can be built. */
  lemma SoundBuilds(t: Tables, reformat: Reformat)
    requires Sound(t, reformat)
    ensures Buildable(t, reformat)
  {
    hide StampsParse, DaysNamed, Stamped, OpenTimesField, ResourceView, ServiceView, ServiceRecord, ResourceRecord;
    forall id: int | id in t.resources ensures ResourceStatusRecord(t, id, reformat).Some? {
      ResourceBuilds(t, id, reformat);
    }
    forall id: int | id in t.services ensures ServiceView(t, id).Some? && ServiceStatusRecord(t, id, reformat).Some? {
      ServiceBuilds(t, id, reformat);
    }
  }

  lemma ResourceBuilds(t: Tables, id: int, reformat: Reformat)
    requires Sound(t, reformat) && id in t.resources
    ensures ResourceStatusRecord(t, id, reformat).Some?
  {
    hide StampsParse, DaysNamed, Stamped, OpenTimesField, ResourceLists, AddressesOfResource, ScheduleOf, Attributed,
      AddressRecords, Days, Names, Attached;
    var row := t.resources[id];
    var extra := map["id" := JInt(id), "name" := row.name, "status" := Id(row.status)];
    ColumnsBuild(row.columns, extra, reformat);
    assert row.columns + extra == row.columns["id" := JInt(id)]["name" := row.name]["status" := Id(row.status)];
    ScheduleNamed(t.schedules, OfResource(id));
  }

  lemma ServiceBuilds(t: Tables, id: int, reformat: Reformat)
    requires Sound(t, reformat) && id in t.services
    ensures ServiceView(t, id).Some? && ServiceStatusRecord(t, id, reformat).Some?
  {
    hide StampsParse, DaysNamed, Stamped, OpenTimesField, ServiceLists, AddressesOfService, AddressesOfResource,
      ScheduleOf, Attributed, AddressRecords, Days, Names, Attached;
    var row := t.services[id];
    var r := row.resourceId.value;
    var extra := map["id" := JInt(id), "name" := row.name, "status" := Id(row.status), "resource_id" := JInt(r)];
    ColumnsBuild(row.columns, extra, reformat);
    assert row.columns + extra ==
           row.columns["id" := JInt(id)]["name" := row.name]["status" := Id(row.status)]["resource_id" := JInt(r)];
    ScheduleNamed(t.schedules, OfService(id));
    ScheduleNamed(t.schedules, OfResource(r));
  }

  // ----- Commits keep the rows sound -----

  lemma TouchedParse(columns: Record, now: string, reformat: Reformat)
    requires StampsParse(columns, reformat) && reformat(now).Some?
    ensures StampsParse(Touched(columns, now), reformat)
  {
  }

  lemma SoundResource(t: Tables, r: int, row: ResourceRow, reformat: Reformat)
    requires Sound(t, reformat) && r in t.resources && StampsParse(row.columns, reformat)
    ensures Sound(WithResource(t, r, row), reformat)
  {
    hide StampsParse, DaysNamed;
  }

  lemma SoundService(t: Tables, s: int, row: ServiceRow, reformat: Reformat)
    requires Sound(t, reformat) && s in t.services && StampsParse(row.columns, reformat)
    requires row.resourceId == t.services[s].resourceId
    ensures Sound(WithService(t, s, row), reformat)
  {
    hide StampsParse, DaysNamed;
  }

  lemma SoundTouch(t: Tables, r: int, now: string, reformat: Reformat)
    requires Sound(t, reformat) && reformat(now).Some?
    ensures Sound(TouchResource(t, r, now), reformat)
  {
    hide StampsParse, DaysNamed, Touched;
    if r in t.resources {
      TouchedParse(t.resources[r].columns, now, reformat);
      SoundResource(t, r, t.resources[r].(columns := Touched(t.resources[r].columns, now)), reformat);
    }
  }

  lemma TouchLeaves(t: Tables, r: int, now: string, reformat: Reformat)
    requires WellFormed(t)
    ensures Leaves(t, TouchResource(t, r, now), reformat, {r}, {})
    ensures WellFormed(TouchResource(t, r, now))
  {
    hide ResourceApproved, ServiceApproved, ResourceStatusRecord, ServiceStatusRecord;
    if r in t.resources {
      ResourceRowChanges(t, r, t.resources[r].(columns := Touched(t.resources[r].columns, now)), reformat);
    }
  }

  // ----- Deactivation -----

  lemma DeactivateResourceLeaves(t: Tables, id: int, now: string, reformat: Reformat)
    requires WellFormed(t) && id in t.resources
    ensures Leaves(t, DeactivateResource(t, id, now), reformat, {id}, IdSet(ApprovedServicesOf(t, t.serviceIds, id)))
  {
    hide DeactivateResource, ResourceStatusRecord, ServiceStatusRecord, Attached, AddressesOfService, AddressesOfResource,
      ScheduleOf, IdSet, ApprovedServicesOf, ResourceApproved, ServiceApproved, NamesOf, ServicesOf;
    var b := DeactivateResource(t, id, now);
    var gone := IdSet(ApprovedServicesOf(t, t.serviceIds, id));
    DeactivatedRows(t, id, now);
    forall r | r !in {id} ensures SameResource(t, b, reformat, r) {
      ListedSame(t, b, r);
      ResourceKept(t, b, reformat, r);
    }
    forall s | s !in gone ensures SameService(t, b, reformat, s) {
      ServiceKept(t, b, reformat, s);
    }
  }

  lemma DeactivatedRows(t: Tables, id: int, now: string)
    requires WellFormed(t) && id in t.resources
    ensures var b := DeactivateResource(t, id, now);
            && b == t.(resources := b.resources, services := b.services)
            && SameListing(t, b, t.serviceIds)
            && (forall r: int :: SameName(t, b, r))
            && (forall r :: r != id ==> (r in b.resources <==> r in t.resources))
            && (forall r :: r != id && r in t.resources ==> b.resources[r] == t.resources[r])
            && b.services.Keys == t.services.Keys
            && (forall s :: s in t.services && s !in IdSet(ApprovedServicesOf(t, t.serviceIds, id)) ==>
                  b.services[s] == t.services[s])
  {
    hide Touched, DistinctAddresses;
  }

  lemma DeactivateResourceSound(t: Tables, id: int, now: string, reformat: Reformat)
    requires Sound(t, reformat) && id in t.resources && reformat(now).Some?
    ensures Sound(DeactivateResource(t, id, now), reformat)
  {
    hide StampsParse, DaysNamed, Touched;
    TouchedParse(t.resources[id].columns, now, reformat);
    forall s | s in t.services
      ensures StampsParse(DeactivatedRow(t.services[s], now).columns, reformat)
    {
      TouchedParse(t.services[s].columns, now, reformat);
    }
  }

  /** A deactivated resource keeps no approved service; rows of other resources are as they were. */
  lemma NoApprovedServiceLeft(t: Tables, id: int, now: string)
    requires id in t.resources
    ensures var b := DeactivateResource(t, id, now);
            && !ResourceApproved(b, id) && b.resources[id].status == Some(INACTIVE)
            && (forall s :: s in b.services && b.services[s].resourceId == Some(id) ==> !ServiceApproved(b, s))
            && (forall s :: s in t.services && t.services[s].resourceId == Some(id) ==>
                  b.services[s].status == if ServiceApproved(t, s) then Some(INACTIVE) else t.services[s].status)
            && (forall s :: s in t.services && t.services[s].resourceId != Some(id) ==> b.services[s] == t.services[s])
            && (forall r :: r in t.resources && r != id ==> b.resources[r] == t.resources[r])
            && b.services.Keys == t.services.Keys && b.resources.Keys == t.resources.Keys
  {
    hide Touched;
  }

  ghost function Owning(row: ServiceRow): set<int>
  {
    if row.resourceId.Some? then {row.resourceId.value} else {}
  }

  lemma DeactivateServiceLeaves(t: Tables, id: int, now: string, reformat: Reformat)
    requires WellFormed(t) && id in t.services
    ensures Leaves(t, DeactivateService(t, id, now), reformat, Owning(t.services[id]), {id})
    ensures WellFormed(DeactivateService(t, id, now))
  {
    hide ResourceApproved, ServiceApproved, ResourceStatusRecord, ServiceStatusRecord, Touched;
    var row := t.services[id];
    var t' := WithService(t, id, DeactivatedRow(row, now));
    ServiceRowChanges(t, id, DeactivatedRow(row, now), reformat);
    if row.resourceId.Some? {
      var r := row.resourceId.value;
      TouchLeaves(t', r, now, reformat);
      LeavesChain(t, t', TouchResource(t', r, now), reformat, {}, {id}, {r}, {});
      assert {} + {r} == {r} && {id} + {} == {id};
    }
  }

  lemma DeactivateServiceSound(t: Tables, id: int, now: string, reformat: Reformat)
    requires Sound(t, reformat) && id in t.services && reformat(now).Some?
    ensures Sound(DeactivateService(t, id, now), reformat)
  {
    hide StampsParse, DaysNamed, Touched;
    var row := t.services[id];
    TouchedParse(row.columns, now, reformat);
    var t' := WithService(t, id, DeactivatedRow(row, now));
    SoundService(t, id, DeactivatedRow(row, now), reformat);
    if row.resourceId.Some? {
      SoundTouch(t', row.resourceId.value, now, reformat);
    }
  }

  // ----- Creation -----

  lemma {:induction false} ServicesOfSnoc(t: Tables, ids: seq<int>, last: int, r: int)
    requires last in t.services && t.services[last].resourceId != Some(r)
    ensures ServicesOf(t, ids + [last], r) == ServicesOf(t, ids, r)
    decreases |ids|
  {
    if ids == [] {
      assert ids + [last] == [last] && [last][1..] == [];
    } else {
      assert (ids + [last])[1..] == ids[1..] + [last];
      ServicesOfSnoc(t, ids[1..], last, r);
    }
  }

  lemma InsertedListing(t: Tables, r: int, n: NewService, now: string, id: int)
    requires WellFormed(t) && id != r
    ensures var b := InsertService(t, r, n, now);
            NamesOf(t, ServicesOf(t, t.serviceIds, id)) == NamesOf(b, ServicesOf(b, b.serviceIds, id))
  {
    hide Touched, NewRows;
    var b := InsertService(t, r, n, now);
    assert t.nextServiceId !in t.services;
    ListingSame(t, b, t.serviceIds, id);
    NamesSame(t, b, ServicesOf(t, t.serviceIds, id));
    ServicesOfSnoc(b, t.serviceIds, t.nextServiceId, id);
  }

  lemma InsertedElsewhere(t: Tables, r: int, n: NewService, now: string, owner: Owner)
    requires owner != OfService(t.nextServiceId)
    ensures var b := InsertService(t, r, n, now);
            AttachedSame(t.attachments, b.attachments, owner) && ScheduleOf(t.schedules, owner) == ScheduleOf(b.schedules, owner)
  {
    hide Touched, Attached;
    AppendElsewhere(t.attachments, NewRows(OfService(t.nextServiceId), n), owner);
    if n.schedule.Some? {
      ScheduleAppend(t.schedules, ScheduleRow(n.schedule.value.0, OfService(t.nextServiceId), n.schedule.value.1), owner);
    }
  }

  lemma InsertServiceLeaves(t: Tables, r: int, n: NewService, now: string, reformat: Reformat)
    requires WellFormed(t)
    ensures Leaves(t, InsertService(t, r, n, now), reformat, {r}, {t.nextServiceId})
  {
    hide ResourceStatusRecord, ServiceStatusRecord, Attached, AddressesOfService, AddressesOfResource, ScheduleOf,
      Touched, NewRows, NamesOf, ServicesOf;
    var b := InsertService(t, r, n, now);
    forall id | id !in {r} ensures SameResource(t, b, reformat, id) {
      InsertedListing(t, r, n, now, id);
      InsertedElsewhere(t, r, n, now, OfResource(id));
      ResourceKept(t, b, reformat, id);
    }
    forall id | id !in {t.nextServiceId} ensures SameService(t, b, reformat, id) {
      InsertedElsewhere(t, r, n, now, OfService(id));
      if id in t.services && t.services[id].resourceId.Some? {
        InsertedElsewhere(t, r, n, now, OfResource(t.services[id].resourceId.value));
        ShownAsAttached(t, b, t.services[id].resourceId.value);
      }
      ServiceKept(t, b, reformat, id);
    }
  }

  lemma InsertServiceWellFormed(t: Tables, r: int, n: NewService, now: string)
    requires WellFormed(t)
    ensures WellFormed(InsertService(t, r, n, now))
  {
    hide Touched, NewRows;
    var b := InsertService(t, r, n, now);
    assert forall id :: id in b.serviceIds <==> id in t.serviceIds || id == t.nextServiceId;
    assert forall id :: id in t.serviceIds ==> id < t.nextServiceId;
    forall i, j | 0 <= i < j < |b.serviceIds| ensures b.serviceIds[i] != b.serviceIds[j] {
      assert b.serviceIds[i] in t.serviceIds;
    }
  }

  lemma ShownAsAttached(a: Tables, b: Tables, r: int)
    requires AttachedSame(a.attachments, b.attachments, OfResource(r))
    requires AddressesOfResource(a.addresses, r) == AddressesOfResource(b.addresses, r)
    requires ScheduleOf(a.schedules, OfResource(r)) == ScheduleOf(b.schedules, OfResource(r))
    ensures ShownByServices(a, b, r)
  {
    hide Attached, AddressesOfResource, ScheduleOf;
    assert forall kind :: Attached(a.attachments, OfResource(r), kind) == Attached(b.attachments, OfResource(r), kind);
  }

  ghost predicate SoundNew(n: NewService, reformat: Reformat)
  {
    && StampsParse(n.columns, reformat)
    && (n.schedule.Some? ==> DaysNamed(n.schedule.value.1))
  }

  lemma InsertServiceSound(t: Tables, r: int, n: NewService, now: string, reformat: Reformat)
    requires Sound(t, reformat) && r in t.resources && SoundNew(n, reformat) && reformat(now).Some?
    ensures Sound(InsertService(t, r, n, now), reformat)
  {
    hide DaysNamed, NewRows, Attached;
    TouchedParse(n.columns["created_at" := JText(now)], now, reformat);
    InsertServiceWellFormed(t, r, n, now);
  }

  /** The ids that a list of new services gets. */
  function NewIds(t: Tables, count: nat): seq<int>
  {
    seq(count, i => t.nextServiceId + i)
  }

  lemma {:induction false} InsertServicesLeaves(t: Tables, r: int, news: seq<NewService>, now: string,
                                                reformat: Reformat)
    requires WellFormed(t)
    ensures Leaves(t, InsertServices(t, r, news, now), reformat, {r}, IdSet(NewIds(t, |news|)))
    ensures WellFormed(InsertServices(t, r, news, now))
    decreases |news|
  {
    hide SameResource, SameService, InsertService, WellFormed;
    if news == [] {
      LeavesSelf(t, reformat, {r}, IdSet(NewIds(t, 0)));
    } else {
      var t' := InsertService(t, r, news[0], now);
      InsertServiceLeaves(t, r, news[0], now, reformat);
      InsertServiceWellFormed(t, r, news[0], now);
      InsertServicesLeaves(t', r, news[1..], now, reformat);
      NextIds(t, r, news[0], now, |news| - 1);
      var first, rest := {t.nextServiceId}, IdSet(NewIds(t', |news| - 1));
      LeavesChain(t, t', InsertServices(t', r, news[1..], now), reformat, {r}, first, {r}, rest);
      assert {r} + {r} == {r};
    }
  }

  lemma LeavesSelf(t: Tables, reformat: Reformat, resources: set<int>, services: set<int>)
    ensures Leaves(t, t, reformat, resources, services)
  {
    hide ResourceApproved, ServiceApproved, ResourceStatusRecord, ServiceStatusRecord;
  }

  lemma NextIds(t: Tables, r: int, n: NewService, now: string, count: nat)
    ensures IdSet(NewIds(t, count + 1)) == {t.nextServiceId} + IdSet(NewIds(InsertService(t, r, n, now), count))
  {
    var t' := InsertService(t, r, n, now);
    assert NewIds(t, count + 1) == [t.nextServiceId] + NewIds(t', count);
  }

  lemma {:induction false} InsertServicesSound(t: Tables, r: int, news: seq<NewService>, now: string,
                                               reformat: Reformat)
    requires Sound(t, reformat) && r in t.resources && reformat(now).Some?
    requires forall n :: n in news ==> SoundNew(n, reformat)
    ensures Sound(InsertServices(t, r, news, now), reformat)
    decreases |news|
  {
    hide Sound, SoundNew;
    if news != [] {
      assert news[0] in news && forall n :: n in news[1..] ==> n in news;
      InsertServiceSound(t, r, news[0], now, reformat);
      assert InsertService(t, r, news[0], now).resources == t.resources;
      InsertServicesSound(InsertService(t, r, news[0], now), r, news[1..], now, reformat);
    }
  }

  lemma CreateServicesLeaves(t: Tables, r: int, news: seq<NewService>, now: string, reformat: Reformat)
    requires WellFormed(t)
    ensures Leaves(t, AddServices(t, r, news, now), reformat, {r}, IdSet(NewIds(t, |news|)))
    ensures WellFormed(AddServices(t, r, news, now))
  {
    hide SameResource, SameService, InsertServices, WellFormed, TouchResource, IdSet;
    var t' := InsertServices(t, r, news, now);
    InsertServicesLeaves(t, r, news, now, reformat);
    TouchLeaves(t', r, now, reformat);
    LeavesChain(t, t', TouchResource(t', r, now), reformat, {r}, IdSet(NewIds(t, |news|)), {r}, {});
    assert {r} + {r} == {r} && IdSet(NewIds(t, |news|)) + {} == IdSet(NewIds(t, |news|));
  }

  // ----- Notes and edits -----

  lemma NoteOnResourceLeaves(t: Tables, r: int, row: int, note: Json, now: string, reformat: Reformat)
    requires WellFormed(t)
    ensures Leaves(t, NoteOnResource(t, r, row, note, now), reformat, {r}, {})
    ensures WellFormed(NoteOnResource(t, r, row, note, now))
  {
    hide SameResource, SameService, TouchResource;
    var t' := AddNote(t, OfResource(r), row, note);
    ResourceNoteAdded(t, r, row, note, reformat);
    TouchLeaves(t', r, now, reformat);
    LeavesChain(t, t', TouchResource(t', r, now), reformat, {r}, {}, {r}, {});
    assert {r} + {r} == {r};
    LeavesMore(t, TouchResource(t', r, now), reformat, {r} + {r}, {} + {}, {r}, {});
  }

  lemma ServiceNoteLeaves(t: Tables, s: int, row: int, note: Json, reformat: Reformat)
    requires WellFormed(t)
    ensures Leaves(t, AddNote(t, OfService(s), row, note), reformat, {}, {s})
  {
    hide SameResource, SameService, Attached, WellFormed;
    forall owner | owner != OfService(s)
      ensures AttachedSame(t.attachments, AddNote(t, OfService(s), row, note).attachments, owner)
    {
      AppendElsewhere(t.attachments, [Attachment(row, OfService(s), "note", note)], owner);
    }
    ServiceAttachmentsChange(t, s, AddNote(t, OfService(s), row, note).attachments, reformat);
  }

  lemma CertifyLeaves(t: Tables, r: int, now: string, reformat: Reformat)
    requires WellFormed(t) && r in t.resources
    ensures Leaves(t, MarkCertified(t, r, now), reformat, {r}, {})
  {
    hide SameResource, SameService, Touched;
    ResourceRowChanges(t, r, MarkCertified(t, r, now).resources[r], reformat);
  }

  lemma CertifySound(t: Tables, r: int, now: string, reformat: Reformat)
    requires Sound(t, reformat) && r in t.resources && reformat(now).Some?
    ensures Sound(MarkCertified(t, r, now), reformat)
  {
    hide DaysNamed;
    SoundResource(t, r, MarkCertified(t, r, now).resources[r], reformat);
  }

  lemma EditResourceLeaves(t: Tables, r: int, status: Option<int>, name: Option<Json>, columns: Record, now: string,
                           reformat: Reformat)
    requires WellFormed(t)
    ensures Leaves(t, EditResource(t, r, status, name, columns, now), reformat, {r}, Namesakes(t, r))
    ensures WellFormed(EditResource(t, r, status, name, columns, now))
  {
    hide SameResource, SameService, Touched, Namesakes, TouchResource;
    var t' := ChangeResource(t, r, status, name, columns, now);
    if r in t.resources {
      ResourceRowChanges(t, r, t'.resources[r], reformat);
      LeavesMore(t, t', reformat, {r}, if t'.resources[r].name != t.resources[r].name then Namesakes(t, r) else {},
                 {r}, Namesakes(t, r));
    } else {
      LeavesSelf(t, reformat, {r}, Namesakes(t, r));
    }
    TouchLeaves(t', r, now, reformat);
    LeavesChain(t, t', TouchResource(t', r, now), reformat, {r}, Namesakes(t, r), {r}, {});
    assert {r} + {r} == {r} && Namesakes(t, r) + {} == Namesakes(t, r);
  }

  /** The columns that an edit may name hold no timestamps. */
  ghost predicate PlainColumns(columns: Record)
  {
    forall name :: name in STAMPS ==> name !in columns
  }

  lemma EditResourceSound(t: Tables, r: int, status: Option<int>, name: Option<Json>, columns: Record, now: string,
                          reformat: Reformat)
    requires Sound(t, reformat) && PlainColumns(columns) && reformat(now).Some?
    ensures Sound(EditResource(t, r, status, name, columns, now), reformat)
  {
    hide Sound, Touched, TouchResource;
    var t' := ChangeResource(t, r, status, name, columns, now);
    if r in t.resources {
      RowsParse(t, reformat);
      PlainParse(t.resources[r].columns, columns, reformat);
      TouchedParse(t.resources[r].columns + columns, now, reformat);
      SoundResource(t, r, t'.resources[r], reformat);
    }
    SoundTouch(t', r, now, reformat);
  }

  lemma PlainParse(row: Record, columns: Record, reformat: Reformat)
    requires StampsParse(row, reformat) && PlainColumns(columns)
    ensures StampsParse(row + columns, reformat)
  {
  }

  lemma RowsParse(t: Tables, reformat: Reformat)
    requires Sound(t, reformat)
    ensures WellFormed(t)
    ensures forall id :: id in t.resources ==> StampsParse(t.resources[id].columns, reformat)
    ensures forall id :: id in t.services ==> StampsParse(t.services[id].columns, reformat)
  {
    hide StampsParse, DaysNamed;
  }

  lemma ChangeServiceLeaves(t: Tables, id: int, name: Option<Json>, columns: Record, categories: Option<seq<int>>,
                            eligibilities: Option<seq<int>>, now: string, reformat: Reformat)
    requires WellFormed(t) && id in t.services
    ensures var b := ChangeService(t, id, name, columns, categories, eligibilities, now);
            Leaves(t, b, reformat, Owning(t.services[id]), {id}) && WellFormed(b)
  {
    hide SameResource, SameService, Touched, Replace, WellFormed;
    var row := t.services[id];
    var row' := row.(name := name.GetOr(row.name), columns := Touched(row.columns + columns, now));
    var middle := WithService(t, id, row');
    var r := Owning(row);
    WellFormedRows(t, middle);
    ServiceRowChanges(t, id, row', reformat);
    LeavesMore(t, middle, reformat, if row'.name != row.name && row.resourceId.Some? then {row.resourceId.value} else {},
               {id}, r, {id});
    var t' := ChangeService(t, id, name, columns, categories, eligibilities, now);
    AssociationsElsewhere(t.attachments, id, categories, eligibilities);
    ServiceAttachmentsChange(middle, id, t'.attachments, reformat);
    LeavesChain(t, middle, t', reformat, r, {id}, {}, {id});
    assert r + {} == r && {id} + {id} == {id};
    WellFormedRows(t, t');
  }

  lemma EditServiceLeaves(t: Tables, id: int, name: Option<Json>, columns: Record, categories: Option<seq<int>>,
                          eligibilities: Option<seq<int>>, now: string, reformat: Reformat)
    requires WellFormed(t) && id in t.services
    ensures var b := EditService(t, id, name, columns, categories, eligibilities, now);
            Leaves(t, b, reformat, Owning(t.services[id]), {id}) && WellFormed(b)
  {
    hide Leaves, ChangeService, TouchResource, WellFormed;
    ChangeServiceLeaves(t, id, name, columns, categories, eligibilities, now, reformat);
    var row, t' := t.services[id], ChangeService(t, id, name, columns, categories, eligibilities, now);
    var r := Owning(row);
    if row.resourceId.Some? {
      TouchLeaves(t', row.resourceId.value, now, reformat);
      LeavesChain(t, t', TouchResource(t', row.resourceId.value, now), reformat, r, {id}, r, {});
      assert r + r == r && {id} + {} == {id};
    }
  }

  lemma WellFormedRows(a: Tables, b: Tables)
    requires WellFormed(a) && b.services.Keys == a.services.Keys && b.serviceIds == a.serviceIds
    requires b.nextServiceId == a.nextServiceId && b.addresses == a.addresses && b.nextAddressId == a.nextAddressId
    requires b.links == a.links
    ensures WellFormed(b)
  {
  }

  lemma AssociationsElsewhere(rows: seq<Attachment>, id: int, categories: Option<seq<int>>,
                              eligibilities: Option<seq<int>>)
    ensures forall owner :: owner != OfService(id) ==>
              AttachedSame(rows, Replace(Replace(rows, OfService(id), "category", categories),
                                         OfService(id), "eligibility", eligibilities), owner)
  {
    hide Replace, Attached;
    var first := Replace(rows, OfService(id), "category", categories);
    forall owner | owner != OfService(id)
      ensures AttachedSame(rows, Replace(first, OfService(id), "eligibility", eligibilities), owner)
    {
      ReplaceElsewhere(rows, OfService(id), "category", categories, owner);
      ReplaceElsewhere(first, OfService(id), "eligibility", eligibilities, owner);
    }
  }

  lemma EditServiceSound(t: Tables, id: int, name: Option<Json>, columns: Record, categories: Option<seq<int>>,
                         eligibilities: Option<seq<int>>, now: string, reformat: Reformat)
    requires Sound(t, reformat) && id in t.services && PlainColumns(columns) && reformat(now).Some?
    ensures Sound(EditService(t, id, name, columns, categories, eligibilities, now), reformat)
  {
    hide Sound, Touched, TouchResource, Replace;
    var row := t.services[id];
    RowsParse(t, reformat);
    PlainParse(row.columns, columns, reformat);
    TouchedParse(row.columns + columns, now, reformat);
    var row' := row.(name := name.GetOr(row.name), columns := Touched(row.columns + columns, now));
    SoundService(t, id, row', reformat);
    var t' := ChangeService(t, id, name, columns, categories, eligibilities, now);
    SoundAttachments(WithService(t, id, row'), t'.attachments, reformat);
    if row.resourceId.Some? {
      SoundTouch(t', row.resourceId.value, now, reformat);
    }
  }

  lemma SoundAttachments(t: Tables, rows: seq<Attachment>, reformat: Reformat)
    requires Sound(t, reformat)
    ensures Sound(t.(attachments := rows), reformat)
  {
    hide StampsParse, DaysNamed;
  }

  lemma SoundLinks(t: Tables, links: seq<(int, int)>, reformat: Reformat)
    requires Sound(t, reformat) && forall link :: link in links ==> link.1 < t.nextAddressId
    ensures Sound(t.(links := links), reformat)
  {
    hide StampsParse, DaysNamed;
  }

  /** The new services, and only those, are new; they are approved and belong to the resource. */
  lemma {:induction false} CreatedApproved(t: Tables, r: int, news: seq<NewService>, now: string)
    requires WellFormed(t)
    ensures var b := AddServices(t, r, news, now);
            && (forall id :: id in NewIds(t, |news|) ==> ServiceApproved(b, id) && b.services[id].resourceId == Some(r))
            && (forall id :: id in t.services ==> id in b.services && b.services[id] == t.services[id])
            && (forall id :: id in b.services ==> id in t.services || id in NewIds(t, |news|))
  {
    hide Touched, InsertServices, WellFormed;
    InsertedApproved(t, r, news, now);
  }

  lemma {:induction false} InsertedApproved(t: Tables, r: int, news: seq<NewService>, now: string)
    requires WellFormed(t)
    ensures var b := InsertServices(t, r, news, now);
            && (forall id :: id in NewIds(t, |news|) ==> ServiceApproved(b, id) && b.services[id].resourceId == Some(r))
            && (forall id :: id in t.services ==> id in b.services && b.services[id] == t.services[id])
            && (forall id :: id in b.services ==> id in t.services || id in NewIds(t, |news|))
    decreases |news|
  {
    hide Touched, NewRows, WellFormed;
    if news == [] {
      assert NewIds(t, 0) == [];
    } else {
      var t' := InsertService(t, r, news[0], now);
      InsertServiceWellFormed(t, r, news[0], now);
      NotYet(t);
      assert NewIds(t, |news|) == [t.nextServiceId] + NewIds(t', |news| - 1);
      InsertedApproved(t', r, news[1..], now);
    }
  }

  lemma NotYet(t: Tables)
    requires WellFormed(t)
    ensures t.nextServiceId !in t.services
  {
    hide DistinctAddresses;
  }
}
