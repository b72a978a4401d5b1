/**
  Change requests of schedule days (internal/db/schedules.go and the handlers of
  internal/changerequest). The day is a text that nobody checks, so the commit can leave rows
  from which a record cannot be built: exactly when the refresh after it fails is proved here.
 */
module DayRequests {
  import opened AddressChanges
  import opened DayChanges
  import opened IndexRecords
  import opened OpenTimes
  import opened RowRequests
  import opened SearchIndex
  import opened SiteFrames
  import opened SiteHandlers
  import opened SiteSteps
  import opened SiteTables
  import opened SiteUpdates
  import opened Wrappers

  // ----- When a record cannot be built -----

  /** Some day of the schedule has a slot and is no weekday. */
  ghost predicate UnreadableHours(schedule: Option<seq<ScheduleDay>>)
  {
    schedule.Some? && exists d :: d in schedule.value && Unreadable(d)
  }

  lemma HoursRefused(schedule: Option<seq<ScheduleDay>>)
    ensures OpenTimesField(schedule).None? <==> UnreadableHours(schedule)
  {
    hide ScheduleTimes, Unreadable;
    if schedule.Some? {
      RefusedExactly(schedule.value);
    }
  }

  /** The hours that the record of a service shows: its own days, or those of its resource. */
  function HoursOf(t: Tables, s: int, r: int): Option<seq<ScheduleDay>>
  {
    var own := ScheduleOf(t.schedules, OfService(s));
    if own.GetOr([]) == [] then ScheduleOf(t.schedules, OfResource(r)) else own
  }

  /** An approved record that a change request for this resource refreshes shows such a day. */
  ghost predicate ShowsUnreadable(t: Tables, r: int)
  {
    || (ResourceApproved(t, r) && UnreadableHours(ScheduleOf(t.schedules, OfResource(r))))
    || exists s: int :: ServiceApproved(t, s) && t.services[s].resourceId == Some(r) && UnreadableHours(HoursOf(t, s, r))
  }

  /** Sound rows but for the days of the schedules. */
  ghost predicate SoundColumns(t: Tables, reformat: Reformat)
  {
    Sound(t.(schedules := []), reformat)
  }

  /** Of a resource with sound columns the record fails to build exactly by its hours. */
  lemma ResourceRefused(t: Tables, r: int, reformat: Reformat)
    requires SoundColumns(t, reformat) && r in t.resources
    ensures CanRebuildResource(t, reformat, r) <==>
            !(ResourceApproved(t, r) && UnreadableHours(ScheduleOf(t.schedules, OfResource(r))))
  {
    hide SoundColumns, OpenTimesField, ResourceRecord, ResourceLists, AddressesOfResource, ScheduleOf, Names, Attached,
      UnreadableHours;
    ResourceColumnsBuild(t, r, reformat);
    HoursRefused(ScheduleOf(t.schedules, OfResource(r)));
    ResourceHours(ResourceView(t, r).value, ResourceObjectId(r), r, reformat);
  }

  lemma ResourceColumnsBuild(t: Tables, r: int, reformat: Reformat)
    requires SoundColumns(t, reformat) && r in t.resources
    ensures Stamped(ResourceView(t, r).value.columns, STAMPS, reformat).Some?
  {
    hide StampsParse, DaysNamed, Stamped, DistinctAddresses, ResourceLists, AddressesOfResource, ScheduleOf, Names,
      Attached;
    var row := t.resources[r];
    var extra := map["id" := JInt(r), "name" := row.name, "status" := Id(row.status)];
    assert r in t.(schedules := []).resources;
    ColumnsBuild(row.columns, extra, reformat);
    assert row.columns + extra == row.columns["id" := JInt(r)]["name" := row.name]["status" := Id(row.status)];
  }

  lemma ResourceHours(s: ResourceSource, objectId: string, id: int, reformat: Reformat)
    requires Stamped(s.columns, STAMPS, reformat).Some?
    ensures ResourceRecord(s, objectId, id, reformat).None? <==> OpenTimesField(s.schedule).None?
  {
    hide Stamped, OpenTimesField, Attributed, AddressRecords, Days;
  }

  lemma ServiceRefused(t: Tables, s: int, r: int, reformat: Reformat)
    requires SoundColumns(t, reformat) && s in t.services && t.services[s].resourceId == Some(r)
    ensures CanRebuildService(t, reformat, s) <==> !(ServiceApproved(t, s) && UnreadableHours(HoursOf(t, s, r)))
  {
    hide SoundColumns, OpenTimesField, ServiceRecord, ServiceLists, AddressesOfService, AddressesOfResource, ScheduleOf,
      Names, Attached, UnreadableHours;
    ServiceColumnsBuild(t, s, r, reformat);
    HoursRefused(HoursOf(t, s, r));
    ServiceHours(ServiceView(t, s).value, ServiceObjectId(s), s, reformat);
  }

  lemma ServiceColumnsBuild(t: Tables, s: int, r: int, reformat: Reformat)
    requires SoundColumns(t, reformat) && s in t.services && t.services[s].resourceId == Some(r)
    ensures ServiceView(t, s).Some? && Stamped(ServiceView(t, s).value.columns, STAMPS, reformat).Some?
  {
    hide SoundColumns, StampsParse, Stamped, ServiceLists, AddressesOfService, AddressesOfResource, ScheduleOf,
      Names, Attached;
    var row := t.services[s];
    var extra := map["id" := JInt(s), "name" := row.name, "status" := Id(row.status), "resource_id" := JInt(r)];
    ServiceSound(t, s, reformat);
    PlainNames();
    ColumnsBuild(row.columns, extra, reformat);
    assert row.columns + extra ==
           row.columns["id" := JInt(s)]["name" := row.name]["status" := Id(row.status)]["resource_id" := JInt(r)];
  }

  lemma ServiceSound(t: Tables, s: int, reformat: Reformat)
    requires SoundColumns(t, reformat) && s in t.services
    ensures StampsParse(t.services[s].columns, reformat)
    ensures t.services[s].resourceId.Some? && t.services[s].resourceId.value in t.resources
  {
    hide StampsParse, DaysNamed, DistinctAddresses;
    assert s in t.(schedules := []).services;
  }

  lemma PlainNames()
    ensures {"id", "name", "status", "resource_id"} !! {"created_at", "updated_at", "certified_at", "verified_at"}
  {
    assert "created_at"[0] == 'c' && "updated_at"[0] == 'u' && "certified_at"[0] == 'c' && "verified_at"[0] == 'v';
  }

  lemma ServiceHours(s: ServiceSource, objectId: string, id: int, reformat: Reformat)
    requires Stamped(s.columns, STAMPS, reformat).Some?
    ensures ServiceRecord(s, objectId, id, reformat).None? <==>
            OpenTimesField(if UsesResourceSchedule(s) then s.resourceSchedule else s.schedule).None?
  {
    hide Stamped, OpenTimesField, Attributed, AddressRecords, Days, ServiceLocation, UsesResourceSchedule;
  }

  /** With sound columns the refresh fails exactly when it meets such a day. */
  lemma FinishRefused(t: Tables, r: int, reformat: Reformat)
    requires SoundColumns(t, reformat) && r in t.resources
    ensures CanFinish(t, reformat, r) <==> !ShowsUnreadable(t, r)
  {
    hide CanRebuildResource, CanRebuildService, UnreadableHours, HoursOf, StampsParse, DaysNamed, DistinctAddresses;
    ResourceRefused(t, r, reformat);
    forall s | s in t.services && t.services[s].resourceId == Some(r)
      ensures s in ServicesOf(t, t.serviceIds, r)
      ensures CanRebuildService(t, reformat, s) <==> !(ServiceApproved(t, s) && UnreadableHours(HoursOf(t, s, r)))
    {
      assert s in t.(schedules := []).serviceIds;
      ServiceRefused(t, s, r, reformat);
    }
  }

  // ----- The commits -----

  predicate NamesWeekday(c: ScheduleChanges) { c.day.Some? ==> Abbreviation(c.day.value).Some? }

  function WithScheduleDays(t: Tables, row: ScheduleRow, days: seq<DayRow>): Tables
  {
    t.(schedules := WithDays(t.schedules, row, days))
  }

  lemma DaysOnlyOwner(t: Tables, row: ScheduleRow, days: seq<DayRow>)
    ensures OnlyOwner(t, WithScheduleDays(t, row, days), row.owner)
  {
    hide ScheduleOf, Attached;
    forall o | o != row.owner ensures ScheduleOf(t.schedules, o) == ScheduleOf(WithDays(t.schedules, row, days), o) {
      DaysElsewhere(t.schedules, row, days, o);
    }
  }

  lemma DaysColumns(t: Tables, row: ScheduleRow, days: seq<DayRow>, r: int, now: string, reformat: Reformat)
    requires Sound(t, reformat) && reformat(now).Some?
    ensures SoundColumns(TouchOwner(WithScheduleDays(t, row, days), Some(r), now), reformat)
  {
    hide StampsParse, DaysNamed, DistinctAddresses, Touched;
    var bare := t.(schedules := []);
    SoundTouch(bare, r, now, reformat);
    assert TouchOwner(WithScheduleDays(t, row, days), Some(r), now).(schedules := []) == TouchResource(bare, r, now);
  }

  lemma {:induction false} WithDaysNamed(rows: seq<ScheduleRow>, row: ScheduleRow, days: seq<DayRow>)
    requires (forall x :: x in rows ==> DaysNamed(x.days)) && DaysNamed(days)
    ensures forall x :: x in WithDays(rows, row, days) ==> DaysNamed(x.days)
    decreases |rows|
  {
    hide DaysNamed;
    if rows != [] {
      assert rows[0] in rows && forall x :: x in rows[1..] ==> x in rows;
      WithDaysNamed(rows[1..], row, days);
    }
  }

  lemma DaysSound(t: Tables, row: ScheduleRow, days: seq<DayRow>, r: int, now: string, reformat: Reformat)
    requires Sound(t, reformat) && reformat(now).Some? && DaysNamed(days)
    ensures Sound(TouchOwner(WithScheduleDays(t, row, days), Some(r), now), reformat)
  {
    hide StampsParse, DaysNamed, TouchResource, DistinctAddresses;
    WithDaysNamed(t.schedules, row, days);
    SoundTouch(WithScheduleDays(t, row, days), r, now, reformat);
  }

  lemma {:induction false} EditedNamed(rows: seq<DayRow>, id: int, c: ScheduleChanges)
    requires DaysNamed(rows) && NamesWeekday(c)
    ensures DaysNamed(EditedDays(rows, id, c))
    decreases |rows|
  {
    hide Abbreviation;
    if rows != [] {
      assert rows[0] in rows && forall x :: x in rows[1..] ==> x in rows;
      EditedNamed(rows[1..], id, c);
    }
  }

  lemma SoundDays(t: Tables, row: ScheduleRow, reformat: Reformat)
    requires Sound(t, reformat) && row in t.schedules
    ensures DaysNamed(row.days)
  {
  }

  // ----- The handlers -----

  /** The new days of a schedule, committed, and the refresh of the resource behind it. */
  method CommitDays(site: Site, row: ScheduleRow, days: seq<DayRow>, r: int, now: string) returns (reply: Reply)
    requires WellFormed(site.db) && ResourceOf(site.db, row.owner) == Some(r) && r in site.db.resources
    modifies site`db, site`index
    ensures !reply.Refused?
    ensures site.db == TouchOwner(WithScheduleDays(old(site.db), row, days), Some(r), now) && WellFormed(site.db)
    ensures reply.Done? ==>
              Settled(old(site.index), old(site.db), site.index, site.db, site.reformat,
                      ReachedResources(old(site.db), Some(r)), ReachedServices(old(site.db), Some(r)))
    ensures Sound(old(site.db), site.reformat) && site.reformat(now).Some? ==>
              (reply == Failed <==> ShowsUnreadable(site.db, r))
    ensures Sound(old(site.db), site.reformat) && site.reformat(now).Some? && DaysNamed(days) ==>
              reply == Done && Sound(site.db, site.reformat)
  {
    hide WellFormed, Settled, Sound, TouchOwner, CanFinish, Reaches, OnlyOwner, ReachedResources, ReachedServices,
      ResourceOf, DaysNamed, ShowsUnreadable, SoundColumns;
    ghost var t, b := site.db, TouchOwner(WithScheduleDays(site.db, row, days), Some(r), now);
    DaysOnlyOwner(t, row, days);
    OwnerReaches(t, WithScheduleDays(t, row, days), row.owner, site.reformat);
    SameResources(t, row, days, r, now);
    if Sound(t, site.reformat) && site.reformat(now).Some? {
      DaysColumns(t, row, days, r, now, site.reformat);
      FinishRefused(b, r, site.reformat);
      if DaysNamed(days) {
        DaysSound(t, row, days, r, now, site.reformat);
      }
    }
    var ok := CommitAndFinish(site, WithScheduleDays(site.db, row, days), Some(r), now);
    return if ok then Done else Failed;
  }

  lemma SameResources(t: Tables, row: ScheduleRow, days: seq<DayRow>, r: int, now: string)
    ensures TouchOwner(WithScheduleDays(t, row, days), Some(r), now).resources.Keys == t.resources.Keys
  {
    hide Touched;
  }

  /** The resource that a change of this schedule names. */
  function BehindSchedule(t: Tables, found: Option<ScheduleRow>): Option<int>
  {
    if found.None? then None else
      var r := ResourceOf(t, found.value.owner);
      if r.Some? && r.value in t.resources then r else None
  }

  /** The resource that a schedule belongs to, itself or through its service, when there is such a row. */
  lemma ScheduleReaches(t: Tables, row: ScheduleRow, r: int)
    ensures BehindSchedule(t, Some(row)) == Some(r) <==>
            r in t.resources &&
            (row.owner == OfResource(r) ||
             exists s :: row.owner == OfService(s) && s in t.services && t.services[s].resourceId == Some(r))
    ensures BehindSchedule(t, None) == None
  {
  }

  function EditedDay(t: Tables, id: int, c: ScheduleChanges, now: string): Tables
    requires ScheduleOfDay(t.schedules, id).Some?
  {
    var row := ScheduleOfDay(t.schedules, id).value;
    TouchOwner(EditDay(t, row, id, c), ResourceOf(t, row.owner), now)
  }

  /**
    Changing a day: from sound rows the refresh fails exactly when an approved record of the
    resource then shows a day with a slot that is no weekday.
   */
  method EditScheduleDay(site: Site, id: int, c: ScheduleChanges, now: string) returns (reply: Reply)
    requires WellFormed(site.db)
    modifies site`db, site`index
    ensures reply.Refused? <==> BehindSchedule(old(site.db), ScheduleOfDay(old(site.db).schedules, id)).None?
    ensures reply.Refused? ==> reply == Refused(SERVER_ERROR) && site.db == old(site.db) && site.index == old(site.index)
    ensures !reply.Refused? ==> site.db == EditedDay(old(site.db), id, c, now)
    ensures reply.Done? ==>
              var r := BehindSchedule(old(site.db), ScheduleOfDay(old(site.db).schedules, id));
              Settled(old(site.index), old(site.db), site.index, site.db, site.reformat,
                      ReachedResources(old(site.db), r), ReachedServices(old(site.db), r))
    ensures Sound(old(site.db), site.reformat) && site.reformat(now).Some? ==>
              (reply == Failed <==>
               !reply.Refused? &&
               ShowsUnreadable(site.db, BehindSchedule(old(site.db), ScheduleOfDay(old(site.db).schedules, id)).value))
    ensures Sound(old(site.db), site.reformat) && site.reformat(now).Some? && NamesWeekday(c) ==>
              reply != Failed && Sound(site.db, site.reformat)
    ensures WellFormed(site.db)
  {
    hide WellFormed, Settled, Sound, TouchOwner, ReachedResources, ReachedServices, DaysNamed, ShowsUnreadable,
      EditedDays,
      NamesWeekday, ScheduleOfDay;
    var found := ScheduleOfDay(site.db.schedules, id);
    var resource := BehindSchedule(site.db, found);
    if resource.None? {
      return Refused(SERVER_ERROR);
    }
    var row := found.value;
    if Sound(site.db, site.reformat) && NamesWeekday(c) {
      SoundDays(site.db, row, site.reformat);
      EditedNamed(row.days, id, c);
    }
    reply := CommitDays(site, row, EditedDays(row.days, id, c), resource.value, now);
  }

  function AddedDay(t: Tables, scheduleId: int, id: int, c: ScheduleChanges, now: string): Tables
    requires FindSchedule(t.schedules, scheduleId).Some?
  {
    var row := FindSchedule(t.schedules, scheduleId).value;
    TouchOwner(AddDay(t, row, id, c), ResourceOf(t, row.owner), now)
  }

  /** A day that is inserted must have a name; a change that would delete it at once inserts nothing. */
  predicate CanAddDay(t: Tables, scheduleId: int, c: ScheduleChanges)
  {
    BehindSchedule(t, FindSchedule(t.schedules, scheduleId)).Some? && (DeletesDay(c) || c.day.Some?)
  }

  method CreateScheduleDay(site: Site, scheduleId: int, id: int, c: ScheduleChanges, now: string) returns (reply: Reply)
    requires WellFormed(site.db)
    modifies site`db, site`index
    ensures reply.Refused? <==> scheduleId == 0 || !CanAddDay(old(site.db), scheduleId, c)
    ensures reply.Refused? ==>
              reply == Refused(if scheduleId == 0 then BAD_REQUEST else SERVER_ERROR) &&
              site.db == old(site.db) && site.index == old(site.index)
    ensures !reply.Refused? ==> site.db == AddedDay(old(site.db), scheduleId, id, c, now)
    ensures reply.Done? ==>
              var r := BehindSchedule(old(site.db), FindSchedule(old(site.db).schedules, scheduleId));
              Settled(old(site.index), old(site.db), site.index, site.db, site.reformat,
                      ReachedResources(old(site.db), r), ReachedServices(old(site.db), r))
    ensures Sound(old(site.db), site.reformat) && site.reformat(now).Some? ==>
              (reply == Failed <==>
               !reply.Refused? &&
               ShowsUnreadable(site.db, BehindSchedule(old(site.db), FindSchedule(old(site.db).schedules, scheduleId)).value))
    ensures Sound(old(site.db), site.reformat) && site.reformat(now).Some? && NamesWeekday(c) ==>
              reply != Failed && Sound(site.db, site.reformat)
    ensures WellFormed(site.db)
  {
    hide WellFormed, Settled, Sound, TouchOwner, ReachedResources, ReachedServices, DaysNamed, ShowsUnreadable,
      NamesWeekday,
      FindSchedule;
    if scheduleId == 0 {
      return Refused(BAD_REQUEST);
    }
    var found := FindSchedule(site.db.schedules, scheduleId);
    var resource := BehindSchedule(site.db, found);
    if resource.None? {
      return Refused(SERVER_ERROR);
    }
    var row := found.value;
    var days := row.days;
    if !DeletesDay(c) {
      if c.day.None? {
        return Refused(SERVER_ERROR);
      }
      days := days + [DayRow(id, ScheduleDay(c.day.value, c.opensAt.GetOr(None), c.closesAt.GetOr(None)))];
    } else {
      SameDays(site.db.schedules, row);
    }
    if Sound(site.db, site.reformat) && NamesWeekday(c) {
      SoundDays(site.db, row, site.reformat);
      AddedNamed(row.days, days, c);
    }
    reply := CommitDays(site, row, days, resource.value, now);
  }

  lemma {:induction false} SameDays(rows: seq<ScheduleRow>, row: ScheduleRow)
    ensures WithDays(rows, row, row.days) == rows
    decreases |rows|
  {
    if rows != [] {
      SameDays(rows[1..], row);
    }
  }

  lemma AddedNamed(rows: seq<DayRow>, days: seq<DayRow>, c: ScheduleChanges)
    requires DaysNamed(rows) && NamesWeekday(c)
    requires days == rows || (exists row :: days == rows + [row] && c.day == Some(row.day.day))
    ensures DaysNamed(days)
  {
    hide Abbreviation;
  }
}
