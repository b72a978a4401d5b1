/**
  The handlers that write rows and then the search index: internal/resources/manager.go,
  internal/services/manager.go, and the end of every change request. Each commits one change
  and refreshes the objects it may have touched, so the index stays the view of the rows.
 */
module SiteHandlers {
  import opened IndexRecords
  import opened SearchIndex
  import opened SiteFrames
  import opened SiteSteps
  import opened SiteTables
  import opened SiteUpdates
  import opened Wrappers

  /** Refused requests change nothing; a request fails when the index cannot be refreshed after the commit. */
  datatype Reply = Done | Refused(code: int) | Failed

  const BAD_REQUEST := 400
  const NOT_FOUND := 404
  const PRECONDITION_FAILED := 412
  const SERVER_ERROR := 500

  /**
    The objects of the given sets are fresh and no other object was touched; an index in step
    stays in step, and one that shows the approved rows still does.
   */
  ghost predicate Settled(before: Index, a: Tables, after: Index, b: Tables, reformat: Reformat, resources: set<int>,
                          services: set<int>)
  {
    && Refreshed(before, after, b, reformat, resources, services)
    && (Mirrors(before, a, reformat) ==> Mirrors(after, b, reformat))
    && (Visible(before, a) ==> Visible(after, b))
  }

  lemma Settle(before: Index, a: Tables, after: Index, b: Tables, reformat: Reformat, resources: set<int>,
               services: set<int>)
    requires Leaves(a, b, reformat, resources, services)
    requires Refreshed(before, after, b, reformat, resources, services)
    ensures Settled(before, a, after, b, reformat, resources, services)
  {
    hide Mirrors, Visible, Leaves, Refreshed;
    LeavesStatus(a, b, reformat, resources, services);
    if Mirrors(before, a, reformat) {
      Restored(before, after, a, b, reformat, resources, services);
    }
    if Visible(before, a) {
      StillVisible(before, after, a, b, reformat, resources, services);
    }
  }

  /**
    The same for a change that leaves some objects behind: the index stays in step exactly when
    there are none.
   */
  ghost predicate SettledBut(before: Index, a: Tables, after: Index, b: Tables, reformat: Reformat, resources: set<int>,
                             services: set<int>, staleResources: set<int>, staleServices: set<int>)
  {
    && Refreshed(before, after, b, reformat, resources, services)
    && (Mirrors(before, a, reformat) ==> (Mirrors(after, b, reformat) <==> staleResources == {} && staleServices == {}))
    && (Visible(before, a) ==> Visible(after, b))
  }

  lemma SettleBut(before: Index, a: Tables, after: Index, b: Tables, reformat: Reformat, resources: set<int>,
                  services: set<int>, staleResources: set<int>, staleServices: set<int>)
    requires Refreshed(before, after, b, reformat, resources, services) && SameStatus(a, b, resources, services)
    requires Built(a, reformat) ==> Behind(a, b, reformat, resources, services, staleResources, staleServices)
    ensures SettledBut(before, a, after, b, reformat, resources, services, staleResources, staleServices)
  {
    hide Mirrors, Visible, Behind, Refreshed, Built, SameStatus;
    if Mirrors(before, a, reformat) {
      BuiltFrom(before, a, reformat);
      InStepIff(before, after, a, b, reformat, resources, services, staleResources, staleServices);
    }
    if Visible(before, a) {
      StillVisible(before, after, a, b, reformat, resources, services);
    }
  }

  lemma UntouchedBut(index: Index, t: Tables, reformat: Reformat)
    ensures SettledBut(index, t, index, t, reformat, {}, {}, {}, {})
  {
    hide Mirrors, Visible, Refreshed;
    RefreshedNone(index, t, reformat);
  }

  lemma SoundRebuilds(t: Tables, reformat: Reformat, ids: seq<int>)
    requires Sound(t, reformat)
    ensures forall id :: id in t.resources ==> CanRebuildResource(t, reformat, id)
    ensures (forall id :: id in ids ==> id in t.services) ==> CanRebuildServices(t, reformat, ids)
  {
    hide Sound;
    SoundBuilds(t, reformat);
    BuildableRebuilds(t, reformat, ids);
  }

  lemma Untouched(index: Index, t: Tables, reformat: Reformat)
    ensures Settled(index, t, index, t, reformat, {}, {})
  {
    hide Mirrors, Visible, Refreshed;
    RefreshedNone(index, t, reformat);
  }

  // ----- Removal from the index -----

  method DeleteResourceObject(site: Site, id: int)
    requires !ResourceApproved(site.db, id)
    modifies site`index
    ensures Refreshed(old(site.index), site.index, site.db, site.reformat, {id}, {})
  {
    hide ResourceObjectId, ServiceObjectId, ResourceApproved, ResourceStatusRecord;
    site.index := site.index - {ResourceObjectId(id)};
    ObjectIdsOf({id}, {}, id);
  }

  method DeleteServiceObjects(site: Site, ids: seq<int>)
    requires forall id :: id in ids ==> !ServiceApproved(site.db, id)
    modifies site`index
    ensures Refreshed(old(site.index), site.index, site.db, site.reformat, {}, IdSet(ids))
  {
    hide ResourceObjectId, ServiceObjectId, ServiceApproved, ServiceStatusRecord;
    for i := 0 to |ids|
      invariant SameOutside(old(site.index), site.index, ObjectIds({}, IdSet(ids)))
      invariant forall id :: id in ids[..i] ==> ServiceObjectId(id) !in site.index
    {
      ObjectIdsOf({}, IdSet(ids), ids[i]);
      assert ids[i] in ids;
      site.index := site.index - {ServiceObjectId(ids[i])};
      assert forall id :: id in ids[..i + 1] ==> id == ids[i] || id in ids[..i];
    }
    assert ids[..|ids|] == ids;
  }

  method DeleteResource(site: Site, id: int, now: string) returns (reply: Reply)
    requires WellFormed(site.db)
    modifies site`db, site`index
    ensures reply == if id !in old(site.db).resources then Refused(NOT_FOUND)
                     else if !ResourceApproved(old(site.db), id) then Refused(PRECONDITION_FAILED)
                     else Done
    ensures reply.Refused? ==> site.db == old(site.db) && site.index == old(site.index)
    ensures reply.Done? ==> site.db == DeactivateResource(old(site.db), id, now)
    ensures reply != Failed ==>
              Settled(old(site.index), old(site.db), site.index, site.db, site.reformat,
                      if reply.Done? then {id} else {},
                      if reply.Done? then IdSet(ApprovedServicesOf(old(site.db), old(site.db).serviceIds, id)) else {})
    ensures Sound(old(site.db), site.reformat) && site.reformat(now).Some? ==> Sound(site.db, site.reformat)
    ensures WellFormed(site.db)
  {
    hide Settled, Sound, Leaves, Refreshed, ResourceObjectId, ServiceObjectId;
    Untouched(site.index, site.db, site.reformat);
    if id !in site.db.resources {
      return Refused(NOT_FOUND);
    }
    if site.db.resources[id].status != Some(APPROVED) {
      return Refused(PRECONDITION_FAILED);
    }
    ghost var before, t := site.index, site.db;
    var gone := ApprovedServicesOf(site.db, site.db.serviceIds, id);
    DeactivateResourceLeaves(t, id, now, site.reformat);
    site.db := DeactivateResource(site.db, id, now);
    DeleteResourceObject(site, id);
    ghost var middle := site.index;
    DeleteServiceObjects(site, gone);
    RefreshedChain(before, middle, site.index, site.db, site.reformat, {id}, {}, {}, IdSet(gone));
    assert {id} + {} == {id} && {} + IdSet(gone) == IdSet(gone);
    Settle(before, t, site.index, site.db, site.reformat, {id}, IdSet(gone));
    if Sound(t, site.reformat) && site.reformat(now).Some? {
      DeactivateResourceSound(t, id, now, site.reformat);
    }
    return Done;
  }

  // ----- Deletion of a service -----

  /** The parent that a deletion touches must be there, or the transaction is rolled back. */
  predicate ParentExists(t: Tables, id: int)
  {
    id in t.services && (t.services[id].resourceId.Some? ==> t.services[id].resourceId.value in t.resources)
  }

  method DeleteService(site: Site, id: int, now: string) returns (reply: Reply)
    requires WellFormed(site.db)
    modifies site`db, site`index
    ensures reply.Refused? <==> !ServiceApproved(old(site.db), id) || !ParentExists(old(site.db), id)
    ensures reply.Refused? ==> reply == Refused(
              if id !in old(site.db).services then NOT_FOUND
              else if !ServiceApproved(old(site.db), id) then PRECONDITION_FAILED
              else SERVER_ERROR)
    ensures reply.Refused? ==> site.db == old(site.db) && site.index == old(site.index)
    ensures reply.Done? ==> site.db == DeactivateService(old(site.db), id, now)
    ensures reply != Failed ==>
              Settled(old(site.index), old(site.db), site.index, site.db, site.reformat,
                      if reply.Done? then Owning(old(site.db).services[id]) else {}, if reply.Done? then {id} else {})
    ensures Sound(old(site.db), site.reformat) && site.reformat(now).Some? ==>
              reply != Failed && Sound(site.db, site.reformat)
    ensures WellFormed(site.db)
  {
    hide Settled, Leaves, Refreshed, ResourceObjectId, ServiceObjectId, DeactivateService, StampsParse;
    Untouched(site.index, site.db, site.reformat);
    if id !in site.db.services {
      return Refused(NOT_FOUND);
    }
    if site.db.services[id].status != Some(APPROVED) {
      return Refused(PRECONDITION_FAILED);
    }
    ghost var before, t := site.index, site.db;
    var parent := site.db.services[id].resourceId;
    if parent.Some? && parent.value !in site.db.resources {
      return Refused(SERVER_ERROR);
    }
    DeactivateServiceLeaves(t, id, now, site.reformat);
    DeactivatedParent(t, id, now);
    site.db := DeactivateService(site.db, id, now);
    if Sound(t, site.reformat) && site.reformat(now).Some? {
      DeactivateServiceSound(t, id, now, site.reformat);
      SoundRebuilds(site.db, site.reformat, []);
    }
    if parent.Some? {
      var built := site.RebuildResource(parent.value);
      if !built {
        return Failed;
      }
    } else {
      RefreshedNone(before, site.db, site.reformat);
    }
    ghost var middle := site.index;
    DeleteServiceObjects(site, [id]);
    OneId(id);
    RefreshedChain(before, middle, site.index, site.db, site.reformat, Owning(t.services[id]), {}, {}, {id});
    assert Owning(t.services[id]) + {} == Owning(t.services[id]) && {} + {id} == {id};
    Settle(before, t, site.index, site.db, site.reformat, Owning(t.services[id]), {id});
    return Done;
  }

  lemma OneId(id: int)
    ensures IdSet([id]) == {id}
  {
  }

  lemma DeactivatedParent(t: Tables, id: int, now: string)
    requires id in t.services
    ensures var b := DeactivateService(t, id, now);
            b.resources.Keys == t.resources.Keys && !ServiceApproved(b, id)
  {
    hide Touched;
  }

  // ----- Creation -----

  /** Rebuilds the resource, then each created service, stopping at the first failure. */
  method ReindexCreatedServices(site: Site, resourceId: int, ids: seq<int>) returns (ok: bool)
    modifies site`index
    ensures ok ==> Refreshed(old(site.index), site.index, site.db, site.reformat, {resourceId}, IdSet(ids))
    ensures ok <==> CanRebuildResource(site.db, site.reformat, resourceId) &&
                    CanRebuildServices(site.db, site.reformat, ids)
  {
    hide Refreshed, IdSet, ResourceObjectId, ServiceObjectId, CanRebuildResource, CanRebuildServices;
    ghost var before := site.index;
    var built := site.RebuildResource(resourceId);
    if !built {
      return false;
    }
    ghost var middle := site.index;
    built := site.RebuildServices(ids);
    if !built {
      return false;
    }
    RefreshedChain(before, middle, site.index, site.db, site.reformat, {resourceId}, {}, {}, IdSet(ids));
    assert {resourceId} + {} == {resourceId} && {} + IdSet(ids) == IdSet(ids);
    return true;
  }

  /** One insert for each value: the loops over categories, eligibilities, notes and instructions. */
  method InsertRows(rows: seq<Attachment>, owner: Owner, kind: string, values: seq<(int, Json)>)
    returns (r: seq<Attachment>)
    ensures r == rows + OwnedRows(owner, kind, values)
  {
    r := rows;
    for i := 0 to |values|
      invariant r == rows + OwnedRows(owner, kind, values[..i])
    {
      r := r + [Attachment(values[i].0, owner, kind, values[i].1)];
    }
    assert values[..|values|] == values;
  }

  /** The schedule, then its days one after another. */
  method InsertSchedule(rows: seq<ScheduleRow>, owner: Owner, id: int, days: seq<DayRow>) returns (r: seq<ScheduleRow>)
    ensures r == rows + [ScheduleRow(id, owner, days)]
  {
    var row := ScheduleRow(id, owner, []);
    r := rows + [row];
    for i := 0 to |days|
      invariant row == ScheduleRow(id, owner, days[..i]) && r == rows + [row]
    {
      row := row.(days := row.days + [days[i]]);
      r := r[|rows| := row];
    }
    assert days[..|days|] == days;
  }

  method InsertOne(rows: Tables, resourceId: int, n: NewService, now: string) returns (t: Tables, id: int)
    ensures t == InsertService(rows, resourceId, n, now) && id == rows.nextServiceId
  {
    hide Touched;
    id := rows.nextServiceId;
    var owner := OfService(id);
    var columns := Touched(n.columns["created_at" := JText(now)], now);
    t := rows.(services := rows.services[id := ServiceRow(Some(APPROVED), Some(resourceId), n.name, columns)],
               serviceIds := rows.serviceIds + [id],
               nextServiceId := id + 1);
    var attached := InsertRows(t.attachments, owner, "category", Joined(n.categories));
    attached := InsertRows(attached, owner, "eligibility", Joined(n.eligibilities));
    attached := InsertRows(attached, owner, "note", n.notes);
    attached := InsertRows(attached, owner, "instruction", n.instructions);
    t := t.(attachments := attached);
    if n.schedule.Some? {
      var schedules := InsertSchedule(t.schedules, owner, n.schedule.value.0, n.schedule.value.1);
      t := t.(schedules := schedules);
    }
    assert attached == rows.attachments + NewRows(owner, n);
  }

  /** Inserts the services one after another, inside one transaction, and touches the resource. */
  method InsertCreated(rows: Tables, resourceId: int, news: seq<NewService>, now: string)
    returns (t: Tables, ids: seq<int>)
    ensures t == AddServices(rows, resourceId, news, now)
    ensures ids == NewIds(rows, |news|)
  {
    hide InsertService, TouchResource;
    t, ids := rows, [];
    for i := 0 to |news|
      invariant InsertServices(t, resourceId, news[i..], now) == InsertServices(rows, resourceId, news, now)
      invariant ids == NewIds(rows, i) && t.nextServiceId == rows.nextServiceId + i
    {
      InsertNext(t, resourceId, news, i, now);
      var id;
      t, id := InsertOne(t, resourceId, news[i], now);
      ids := ids + [id];
    }
    assert news[|news|..] == [];
    t := TouchResource(t, resourceId, now);
  }

  /** A missing resource breaks the foreign key, and everything is rolled back. */
  method CreateServices(site: Site, resourceId: int, news: seq<NewService>, now: string) returns (reply: Reply)
    requires WellFormed(site.db)
    modifies site`db, site`index
    ensures reply.Refused? <==> news != [] && resourceId !in old(site.db).resources
    ensures reply.Refused? ==> reply == Refused(SERVER_ERROR) && site.db == old(site.db) && site.index == old(site.index)
    ensures reply.Done? ==>
              site.db == if news == [] then old(site.db) else AddServices(old(site.db), resourceId, news, now)
    ensures reply != Failed ==>
              Settled(old(site.index), old(site.db), site.index, site.db, site.reformat,
                      if reply.Done? && news != [] then {resourceId} else {},
                      if reply.Done? then IdSet(NewIds(old(site.db), |news|)) else {})
    ensures Sound(old(site.db), site.reformat) && SoundAll(news, site.reformat) && site.reformat(now).Some? ==>
              reply != Failed && Sound(site.db, site.reformat)
    ensures WellFormed(site.db)
  {
    hide Settled, Leaves, Refreshed, Sound, SoundAll, WellFormed, AddServices, IdSet;
    Untouched(site.index, site.db, site.reformat);
    if news == [] {
      NoIds(site.db);
      return Done;
    }
    if resourceId !in site.db.resources {
      return Refused(SERVER_ERROR);
    }
    ghost var before, t := site.index, site.db;
    var rows, ids := InsertCreated(site.db, resourceId, news, now);
    site.db := rows;
    CreateServicesLeaves(t, resourceId, news, now, site.reformat);
    if Sound(t, site.reformat) && SoundAll(news, site.reformat) && site.reformat(now).Some? {
      CreateServicesSound(t, resourceId, news, now, site.reformat);
      SoundRebuilds(site.db, site.reformat, ids);
    }
    CreatedRows(t, resourceId, news, now);
    var built := ReindexCreatedServices(site, resourceId, ids);
    if !built {
      return Failed;
    }
    Settle(before, t, site.index, site.db, site.reformat, {resourceId}, IdSet(ids));
    return Done;
  }

  lemma NoIds(t: Tables)
    ensures IdSet(NewIds(t, 0)) == {}
  {
  }

  lemma CreateServicesSound(t: Tables, resourceId: int, news: seq<NewService>, now: string, reformat: Reformat)
    requires Sound(t, reformat) && SoundAll(news, reformat) && resourceId in t.resources && reformat(now).Some?
    ensures Sound(AddServices(t, resourceId, news, now), reformat)
  {
    hide Sound, SoundNew, InsertServices, TouchResource;
    InsertServicesSound(t, resourceId, news, now, reformat);
    SoundTouch(InsertServices(t, resourceId, news, now), resourceId, now, reformat);
  }

  ghost predicate SoundAll(news: seq<NewService>, reformat: Reformat)
  {
    forall n :: n in news ==> SoundNew(n, reformat)
  }

  lemma InsertNext(rows: Tables, resourceId: int, news: seq<NewService>, i: nat, now: string)
    requires i < |news|
    ensures InsertServices(rows, resourceId, news[i..], now) ==
            InsertServices(InsertService(rows, resourceId, news[i], now), resourceId, news[i + 1..], now)
    ensures InsertService(rows, resourceId, news[i], now).nextServiceId == rows.nextServiceId + 1
  {
    hide Touched, NewRows;
    assert news[i..][1..] == news[i + 1..];
  }

  lemma {:induction false} CreatedRows(t: Tables, resourceId: int, news: seq<NewService>, now: string)
    ensures var b := AddServices(t, resourceId, news, now);
            && b.resources.Keys == t.resources.Keys
            && forall id :: id in NewIds(t, |news|) ==> id in b.services
  {
    hide Touched, InsertServices;
    InsertedRows(t, resourceId, news, now);
  }

  lemma {:induction false} InsertedRows(t: Tables, resourceId: int, news: seq<NewService>, now: string)
    ensures var b := InsertServices(t, resourceId, news, now);
            b.resources == t.resources && b.services.Keys == t.services.Keys + IdSet(NewIds(t, |news|))
    decreases |news|
  {
    hide Touched, NewRows, IdSet;
    if news == [] {
      assert NewIds(t, 0) == [];
      RefreshedNone(map[], t, (s: string) => None);
    } else {
      var t' := InsertService(t, resourceId, news[0], now);
      InsertedRows(t', resourceId, news[1..], now);
      NextIds(t, resourceId, news[0], now, |news| - 1);
    }
  }

  // ----- Notes and certification -----

  method Certify(site: Site, id: int, now: string) returns (reply: Reply)
    requires WellFormed(site.db)
    modifies site`db, site`index
    ensures reply.Refused? <==> id !in old(site.db).resources
    ensures reply.Refused? ==> reply == Refused(NOT_FOUND) && site.db == old(site.db) && site.index == old(site.index)
    ensures reply.Done? ==> site.db == MarkCertified(old(site.db), id, now)
    ensures reply != Failed ==>
              Settled(old(site.index), old(site.db), site.index, site.db, site.reformat,
                      if reply.Done? then {id} else {}, {})
    ensures Sound(old(site.db), site.reformat) && site.reformat(now).Some? ==>
              reply != Failed && Sound(site.db, site.reformat)
    ensures WellFormed(site.db)
  {
    hide Settled, Leaves, Refreshed, Sound, Touched;
    Untouched(site.index, site.db, site.reformat);
    if id !in site.db.resources {
      return Refused(NOT_FOUND);
    }
    ghost var before, t := site.index, site.db;
    CertifyLeaves(t, id, now, site.reformat);
    site.db := MarkCertified(site.db, id, now);
    if Sound(t, site.reformat) && site.reformat(now).Some? {
      CertifySound(t, id, now, site.reformat);
      SoundRebuilds(site.db, site.reformat, [id]);
    }
    var built := site.RebuildResource(id);
    if !built {
      return Failed;
    }
    Settle(before, t, site.index, site.db, site.reformat, {id}, {});
    return Done;
  }

  method CreateResourceNote(site: Site, id: int, row: int, note: Json, now: string) returns (reply: Reply)
    requires WellFormed(site.db)
    modifies site`db, site`index
    ensures reply.Refused? <==> id !in old(site.db).resources
    ensures reply.Refused? ==> reply == Refused(NOT_FOUND) && site.db == old(site.db) && site.index == old(site.index)
    ensures reply.Done? ==> site.db == NoteOnResource(old(site.db), id, row, note, now)
    ensures reply != Failed ==>
              Settled(old(site.index), old(site.db), site.index, site.db, site.reformat,
                      if reply.Done? then {id} else {}, {})
    ensures Sound(old(site.db), site.reformat) && site.reformat(now).Some? ==>
              reply != Failed && Sound(site.db, site.reformat)
    ensures WellFormed(site.db)
  {
    hide Settled, Leaves, Refreshed, Sound, Touched;
    Untouched(site.index, site.db, site.reformat);
    if id !in site.db.resources {
      return Refused(NOT_FOUND);
    }
    ghost var before, t := site.index, site.db;
    NoteOnResourceLeaves(t, id, row, note, now, site.reformat);
    site.db := NoteOnResource(site.db, id, row, note, now);
    if Sound(t, site.reformat) && site.reformat(now).Some? {
      SoundAttachments(t, AddNote(t, OfResource(id), row, note).attachments, site.reformat);
      SoundTouch(AddNote(t, OfResource(id), row, note), id, now, site.reformat);
      SoundRebuilds(site.db, site.reformat, [id]);
    }
    var built := site.RebuildResource(id);
    if !built {
      return Failed;
    }
    Settle(before, t, site.index, site.db, site.reformat, {id}, {});
    return Done;
  }

  /** A note of a service does not touch its resource. */
  method CreateServiceNote(site: Site, id: int, row: int, note: Json) returns (reply: Reply)
    requires WellFormed(site.db)
    modifies site`db, site`index
    ensures reply.Refused? <==> id !in old(site.db).services
    ensures reply.Refused? ==> reply == Refused(BAD_REQUEST) && site.db == old(site.db) && site.index == old(site.index)
    ensures reply.Done? ==> site.db == AddNote(old(site.db), OfService(id), row, note)
    ensures reply != Failed ==>
              Settled(old(site.index), old(site.db), site.index, site.db, site.reformat,
                      {}, if reply.Done? then {id} else {})
    ensures Sound(old(site.db), site.reformat) ==> reply != Failed && Sound(site.db, site.reformat)
    ensures WellFormed(site.db)
  {
    hide Settled, Leaves, Refreshed, Sound;
    Untouched(site.index, site.db, site.reformat);
    if id !in site.db.services {
      return Refused(BAD_REQUEST);
    }
    ghost var before, t := site.index, site.db;
    ServiceNoteLeaves(t, id, row, note, site.reformat);
    site.db := AddNote(site.db, OfService(id), row, note);
    if Sound(t, site.reformat) {
      SoundAttachments(t, site.db.attachments, site.reformat);
      SoundRebuilds(site.db, site.reformat, [id]);
    }
    var built := site.RebuildService(id);
    if !built {
      return Failed;
    }
    Settle(before, t, site.index, site.db, site.reformat, {}, {id});
    return Done;
  }

  // ----- Addresses of a service -----

  predicate AddressExists(rows: seq<AddressRow>, id: int) { exists row :: row in rows && row.id == id }

  method AddAddress(site: Site, id: int, address: int) returns (reply: Reply)
    requires WellFormed(site.db)
    modifies site`db, site`index
    ensures reply.Refused? <==> id !in old(site.db).services || !AddressExists(old(site.db).addresses, address)
    ensures reply.Refused? ==> reply == Refused(BAD_REQUEST) && site.db == old(site.db) && site.index == old(site.index)
    ensures reply.Done? ==>
              site.db == if (id, address) in old(site.db).links then old(site.db) else Link(old(site.db), id, address)
    ensures reply != Failed ==>
              Settled(old(site.index), old(site.db), site.index, site.db, site.reformat,
                      {}, if reply.Done? && (id, address) !in old(site.db).links then {id} else {})
    ensures Sound(old(site.db), site.reformat) ==> reply != Failed && Sound(site.db, site.reformat)
    ensures WellFormed(site.db)
  {
    hide Settled, Leaves, Refreshed, Sound, WellFormed, AddressExists;
    Untouched(site.index, site.db, site.reformat);
    if id !in site.db.services || !AddressExists(site.db.addresses, address) {
      return Refused(BAD_REQUEST);
    }
    if (id, address) in site.db.links {
      return Done;
    }
    ghost var before, t := site.index, site.db;
    LinkFormed(t, id, address);
    LinkAdded(t, id, address, site.reformat);
    site.db := Link(site.db, id, address);
    if Sound(t, site.reformat) {
      SoundLinks(t, site.db.links, site.reformat);
      SoundRebuilds(site.db, site.reformat, [id]);
    }
    var built := site.RebuildService(id);
    if !built {
      return Failed;
    }
    Settle(before, t, site.index, site.db, site.reformat, {}, {id});
    return Done;
  }

  lemma LinkFormed(t: Tables, id: int, address: int)
    requires WellFormed(t) && AddressExists(t.addresses, address)
    ensures WellFormed(Link(t, id, address))
    ensures forall link :: link in Link(t, id, address).links ==> link.1 < t.nextAddressId
  {
    hide DistinctAddresses;
  }

  // ----- Change requests -----

  /** The rebuilds at the end of a change request do not fail. */
  ghost predicate CanFinish(t: Tables, reformat: Reformat, r: int)
  {
    CanRebuildResource(t, reformat, r) && CanRebuildServices(t, reformat, ServicesOf(t, t.serviceIds, r))
  }

  /** Touches the resource of a change request and indexes it with its services; without one there is nothing to do. */
  method FinishChangeRequest(site: Site, resourceId: Option<int>, now: string) returns (ok: bool)
    modifies site`db, site`index
    ensures site.db == if resourceId.Some? then TouchResource(old(site.db), resourceId.value, now) else old(site.db)
    ensures ok ==>
      if resourceId.Some? && resourceId.value in old(site.db).resources
      then Refreshed(old(site.index), site.index, site.db, site.reformat, {resourceId.value},
                     Namesakes(site.db, resourceId.value))
      else site.index == old(site.index)
    ensures ok <==> (resourceId.Some? && resourceId.value in old(site.db).resources ==>
                       CanFinish(site.db, site.reformat, resourceId.value))
  {
    hide Refreshed, IdSet, ResourceObjectId, ServiceObjectId, CanRebuildResource, CanRebuildServices, ObjectIds;
    if resourceId.None? || resourceId.value !in site.db.resources {
      return true;
    }
    site.db := TouchResource(site.db, resourceId.value, now);
    ok := site.RebuildResourceAndServices(resourceId.value);
  }

  lemma SoundFinishes(t: Tables, reformat: Reformat, r: int)
    requires Sound(t, reformat) && r in t.resources
    ensures CanFinish(t, reformat, r)
  {
    hide Sound, CanRebuildResource, CanRebuildServices;
    SoundBuilds(t, reformat);
    BuildableRebuilds(t, reformat, ServicesOf(t, t.serviceIds, r));
  }

  /** The change request that names a missing resource breaks a foreign key. */
  method EditResource(site: Site, id: int, status: Option<int>, name: Option<Json>, columns: Record, now: string)
    returns (reply: Reply)
    requires WellFormed(site.db)
    modifies site`db, site`index
    ensures reply.Refused? <==> id !in old(site.db).resources
    ensures reply.Refused? ==> reply == Refused(SERVER_ERROR) && site.db == old(site.db) && site.index == old(site.index)
    ensures !reply.Refused? ==> site.db == SiteUpdates.EditResource(old(site.db), id, status, name, columns, now)
    ensures reply != Failed ==>
              Settled(old(site.index), old(site.db), site.index, site.db, site.reformat,
                      if reply.Done? then {id} else {}, if reply.Done? then Namesakes(old(site.db), id) else {})
    ensures reply.Done? && Visible(old(site.index), old(site.db)) ==>
              (ResourceObjectId(id) in site.index <==>
               status == Some(1) || (status.None? && old(site.db.resources[id].status == Some(1))))
    ensures Sound(old(site.db), site.reformat) && PlainColumns(columns) && site.reformat(now).Some? ==>
              reply != Failed && Sound(site.db, site.reformat)
    ensures WellFormed(site.db)
  {
    hide Settled, Leaves, Refreshed, Sound, TouchResource, Namesakes, WellFormed, CanFinish, Visible, ResourceObjectId;
    Untouched(site.index, site.db, site.reformat);
    if id !in site.db.resources {
      return Refused(SERVER_ERROR);
    }
    ghost var before, t := site.index, site.db;
    EditResourceLeaves(t, id, status, name, columns, now, site.reformat);
    EditedNamesakes(t, id, status, name, columns, now);
    if Sound(t, site.reformat) && PlainColumns(columns) && site.reformat(now).Some? {
      EditResourceSound(t, id, status, name, columns, now, site.reformat);
      SoundFinishes(SiteUpdates.EditResource(t, id, status, name, columns, now), site.reformat, id);
    }
    site.db := ChangeResource(site.db, id, status, name, columns, now);
    var finished := FinishChangeRequest(site, Some(id), now);
    if !finished {
      return Failed;
    }
    Settle(before, t, site.index, site.db, site.reformat, {id}, Namesakes(t, id));
    if Visible(before, t) {
      EditShows(before, t, site.index, id, status, name, columns, now, site.reformat);
    }
    return Done;
  }

  /** An edited resource is in the index exactly when the status it asked for, or else kept, is approved. */
  lemma EditShows(before: Index, t: Tables, after: Index, id: int, status: Option<int>, name: Option<Json>,
                  columns: Record, now: string, reformat: Reformat)
    requires id in t.resources && Visible(before, t)
    requires Settled(before, t, after, SiteUpdates.EditResource(t, id, status, name, columns, now), reformat, {id},
                     Namesakes(t, id))
    ensures ResourceObjectId(id) in after <==> status == Some(1) || (status.None? && t.resources[id].status == Some(1))
  {
    hide Refreshed, Mirrors, ResourceObjectId, ServiceObjectId, Touched, Namesakes;
    var b := SiteUpdates.EditResource(t, id, status, name, columns, now);
    assert Visible(after, b);
    assert ResourceObjectId(id) in after <==> ResourceApproved(b, id);
  }

  lemma EditedNamesakes(t: Tables, id: int, status: Option<int>, name: Option<Json>, columns: Record, now: string)
    requires id in t.resources
    ensures var b := SiteUpdates.EditResource(t, id, status, name, columns, now);
            Namesakes(b, id) == Namesakes(t, id) && id in b.resources
    ensures id in ChangeResource(t, id, status, name, columns, now).resources
  {
    hide Touched;
    ListingSame(t, SiteUpdates.EditResource(t, id, status, name, columns, now), t.serviceIds, id);
  }

  /** A service without a resource has no record, so its change request has nothing to refresh. */
  method EditService(site: Site, id: int, name: Option<Json>, columns: Record, categories: Option<seq<int>>,
                     eligibilities: Option<seq<int>>, now: string) returns (reply: Reply)
    requires WellFormed(site.db)
    modifies site`db, site`index
    ensures reply.Refused? <==> !ParentExists(old(site.db), id)
    ensures reply.Refused? ==>
              reply == Refused(if id in old(site.db).services then SERVER_ERROR else BAD_REQUEST) &&
              site.db == old(site.db) && site.index == old(site.index)
    ensures !reply.Refused? ==>
              site.db == SiteUpdates.EditService(old(site.db), id, name, columns, categories, eligibilities, now)
    ensures reply != Failed ==>
              Settled(old(site.index), old(site.db), site.index, site.db, site.reformat,
                      if reply.Done? then Owning(old(site.db).services[id]) else {},
                      if reply.Done? then Siblings(old(site.db), id) else {})
    ensures Sound(old(site.db), site.reformat) && PlainColumns(columns) && site.reformat(now).Some? ==>
              reply != Failed && Sound(site.db, site.reformat)
    ensures WellFormed(site.db)
  {
    hide Settled, Leaves, Refreshed, Sound, TouchResource, Namesakes, WellFormed, ChangeService, CanFinish;
    Untouched(site.index, site.db, site.reformat);
    if id !in site.db.services {
      return Refused(BAD_REQUEST);
    }
    ghost var before, t := site.index, site.db;
    var parent := site.db.services[id].resourceId;
    if parent.Some? && parent.value !in site.db.resources {
      return Refused(SERVER_ERROR);
    }
    EditServiceLeaves(t, id, name, columns, categories, eligibilities, now, site.reformat);
    EditedSiblings(t, id, name, columns, categories, eligibilities, now, site.reformat);
    ghost var b := SiteUpdates.EditService(t, id, name, columns, categories, eligibilities, now);
    if Sound(t, site.reformat) && PlainColumns(columns) && site.reformat(now).Some? {
      EditServiceSound(t, id, name, columns, categories, eligibilities, now, site.reformat);
      if parent.Some? {
        SoundFinishes(b, site.reformat, parent.value);
      }
    }
    site.db := ChangeService(site.db, id, name, columns, categories, eligibilities, now);
    var finished := FinishChangeRequest(site, parent, now);
    if !finished {
      return Failed;
    }
    RefreshedNone(before, b, site.reformat);
    Settle(before, t, site.index, site.db, site.reformat, Owning(t.services[id]), Siblings(t, id));
    return Done;
  }

  /** The services that are refreshed with a service: all of its resource, or none without one. */
  ghost function Siblings(t: Tables, id: int): set<int>
    requires id in t.services
  {
    if t.services[id].resourceId.Some? then Namesakes(t, t.services[id].resourceId.value) else {}
  }

  lemma EditedSiblings(t: Tables, id: int, name: Option<Json>, columns: Record, categories: Option<seq<int>>,
                       eligibilities: Option<seq<int>>, now: string, reformat: Reformat)
    requires WellFormed(t) && ParentExists(t, id)
    requires var b := SiteUpdates.EditService(t, id, name, columns, categories, eligibilities, now);
             Leaves(t, b, reformat, Owning(t.services[id]), {id})
    ensures var b := SiteUpdates.EditService(t, id, name, columns, categories, eligibilities, now);
            && Leaves(t, b, reformat, Owning(t.services[id]), Siblings(t, id))
            && b.resources.Keys == t.resources.Keys
            && (t.services[id].resourceId.Some? ==> Namesakes(b, t.services[id].resourceId.value) == Siblings(t, id))
    ensures ChangeService(t, id, name, columns, categories, eligibilities, now).resources == t.resources
  {
    hide SiteUpdates.EditService, Leaves, SameService, SameOwners, IdSet, WellFormed;
    var b := SiteUpdates.EditService(t, id, name, columns, categories, eligibilities, now);
    EditedOwners(t, id, name, columns, categories, eligibilities, now);
    if t.services[id].resourceId.Some? {
      ListingSame(t, b, t.serviceIds, t.services[id].resourceId.value);
      AmongSiblings(t, id);
      LeavesMore(t, b, reformat, Owning(t.services[id]), {id}, Owning(t.services[id]), Siblings(t, id));
    } else {
      WithoutOwner(t, b, reformat, id);
      WithoutService(t, b, reformat, Owning(t.services[id]), id);
    }
  }

  lemma EditedOwners(t: Tables, id: int, name: Option<Json>, columns: Record, categories: Option<seq<int>>,
                     eligibilities: Option<seq<int>>, now: string)
    requires ParentExists(t, id)
    ensures var b := SiteUpdates.EditService(t, id, name, columns, categories, eligibilities, now);
            && SameOwners(t, b, t.serviceIds) && b.serviceIds == t.serviceIds && b.resources.Keys == t.resources.Keys
            && id in b.services && b.services[id].resourceId == t.services[id].resourceId
            && b.services[id].status == t.services[id].status
    ensures ChangeService(t, id, name, columns, categories, eligibilities, now).resources == t.resources
  {
    hide Touched, Replace;
  }

  lemma AmongSiblings(t: Tables, id: int)
    requires WellFormed(t) && id in t.services
    ensures t.services[id].resourceId.Some? ==> {id} <= Siblings(t, id)
  {
    assert id in t.serviceIds;
  }

  lemma WithoutService(a: Tables, b: Tables, reformat: Reformat, resources: set<int>, id: int)
    requires Leaves(a, b, reformat, resources, {id}) && SameService(a, b, reformat, id)
    ensures Leaves(a, b, reformat, resources, {})
  {
    hide SameResource, SameService;
  }

  lemma WithoutOwner(a: Tables, b: Tables, reformat: Reformat, id: int)
    requires id in a.services && id in b.services && a.services[id].resourceId.None?
    requires b.services[id].resourceId.None? && b.services[id].status == a.services[id].status
    ensures SameService(a, b, reformat, id)
  {
  }
}
