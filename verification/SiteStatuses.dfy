/**
  The statuses alone: a small machine over which resources and services are approved, which the
  requests drive, and which says after every run what the search index shows.
 */
module SiteStatuses {
  import opened AddressChanges
  import opened CommittedRows
  import opened DayChanges
  import opened DayRequests
  import opened IndexRecords
  import opened RowChanges
  import opened RowRequests
  import opened SearchIndex
  import opened SiteEffects
  import opened SiteFrames
  import opened SiteHandlers
  import opened SiteRuns
  import opened SiteSteps
  import opened SiteTables
  import opened SiteUpdates
  import opened Wrappers

  /** Statuses are 0 pending, 1 approved, 2 rejected and 3 inactive, as the rows hold them. */
  datatype Standing = Standing(status: Option<int>, resource: Option<int>)

  /** next is the id that the next new service gets. */
  datatype Statuses = Statuses(resources: map<int, Option<int>>, services: map<int, Standing>, next: int)

  ghost function StatusesOf(t: Tables): Statuses
  {
    Statuses(map r | r in t.resources :: t.resources[r].status,
             map s | s in t.services :: Standing(t.services[s].status, t.services[s].resourceId), t.nextServiceId)
  }

  predicate Approved(m: map<int, Standing>, id: int) { id in m && m[id].status == Some(1) }

  /** Its resource is there, or it has none. */
  predicate Anchored(s: Statuses, id: int)
    requires id in s.services
  {
    s.services[id].resource.Some? ==> s.services[id].resource.value in s.resources
  }

  /** So many ids from the next one on. */
  ghost function Numbers(next: int, count: nat): (ids: set<int>)
    ensures forall k :: k in ids <==> next <= k < next + count
  {
    if count == 0 then {} else Numbers(next, count - 1) + {next + count - 1}
  }

  ghost function Step(s: Statuses, q: Request): Statuses
  {
    match q
    case RemovesResource(id) =>
      if id in s.resources && s.resources[id] == Some(1) then
        Statuses(s.resources[id := Some(3)],
                 map k | k in s.services ::
                   if s.services[k] == Standing(Some(1), Some(id)) then Standing(Some(3), Some(id)) else s.services[k],
                 s.next)
      else s
    case RemovesService(id) =>
      if Approved(s.services, id) && Anchored(s, id)
      then s.(services := s.services[id := s.services[id].(status := Some(3))]) else s
    case CreatesServices(id, news) =>
      if id in s.resources
      then s.(services := s.services + map k | k in Numbers(s.next, |news|) :: Standing(Some(1), Some(id)),
              next := s.next + |news|)
      else s
    case EditsResource(id, status, _, _) =>
      if id in s.resources && status.Some? then s.(resources := s.resources[id := status]) else s
    case _ => s
  }

  ghost function After(s: Statuses, run: Run): Statuses
    decreases |run|
  {
    if run == [] then s else Step(After(s, Front(run)), run[|run| - 1].0)
  }

  // ----- Each request moves the statuses as the machine does -----

  lemma Touching(t: Tables, id: int, now: string)
    ensures StatusesOf(TouchResource(t, id, now)) == StatusesOf(t)
  {
    hide Touched;
    assert StatusesOf(TouchResource(t, id, now)).resources == StatusesOf(t).resources;
  }

  lemma TouchingOwner(t: Tables, owner: Option<int>, now: string)
    ensures StatusesOf(TouchOwner(t, owner, now)) == StatusesOf(t)
  {
    hide TouchResource, StatusesOf;
    if owner.Some? { Touching(t, owner.value, now); }
  }

  /** Changes of other tables leave the statuses. */
  lemma OtherRows(a: Tables, b: Tables)
    requires a.resources == b.resources && a.services == b.services && a.nextServiceId == b.nextServiceId
    ensures StatusesOf(a) == StatusesOf(b)
  {
  }

  lemma RemovingResource(t: Tables, id: int, now: string)
    requires ResourceApproved(t, id)
    ensures StatusesOf(DeactivateResource(t, id, now)) == Step(StatusesOf(t), RemovesResource(id))
  {
    hide Touched;
    var b, s := StatusesOf(DeactivateResource(t, id, now)), Step(StatusesOf(t), RemovesResource(id));
    assert b.resources == s.resources;
    var after := DeactivateResource(t, id, now);
    forall k | k in t.services ensures k in after.services && b.services[k] == s.services[k] {
      var row := t.services[k];
      assert after.services[k] == if ApprovedUnder(row, id) then DeactivatedRow(row, now) else row;
    }
    assert b.services == s.services;
  }

  lemma RemovingService(t: Tables, id: int, now: string)
    requires ServiceApproved(t, id) && ParentExists(t, id)
    ensures StatusesOf(DeactivateService(t, id, now)) == Step(StatusesOf(t), RemovesService(id))
  {
    hide Touched, TouchResource;
    var m := t.(services := t.services[id := DeactivatedRow(t.services[id], now)]);
    var s := Step(StatusesOf(t), RemovesService(id));
    assert StatusesOf(m).services == s.services;
    if t.services[id].resourceId.Some? { Touching(m, t.services[id].resourceId.value, now); }
  }

  lemma Creating(t: Tables, r: int, news: seq<NewService>, now: string)
    requires r in t.resources
    ensures StatusesOf(AddServices(t, r, news, now)) == Step(StatusesOf(t), CreatesServices(r, news))
  {
    hide TouchResource, InsertServices;
    Touching(InsertServices(t, r, news, now), r, now);
    InsertedServices(t, r, news, now);
    CreatedStatuses(t, InsertServices(t, r, news, now), r, news, now);
  }

  lemma CreatedStatuses(t: Tables, b: Tables, r: int, news: seq<NewService>, now: string)
    requires r in t.resources && AllCreated(t, b, r, news, now) && b.resources == t.resources
    ensures StatusesOf(b) == Step(StatusesOf(t), CreatesServices(r, news))
  {
    hide CreatedLists, ShownHours, Written, Attached, ScheduleOf;
    var s := Step(StatusesOf(t), CreatesServices(r, news));
    forall k ensures k in StatusesOf(b).services <==> k in s.services {
      CreatedStatus(t, b, r, news, now, k);
    }
    forall k | k in s.services ensures k in b.services && StatusesOf(b).services[k] == s.services[k] {
      CreatedStatus(t, b, r, news, now, k);
    }
    assert StatusesOf(b).services == s.services;
  }

  lemma CreatedStatus(t: Tables, b: Tables, r: int, news: seq<NewService>, now: string, k: int)
    requires AllCreated(t, b, r, news, now)
    ensures if t.nextServiceId <= k < t.nextServiceId + |news|
            then k in b.services && b.services[k].status == Some(1) && b.services[k].resourceId == Some(r)
            else (k in b.services <==> k in t.services) && (k in t.services ==> b.services[k] == t.services[k])
  {
    hide CreatedLists, ShownHours, Written, Attached, ScheduleOf;
    if t.nextServiceId <= k < t.nextServiceId + |news| {
      var i := k - t.nextServiceId;
      assert CreatedRow(b, t.nextServiceId + i, r, news[i], now);
    }
  }

  lemma EditingResource(t: Tables, id: int, status: Option<int>, name: Option<Json>, columns: Record, now: string)
    requires id in t.resources
    ensures StatusesOf(SiteUpdates.EditResource(t, id, status, name, columns, now)) ==
            Step(StatusesOf(t), EditsResource(id, status, name, columns))
  {
    hide SiteUpdates.EditResource, Written;
    EditedResource(t, id, status, name, columns, now);
    var b := SiteUpdates.EditResource(t, id, status, name, columns, now);
    forall k ensures k in b.resources <==> k in t.resources { assert k == id || (k in t.resources <==> k in b.resources); }
    forall k | k in t.resources
      ensures b.resources[k].status == if k == id && status.Some? then status else t.resources[k].status
    {
      assert k == id || b.resources[k] == t.resources[k];
    }
    assert StatusesOf(b).resources == Step(StatusesOf(t), EditsResource(id, status, name, columns)).resources;
  }

  lemma EditingService(t: Tables, id: int, name: Option<Json>, columns: Record, categories: Option<seq<int>>,
                       eligibilities: Option<seq<int>>, now: string)
    requires id in t.services
    ensures StatusesOf(SiteUpdates.EditService(t, id, name, columns, categories, eligibilities, now)) == StatusesOf(t)
  {
    hide TouchResource, Replace, Touched, ChangeService;
    var m := ChangeService(t, id, name, columns, categories, eligibilities, now);
    ChangedService(t, id, name, columns, categories, eligibilities, now);
    ServiceKeepsStatus(t, m, id, name, columns, now);
    if t.services[id].resourceId.Some? { Touching(m, t.services[id].resourceId.value, now); }
  }

  lemma ServiceKeepsStatus(t: Tables, m: Tables, id: int, name: Option<Json>, columns: Record, now: string)
    requires id in t.services && id in m.services && m == t.(services := m.services, attachments := m.attachments)
    requires ServiceWritten(t, m, id, t.services[id].status, m.services[id].name, columns, now)
    ensures StatusesOf(m) == StatusesOf(t)
  {
    hide Written;
    forall k ensures k in m.services <==> k in t.services { assert k == id || (k in t.services <==> k in m.services); }
    forall k | k in t.services
      ensures m.services[k].status == t.services[k].status && m.services[k].resourceId == t.services[k].resourceId
    {
      assert k == id || m.services[k] == t.services[k];
    }
    assert StatusesOf(m).services == StatusesOf(t).services;
  }

  lemma Certifying(t: Tables, id: int, now: string)
    requires id in t.resources
    ensures StatusesOf(MarkCertified(t, id, now)) == StatusesOf(t)
  {
    hide Touched;
    assert StatusesOf(MarkCertified(t, id, now)).resources == StatusesOf(t).resources;
  }

  lemma ObjectsMove(t: Tables, q: Request, now: string)
    requires OfObjects(q)
    ensures StatusesOf(ObjectEffect(t, q, now).after) == Step(StatusesOf(t), q)
  {
    hide StatusesOf, Step, DeactivateResource, DeactivateService, AddServices, MarkCertified, NoteOnResource, AddNote, Link,
      SiteUpdates.EditResource, SiteUpdates.EditService, IdSet, Namesakes, Owning, Siblings, AddressExists;
    Idle(t, q);
    match q {
      case RemovesResource(id) => if ResourceApproved(t, id) { RemovingResource(t, id, now); }
      case RemovesService(id) => if ServiceApproved(t, id) && ParentExists(t, id) { RemovingService(t, id, now); }
      case CreatesServices(id, news) => if id in t.resources && news != [] { Creating(t, id, news, now); }
      case Certifies(id) => if id in t.resources { Certifying(t, id, now); }
      case NotesResource(id, row, note) => if id in t.resources { Noting(t, id, row, note, now); }
      case NotesService(id, row, note) => NotingService(t, id, row, note);
      case AddsAddress(id, address) => Linking(t, id, address);
      case EditsResource(id, status, name, columns) =>
        if id in t.resources { EditingResource(t, id, status, name, columns, now); }
      case EditsService(id, name, columns, categories, eligibilities) =>
        if ParentExists(t, id) { EditingService(t, id, name, columns, categories, eligibilities, now); }
    }
  }

  lemma Noting(t: Tables, id: int, row: int, note: Json, now: string)
    ensures StatusesOf(NoteOnResource(t, id, row, note, now)) == StatusesOf(t)
  {
    hide TouchResource, StatusesOf;
    Touching(AddNote(t, OfResource(id), row, note), id, now);
    OtherRows(AddNote(t, OfResource(id), row, note), t);
  }

  lemma NotingService(t: Tables, id: int, row: int, note: Json)
    ensures StatusesOf(AddNote(t, OfService(id), row, note)) == StatusesOf(t)
  {
    OtherRows(AddNote(t, OfService(id), row, note), t);
  }

  lemma Linking(t: Tables, id: int, address: int)
    ensures StatusesOf(Link(t, id, address)) == StatusesOf(t)
  {
    OtherRows(Link(t, id, address), t);
  }

  /** Requests that do nothing, in the rows and in the machine. */
  lemma Idle(t: Tables, q: Request)
    ensures q.RemovesResource? && !ResourceApproved(t, q.id) ==> Step(StatusesOf(t), q) == StatusesOf(t)
    ensures q.RemovesService? && !(ServiceApproved(t, q.id) && ParentExists(t, q.id)) ==> Step(StatusesOf(t), q) == StatusesOf(t)
    ensures q.CreatesServices? && (q.news == [] || q.id !in t.resources) ==> Step(StatusesOf(t), q) == StatusesOf(t)
    ensures q.EditsResource? && q.id !in t.resources ==> Step(StatusesOf(t), q) == StatusesOf(t)
    ensures !(q.RemovesResource? || q.RemovesService? || q.CreatesServices? || q.EditsResource?) ==>
              Step(StatusesOf(t), q) == StatusesOf(t)
  {
    if q.CreatesServices? && q.news == [] && q.id in t.resources {
      assert Step(StatusesOf(t), q).services == StatusesOf(t).services;
    }
  }

  /** A commit of other tables, and the touch of a resource after it. */
  lemma OwnerMoves(t: Tables, m: Tables, owner: Option<int>, now: string)
    requires t.resources == m.resources && t.services == m.services && t.nextServiceId == m.nextServiceId
    ensures StatusesOf(TouchOwner(m, owner, now)) == StatusesOf(t)
  {
    hide StatusesOf, TouchOwner;
    TouchingOwner(m, owner, now);
    OtherRows(m, t);
  }

  lemma AddressesMove(t: Tables, q: Request, now: string)
    requires OfAddresses(q)
    ensures StatusesOf(MoveEffect(t, q, now).after) == StatusesOf(t)
  {
    hide StatusesOf, TouchOwner, AddressExists, LeftByUnlink, LeftByEdit, LeftByRemoval, OwnerOf, ReachedResources,
      ReachedServices;
    match q
    case UnlinksAddress(id, address) => OtherRows(Unlink(t, id, address), t);
    case EditsAddress(id, look) =>
      OwnerMoves(t, t.(addresses := WithAddress(t.addresses, id, look)), OwnerOf(t.addresses, id), now);
    case RemovesAddress(id) =>
      OwnerMoves(t, t.(addresses := WithoutAddress(t.addresses, id), links := WithoutLinks(t.links, id)),
                 OwnerOf(t.addresses, id), now);
  }

  lemma RowsMove(t: Tables, q: Request, now: string)
    requires OfRows(q)
    ensures StatusesOf(RowEffect(t, q, now).after) == StatusesOf(t)
  {
    hide FindRow, CanRename, LeftByInstruction, LeftByText, LeftByRename, ResourcesOfRow, ServicesOfRow, StatusesOf;
    OtherRows(RowEffect(t, q, now).after, t);
  }

  lemma RequestsMove(t: Tables, q: Request, now: string)
    requires OfRequests(q)
    ensures StatusesOf(RequestEffect(t, q, now).after) == StatusesOf(t)
  {
    hide StatusesOf, TouchOwner, CanEditNote, CanEditPhone, ReachedResources, ReachedServices, ResourceOf;
    match q
    case EditsNote(id, text) =>
      if CanEditNote(t, id) {
        NoteThere(t, id);
        var row := FindRow(t.attachments, "note", id).value;
        OwnerMoves(t, SetRow(t, row, text), ResourceOf(t, row.owner), now);
      }
    case EditsPhone(id, phone) =>
      if CanEditPhone(t, id) {
        PhoneThere(t, id);
        var row := FindRow(t.attachments, "phone", id).value;
        OwnerMoves(t, SetRow(t, row, phone), ResourceOf(t, row.owner), now);
      }
    case CreatesPhone(id, row, phone) =>
      OwnerMoves(t, AddRow(t, Attachment(row, OfResource(id), "phone", phone)), Some(id), now);
    case CreatesAddress(id, look) => OwnerMoves(t, AddAddressRow(t, id, look), Some(id), now);
  }

  lemma NoteThere(t: Tables, id: int)
    requires CanEditNote(t, id)
    ensures FindRow(t.attachments, "note", id).Some?
  {
    hide FindRow;
  }

  lemma PhoneThere(t: Tables, id: int)
    requires CanEditPhone(t, id)
    ensures FindRow(t.attachments, "phone", id).Some?
  {
    hide FindRow;
  }

  lemma DaysMove(t: Tables, q: Request, now: string)
    requires OfDays(q)
    ensures StatusesOf(DayEffect(t, q, now).after) == StatusesOf(t)
  {
    hide StatusesOf, TouchOwner, ReachedResources, ReachedServices, ResourceOf, ScheduleOfDay, FindSchedule, EditDay, AddDay;
    match q
    case EditsDay(id, c) =>
      var found := ScheduleOfDay(t.schedules, id);
      if found.Some? {
        OnlySchedules(t, found.value, id, c);
        OwnerMoves(t, EditDay(t, found.value, id, c), ResourceOf(t, found.value.owner), now);
      }
    case CreatesDay(schedule, row, c) =>
      var found := FindSchedule(t.schedules, schedule);
      if found.Some? {
        OnlySchedules(t, found.value, row, c);
        OwnerMoves(t, AddDay(t, found.value, row, c), ResourceOf(t, found.value.owner), now);
      }
  }

  lemma OnlySchedules(t: Tables, row: ScheduleRow, id: int, c: ScheduleChanges)
    ensures var b := EditDay(t, row, id, c); b == t.(schedules := b.schedules)
    ensures var b := AddDay(t, row, id, c); b == t.(schedules := b.schedules)
  {
  }

  /** One request moves the statuses of the rows as it moves the machine. */
  lemma Simulates(t: Tables, q: Request, now: string)
    ensures StatusesOf(EffectOf(t, q, now).after) == Step(StatusesOf(t), q)
  {
    hide StatusesOf, Step, ObjectEffect, MoveEffect, RowEffect, RequestEffect, DayEffect;
    Idle(t, q);
    if OfObjects(q) {
      ObjectsMove(t, q, now);
    } else if OfAddresses(q) {
      AddressesMove(t, q, now);
    } else if OfRows(q) {
      RowsMove(t, q, now);
    } else if OfRequests(q) {
      RequestsMove(t, q, now);
    } else {
      DaysMove(t, q, now);
    }
  }

  // ----- Whole runs -----

  lemma {:induction false} RunSimulates(t: Tables, run: Run)
    ensures StatusesOf(RowsAfter(t, run)) == After(StatusesOf(t), run)
    decreases |run|
  {
    hide StatusesOf, Step, EffectOf;
    if run != [] {
      var last := run[|run| - 1];
      RunSimulates(t, Front(run));
      Simulates(RowsAfter(t, Front(run)), last.0, last.1);
    }
  }

  /**
    After every run an index that showed the approved rows shows exactly the resources and
    services that the machine ends with as approved.
   */
  lemma ShownAfter(index: Index, t: Tables, run: Run)
    requires Visible(index, RowsAfter(t, run))
    ensures var s := After(StatusesOf(t), run);
            && (forall id :: ResourceObjectId(id) in index <==> id in s.resources && s.resources[id] == Some(1))
            && (forall id :: ServiceObjectId(id) in index <==> Approved(s.services, id))
  {
    hide ResourceObjectId, ServiceObjectId, After, RowsAfter;
    RunSimulates(t, run);
    var b := RowsAfter(t, run);
    forall id: int
      ensures ResourceObjectId(id) in index <==> id in b.resources && b.resources[id].status == Some(1)
      ensures ServiceObjectId(id) in index <==> id in b.services && b.services[id].status == Some(1)
    {
      assert ResourceObjectId(id) in index <==> ResourceApproved(b, id);
    }
  }

  /** Serving a run: what it shows afterwards follows from the statuses before and the requests alone. */
  method ServeShown(site: Site, requests: Run) returns (replies: seq<Reply>)
    requires Sound(site.db, site.reformat) && Visible(site.index, site.db)
    requires forall q :: q in requests ==> SoundRequest(q.0, site.reformat) && site.reformat(q.1).Some?
    modifies site`db, site`index
    ensures |replies| == |requests| && Failed !in replies
    ensures var s := After(old(StatusesOf(site.db)), requests);
            && (forall id :: ResourceObjectId(id) in site.index <==> id in s.resources && s.resources[id] == Some(1))
            && (forall id :: ServiceObjectId(id) in site.index <==> Approved(s.services, id))
  {
    hide Sound, Visible, SoundRequest, RowsAfter, StatusesOf, After, Follows, LateLookTheSame, ResourceObjectId,
      ServiceObjectId;
    ghost var t := site.db;
    replies := Serve(site, requests);
    ShownAfter(site.index, t, requests);
  }
}
