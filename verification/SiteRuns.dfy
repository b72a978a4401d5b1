/**
  Whole runs of the handlers that write what the search index shows: from rows that every record
  can be built from, no request fails after its commit, the index always shows exactly the
  approved rows, and each of its records is the one built from the rows right after the last
  request that refreshed it. The index is in step exactly when those rows still give the current
  records of the objects that were left behind since.
 */
module SiteRuns {
  import opened AddressChanges
  import opened DayChanges
  import opened DayRequests
  import opened IndexRecords
  import opened OpenTimes
  import opened RowChanges
  import opened RowRequests
  import opened SearchIndex
  import opened SiteEffects
  import opened SiteFrames
  import opened SiteHandlers
  import opened SiteSteps
  import opened SiteTables
  import opened SiteUpdates
  import opened Wrappers

  // ----- One request -----

  /** The state after a request is its effect, and the index is out of step only by what was left behind. */
  ghost predicate Took(before: Index, t: Tables, after: Index, b: Tables, reformat: Reformat, e: Effect)
  {
    b == e.after &&
    SettledBut(before, t, after, b, reformat, e.resources, e.services, e.staleResources, e.staleServices)
  }

  lemma SettledTook(before: Index, t: Tables, after: Index, b: Tables, reformat: Reformat, resources: set<int>,
                    services: set<int>)
    requires Settled(before, t, after, b, reformat, resources, services)
    ensures Took(before, t, after, b, reformat, Effect(b, resources, services, {}, {}))
  {
    hide Mirrors, Visible, Refreshed;
  }

  lemma NothingTook(index: Index, t: Tables, reformat: Reformat)
    ensures Took(index, t, index, t, reformat, Nothing(t))
  {
    hide SettledBut;
    UntouchedBut(index, t, reformat);
  }

  method HandleObjects(site: Site, q: Request, now: string) returns (reply: Reply)
    requires Sound(site.db, site.reformat) && SoundRequest(q, site.reformat) && site.reformat(now).Some? && OfObjects(q)
    modifies site`db, site`index
    ensures reply != Failed && Sound(site.db, site.reformat)
    ensures Took(old(site.index), old(site.db), site.index, site.db, site.reformat, ObjectEffect(old(site.db), q, now))
  {
    hide Settled, SettledBut, Sound, WellFormed, AddressExists, SoundAll, PlainColumns, Took, Owning,
      Siblings, Namesakes, DeactivateResource, DeactivateService, AddServices, MarkCertified, NoteOnResource, AddNote, Link,
      SiteUpdates.EditResource, SiteUpdates.EditService, IdSet;
    SoundForm(site.db, site.reformat);
    ghost var before, t := site.index, site.db;
    NoIds(t);
    match q {
      case RemovesResource(id) => reply := DeleteResource(site, id, now);
      case RemovesService(id) => reply := DeleteService(site, id, now);
      case CreatesServices(id, news) => reply := CreateServices(site, id, news, now);
      case Certifies(id) => reply := Certify(site, id, now);
      case NotesResource(id, row, note) => reply := CreateResourceNote(site, id, row, note, now);
      case NotesService(id, row, note) => reply := CreateServiceNote(site, id, row, note);
      case AddsAddress(id, address) => reply := AddAddress(site, id, address);
      case EditsResource(id, status, name, columns) =>
        reply := SiteHandlers.EditResource(site, id, status, name, columns, now);
      case EditsService(id, name, columns, categories, eligibilities) =>
        reply := SiteHandlers.EditService(site, id, name, columns, categories, eligibilities, now);
    }
    ghost var e := ObjectEffect(t, q, now);
    SettledTook(before, t, site.index, site.db, site.reformat, e.resources, e.services);
  }

  method HandleMoves(site: Site, q: Request, now: string) returns (reply: Reply)
    requires Sound(site.db, site.reformat) && site.reformat(now).Some? && OfAddresses(q)
    modifies site`db, site`index
    ensures reply != Failed && Sound(site.db, site.reformat)
    ensures Took(old(site.index), old(site.db), site.index, site.db, site.reformat, MoveEffect(old(site.db), q, now))
  {
    hide SettledBut, Sound, WellFormed, AddressExists, EditedAddress, RemovedAddress, Unlink,
      LeftByEdit, LeftByRemoval, LeftByUnlink, ReachedServices, ReachedResources, OwnerOf;
    SoundForm(site.db, site.reformat);
    UntouchedBut(site.index, site.db, site.reformat);
    match q {
      case UnlinksAddress(id, address) => reply := RemoveServiceAddress(site, id, address);
      case EditsAddress(id, look) => reply := EditAddress(site, id, look, now);
      case RemovesAddress(id) => reply := RemoveAddress(site, id, now);
    }
  }

  method HandleRows(site: Site, q: Request, now: string) returns (reply: Reply)
    requires Sound(site.db, site.reformat) && OfRows(q)
    modifies site`db
    ensures reply != Failed && Sound(site.db, site.reformat)
    ensures Took(site.index, old(site.db), site.index, site.db, site.reformat, RowEffect(old(site.db), q, now))
  {
    hide SettledBut, Sound, WellFormed, RowDeletion, LeftByInstruction, LeftByText, LeftByRename, FindRow, CanRename;
    SoundForm(site.db, site.reformat);
    match q {
      case DeletesNote(id) => reply := HandleDeletion(site, "note", id);
      case DeletesPhone(id) => reply := HandleDeletion(site, "phone", id);
      case CreatesInstruction(service, row, text) =>
        NoService(site.db, service);
        reply := CreateInstruction(site, service, row, text);
      case UpdatesInstruction(id, text) =>
        NoText(site.db, id, text);
        reply := UpdateInstruction(site, id, text);
      case RenamesEligibility(id, name) =>
        NoName(site.db, id, name);
        reply := UpdateEligibility(site, id, name);
    }
  }

  method HandleDeletion(site: Site, kind: string, id: int) returns (reply: Reply)
    requires Sound(site.db, site.reformat) && RowKind(kind)
    modifies site`db
    ensures reply != Failed && Sound(site.db, site.reformat)
    ensures Took(site.index, old(site.db), site.index, site.db, site.reformat, RowDeletion(old(site.db), kind, id))
  {
    hide SettledBut, Sound, WellFormed, RowKind, FindRow, ResourcesShowing, ServicesShowing;
    SoundForm(site.db, site.reformat);
    reply := DeleteRow(site, kind, id);
  }

  lemma SoundForm(t: Tables, reformat: Reformat)
    requires Sound(t, reformat)
    ensures WellFormed(t)
  {
    hide StampsParse, DaysNamed, WellFormed;
  }

  /** A refused request leaves nothing behind. */
  lemma NoService(t: Tables, service: Option<int>)
    ensures service.Some? && service.value !in t.services ==> LeftByInstruction(t, service) == {}
  {
  }

  lemma NoText(t: Tables, id: int, text: Json)
    ensures FindRow(t.attachments, "instruction", id).None? ==> LeftByText(t, id, text) == {}
  {
    hide FindRow;
  }

  lemma NoName(t: Tables, id: int, name: Option<string>)
    ensures !CanRename(t, id, name) || name.None? ==> LeftByRename(t, id, name) == {}
    ensures CanRename(t, id, name) ==> id in t.eligibilities
  {
    hide NameTaken;
  }

  method HandleRequests(site: Site, q: Request, now: string) returns (reply: Reply)
    requires Sound(site.db, site.reformat) && site.reformat(now).Some? && OfRequests(q)
    modifies site`db, site`index
    ensures reply != Failed && Sound(site.db, site.reformat)
    ensures Took(old(site.index), old(site.db), site.index, site.db, site.reformat, RequestEffect(old(site.db), q, now))
  {
    hide Settled, SettledBut, Sound, WellFormed, CanEditNote, CanEditPhone, EditedNote, EditedPhone,
      AddedPhone, AddedAddress, Reached, ReachedResources, ReachedServices, Took;
    SoundForm(site.db, site.reformat);
    ghost var before, t := site.index, site.db;
    NothingTook(before, t, site.reformat);
    match q {
      case EditsNote(id, text) => reply := EditNote(site, id, text, now);
      case EditsPhone(id, phone) => reply := EditPhone(site, id, phone, now);
      case CreatesPhone(id, row, phone) => reply := CreatePhone(site, id, row, phone, now);
      case CreatesAddress(id, look) => reply := CreateAddress(site, id, look, now);
    }
    if reply.Done? {
      ghost var e := RequestEffect(t, q, now);
      SettledTook(before, t, site.index, site.db, site.reformat, e.resources, e.services);
    }
  }

  method HandleDays(site: Site, q: Request, now: string) returns (reply: Reply)
    requires Sound(site.db, site.reformat) && SoundRequest(q, site.reformat) && site.reformat(now).Some? && OfDays(q)
    modifies site`db, site`index
    ensures reply != Failed && Sound(site.db, site.reformat)
    ensures Took(old(site.index), old(site.db), site.index, site.db, site.reformat, DayEffect(old(site.db), q, now))
  {
    hide Settled, SettledBut, Sound, WellFormed, NamesWeekday, ShowsUnreadable, EditedDay, AddedDay,
      ReachedResources, ReachedServices, BehindSchedule, ScheduleOfDay, FindSchedule, Took;
    SoundForm(site.db, site.reformat);
    ghost var before, t := site.index, site.db;
    NothingTook(before, t, site.reformat);
    match q {
      case EditsDay(id, changes) => reply := EditScheduleDay(site, id, changes, now);
      case CreatesDay(schedule, row, changes) => reply := CreateScheduleDay(site, schedule, row, changes, now);
    }
    if reply.Done? {
      ghost var e := DayEffect(t, q, now);
      SettledTook(before, t, site.index, site.db, site.reformat, e.resources, e.services);
    }
  }

  /**
    One request: no failure after its commit, sound rows, the rows of its effect, exactly its
    objects refreshed, and an index in step that stays so exactly when nothing is left behind.
   */
  method Handle(site: Site, q: Request, now: string) returns (reply: Reply)
    requires Sound(site.db, site.reformat) && SoundRequest(q, site.reformat) && site.reformat(now).Some?
    modifies site`db, site`index
    ensures reply != Failed && Sound(site.db, site.reformat)
    ensures var e := EffectOf(old(site.db), q, now);
            && site.db == e.after
            && SettledBut(old(site.index), old(site.db), site.index, site.db, site.reformat,
                          e.resources, e.services, e.staleResources, e.staleServices)
            && LeavesBehind(old(site.db), e, site.reformat)
  {
    hide Sound, SettledBut, LeavesBehind, SoundRequest, ObjectEffect, MoveEffect, RowEffect, RequestEffect,
      DayEffect, WellFormed;
    ghost var t := site.db;
    SoundBuilt(t, site.reformat);
    EffectBehind(t, q, now, site.reformat);
    if OfObjects(q) {
      reply := HandleObjects(site, q, now);
    } else if OfAddresses(q) {
      reply := HandleMoves(site, q, now);
    } else if OfRows(q) {
      reply := HandleRows(site, q, now);
    } else if OfRequests(q) {
      reply := HandleRequests(site, q, now);
    } else {
      reply := HandleDays(site, q, now);
    }
  }

  lemma SoundBuilt(t: Tables, reformat: Reformat)
    requires Sound(t, reformat)
    ensures WellFormed(t) && Built(t, reformat)
  {
    hide StampsParse, DaysNamed, ResourceStatusRecord, ServiceStatusRecord, ServiceView;
    SoundBuilds(t, reformat);
  }

  // ----- Whole runs -----

  /** Requests are handled one at a time, each at its own time. */
  type Run = seq<(Request, string)>

  function Front(run: Run): (front: Run)
    requires run != []
    ensures |front| == |run| - 1
  {
    run[..|run| - 1]
  }

  ghost function RowsAfter(t: Tables, run: Run): Tables
    decreases |run|, 1
  {
    if run == [] then t else LastEffect(t, run).after
  }

  /** The effect of the last request, on the rows that the others leave. */
  ghost function LastEffect(t: Tables, run: Run): Effect
    requires run != []
    decreases |run|, 0
  {
    var last := run[|run| - 1];
    EffectOf(RowsAfter(t, Front(run)), last.0, last.1)
  }

  /** The rows right after the last request that refreshed the resource, or those the run started from. */
  ghost function ResourceSeen(t: Tables, run: Run, id: int): Tables
  {
    if run == [] then t
    else if id in LastEffect(t, run).resources then RowsAfter(t, run)
    else ResourceSeen(t, Front(run), id)
  }

  ghost function ServiceSeen(t: Tables, run: Run, id: int): Tables
  {
    if run == [] then t
    else if id in LastEffect(t, run).services then RowsAfter(t, run)
    else ServiceSeen(t, Front(run), id)
  }

  /** The resources that some request left behind after the last one that refreshed them. */
  ghost function LateResources(t: Tables, run: Run): set<int>
  {
    if run == [] then {} else
      LateResources(t, Front(run)) - LastEffect(t, run).resources + LastEffect(t, run).staleResources
  }

  ghost function LateServices(t: Tables, run: Run): set<int>
  {
    if run == [] then {} else
      LateServices(t, Front(run)) - LastEffect(t, run).services + LastEffect(t, run).staleServices
  }

  /** Every object is the record of the rows it was last built from, and nothing else is in the index. */
  ghost predicate Follows(index: Index, t: Tables, run: Run, reformat: Reformat)
  {
    && (forall id: int :: ResourceFresh(index, ResourceSeen(t, run, id), reformat, id))
    && (forall id: int :: ServiceFresh(index, ServiceSeen(t, run, id), reformat, id))
    && (forall key :: key in index ==> Named(key))
  }

  /** An object that was not left behind still has the record of the rows it was last built from. */
  ghost predicate OnlyLate(t: Tables, run: Run, reformat: Reformat)
  {
    && (forall id: int :: id !in LateResources(t, run) ==>
          SameResource(ResourceSeen(t, run, id), RowsAfter(t, run), reformat, id))
    && (forall id: int :: id !in LateServices(t, run) ==>
          SameService(ServiceSeen(t, run, id), RowsAfter(t, run), reformat, id))
  }

  lemma Extended(t: Tables, run: Run, q: (Request, string))
    ensures var e := EffectOf(RowsAfter(t, run), q.0, q.1);
            && LastEffect(t, run + [q]) == e && RowsAfter(t, run + [q]) == e.after && Front(run + [q]) == run
            && LateResources(t, run + [q]) == LateResources(t, run) - e.resources + e.staleResources
            && LateServices(t, run + [q]) == LateServices(t, run) - e.services + e.staleServices
  {
    hide EffectOf;
    assert (run + [q])[..|run|] == run;
  }

  lemma StillFollows(before: Index, after: Index, t: Tables, run: Run, q: (Request, string), reformat: Reformat)
    requires Follows(before, t, run, reformat)
    requires var e := EffectOf(RowsAfter(t, run), q.0, q.1);
             Refreshed(before, after, e.after, reformat, e.resources, e.services)
    ensures Follows(after, t, run + [q], reformat)
  {
    hide EffectOf, ResourceObjectId, ServiceObjectId, ResourceApproved, ServiceApproved, ResourceStatusRecord,
      ServiceStatusRecord, RowsAfter, LastEffect;
    var e := EffectOf(RowsAfter(t, run), q.0, q.1);
    Extended(t, run, q);
    forall id: int
      ensures ResourceFresh(after, ResourceSeen(t, run + [q], id), reformat, id)
      ensures ServiceFresh(after, ServiceSeen(t, run + [q], id), reformat, id)
    {
      ObjectIdsOf(e.resources, e.services, id);
      assert ResourceFresh(before, ResourceSeen(t, run, id), reformat, id);
      assert ServiceFresh(before, ServiceSeen(t, run, id), reformat, id);
    }
    KeysNamed(before, after, e.resources, e.services);
  }

  lemma StillOnlyLate(t: Tables, run: Run, q: (Request, string), reformat: Reformat)
    requires OnlyLate(t, run, reformat)
    requires LeavesBehind(RowsAfter(t, run), EffectOf(RowsAfter(t, run), q.0, q.1), reformat)
    ensures OnlyLate(t, run + [q], reformat)
  {
    hide EffectOf, ResourceApproved, ServiceApproved, ResourceStatusRecord, ServiceStatusRecord, RowsAfter, LastEffect,
      LateResources, LateServices, SameStatus;
    var a, b := RowsAfter(t, run), EffectOf(RowsAfter(t, run), q.0, q.1).after;
    Extended(t, run, q);
    forall id: int | id !in LateResources(t, run + [q])
      ensures SameResource(ResourceSeen(t, run + [q], id), b, reformat, id)
    {
      assert id in LastEffect(t, run + [q]).resources || SameResource(a, b, reformat, id);
    }
    forall id: int | id !in LateServices(t, run + [q])
      ensures SameService(ServiceSeen(t, run + [q], id), b, reformat, id)
    {
      assert id in LastEffect(t, run + [q]).services || SameService(a, b, reformat, id);
    }
  }

  /** A record that a request leaves behind is stale right after it, unless it was late before. */
  lemma LeftBehindIsStale(t: Tables, run: Run, q: (Request, string), reformat: Reformat)
    requires OnlyLate(t, run, reformat)
    requires LeavesBehind(RowsAfter(t, run), EffectOf(RowsAfter(t, run), q.0, q.1), reformat)
    ensures var e, b := EffectOf(RowsAfter(t, run), q.0, q.1), RowsAfter(t, run + [q]);
            && (forall id :: id in e.staleResources && id !in LateResources(t, run) ==>
                  !SameResource(ResourceSeen(t, run + [q], id), b, reformat, id))
            && (forall id :: id in e.staleServices && id !in LateServices(t, run) ==>
                  !SameService(ServiceSeen(t, run + [q], id), b, reformat, id))
  {
    hide EffectOf, ResourceApproved, ServiceApproved, ResourceStatusRecord, ServiceStatusRecord, RowsAfter, LastEffect,
      LateResources, LateServices, SameStatus;
    var e := EffectOf(RowsAfter(t, run), q.0, q.1);
    Extended(t, run, q);
    forall id | id in e.staleResources && id !in LateResources(t, run)
      ensures !SameResource(ResourceSeen(t, run + [q], id), e.after, reformat, id)
    {
      assert id !in e.resources && !SameResource(RowsAfter(t, run), e.after, reformat, id);
    }
    forall id | id in e.staleServices && id !in LateServices(t, run)
      ensures !SameService(ServiceSeen(t, run + [q], id), e.after, reformat, id)
    {
      assert id !in e.services && !SameService(RowsAfter(t, run), e.after, reformat, id);
    }
  }

  /** The rows that the late objects were last built from still give their current records. */
  ghost predicate LateLookTheSame(t: Tables, run: Run, reformat: Reformat)
  {
    && (forall id :: id in LateResources(t, run) ==>
          SameResource(ResourceSeen(t, run, id), RowsAfter(t, run), reformat, id))
    && (forall id :: id in LateServices(t, run) ==>
          SameService(ServiceSeen(t, run, id), RowsAfter(t, run), reformat, id))
  }

  lemma InStepAfter(index: Index, t: Tables, run: Run, reformat: Reformat)
    requires Follows(index, t, run, reformat) && OnlyLate(t, run, reformat)
    ensures Mirrors(index, RowsAfter(t, run), reformat) <==> LateLookTheSame(t, run, reformat)
  {
    hide ResourceObjectId, ServiceObjectId, ResourceApproved, ServiceApproved, ResourceStatusRecord, ServiceStatusRecord,
      RowsAfter, ResourceSeen, ServiceSeen, LateResources, LateServices;
    var b := RowsAfter(t, run);
    forall id: int
      ensures ResourceFresh(index, b, reformat, id) <==> SameResource(ResourceSeen(t, run, id), b, reformat, id)
      ensures ServiceFresh(index, b, reformat, id) <==> SameService(ServiceSeen(t, run, id), b, reformat, id)
    {
      assert ResourceFresh(index, ResourceSeen(t, run, id), reformat, id);
      assert ServiceFresh(index, ServiceSeen(t, run, id), reformat, id);
    }
  }

  lemma RunStarts(index: Index, t: Tables, reformat: Reformat)
    ensures Mirrors(index, t, reformat) ==> Follows(index, t, [], reformat)
    ensures OnlyLate(t, [], reformat) && RowsAfter(t, []) == t
  {
    hide ResourceFresh, ServiceFresh, ResourceStatusRecord, ServiceStatusRecord, ResourceApproved, ServiceApproved;
  }

  method Serve(site: Site, requests: Run) returns (replies: seq<Reply>)
    requires Sound(site.db, site.reformat)
    requires forall q :: q in requests ==> SoundRequest(q.0, site.reformat) && site.reformat(q.1).Some?
    modifies site`db, site`index
    ensures |replies| == |requests| && Failed !in replies
    ensures Sound(site.db, site.reformat) && site.db == RowsAfter(old(site.db), requests)
    ensures Visible(old(site.index), old(site.db)) ==> Visible(site.index, site.db)
    ensures old(site.InStep()) ==>
              && Follows(site.index, old(site.db), requests, site.reformat)
              && (site.InStep() <==> LateLookTheSame(old(site.db), requests, site.reformat))
  {
    hide Mirrors, Visible, Sound, SoundRequest, Follows, OnlyLate, RowsAfter, LateLookTheSame, EffectOf, Refreshed,
      LeavesBehind;
    ghost var index, t := site.index, site.db;
    replies := [];
    RunStarts(index, t, site.reformat);
    for i := 0 to |requests|
      invariant |replies| == i && Failed !in replies
      invariant Sound(site.db, site.reformat) && site.db == RowsAfter(t, requests[..i])
      invariant Visible(index, t) ==> Visible(site.index, site.db)
      invariant Mirrors(index, t, site.reformat) ==> Follows(site.index, t, requests[..i], site.reformat)
      invariant OnlyLate(t, requests[..i], site.reformat)
    {
      var q := requests[i];
      ghost var before := site.index;
      assert q in requests && requests[..i + 1] == requests[..i] + [q];
      var reply := Handle(site, q.0, q.1);
      replies := replies + [reply];
      Extended(t, requests[..i], q);
      StillOnlyLate(t, requests[..i], q, site.reformat);
      if Mirrors(index, t, site.reformat) {
        StillFollows(before, site.index, t, requests[..i], q, site.reformat);
      }
    }
    assert requests[..|requests|] == requests;
    if Mirrors(index, t, site.reformat) {
      InStepAfter(site.index, t, requests, site.reformat);
    }
  }

  // ----- A record that is left behind and comes right again -----

  lemma {:induction false} ValueBack(rows: seq<Attachment>, kind: string, id: int, value: Json)
    requires FindRow(rows, kind, id).Some?
    ensures var row := FindRow(rows, kind, id).value;
            var changed := row.(value := value);
            && FindRow(WithValue(rows, row, value), kind, id) == Some(changed)
            && WithValue(WithValue(rows, row, value), changed, row.value) == rows
    decreases |rows|
  {
    hide FindRow, WithValue;
    var row := FindRow(rows, kind, id).value;
    FirstFound(rows[0], rows[1..], kind, id);
    assert [rows[0]] + rows[1..] == rows;
    FirstChanged(rows[0], rows[1..], row, value);
    if rows[0].kind == kind && rows[0].id == id {
      var changed := row.(value := value);
      FirstFound(changed, rows[1..], kind, id);
      FirstChanged(changed, rows[1..], changed, row.value);
    } else {
      ValueBack(rows[1..], kind, id, value);
      var rest := WithValue(rows[1..], row, value);
      FirstFound(rows[0], rest, kind, id);
      FirstChanged(rows[0], rest, row.(value := value), row.value);
    }
  }

  lemma FirstFound(first: Attachment, rest: seq<Attachment>, kind: string, id: int)
    ensures FindRow([first] + rest, kind, id) ==
            if first.kind == kind && first.id == id then Some(first) else FindRow(rest, kind, id)
  {
    assert ([first] + rest)[1..] == rest;
  }

  lemma FirstChanged(first: Attachment, rest: seq<Attachment>, row: Attachment, value: Json)
    ensures WithValue([first] + rest, row, value) ==
            if first == row then [row.(value := value)] + rest else [first] + WithValue(rest, row, value)
  {
    assert ([first] + rest)[1..] == rest;
  }

  /**
    A text that is changed and then changed back leaves its approved service late, although the
    rows, and so the index, are as before: being late is not being stale.
   */
  lemma ChangedBack(t: Tables, id: int, text: Json, now: string)
    requires FindRow(t.attachments, "instruction", id).Some?
    ensures var row := FindRow(t.attachments, "instruction", id).value;
            var run := [(UpdatesInstruction(id, text), now), (UpdatesInstruction(id, row.value), now)];
            && RowsAfter(t, run) == t
            && (text != row.value && row.owner.OfService? && ServiceApproved(t, row.owner.id) ==>
                  row.owner.id in LateServices(t, run))
  {
    hide FindRow, WithValue, ServiceApproved;
    var row := FindRow(t.attachments, "instruction", id).value;
    var first, second := (UpdatesInstruction(id, text), now), (UpdatesInstruction(id, row.value), now);
    Extended(t, [], first);
    Extended(t, [first], second);
    assert [] + [first] == [first] && [first] + [second] == [first, second];
    ValueBack(t.attachments, "instruction", id, text);
  }

  // ----- A record left behind -----

  function ExampleRows(): Tables
  {
    Tables(map[1 := ResourceRow(Some(APPROVED), JText("Shelter"), map[])],
           map[7 := ServiceRow(Some(APPROVED), Some(1), JText("Meals"), map[])],
           [7], 8,
           [AddressRow(3, None, IndexAddress(map[], None, None))], 4, [(7, 3)], [], [], map[], map[])
  }

  lemma ExampleSound(reformat: Reformat)
    ensures Sound(ExampleRows(), reformat)
    ensures forall id :: ServiceApproved(ExampleRows(), id) <==> id == 7
    ensures forall id :: ResourceApproved(ExampleRows(), id) <==> id == 1
  {
  }

  lemma ExampleMirrors(reformat: Reformat) returns (index: Index)
    ensures Mirrors(index, ExampleRows(), reformat)
  {
    hide ExampleRows, ResourceObjectId, ServiceObjectId, ResourceStatusRecord, ServiceStatusRecord, ResourceApproved,
      ServiceApproved, Sound, ServiceView;
    var t := ExampleRows();
    ExampleSound(reformat);
    SoundBuilds(t, reformat);
    var r, s := ResourceStatusRecord(t, 1, reformat).value, ServiceStatusRecord(t, 7, reformat).value;
    index := map[ResourceObjectId(1) := r, ServiceObjectId(7) := s];
    forall id: int
      ensures ResourceFresh(index, t, reformat, id) && ServiceFresh(index, t, reformat, id)
    {
      TwoObjects(index, r, s, id);
    }
  }

  lemma TwoObjects(index: Index, r: Record, s: Record, id: int)
    requires index == map[ResourceObjectId(1) := r, ServiceObjectId(7) := s]
    ensures ResourceObjectId(id) in index <==> id == 1
    ensures ServiceObjectId(id) in index <==> id == 7
    ensures index[ResourceObjectId(1)] == r && index[ServiceObjectId(7)] == s
  {
    hide ResourceObjectId, ServiceObjectId;
    ObjectIdsDistinct(id, 1);
    ObjectIdsDistinct(id, 7);
    ObjectIdsDistinct(1, id);
    ObjectIdsDistinct(1, 7);
  }

  /** Unlinking its only address from an approved service leaves the service's record stale. */
  lemma StaleExample(reformat: Reformat) returns (index: Index)
    ensures Mirrors(index, ExampleRows(), reformat)
    ensures !Mirrors(index, Unlink(ExampleRows(), 7, 3), reformat)
  {
    hide Mirrors, Refreshed, Behind, Built, Unlink;
    index := ExampleMirrors(reformat);
    var t := ExampleRows();
    ExampleSound(reformat);
    BuiltFrom(index, t, reformat);
    assert t.addresses[0].id == 3;
    UnlinkBehind(t, 7, 3, reformat);
    RefreshedNone(index, Unlink(t, 7, 3), reformat);
    InStepIff(index, index, t, Unlink(t, 7, 3), reformat, {}, {}, {}, LeftByUnlink(t, 7, 3));
  }
}
