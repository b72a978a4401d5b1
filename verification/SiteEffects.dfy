/**
  What each request does to the rows, which objects of the index it refreshes, and which records
  it leaves behind, exactly.
 */
module SiteEffects {
  import opened AddressChanges
  import opened DayChanges
  import opened DayRequests
  import opened IndexRecords
  import opened OpenTimes
  import opened RowChanges
  import opened RowRequests
  import opened SearchIndex
  import opened SiteFrames
  import opened SiteHandlers
  import opened SiteSteps
  import opened SiteTables
  import opened SiteUpdates
  import opened Wrappers

  /** Every request that writes indexed rows. The ids of new rows are what their sequences give. */
  datatype Request =
    | RemovesResource(id: int)
    | RemovesService(id: int)
    | CreatesServices(id: int, news: seq<NewService>)
    | Certifies(id: int)
    | NotesResource(id: int, row: int, note: Json)
    | NotesService(id: int, row: int, note: Json)
    | AddsAddress(id: int, address: int)
    | EditsResource(id: int, status: Option<int>, name: Option<Json>, columns: Record)
    | EditsService(id: int, name: Option<Json>, columns: Record,
                   categories: Option<seq<int>>, eligibilities: Option<seq<int>>)
    | UnlinksAddress(id: int, address: int)
    | EditsAddress(id: int, look: IndexAddress)
    | RemovesAddress(id: int)
    | DeletesNote(id: int)
    | DeletesPhone(id: int)
    | CreatesInstruction(service: Option<int>, row: int, text: Json)
    | UpdatesInstruction(id: int, text: Json)
    | RenamesEligibility(id: int, newName: Option<string>)
    | EditsNote(id: int, text: Json)
    | EditsPhone(id: int, phone: Json)
    | CreatesPhone(id: int, row: int, phone: Json)
    | CreatesAddress(id: int, look: IndexAddress)
    | EditsDay(id: int, changes: ScheduleChanges)
    | CreatesDay(schedule: int, row: int, changes: ScheduleChanges)

  /** New rows have timestamps that parse and days that are weekdays; edits name no timestamp column. */
  ghost predicate SoundRequest(q: Request, reformat: Reformat)
  {
    match q
    case CreatesServices(_, news) => SoundAll(news, reformat)
    case EditsResource(_, _, _, columns) => PlainColumns(columns)
    case EditsService(_, _, columns, _, _) => PlainColumns(columns)
    case EditsDay(_, changes) => NamesWeekday(changes)
    case CreatesDay(_, _, changes) => NamesWeekday(changes)
    case _ => true
  }

  // ----- What a request does -----

  /** The rows after a request, the objects it refreshes, and those whose records it leaves behind. */
  datatype Effect = Effect(after: Tables, resources: set<int>, services: set<int>, staleResources: set<int>,
                           staleServices: set<int>)

  function Nothing(t: Tables): Effect { Effect(t, {}, {}, {}, {}) }

  predicate OfObjects(q: Request)
  {
    q.RemovesResource? || q.RemovesService? || q.CreatesServices? || q.Certifies? || q.NotesResource? || q.NotesService? ||
    q.AddsAddress? || q.EditsResource? || q.EditsService?
  }

  predicate OfAddresses(q: Request) { q.UnlinksAddress? || q.EditsAddress? || q.RemovesAddress? }

  predicate OfRows(q: Request)
  {
    q.DeletesNote? || q.DeletesPhone? || q.CreatesInstruction? || q.UpdatesInstruction? || q.RenamesEligibility?
  }

  predicate OfRequests(q: Request) { q.EditsNote? || q.EditsPhone? || q.CreatesPhone? || q.CreatesAddress? }

  predicate OfDays(q: Request) { q.EditsDay? || q.CreatesDay? }

  /** Resources and services: nothing is left behind. */
  ghost function ObjectEffect(t: Tables, q: Request, now: string): Effect
  {
    match q
    case RemovesResource(id) =>
      if !ResourceApproved(t, id) then Nothing(t)
      else Effect(DeactivateResource(t, id, now), {id}, IdSet(ApprovedServicesOf(t, t.serviceIds, id)), {}, {})
    case RemovesService(id) =>
      if !ServiceApproved(t, id) || !ParentExists(t, id) then Nothing(t)
      else Effect(DeactivateService(t, id, now), Owning(t.services[id]), {id}, {}, {})
    case CreatesServices(id, news) =>
      if news == [] || id !in t.resources then Nothing(t)
      else Effect(AddServices(t, id, news, now), {id}, IdSet(NewIds(t, |news|)), {}, {})
    case Certifies(id) =>
      if id !in t.resources then Nothing(t) else Effect(MarkCertified(t, id, now), {id}, {}, {}, {})
    case NotesResource(id, row, note) =>
      if id !in t.resources then Nothing(t) else Effect(NoteOnResource(t, id, row, note, now), {id}, {}, {}, {})
    case NotesService(id, row, note) =>
      if id !in t.services then Nothing(t) else Effect(AddNote(t, OfService(id), row, note), {}, {id}, {}, {})
    case AddsAddress(id, address) =>
      if id !in t.services || !AddressExists(t.addresses, address) || (id, address) in t.links then Nothing(t)
      else Effect(Link(t, id, address), {}, {id}, {}, {})
    case EditsResource(id, status, name, columns) =>
      if id !in t.resources then Nothing(t)
      else Effect(SiteUpdates.EditResource(t, id, status, name, columns, now), {id}, Namesakes(t, id), {}, {})
    case EditsService(id, name, columns, categories, eligibilities) =>
      if !ParentExists(t, id) then Nothing(t)
      else Effect(SiteUpdates.EditService(t, id, name, columns, categories, eligibilities, now),
                  Owning(t.services[id]), Siblings(t, id), {}, {})
    case _ => Nothing(t)
  }

  /** Addresses: services that show one elsewhere are left behind. */
  ghost function MoveEffect(t: Tables, q: Request, now: string): Effect
  {
    match q
    case UnlinksAddress(id, address) =>
      if id !in t.services || !AddressExists(t.addresses, address) then Nothing(t)
      else Effect(Unlink(t, id, address), {}, {}, {}, LeftByUnlink(t, id, address))
    case EditsAddress(id, look) =>
      if !AddressExists(t.addresses, id) then Nothing(t)
      else Reaching(t, EditedAddress(t, id, look, now), OwnerOf(t.addresses, id), LeftByEdit(t, id, look))
    case RemovesAddress(id) =>
      if !AddressExists(t.addresses, id) then Nothing(t)
      else Reaching(t, RemovedAddress(t, id, now), OwnerOf(t.addresses, id), LeftByRemoval(t, id))
    case _ => Nothing(t)
  }

  /** Rows whose handlers do not call the index. */
  ghost function RowEffect(t: Tables, q: Request, now: string): Effect
  {
    match q
    case DeletesNote(id) => RowDeletion(t, "note", id)
    case DeletesPhone(id) => RowDeletion(t, "phone", id)
    case CreatesInstruction(service, row, text) =>
      if service.Some? && service.value !in t.services then Nothing(t)
      else Effect(AddRow(t, Attachment(row, ServiceOwner(service), "instruction", text)), {}, {}, {},
                  LeftByInstruction(t, service))
    case UpdatesInstruction(id, text) =>
      (match FindRow(t.attachments, "instruction", id)
       case None => Nothing(t)
       case Some(row) => Effect(SetRow(t, row, text), {}, {}, {}, LeftByText(t, id, text)))
    case RenamesEligibility(id, name) =>
      if !CanRename(t, id, name) || name.None? then Nothing(t)
      else Effect(RenameEligibility(t, id, JText(name.value)), {}, {}, {}, LeftByRename(t, id, name))
    case _ => Nothing(t)
  }

  /** Change requests of notes, phones and new addresses. */
  ghost function RequestEffect(t: Tables, q: Request, now: string): Effect
  {
    match q
    case EditsNote(id, text) =>
      if !CanEditNote(t, id) then Nothing(t)
      else Reaching(t, EditedNote(t, id, text, now), Reached(t, "note", id), {})
    case EditsPhone(id, phone) =>
      if !CanEditPhone(t, id) then Nothing(t)
      else Reaching(t, EditedPhone(t, id, phone, now), Reached(t, "phone", id), {})
    case CreatesPhone(id, row, phone) =>
      if id !in t.resources then Nothing(t) else Reaching(t, AddedPhone(t, id, row, phone, now), Some(id), {})
    case CreatesAddress(id, look) =>
      if id !in t.resources then Nothing(t) else Reaching(t, AddedAddress(t, id, look, now), Some(id), {})
    case _ => Nothing(t)
  }

  /** Change requests of schedule days. */
  ghost function DayEffect(t: Tables, q: Request, now: string): Effect
  {
    match q
    case EditsDay(id, changes) =>
      var r := BehindSchedule(t, ScheduleOfDay(t.schedules, id));
      if r.None? then Nothing(t) else Reaching(t, EditedDay(t, id, changes, now), r, {})
    case CreatesDay(schedule, row, changes) =>
      if schedule == 0 || !CanAddDay(t, schedule, changes) then Nothing(t)
      else Reaching(t, AddedDay(t, schedule, row, changes, now), BehindSchedule(t, FindSchedule(t.schedules, schedule)), {})
    case _ => Nothing(t)
  }

  ghost function EffectOf(t: Tables, q: Request, now: string): Effect
  {
    if OfObjects(q) then ObjectEffect(t, q, now)
    else if OfAddresses(q) then MoveEffect(t, q, now)
    else if OfRows(q) then RowEffect(t, q, now)
    else if OfRequests(q) then RequestEffect(t, q, now)
    else DayEffect(t, q, now)
  }

  /** A change request: it refreshes its resource, when there is one, and that resource's services. */
  ghost function Reaching(t: Tables, after: Tables, r: Option<int>, stale: set<int>): Effect
  {
    Effect(after, ReachedResources(t, r), ReachedServices(t, r), {}, stale)
  }

  ghost function RowDeletion(t: Tables, kind: string, id: int): Effect
  {
    match FindRow(t.attachments, kind, id)
    case None => Nothing(t)
    case Some(row) => Effect(DropRow(t, row), {}, {}, ResourcesOfRow(t, kind, id), ServicesOfRow(t, kind, id))
  }

  // ----- Each effect is what the records show -----

  ghost predicate LeavesBehind(t: Tables, e: Effect, reformat: Reformat)
  {
    Behind(t, e.after, reformat, e.resources, e.services, e.staleResources, e.staleServices)
  }

  lemma NothingBehind(t: Tables, reformat: Reformat)
    ensures LeavesBehind(t, Nothing(t), reformat)
  {
    hide Leaves, Behind;
    LeavesSelf(t, reformat, {}, {});
    LeavesNothingBehind(t, t, reformat, {}, {});
  }

  lemma AllRefreshed(t: Tables, b: Tables, resources: set<int>, services: set<int>, reformat: Reformat)
    requires Leaves(t, b, reformat, resources, services)
    ensures LeavesBehind(t, Effect(b, resources, services, {}, {}), reformat)
  {
    hide Leaves, Behind;
    LeavesNothingBehind(t, b, reformat, resources, services);
  }

  lemma ObjectsBehind(t: Tables, q: Request, now: string, reformat: Reformat)
    requires WellFormed(t) && OfObjects(q)
    ensures LeavesBehind(t, ObjectEffect(t, q, now), reformat)
  {
    hide LeavesBehind, Leaves, WellFormed, DeactivateResource, DeactivateService, AddServices, MarkCertified,
      NoteOnResource,
      AddNote, Link, SiteUpdates.EditResource, SiteUpdates.EditService, AddressExists;
    NothingBehind(t, reformat);
    var e := ObjectEffect(t, q, now);
    if e != Nothing(t) {
      match q {
        case RemovesResource(id) => DeactivateResourceLeaves(t, id, now, reformat);
        case RemovesService(id) => DeactivateServiceLeaves(t, id, now, reformat);
        case CreatesServices(id, news) => CreateServicesLeaves(t, id, news, now, reformat);
        case Certifies(id) => CertifyLeaves(t, id, now, reformat);
        case NotesResource(id, row, note) => NoteOnResourceLeaves(t, id, row, note, now, reformat);
        case NotesService(id, row, note) => ServiceNoteLeaves(t, id, row, note, reformat);
        case AddsAddress(id, address) => LinkAdded(t, id, address, reformat);
        case EditsResource(id, status, name, columns) => EditResourceLeaves(t, id, status, name, columns, now, reformat);
        case EditsService(id, name, columns, categories, eligibilities) =>
          EditServiceLeaves(t, id, name, columns, categories, eligibilities, now, reformat);
          EditedSiblings(t, id, name, columns, categories, eligibilities, now, reformat);
        case _ =>
      }
      AllRefreshed(t, e.after, e.resources, e.services, reformat);
    }
  }

  lemma MovedBehind(t: Tables, q: Request, now: string, reformat: Reformat)
    requires WellFormed(t) && Built(t, reformat) && OfAddresses(q)
    ensures LeavesBehind(t, MoveEffect(t, q, now), reformat)
  {
    hide Behind, WellFormed, Built, AddressExists, EditedAddress, RemovedAddress, Unlink, LeftByEdit, LeftByRemoval,
      LeftByUnlink, ReachedServices, ReachedResources, OwnerOf;
    NothingBehind(t, reformat);
    match q
    case UnlinksAddress(id, address) =>
      if AddressExists(t.addresses, address) {
        UnlinkBehind(t, id, address, reformat);
      }
    case EditsAddress(id, look) => EditBehind(t, id, look, now, reformat);
    case RemovesAddress(id) =>
      if AddressExists(t.addresses, id) {
        RemovalBehind(t, id, now, reformat);
      }
    case _ =>
  }

  lemma DeletionBehind(t: Tables, kind: string, id: int, reformat: Reformat)
    requires Built(t, reformat) && RowKind(kind)
    ensures LeavesBehind(t, RowDeletion(t, kind, id), reformat)
  {
    hide Behind, Built, FindRow, OneListChanged, RowKind;
    NothingBehind(t, reformat);
    var found := FindRow(t.attachments, kind, id);
    if found.Some? {
      RowDropped(t.attachments, found.value);
      ListLeftBehind(t, WithoutRow(t.attachments, found.value), found.value.owner, kind, reformat);
    }
  }

  lemma InstructionBehind(t: Tables, service: Option<int>, row: int, text: Json, reformat: Reformat)
    requires Built(t, reformat)
    ensures Behind(t, AddRow(t, Attachment(row, ServiceOwner(service), "instruction", text)), reformat, {}, {}, {},
                   LeftByInstruction(t, service))
  {
    hide Behind, Built, OneListChanged;
    var a := Attachment(row, ServiceOwner(service), "instruction", text);
    RowAdded(t.attachments, a);
    ListLeftBehind(t, t.attachments + [a], a.owner, "instruction", reformat);
    assert ResourcesShowing(t, a.owner, "instruction") == {};
    assert ServicesShowing(t, a.owner, "instruction") == LeftByInstruction(t, service);
  }

  lemma TextBehind(t: Tables, row: Attachment, text: Json, reformat: Reformat)
    requires Built(t, reformat) && row in t.attachments && row.kind == "instruction"
    ensures Behind(t, SetRow(t, row, text), reformat, {}, {}, {},
                   if row.value == text then {} else ServicesShowing(t, row.owner, "instruction"))
  {
    hide Behind, Built, OneListChanged, Leaves;
    if row.value == text {
      RowUnchanged(t.attachments, row);
      assert SetRow(t, row, text) == t;
      LeavesSelf(t, reformat, {}, {});
      LeavesNothingBehind(t, t, reformat, {}, {});
    } else {
      RowChanged(t.attachments, row, text);
      ListLeftBehind(t, WithValue(t.attachments, row, text), row.owner, "instruction", reformat);
      assert ResourcesShowing(t, row.owner, "instruction") == {};
    }
  }

  lemma NewNameBehind(t: Tables, id: int, name: Json, reformat: Reformat)
    requires Built(t, reformat) && id in t.eligibilities
    ensures Behind(t, RenameEligibility(t, id, name), reformat, {}, {}, {},
                   if t.eligibilities[id] != name then EligibleServices(t, id) else {})
  {
    hide Behind, Built, Leaves, EligibleServices;
    if t.eligibilities[id] == name {
      assert RenameEligibility(t, id, name) == t;
      LeavesSelf(t, reformat, {}, {});
      LeavesNothingBehind(t, t, reformat, {}, {});
    } else {
      NameLeftBehind(t, id, name, reformat);
    }
  }

  lemma Renamable(t: Tables, id: int, name: Option<string>)
    requires CanRename(t, id, name)
    ensures id in t.eligibilities
  {
    hide NameTaken;
  }

  lemma RowsBehind(t: Tables, q: Request, now: string, reformat: Reformat)
    requires Built(t, reformat) && OfRows(q)
    ensures LeavesBehind(t, RowEffect(t, q, now), reformat)
  {
    hide Behind, Built, FindRow, CanRename, EligibleServices, RowDeletion, ServicesShowing, LeftByInstruction,
      AddRow, SetRow,
      RenameEligibility;
    NothingBehind(t, reformat);
    match q
    case DeletesNote(id) => DeletionBehind(t, "note", id, reformat);
    case DeletesPhone(id) => DeletionBehind(t, "phone", id, reformat);
    case CreatesInstruction(service, row, text) => InstructionBehind(t, service, row, text, reformat);
    case UpdatesInstruction(id, text) =>
      var found := FindRow(t.attachments, "instruction", id);
      if found.Some? {
        TextBehind(t, found.value, text, reformat);
      }
    case RenamesEligibility(id, name) =>
      if CanRename(t, id, name) && name.Some? {
        Renamable(t, id, name);
        NewNameBehind(t, id, JText(name.value), reformat);
      }
    case _ =>
  }

  lemma RequestBehind(t: Tables, m: Tables, r: Option<int>, now: string, reformat: Reformat)
    requires Reaches(t, m, r, reformat)
    ensures LeavesBehind(t, Reaching(t, TouchOwner(m, r, now), r, {}), reformat)
  {
    hide Behind, Reaches, Leaves, TouchOwner, ReachedResources, ReachedServices;
    OwnerCommitted(t, m, r, now, reformat);
    AllRefreshed(t, TouchOwner(m, r, now), ReachedResources(t, r), ReachedServices(t, r), reformat);
  }

  lemma NoteBehind(t: Tables, id: int, text: Json, now: string, reformat: Reformat)
    requires WellFormed(t) && CanEditNote(t, id)
    ensures LeavesBehind(t, Reaching(t, EditedNote(t, id, text, now), Reached(t, "note", id), {}), reformat)
  {
    hide LeavesBehind, Reaching, WellFormed, OnlyOwner, Reaches, TouchOwner, FindRow, ResourceOf;
    var row := FindRow(t.attachments, "note", id).value;
    RowSetElsewhere(t, row, text);
    OwnerReaches(t, SetRow(t, row, text), row.owner, reformat);
    RequestBehind(t, SetRow(t, row, text), ResourceOf(t, row.owner), now, reformat);
  }

  lemma PhoneBehind(t: Tables, id: int, phone: Json, now: string, reformat: Reformat)
    requires WellFormed(t) && CanEditPhone(t, id)
    ensures LeavesBehind(t, Reaching(t, EditedPhone(t, id, phone, now), Reached(t, "phone", id), {}), reformat)
  {
    hide LeavesBehind, Reaching, WellFormed, OnlyOwner, Reaches, TouchOwner, FindRow;
    var row := FindRow(t.attachments, "phone", id).value;
    RowSetElsewhere(t, row, phone);
    OwnerReaches(t, SetRow(t, row, phone), row.owner, reformat);
    RequestBehind(t, SetRow(t, row, phone), ResourceOf(t, row.owner), now, reformat);
  }

  lemma NewPhoneBehind(t: Tables, r: int, row: int, phone: Json, now: string, reformat: Reformat)
    requires WellFormed(t) && r in t.resources
    ensures LeavesBehind(t, Reaching(t, AddedPhone(t, r, row, phone, now), Some(r), {}), reformat)
  {
    hide LeavesBehind, Reaching, WellFormed, OnlyOwner, Reaches, TouchOwner;
    var a := Attachment(row, OfResource(r), "phone", phone);
    RowAddedElsewhere(t, a);
    OwnerReaches(t, AddRow(t, a), a.owner, reformat);
    RequestBehind(t, AddRow(t, a), Some(r), now, reformat);
  }

  lemma NewAddressBehind(t: Tables, r: int, address: IndexAddress, now: string, reformat: Reformat)
    requires WellFormed(t) && r in t.resources
    ensures LeavesBehind(t, Reaching(t, AddedAddress(t, r, address, now), Some(r), {}), reformat)
  {
    hide LeavesBehind, Reaching, WellFormed, Reaches, TouchOwner;
    NewAddressReaches(t, r, address, reformat);
    RequestBehind(t, AddAddressRow(t, r, address), Some(r), now, reformat);
  }

  lemma DaysBehind(t: Tables, row: ScheduleRow, days: seq<DayRow>, now: string, reformat: Reformat)
    requires WellFormed(t) && BehindSchedule(t, Some(row)).Some?
    ensures var r := BehindSchedule(t, Some(row));
            LeavesBehind(t, Reaching(t, TouchOwner(WithScheduleDays(t, row, days), r, now), r, {}), reformat)
  {
    hide LeavesBehind, Reaching, WellFormed, OnlyOwner, Reaches, TouchOwner, ResourceOf, WithDays;
    DaysOnlyOwner(t, row, days);
    OwnerReaches(t, WithScheduleDays(t, row, days), row.owner, reformat);
    RequestBehind(t, WithScheduleDays(t, row, days), BehindSchedule(t, Some(row)), now, reformat);
  }

  lemma NewDayBehind(t: Tables, row: ScheduleRow, id: int, c: ScheduleChanges, now: string, reformat: Reformat)
    requires WellFormed(t) && BehindSchedule(t, Some(row)).Some?
    ensures var r := BehindSchedule(t, Some(row));
            LeavesBehind(t, Reaching(t, TouchOwner(AddDay(t, row, id, c), r, now), r, {}), reformat)
  {
    hide LeavesBehind, Reaching, WellFormed, TouchOwner, BehindSchedule;
    var day := ScheduleDay(c.day.GetOr(""), c.opensAt.GetOr(None), c.closesAt.GetOr(None));
    if DeletesDay(c) {
      SameDays(t.schedules, row);
      assert WithScheduleDays(t, row, row.days) == AddDay(t, row, id, c);
      DaysBehind(t, row, row.days, now, reformat);
    } else {
      DaysBehind(t, row, row.days + [DayRow(id, day)], now, reformat);
    }
  }

  lemma RequestsBehind(t: Tables, q: Request, now: string, reformat: Reformat)
    requires WellFormed(t) && OfRequests(q)
    ensures LeavesBehind(t, RequestEffect(t, q, now), reformat)
  {
    hide LeavesBehind, WellFormed, CanEditNote, CanEditPhone, EditedNote, EditedPhone, AddedPhone, AddedAddress,
      Reaching,
      Reached;
    NothingBehind(t, reformat);
    match q
    case EditsNote(id, text) =>
      if CanEditNote(t, id) {
        NoteBehind(t, id, text, now, reformat);
      }
    case EditsPhone(id, phone) =>
      if CanEditPhone(t, id) {
        PhoneBehind(t, id, phone, now, reformat);
      }
    case CreatesPhone(id, row, phone) =>
      if id in t.resources {
        NewPhoneBehind(t, id, row, phone, now, reformat);
      }
    case CreatesAddress(id, look) =>
      if id in t.resources {
        NewAddressBehind(t, id, look, now, reformat);
      }
    case _ =>
  }

  lemma DayRequestsBehind(t: Tables, q: Request, now: string, reformat: Reformat)
    requires WellFormed(t) && OfDays(q)
    ensures LeavesBehind(t, DayEffect(t, q, now), reformat)
  {
    hide LeavesBehind, WellFormed, Reaching, TouchOwner, ScheduleOfDay, FindSchedule, EditedDays, AddDay, ResourceOf;
    NothingBehind(t, reformat);
    match q
    case EditsDay(id, changes) =>
      var found := ScheduleOfDay(t.schedules, id);
      if BehindSchedule(t, found).Some? {
        DaysBehind(t, found.value, EditedDays(found.value.days, id, changes), now, reformat);
      }
    case CreatesDay(schedule, row, changes) =>
      var found := FindSchedule(t.schedules, schedule);
      if BehindSchedule(t, found).Some? {
        NewDayBehind(t, found.value, row, changes, now, reformat);
      }
    case _ =>
  }

  /** Whatever the request, outside what it refreshes exactly the stated records are left behind. */
  lemma EffectBehind(t: Tables, q: Request, now: string, reformat: Reformat)
    requires WellFormed(t) && Built(t, reformat)
    ensures LeavesBehind(t, EffectOf(t, q, now), reformat)
  {
    hide LeavesBehind, WellFormed, Built, ObjectEffect, MoveEffect, RowEffect, RequestEffect, DayEffect;
    if OfObjects(q) {
      ObjectsBehind(t, q, now, reformat);
    } else if OfAddresses(q) {
      MovedBehind(t, q, now, reformat);
    } else if OfRows(q) {
      RowsBehind(t, q, now, reformat);
    } else if OfRequests(q) {
      RequestsBehind(t, q, now, reformat);
    } else {
      DayRequestsBehind(t, q, now, reformat);
    }
  }
}
