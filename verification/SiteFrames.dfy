/**
  What each committed change can show in the search index: the records outside the objects
  that the handlers refresh stay as they are.
 */
module SiteFrames {
  import opened IndexRecords
  import opened OpenTimes
  import opened RecordContents
  import opened SearchIndex
  import opened SiteTables
  import opened SiteUpdates
  import opened Wrappers

  // ----- What a record reads -----

  /** The parts of a resource that its services' records show. */
  ghost predicate ShownByServices(a: Tables, b: Tables, r: int)
  {
    && Attached(a.attachments, OfResource(r), "phone") == Attached(b.attachments, OfResource(r), "phone")
    && Attached(a.attachments, OfResource(r), "site") == Attached(b.attachments, OfResource(r), "site")
    && AddressesOfResource(a.addresses, r) == AddressesOfResource(b.addresses, r)
    && ScheduleOf(a.schedules, OfResource(r)) == ScheduleOf(b.schedules, OfResource(r))
  }

  ghost predicate SameName(a: Tables, b: Tables, r: int)
  {
    && (r in a.resources <==> r in b.resources)
    && (r in a.resources ==> a.resources[r].name == b.resources[r].name)
  }

  ghost predicate SamePartsOfService(a: Tables, b: Tables, id: int)
  {
    && AttachedSame(a.attachments, b.attachments, OfService(id))
    && AddressesOfService(a.addresses, a.links, id) == AddressesOfService(b.addresses, b.links, id)
    && ScheduleOf(a.schedules, OfService(id)) == ScheduleOf(b.schedules, OfService(id))
  }

  ghost predicate SamePartsOfResource(a: Tables, b: Tables, r: int)
  {
    && AttachedSame(a.attachments, b.attachments, OfResource(r))
    && AddressesOfResource(a.addresses, r) == AddressesOfResource(b.addresses, r)
    && ScheduleOf(a.schedules, OfResource(r)) == ScheduleOf(b.schedules, OfResource(r))
    && NamesOf(a, ServicesOf(a, a.serviceIds, r)) == NamesOf(b, ServicesOf(b, b.serviceIds, r))
  }

  /** The tables of names that join rows point to. */
  ghost predicate SameNames(a: Tables, b: Tables)
  {
    a.categories == b.categories && a.eligibilities == b.eligibilities
  }

  lemma ServiceViewKept(a: Tables, b: Tables, id: int)
    requires SameNames(a, b)
    requires id in a.services <==> id in b.services
    requires id in a.services ==> a.services[id] == b.services[id]
    requires SamePartsOfService(a, b, id)
    requires id in a.services && a.services[id].resourceId.Some? ==>
               SameName(a, b, a.services[id].resourceId.value) &&
               ShownByServices(a, b, a.services[id].resourceId.value)
    ensures ServiceView(a, id) == ServiceView(b, id)
  {
    hide Attached, AddressesOfService, AddressesOfResource, ScheduleOf, ServiceLists, Id, Names;
    if id in a.services && a.services[id].resourceId.Some? && a.services[id].resourceId.value in a.resources {
      assert Attached(a.attachments, OfService(id), "category") == Attached(b.attachments, OfService(id), "category");
      ListsKept(a, b, id, a.services[id].resourceId.value);
    }
  }

  lemma ListsKept(a: Tables, b: Tables, id: int, r: int)
    requires SameNames(a, b) && AttachedSame(a.attachments, b.attachments, OfService(id)) && ShownByServices(a, b, r)
    ensures ServiceLists(a, id, r) == ServiceLists(b, id, r)
  {
    hide Attached, AddressesOfResource, ScheduleOf, First, Names;
    assert forall kind :: Attached(a.attachments, OfService(id), kind) == Attached(b.attachments, OfService(id), kind);
  }

  lemma ServiceKept(a: Tables, b: Tables, reformat: Reformat, id: int)
    requires SameNames(a, b)
    requires id in a.services <==> id in b.services
    requires id in a.services ==> a.services[id] == b.services[id]
    requires SamePartsOfService(a, b, id)
    requires id in a.services && a.services[id].resourceId.Some? ==>
               SameName(a, b, a.services[id].resourceId.value) &&
               ShownByServices(a, b, a.services[id].resourceId.value)
    ensures SameService(a, b, reformat, id)
  {
    hide ServiceView, ServiceRecord, SamePartsOfService, SameName, ShownByServices;
    ServiceViewKept(a, b, id);
  }

  lemma ResourceKept(a: Tables, b: Tables, reformat: Reformat, id: int)
    requires a.categories == b.categories
    requires id in a.resources <==> id in b.resources
    requires id in a.resources ==> a.resources[id] == b.resources[id]
    requires SamePartsOfResource(a, b, id)
    ensures SameResource(a, b, reformat, id)
  {
    hide ResourceRecord, Attached, AddressesOfResource, ScheduleOf, NamesOf, ServicesOf, Names;
    if id in a.resources {
      assert forall kind :: Attached(a.attachments, OfResource(id), kind) == Attached(b.attachments, OfResource(id), kind);
      assert ResourceView(a, id) == ResourceView(b, id);
    }
  }

  /** The services listed on a resource's record, when no listed row changes its name or resource. */
  lemma ListedSame(a: Tables, b: Tables, r: int)
    requires a.serviceIds == b.serviceIds
    requires SameListing(a, b, a.serviceIds)
    ensures NamesOf(a, ServicesOf(a, a.serviceIds, r)) == NamesOf(b, ServicesOf(b, b.serviceIds, r))
  {
    ListingSame(a, b, a.serviceIds, r);
    NamesSame(a, b, ServicesOf(a, a.serviceIds, r));
  }

  lemma LeavesChain(a: Tables, b: Tables, c: Tables, reformat: Reformat,
                    r1: set<int>, s1: set<int>, r2: set<int>, s2: set<int>)
    requires Leaves(a, b, reformat, r1, s1) && Leaves(b, c, reformat, r2, s2)
    ensures Leaves(a, c, reformat, r1 + r2, s1 + s2)
  {
    hide ResourceApproved, ServiceApproved, ResourceStatusRecord, ServiceStatusRecord;
    forall id | id !in r1 + r2 ensures SameResource(a, c, reformat, id) {
      assert SameResource(a, b, reformat, id) && SameResource(b, c, reformat, id);
    }
    forall id | id !in s1 + s2 ensures SameService(a, c, reformat, id) {
      assert SameService(a, b, reformat, id) && SameService(b, c, reformat, id);
    }
  }

  lemma LeavesMore(a: Tables, b: Tables, reformat: Reformat, r1: set<int>, s1: set<int>, r2: set<int>, s2: set<int>)
    requires Leaves(a, b, reformat, r1, s1) && r1 <= r2 && s1 <= s2
    ensures Leaves(a, b, reformat, r2, s2)
  {
    hide SameResource, SameService;
  }

  // ----- Rows that change in one table -----

  /** The services whose records show the resource's name. */
  ghost function Namesakes(t: Tables, r: int): set<int>
  {
    IdSet(ServicesOf(t, t.serviceIds, r))
  }

  function WithResource(t: Tables, r: int, row: ResourceRow): Tables
  {
    t.(resources := t.resources[r := row])
  }

  lemma ResourceRowChanges(t: Tables, r: int, row: ResourceRow, reformat: Reformat)
    requires WellFormed(t) && r in t.resources
    ensures var rename := row.name != t.resources[r].name;
            Leaves(t, WithResource(t, r, row), reformat, {r}, if rename then Namesakes(t, r) else {})
  {
    hide ResourceStatusRecord, ServiceStatusRecord, Attached, AddressesOfService, AddressesOfResource, ScheduleOf,
      NamesOf;
    var b := WithResource(t, r, row);
    var rename := row.name != t.resources[r].name;
    forall id | id !in {r} ensures SameResource(t, b, reformat, id) {
      ListedSame(t, b, id);
      ResourceKept(t, b, reformat, id);
    }
    var shown := if rename then Namesakes(t, r) else {};
    forall id | id !in shown ensures SameService(t, b, reformat, id) {
      if id in t.services {
        assert id in t.serviceIds;
      }
      ServiceKept(t, b, reformat, id);
    }
  }

  function WithService(t: Tables, id: int, row: ServiceRow): Tables
  {
    t.(services := t.services[id := row])
  }

  lemma ServiceRowChanges(t: Tables, s: int, row: ServiceRow, reformat: Reformat)
    requires s in t.services && row.resourceId == t.services[s].resourceId
    ensures var rename := row.name != t.services[s].name && row.resourceId.Some?;
            Leaves(t, WithService(t, s, row), reformat, if rename then {row.resourceId.value} else {}, {s})
  {
    hide ResourceStatusRecord, ServiceStatusRecord, Attached, AddressesOfService, AddressesOfResource, ScheduleOf;
    var b := WithService(t, s, row);
    var rename := row.name != t.services[s].name && row.resourceId.Some?;
    var listing := if rename then {row.resourceId.value} else {};
    forall id | id !in listing ensures SameResource(t, b, reformat, id) {
      ListingApart(t, b, s, t.serviceIds, id);
      ResourceKept(t, b, reformat, id);
    }
    forall id | id !in {s} ensures SameService(t, b, reformat, id) {
      ServiceKept(t, b, reformat, id);
    }
  }

  /** Changing the row of a service shows on the listing of no resource but its own. */
  lemma ListingApart(a: Tables, b: Tables, s: int, ids: seq<int>, r: int)
    requires s in a.services && s in b.services && b.services == a.services[s := b.services[s]]
    requires b.services[s].resourceId == a.services[s].resourceId
    requires a.services[s].resourceId != Some(r) || b.services[s].name == a.services[s].name
    ensures NamesOf(a, ServicesOf(a, ids, r)) == NamesOf(b, ServicesOf(b, ids, r))
  {
    ListingSame(a, b, ids, r);
    NamesSame(a, b, ServicesOf(a, ids, r));
  }

  // ----- Changed parts -----

  ghost predicate SameParts(a: Tables, b: Tables, owner: Owner)
  {
    AttachedSame(a.attachments, b.attachments, owner) && ScheduleOf(a.schedules, owner) == ScheduleOf(b.schedules, owner)
  }

  /** Only parts changed: addresses, links, schedules and attachments. */
  ghost predicate OnlyParts(a: Tables, b: Tables)
  {
    a.resources == b.resources && a.services == b.services && a.serviceIds == b.serviceIds && SameNames(a, b)
  }

  /** Changed parts show on the records of their owners, and those of a resource on its services too. */
  lemma PartsLeave(a: Tables, b: Tables, reformat: Reformat, resources: set<int>, services: set<int>)
    requires WellFormed(a) && OnlyParts(a, b)
    requires forall r :: r !in resources ==>
               SameParts(a, b, OfResource(r)) && AddressesOfResource(a.addresses, r) == AddressesOfResource(b.addresses, r)
    requires forall s :: s !in services ==>
               SameParts(a, b, OfService(s)) &&
               AddressesOfService(a.addresses, a.links, s) == AddressesOfService(b.addresses, b.links, s)
    requires forall r :: r in resources ==> ShownByServices(a, b, r) || Namesakes(a, r) <= services
    ensures Leaves(a, b, reformat, resources, services)
  {
    hide ResourceStatusRecord, ServiceStatusRecord, Attached, AddressesOfService, AddressesOfResource, ScheduleOf,
      ResourceApproved, ServiceApproved, AttachedSame, ServicesOf, NamesOf, ShownByServices;
    forall id | id !in resources ensures SameResource(a, b, reformat, id) {
      ListedSame(a, b, id);
      ResourceKept(a, b, reformat, id);
    }
    forall id | id !in services ensures SameService(a, b, reformat, id) {
      if id in a.services && a.services[id].resourceId.Some? {
        var r := a.services[id].resourceId.value;
        assert id in a.serviceIds && id in Namesakes(a, r);
        if r !in resources {
          PartsShown(a, b, r);
        }
      }
      ServiceKept(a, b, reformat, id);
    }
  }

  lemma PartsShown(a: Tables, b: Tables, r: int)
    requires SameParts(a, b, OfResource(r)) && AddressesOfResource(a.addresses, r) == AddressesOfResource(b.addresses, r)
    ensures ShownByServices(a, b, r)
  {
    hide Attached, AddressesOfResource, ScheduleOf;
    assert forall kind :: Attached(a.attachments, OfResource(r), kind) == Attached(b.attachments, OfResource(r), kind);
  }

  /** Rows of one service change. */
  lemma ServiceAttachmentsChange(t: Tables, s: int, rows: seq<Attachment>, reformat: Reformat)
    requires WellFormed(t)
    requires forall owner :: owner != OfService(s) ==> AttachedSame(t.attachments, rows, owner)
    ensures Leaves(t, t.(attachments := rows), reformat, {}, {s})
  {
    hide WellFormed, AttachedSame, AddressesOfService, AddressesOfResource, ScheduleOf;
    PartsLeave(t, t.(attachments := rows), reformat, {}, {s});
  }

  /** A note of a resource shows on its own record alone. */
  lemma ResourceNoteAdded(t: Tables, r: int, row: int, note: Json, reformat: Reformat)
    requires WellFormed(t)
    ensures Leaves(t, AddNote(t, OfResource(r), row, note), reformat, {r}, {})
  {
    hide WellFormed, Attached, AddressesOfService, AddressesOfResource, ScheduleOf;
    var more := [Attachment(row, OfResource(r), "note", note)];
    forall owner | owner != OfResource(r) ensures AttachedSame(t.attachments, t.attachments + more, owner) {
      AppendElsewhere(t.attachments, more, owner);
    }
    forall kind | kind != "note"
      ensures Attached(t.attachments, OfResource(r), kind) == Attached(t.attachments + more, OfResource(r), kind)
    {
      AttachedAppend(t.attachments, more, OfResource(r), kind);
      AttachedElsewhere(more, OfResource(r), kind);
    }
    PartsLeave(t, AddNote(t, OfResource(r), row, note), reformat, {r}, {});
  }

  lemma LinkAdded(t: Tables, s: int, address: int, reformat: Reformat)
    requires WellFormed(t)
    ensures Leaves(t, Link(t, s, address), reformat, {}, {s})
  {
    hide WellFormed, Attached, AddressesOfService, AddressesOfResource, ScheduleOf;
    forall id | id != s
      ensures AddressesOfService(t.addresses, t.links, id) == AddressesOfService(t.addresses, Link(t, s, address).links, id)
    {
      LinksElsewhere(t.addresses, t.links, Link(t, s, address).links, id);
    }
    PartsLeave(t, Link(t, s, address), reformat, {}, {s});
  }

  // ----- Rows that show on records, exactly -----

  /** Every list that the record of the service shows. */
  ghost predicate ListsAlike(a: Tables, b: Tables, s: int, r: int)
  {
    && Names(a.categories, Attached(a.attachments, OfService(s), "category")) ==
       Names(b.categories, Attached(b.attachments, OfService(s), "category"))
    && ServiceLists(a, s, r) == ServiceLists(b, s, r)
  }

  /** When only attachments or names change, the record is the same exactly when its lists are. */
  lemma ServiceListsTell(a: Tables, b: Tables, reformat: Reformat, s: int)
    requires ServiceApproved(a, s) && ServiceStatusRecord(a, s, reformat).Some?
    requires b == a.(attachments := b.attachments, eligibilities := b.eligibilities)
    ensures a.services[s].resourceId.Some? && a.services[s].resourceId.value in a.resources
    ensures SameService(a, b, reformat, s) <==> ListsAlike(a, b, s, a.services[s].resourceId.value)
  {
    hide ServiceRecord, Attached, AddressesOfService, AddressesOfResource, ScheduleOf, Id, ServiceLists, Names;
    var source := ServiceView(a, s).value;
    var r := a.services[s].resourceId.value;
    var categories := Names(b.categories, Attached(b.attachments, OfService(s), "category"));
    ListKeys(a, s, r);
    ListKeys(b, s, r);
    assert ServiceView(b, s) == Some(source.(categories := categories, lists := ServiceLists(b, s, r)));
    ListsTell(source, categories, ServiceLists(b, s, r), ServiceObjectId(s), s, reformat);
  }

  lemma ListKeys(t: Tables, s: int, r: int)
    ensures ServiceLists(t, s, r).Keys == SERVICE_LISTS && ResourceLists(t, r).Keys == RESOURCE_LISTS
  {
    hide Attached, Names, NamesOf, ServicesOf, First;
  }

  lemma ResourceListsTell(a: Tables, b: Tables, reformat: Reformat, r: int)
    requires ResourceApproved(a, r) && ResourceStatusRecord(a, r, reformat).Some?
    requires b == a.(attachments := b.attachments, eligibilities := b.eligibilities)
    ensures SameResource(a, b, reformat, r) <==>
            && Names(a.categories, Attached(a.attachments, OfResource(r), "category")) ==
               Names(b.categories, Attached(b.attachments, OfResource(r), "category"))
            && ResourceLists(a, r) == ResourceLists(b, r)
  {
    hide ResourceRecord, Attached, AddressesOfResource, ScheduleOf, Id, ResourceLists, Names;
    var source := ResourceView(a, r).value;
    var other := ResourceView(b, r).value;
    ListKeys(a, 0, r);
    ListKeys(b, 0, r);
    SameColumnsBuild(source, other, ResourceObjectId(r), r, reformat);
    ResourceTells(source, other, ResourceObjectId(r), r, reformat);
  }

  lemma SameColumnsBuild(a: ResourceSource, b: ResourceSource, objectId: string, id: int, reformat: Reformat)
    requires a.columns == b.columns && a.schedule == b.schedule
    ensures ResourceRecord(a, objectId, id, reformat).Some? <==> ResourceRecord(b, objectId, id, reformat).Some?
  {
    hide Stamped, Attributed, OpenTimesField, AddressRecords, Days, ORIGIN;
  }

  /** The approved resource whose record shows the rows of this kind and owner. */
  ghost function ResourcesShowing(t: Tables, owner: Owner, kind: string): set<int>
  {
    if owner.OfResource? && kind != "instruction" && ResourceApproved(t, owner.id) then {owner.id} else {}
  }

  ghost function ApprovedUnderResource(t: Tables, r: int): set<int>
  {
    set s | s in t.services && ServiceApproved(t, s) && t.services[s].resourceId == Some(r)
  }

  /** The approved services whose records show them: phones are those of the resource. */
  ghost function ServicesShowing(t: Tables, owner: Owner, kind: string): set<int>
  {
    match owner
    case OfService(s) => if kind != "phone" && ServiceApproved(t, s) then {s} else {}
    case OfResource(r) => if kind == "phone" then ApprovedUnderResource(t, r) else {}
    case Nobody => {}
  }

  /** The list of one owner and kind is the only one that changed. */
  ghost predicate OneListChanged(a: seq<Attachment>, b: seq<Attachment>, owner: Owner, kind: string)
  {
    forall o, k :: Attached(a, o, k) == Attached(b, o, k) <==> o != owner || k != kind
  }

  predicate RowKind(kind: string) { kind == "note" || kind == "phone" || kind == "instruction" }

  /** A changed list is left behind exactly on the approved records that show it. */
  lemma ListLeftBehind(t: Tables, rows: seq<Attachment>, owner: Owner, kind: string, reformat: Reformat)
    requires Built(t, reformat) && RowKind(kind) && OneListChanged(t.attachments, rows, owner, kind)
    ensures Behind(t, t.(attachments := rows), reformat, {}, {}, ResourcesShowing(t, owner, kind),
                   ServicesShowing(t, owner, kind))
  {
    hide ResourceStatusRecord, ServiceStatusRecord, OneListChanged, RowKind, SameService, SameResource;
    var b := t.(attachments := rows);
    forall id: int ensures SameResource(t, b, reformat, id) <==> id !in ResourcesShowing(t, owner, kind) {
      ResourceListChange(t, rows, owner, kind, reformat, id);
    }
    forall id: int ensures SameService(t, b, reformat, id) <==> id !in ServicesShowing(t, owner, kind) {
      ServiceListChange(t, rows, owner, kind, reformat, id);
    }
  }

  lemma ResourceListChange(t: Tables, rows: seq<Attachment>, owner: Owner, kind: string, reformat: Reformat, id: int)
    requires Built(t, reformat) && RowKind(kind) && OneListChanged(t.attachments, rows, owner, kind)
    ensures SameResource(t, t.(attachments := rows), reformat, id) <==> id !in ResourcesShowing(t, owner, kind)
  {
    hide ResourceStatusRecord, ServiceStatusRecord, Attached, NamesOf, ServicesOf, Names;
    var b := t.(attachments := rows);
    if ResourceApproved(t, id) {
      ResourceListsTell(t, b, reformat, id);
      ResourceListsDiffer(t, rows, owner, kind, id);
    }
  }

  lemma ResourceListsDiffer(t: Tables, rows: seq<Attachment>, owner: Owner, kind: string, id: int)
    requires RowKind(kind) && OneListChanged(t.attachments, rows, owner, kind)
    ensures var b := t.(attachments := rows);
            && Attached(t.attachments, OfResource(id), "category") == Attached(rows, OfResource(id), "category")
            && (ResourceLists(t, id) == ResourceLists(b, id) <==> owner != OfResource(id) || kind == "instruction")
  {
    hide Attached, NamesOf, ServicesOf;
    var b := t.(attachments := rows);
    var l, l' := ResourceLists(t, id), ResourceLists(b, id);
    ListingSame(t, b, t.serviceIds, id);
    NamesSame(t, b, ServicesOf(t, t.serviceIds, id));
    if l == l' {
      assert l["notes"] == l'["notes"] && l["phones"] == l'["phones"];
    }
  }

  lemma ServiceListChange(t: Tables, rows: seq<Attachment>, owner: Owner, kind: string, reformat: Reformat, id: int)
    requires Built(t, reformat) && RowKind(kind) && OneListChanged(t.attachments, rows, owner, kind)
    ensures SameService(t, t.(attachments := rows), reformat, id) <==> id !in ServicesShowing(t, owner, kind)
  {
    hide ResourceStatusRecord, ServiceStatusRecord, Attached, Names, OneListChanged;
    var b := t.(attachments := rows);
    if ServiceApproved(t, id) {
      ServiceListsTell(t, b, reformat, id);
      ServiceListsDiffer(t, rows, owner, kind, id, t.services[id].resourceId.value);
    }
  }

  lemma ServiceListsDiffer(t: Tables, rows: seq<Attachment>, owner: Owner, kind: string, id: int, r: int)
    requires RowKind(kind) && OneListChanged(t.attachments, rows, owner, kind)
    ensures ListsAlike(t, t.(attachments := rows), id, r) <==>
            !(owner == OfService(id) && kind != "phone") && !(owner == OfResource(r) && kind == "phone")
  {
    hide Attached, Names;
    var b := t.(attachments := rows);
    var l, l' := ServiceLists(t, id, r), ServiceLists(b, id, r);
    if l == l' {
      assert l["notes"] == l'["notes"] && l["phones"] == l'["phones"] && l["instructions"] == l'["instructions"];
    }
  }

  /** A row that is deleted, changed or added changes one list. */
  lemma RowDropped(rows: seq<Attachment>, row: Attachment)
    requires row in rows
    ensures OneListChanged(rows, WithoutRow(rows, row), row.owner, row.kind)
  {
    hide Attached;
    forall o, k
      ensures Attached(rows, o, k) == Attached(WithoutRow(rows, row), o, k) <==> o != row.owner || k != row.kind
    {
      DroppedLists(rows, row, o, k);
    }
  }

  lemma RowChanged(rows: seq<Attachment>, row: Attachment, value: Json)
    requires row in rows && value != row.value
    ensures OneListChanged(rows, WithValue(rows, row, value), row.owner, row.kind)
  {
    hide Attached;
    forall o, k
      ensures Attached(rows, o, k) == Attached(WithValue(rows, row, value), o, k) <==> o != row.owner || k != row.kind
    {
      ChangedLists(rows, row, value, o, k);
    }
  }

  lemma RowAdded(rows: seq<Attachment>, row: Attachment)
    ensures OneListChanged(rows, rows + [row], row.owner, row.kind)
  {
    forall o, k ensures Attached(rows, o, k) == Attached(rows + [row], o, k) <==> o != row.owner || k != row.kind {
      AttachedAppend(rows, [row], o, k);
      assert [row][1..] == [];
    }
  }

  lemma {:induction false} RowUnchanged(rows: seq<Attachment>, row: Attachment)
    ensures WithValue(rows, row, row.value) == rows
    decreases |rows|
  {
    if rows != [] {
      RowUnchanged(rows[1..], row);
    }
  }

  /** The approved services that show the name of an eligibility. */
  ghost function EligibleServices(t: Tables, id: int): set<int>
  {
    set s | s in t.services && ServiceApproved(t, s) && JInt(id) in Attached(t.attachments, OfService(s), "eligibility")
  }

  /** A new name of an eligibility is left behind exactly on the approved services that have it. */
  lemma NameLeftBehind(t: Tables, id: int, name: Json, reformat: Reformat)
    requires Built(t, reformat) && id in t.eligibilities && t.eligibilities[id] != name
    ensures Behind(t, RenameEligibility(t, id, name), reformat, {}, {}, {}, EligibleServices(t, id))
  {
    hide ResourceStatusRecord, ServiceStatusRecord, Attached, AddressesOfResource, ScheduleOf, ServicesOf, NamesOf, Names,
      SameService;
    var b := RenameEligibility(t, id, name);
    forall r: int ensures SameResource(t, b, reformat, r) {
      ListedSame(t, b, r);
      ResourceKept(t, b, reformat, r);
    }
    forall s: int ensures SameService(t, b, reformat, s) <==> s !in EligibleServices(t, id) {
      ServiceNameChange(t, id, name, reformat, s);
    }
  }

  lemma ServiceNameChange(t: Tables, id: int, name: Json, reformat: Reformat, s: int)
    requires Built(t, reformat) && id in t.eligibilities && t.eligibilities[id] != name
    ensures SameService(t, RenameEligibility(t, id, name), reformat, s) <==> s !in EligibleServices(t, id)
  {
    hide ResourceStatusRecord, ServiceStatusRecord, Attached, Names;
    var b := RenameEligibility(t, id, name);
    if ServiceApproved(t, s) {
      ServiceListsTell(t, b, reformat, s);
      NamesDiffer(t, id, name, s, t.services[s].resourceId.value);
    }
  }

  lemma NamesDiffer(t: Tables, id: int, name: Json, s: int, r: int)
    requires id in t.eligibilities && t.eligibilities[id] != name
    ensures ListsAlike(t, RenameEligibility(t, id, name), s, r) <==>
            JInt(id) !in Attached(t.attachments, OfService(s), "eligibility")
  {
    hide Attached, Names;
    var l, l' := ServiceLists(t, s, r), ServiceLists(RenameEligibility(t, id, name), s, r);
    RenamedLists(t.eligibilities, Attached(t.attachments, OfService(s), "eligibility"), id, name);
    if l == l' {
      assert l["eligibilities"] == l'["eligibilities"];
    }
  }
}
