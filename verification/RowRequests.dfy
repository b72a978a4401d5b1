/**
  The change requests of notes, phones, new addresses and schedule days (internal/changerequest):
  each changes rows of one owner and ends in a refresh of the owner's resource and its services,
  so nothing is left behind. The day of a schedule is an unchecked text: exactly when the refresh
  after the commit fails is proved here.
 */
module RowRequests {
  import opened AddressChanges
  import opened DayChanges
  import opened IndexRecords
  import opened OpenTimes
  import opened SearchIndex
  import opened SiteFrames
  import opened SiteHandlers
  import opened SiteSteps
  import opened SiteTables
  import opened SiteUpdates
  import opened Wrappers

  // ----- One owner -----

  /** The resource that a change request names for a row of this owner. */
  function ResourceOf(t: Tables, owner: Owner): Option<int>
  {
    match owner
    case OfResource(r) => Some(r)
    case OfService(s) => if s in t.services then t.services[s].resourceId else None
    case Nobody => None
  }

  /** Only the parts of this owner changed. */
  ghost predicate OnlyOwner(a: Tables, b: Tables, owner: Owner)
  {
    && OnlyParts(a, b) && a.addresses == b.addresses && a.links == b.links
    && a.nextServiceId == b.nextServiceId && a.nextAddressId == b.nextAddressId
    && forall o :: o != owner ==> SameParts(a, b, o)
  }

  lemma OwnerLeaves(a: Tables, b: Tables, owner: Owner, reformat: Reformat)
    requires WellFormed(a) && OnlyOwner(a, b, owner)
    requires ResourceOf(a, owner).Some? ==> ResourceOf(a, owner).value in a.resources
    ensures Leaves(a, b, reformat, ReachedResources(a, ResourceOf(a, owner)), ReachedServices(a, ResourceOf(a, owner)))
  {
    hide SameParts, Leaves, AddressesOfResource, AddressesOfService, Namesakes;
    match owner
    case OfResource(r) => PartsLeave(a, b, reformat, {r}, Namesakes(a, r));
    case Nobody => PartsLeave(a, b, reformat, {}, {});
    case OfService(s) =>
      if s in a.services && a.services[s].resourceId.Some? {
        var r := a.services[s].resourceId.value;
        ListedService(a, s);
        PartsLeave(a, b, reformat, {r}, Namesakes(a, r));
      } else {
        PartsLeave(a, b, reformat, {}, {s});
        LoneService(a, b, reformat, s);
      }
  }

  lemma ListedService(t: Tables, s: int)
    requires WellFormed(t) && s in t.services && t.services[s].resourceId.Some?
    ensures s in Namesakes(t, t.services[s].resourceId.value)
  {
    assert s in t.serviceIds;
  }

  lemma LoneService(a: Tables, b: Tables, reformat: Reformat, s: int)
    requires Leaves(a, b, reformat, {}, {s}) && a.services == b.services
    requires s in a.services ==> a.services[s].resourceId.None?
    ensures Leaves(a, b, reformat, {}, {})
  {
    hide Leaves, ServiceStatusRecord;
    if s in a.services {
      WithoutOwner(a, b, reformat, s);
    }
    WithoutService(a, b, reformat, {}, s);
  }

  lemma TouchOwnerLeaves(t: Tables, owner: Option<int>, now: string, reformat: Reformat)
    requires WellFormed(t)
    ensures Leaves(t, TouchOwner(t, owner, now), reformat, ReachedResources(t, owner), {})
    ensures WellFormed(TouchOwner(t, owner, now))
  {
    hide Leaves, WellFormed;
    LeavesSelf(t, reformat, {}, {});
    if owner.Some? {
      TouchLeaves(t, owner.value, now, reformat);
    }
  }

  lemma SameReach(t: Tables, m: Tables, owner: Option<int>)
    requires m.services == t.services && m.serviceIds == t.serviceIds && m.resources == t.resources
    ensures ReachedResources(m, owner) == ReachedResources(t, owner) && ReachedServices(m, owner) == ReachedServices(t, owner)
  {
    if owner.Some? {
      ListingSame(t, m, t.serviceIds, owner.value);
    }
  }

  /** The rows of resources and services are as they were. */
  ghost predicate SameRows(a: Tables, b: Tables)
  {
    a.resources == b.resources && a.services == b.services && a.serviceIds == b.serviceIds
  }

  /** A change of parts that shows on the reached objects alone. */
  ghost predicate Reaches(t: Tables, m: Tables, r: Option<int>, reformat: Reformat)
  {
    && WellFormed(m) && SameRows(t, m) && (r.Some? ==> r.value in t.resources)
    && Leaves(t, m, reformat, ReachedResources(t, r), ReachedServices(t, r))
  }

  lemma OwnerReaches(t: Tables, m: Tables, owner: Owner, reformat: Reformat)
    requires WellFormed(t) && OnlyOwner(t, m, owner)
    requires ResourceOf(t, owner).Some? ==> ResourceOf(t, owner).value in t.resources
    ensures Reaches(t, m, ResourceOf(t, owner), reformat)
  {
    hide Leaves, WellFormed, OnlyOwner, ReachedResources, ReachedServices, ResourceOf;
    OwnerFormed(t, m, owner);
    OwnerLeaves(t, m, owner, reformat);
  }

  lemma OwnerFormed(t: Tables, m: Tables, owner: Owner)
    requires WellFormed(t) && OnlyOwner(t, m, owner)
    ensures WellFormed(m) && SameRows(t, m)
  {
    hide DistinctAddresses;
  }

  /** What the commit of such a change request keeps, and what it must refresh. */
  lemma OwnerCommitted(t: Tables, m: Tables, r: Option<int>, now: string, reformat: Reformat)
    requires Reaches(t, m, r, reformat)
    ensures var b := TouchOwner(m, r, now);
            && WellFormed(b) && Leaves(t, b, reformat, ReachedResources(t, r), ReachedServices(t, r))
            && TouchOwner(b, r, now) == b
            && ReachedResources(b, r) == ReachedResources(t, r) && ReachedServices(b, r) == ReachedServices(t, r)
  {
    hide Leaves, WellFormed, ReachedResources, ReachedServices, TouchOwner;
    TouchOwnerLeaves(m, r, now, reformat);
    SameReach(t, m, r);
    ReachedTouched(t, m, r, now);
    TouchedRows(m, r, now);
    LeavesChain(t, m, TouchOwner(m, r, now), reformat, ReachedResources(t, r), ReachedServices(t, r),
                ReachedResources(t, r), {});
    assert ReachedResources(t, r) + ReachedResources(t, r) == ReachedResources(t, r);
    assert ReachedServices(t, r) + {} == ReachedServices(t, r);
  }

  /** The commit of changed parts and the refresh after it; the rows are committed even when that fails. */
  method CommitAndFinish(site: Site, m: Tables, r: Option<int>, now: string) returns (ok: bool)
    requires Reaches(site.db, m, r, site.reformat)
    modifies site`db, site`index
    ensures site.db == TouchOwner(m, r, now) && WellFormed(site.db)
    ensures ok ==> Settled(old(site.index), old(site.db), site.index, site.db, site.reformat,
                           ReachedResources(old(site.db), r), ReachedServices(old(site.db), r))
    ensures ok <==> (r.Some? ==> CanFinish(site.db, site.reformat, r.value))
    ensures Sound(site.db, site.reformat) ==> ok
  {
    hide WellFormed, Leaves, Refreshed, Settled, TouchOwner, ReachedServices, Sound, CanFinish;
    ghost var before, t := site.index, site.db;
    OwnerCommitted(t, m, r, now, site.reformat);
    site.db := TouchOwner(m, r, now);
    ok := FinishOwned(site, r, now);
    if ok {
      Settle(before, t, site.index, site.db, site.reformat, ReachedResources(t, r), ReachedServices(t, r));
    }
  }

  // ----- Notes and phones -----

  lemma OneOwnerRows(t: Tables, rows: seq<Attachment>, owner: Owner)
    requires forall o :: o != owner ==> AttachedSame(t.attachments, rows, o)
    ensures OnlyOwner(t, t.(attachments := rows), owner)
  {
    hide AttachedSame;
  }

  lemma RowSetElsewhere(t: Tables, row: Attachment, value: Json)
    requires row in t.attachments
    ensures OnlyOwner(t, SetRow(t, row, value), row.owner)
  {
    hide Attached, OnlyOwner;
    forall o, k | o != row.owner
      ensures Attached(t.attachments, o, k) == Attached(WithValue(t.attachments, row, value), o, k)
    {
      ChangedLists(t.attachments, row, value, o, k);
    }
    OneOwnerRows(t, WithValue(t.attachments, row, value), row.owner);
  }

  lemma SoundRows(t: Tables, rows: seq<Attachment>, owner: Option<int>, now: string, reformat: Reformat)
    requires Sound(t, reformat) && reformat(now).Some?
    ensures Sound(TouchOwner(t.(attachments := rows), owner, now), reformat)
  {
    hide Sound, TouchResource;
    SoundAttachments(t, rows, reformat);
    if owner.Some? {
      SoundTouch(t.(attachments := rows), owner.value, now, reformat);
    }
  }

  /** The note is there, and so is its service when it has one. */
  predicate NoteFound(t: Tables, id: int)
  {
    match FindRow(t.attachments, "note", id)
    case None => false
    case Some(row) => row.owner.OfService? ==> row.owner.id in t.services
  }

  /** The resource that the change request names exists, or it names none. */
  predicate CanEditNote(t: Tables, id: int)
  {
    NoteFound(t, id) &&
    var r := ResourceOf(t, FindRow(t.attachments, "note", id).value.owner);
    r.Some? ==> r.value in t.resources
  }

  function EditedNote(t: Tables, id: int, text: Json, now: string): Tables
    requires FindRow(t.attachments, "note", id).Some?
  {
    var row := FindRow(t.attachments, "note", id).value;
    TouchOwner(SetRow(t, row, text), ResourceOf(t, row.owner), now)
  }

  /** The resource that a change request for this row reaches. */
  ghost function Reached(t: Tables, kind: string, id: int): Option<int>
  {
    match FindRow(t.attachments, kind, id)
    case None => None
    case Some(row) => ResourceOf(t, row.owner)
  }

  method EditNote(site: Site, id: int, text: Json, now: string) returns (reply: Reply)
    requires WellFormed(site.db)
    modifies site`db, site`index
    ensures reply.Refused? <==> !CanEditNote(old(site.db), id)
    ensures reply.Refused? ==>
              reply == Refused(if NoteFound(old(site.db), id) then SERVER_ERROR else NOT_FOUND) &&
              site.db == old(site.db) && site.index == old(site.index)
    ensures !reply.Refused? ==> site.db == EditedNote(old(site.db), id, text, now)
    ensures reply.Done? ==>
              var r := Reached(old(site.db), "note", id);
              Settled(old(site.index), old(site.db), site.index, site.db, site.reformat,
                      ReachedResources(old(site.db), r), ReachedServices(old(site.db), r))
    ensures WellFormed(site.db)
    ensures Sound(old(site.db), site.reformat) && site.reformat(now).Some? ==>
              reply != Failed && Sound(site.db, site.reformat)
  {
    hide WellFormed, Settled, Sound, TouchOwner, CanFinish, Reaches, OnlyOwner, ReachedResources, ReachedServices,
      FindRow;
    var found := FindRow(site.db.attachments, "note", id);
    if found.None? {
      return Refused(NOT_FOUND);
    }
    var row := found.value;
    if row.owner.OfService? && row.owner.id !in site.db.services {
      return Refused(NOT_FOUND);
    }
    var resource := ResourceOf(site.db, row.owner);
    if resource.Some? && resource.value !in site.db.resources {
      return Refused(SERVER_ERROR);
    }
    ghost var t := site.db;
    RowSetElsewhere(t, row, text);
    OwnerReaches(t, SetRow(t, row, text), row.owner, site.reformat);
    if Sound(t, site.reformat) && site.reformat(now).Some? {
      SoundRows(t, WithValue(t.attachments, row, text), resource, now, site.reformat);
    }
    var ok := CommitAndFinish(site, SetRow(site.db, row, text), resource, now);
    return if ok then Done else Failed;
  }

  predicate CanEditPhone(t: Tables, id: int)
  {
    match FindRow(t.attachments, "phone", id)
    case None => false
    case Some(row) => row.owner.OfResource? && row.owner.id in t.resources
  }

  function EditedPhone(t: Tables, id: int, phone: Json, now: string): Tables
    requires FindRow(t.attachments, "phone", id).Some?
  {
    var row := FindRow(t.attachments, "phone", id).value;
    TouchOwner(SetRow(t, row, phone), ResourceOf(t, row.owner), now)
  }

  /** A phone without a resource cannot be scanned, so it is refused like a missing one. */
  method EditPhone(site: Site, id: int, phone: Json, now: string) returns (reply: Reply)
    requires WellFormed(site.db)
    modifies site`db, site`index
    ensures reply.Refused? <==> !CanEditPhone(old(site.db), id)
    ensures reply.Refused? ==> reply == Refused(SERVER_ERROR) && site.db == old(site.db) && site.index == old(site.index)
    ensures !reply.Refused? ==> site.db == EditedPhone(old(site.db), id, phone, now)
    ensures reply.Done? ==>
              var r := Reached(old(site.db), "phone", id);
              Settled(old(site.index), old(site.db), site.index, site.db, site.reformat,
                      ReachedResources(old(site.db), r), ReachedServices(old(site.db), r))
    ensures WellFormed(site.db)
    ensures Sound(old(site.db), site.reformat) && site.reformat(now).Some? ==>
              reply != Failed && Sound(site.db, site.reformat)
  {
    hide WellFormed, Settled, Sound, TouchOwner, CanFinish, Reaches, OnlyOwner, ReachedResources, ReachedServices,
      FindRow;
    var found := FindRow(site.db.attachments, "phone", id);
    if found.None? || !found.value.owner.OfResource? || found.value.owner.id !in site.db.resources {
      return Refused(SERVER_ERROR);
    }
    var row := found.value;
    ghost var t := site.db;
    RowSetElsewhere(t, row, phone);
    OwnerReaches(t, SetRow(t, row, phone), row.owner, site.reformat);
    if Sound(t, site.reformat) && site.reformat(now).Some? {
      SoundRows(t, WithValue(t.attachments, row, phone), Some(row.owner.id), now, site.reformat);
    }
    var ok := CommitAndFinish(site, SetRow(site.db, row, phone), Some(row.owner.id), now);
    return if ok then Done else Failed;
  }

  function AddedPhone(t: Tables, resourceId: int, id: int, phone: Json, now: string): Tables
  {
    TouchOwner(AddRow(t, Attachment(id, OfResource(resourceId), "phone", phone)), Some(resourceId), now)
  }

  /** A missing resource breaks a foreign key. */
  method CreatePhone(site: Site, resourceId: int, id: int, phone: Json, now: string) returns (reply: Reply)
    requires WellFormed(site.db)
    modifies site`db, site`index
    ensures reply.Refused? <==> resourceId !in old(site.db).resources
    ensures reply.Refused? ==> reply == Refused(SERVER_ERROR) && site.db == old(site.db) && site.index == old(site.index)
    ensures !reply.Refused? ==> site.db == AddedPhone(old(site.db), resourceId, id, phone, now)
    ensures reply.Done? ==>
              Settled(old(site.index), old(site.db), site.index, site.db, site.reformat,
                      ReachedResources(old(site.db), Some(resourceId)), ReachedServices(old(site.db), Some(resourceId)))
    ensures WellFormed(site.db)
    ensures Sound(old(site.db), site.reformat) && site.reformat(now).Some? ==>
              reply != Failed && Sound(site.db, site.reformat)
  {
    hide WellFormed, Settled, Sound, TouchOwner, CanFinish, Reaches, OnlyOwner, ReachedResources, ReachedServices;
    if resourceId !in site.db.resources {
      return Refused(SERVER_ERROR);
    }
    ghost var t := site.db;
    var row := Attachment(id, OfResource(resourceId), "phone", phone);
    RowAddedElsewhere(t, row);
    OwnerReaches(t, AddRow(t, row), row.owner, site.reformat);
    if Sound(t, site.reformat) && site.reformat(now).Some? {
      SoundRows(t, t.attachments + [row], Some(resourceId), now, site.reformat);
    }
    var ok := CommitAndFinish(site, AddRow(site.db, row), Some(resourceId), now);
    return if ok then Done else Failed;
  }

  lemma RowAddedElsewhere(t: Tables, row: Attachment)
    ensures OnlyOwner(t, AddRow(t, row), row.owner)
  {
    hide AttachedSame, OnlyOwner;
    forall o | o != row.owner ensures AttachedSame(t.attachments, t.attachments + [row], o) {
      AppendElsewhere(t.attachments, [row], o);
    }
    OneOwnerRows(t, t.attachments + [row], row.owner);
  }

  // ----- New addresses -----

  lemma {:induction false} AddressAppended(rows: seq<AddressRow>, row: AddressRow, links: seq<(int, int)>, id: int)
    ensures row.resourceId != Some(id) ==> AddressesOfResource(rows + [row], id) == AddressesOfResource(rows, id)
    ensures (id, row.id) !in links ==> AddressesOfService(rows + [row], links, id) == AddressesOfService(rows, links, id)
    decreases |rows|
  {
    if rows == [] {
      assert rows + [row] == [row] && [row][1..] == [];
    } else {
      assert (rows + [row])[1..] == rows[1..] + [row];
      AddressAppended(rows[1..], row, links, id);
    }
  }

  lemma NewAddressReaches(t: Tables, r: int, address: IndexAddress, reformat: Reformat)
    requires WellFormed(t) && r in t.resources
    ensures Reaches(t, AddAddressRow(t, r, address), Some(r), reformat)
  {
    hide Leaves, WellFormed, AddressesOfResource, AddressesOfService, Attached, ScheduleOf, Namesakes;
    var m, row := AddAddressRow(t, r, address), AddressRow(t.nextAddressId, Some(r), address);
    NewAddressFormed(t, r, address);
    forall id: int
      ensures id != r ==> AddressesOfResource(t.addresses, id) == AddressesOfResource(m.addresses, id)
      ensures AddressesOfService(t.addresses, t.links, id) == AddressesOfService(m.addresses, m.links, id)
    {
      AddressAppended(t.addresses, row, t.links, id);
    }
    PartsLeave(t, m, reformat, {r}, Namesakes(t, r));
  }

  /** The number of a new address is linked to no service yet. */
  lemma NewAddressFormed(t: Tables, r: int, address: IndexAddress)
    requires WellFormed(t)
    ensures WellFormed(AddAddressRow(t, r, address))
    ensures forall id: int :: (id, t.nextAddressId) !in t.links
  {
    var m := AddAddressRow(t, r, address);
    forall i, j | 0 <= i < j < |m.addresses| ensures m.addresses[i].id != m.addresses[j].id {
      assert m.addresses[i] in t.addresses;
    }
  }

  function AddedAddress(t: Tables, resourceId: int, address: IndexAddress, now: string): Tables
  {
    TouchOwner(AddAddressRow(t, resourceId, address), Some(resourceId), now)
  }

  method CreateAddress(site: Site, resourceId: int, address: IndexAddress, now: string) returns (reply: Reply)
    requires WellFormed(site.db)
    modifies site`db, site`index
    ensures reply.Refused? <==> resourceId !in old(site.db).resources
    ensures reply.Refused? ==> reply == Refused(SERVER_ERROR) && site.db == old(site.db) && site.index == old(site.index)
    ensures !reply.Refused? ==> site.db == AddedAddress(old(site.db), resourceId, address, now)
    ensures reply.Done? ==>
              Settled(old(site.index), old(site.db), site.index, site.db, site.reformat,
                      ReachedResources(old(site.db), Some(resourceId)), ReachedServices(old(site.db), Some(resourceId)))
    ensures WellFormed(site.db)
    ensures Sound(old(site.db), site.reformat) && site.reformat(now).Some? ==>
              reply != Failed && Sound(site.db, site.reformat)
  {
    hide WellFormed, Settled, Sound, TouchOwner, CanFinish, Reaches, ReachedResources, ReachedServices;
    if resourceId !in site.db.resources {
      return Refused(SERVER_ERROR);
    }
    ghost var t := site.db;
    NewAddressReaches(t, resourceId, address, site.reformat);
    if Sound(t, site.reformat) && site.reformat(now).Some? {
      NewAddressSound(t, resourceId, address, now, site.reformat);
    }
    var ok := CommitAndFinish(site, AddAddressRow(site.db, resourceId, address), Some(resourceId), now);
    return if ok then Done else Failed;
  }

  lemma NewAddressSound(t: Tables, r: int, address: IndexAddress, now: string, reformat: Reformat)
    requires Sound(t, reformat) && reformat(now).Some?
    ensures Sound(AddedAddress(t, r, address, now), reformat)
  {
    hide StampsParse, DaysNamed, TouchResource, WellFormed;
    NewAddressFormed(t, r, address);
    SoundTouch(AddAddressRow(t, r, address), r, now, reformat);
  }
}
