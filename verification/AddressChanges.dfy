/**
  The handlers that change an address or its link to a service. They refresh the resource
  that owns the address and its services, or nothing at all, so the records of other services
  that show the address can go stale: exactly when is proved here.
 */
module AddressChanges {
  import opened IndexRecords
  import opened RecordContents
  import opened SearchIndex
  import opened SiteFrames
  import opened SiteHandlers
  import opened SiteSteps
  import opened SiteTables
  import opened SiteUpdates
  import opened Wrappers

  // ----- The commits -----

  function WithAddress(rows: seq<AddressRow>, id: int, address: IndexAddress): (r: seq<AddressRow>)
    ensures |r| == |rows|
    ensures forall i :: 0 <= i < |r| ==>
              r[i] == if rows[i].id == id then rows[i].(address := address) else rows[i]
  {
    if rows == [] then [] else
      [if rows[0].id == id then rows[0].(address := address) else rows[0]] + WithAddress(rows[1..], id, address)
  }

  function WithoutAddress(rows: seq<AddressRow>, id: int): (r: seq<AddressRow>)
    ensures forall row :: row in r <==> row in rows && row.id != id
  {
    if rows == [] then [] else (if rows[0].id == id then [] else [rows[0]]) + WithoutAddress(rows[1..], id)
  }

  function WithoutLinks(links: seq<(int, int)>, address: int): (r: seq<(int, int)>)
    ensures forall l :: l in r <==> l in links && l.1 != address
  {
    if links == [] then [] else (if links[0].1 == address then [] else [links[0]]) + WithoutLinks(links[1..], address)
  }

  /** The resource of the first row with this id. */
  function OwnerOf(rows: seq<AddressRow>, id: int): (owner: Option<int>)
    ensures owner.Some? ==> exists row :: row in rows && row.id == id && row.resourceId == owner
  {
    if rows == [] then None
    else if rows[0].id == id then rows[0].resourceId
    else OwnerOf(rows[1..], id)
  }

  // ----- What each commit does to the addresses of a service -----

  lemma {:induction false} UnlinkedAddresses(rows: seq<AddressRow>, a: seq<(int, int)>, b: seq<(int, int)>, s: int,
                                             address: int)
    requires forall l :: l in b <==> l in a && l != (s, address)
    ensures |AddressesOfService(rows, b, s)| <= |AddressesOfService(rows, a, s)|
    ensures (s, address) in a && AddressExists(rows, address) ==>
              |AddressesOfService(rows, b, s)| < |AddressesOfService(rows, a, s)|
    ensures !((s, address) in a && AddressExists(rows, address)) ==>
              AddressesOfService(rows, b, s) == AddressesOfService(rows, a, s)
    decreases |rows|
  {
    if rows != [] {
      UnlinkedAddresses(rows[1..], a, b, s, address);
      assert (s, rows[0].id) in b <==> (s, rows[0].id) in a && rows[0].id != address;
      assert AddressExists(rows, address) <==> rows[0].id == address || AddressExists(rows[1..], address);
    }
  }

  /** The address looks as before. */
  ghost predicate LooksTheSame(rows: seq<AddressRow>, id: int, address: IndexAddress)
  {
    forall row :: row in rows && row.id == id ==> SameLook(row.address, address)
  }

  lemma {:induction false} EditedAddresses(rows: seq<AddressRow>, links: seq<(int, int)>, s: int, id: int,
                                           address: IndexAddress)
    ensures var a := AddressesOfService(rows, links, s);
            var b := AddressesOfService(WithAddress(rows, id, address), links, s);
            LookAlike(a, b) <==> ((s, id) in links ==> LooksTheSame(rows, id, address))
    decreases |rows|
  {
    hide SameLook, LookAlike, LooksTheSame, AddressesOfService, WithAddress;
    if rows == [] {
      NoAddresses(links, s, id, address);
    } else {
      var rest, head := rows[1..], if (s, rows[0].id) in links then [rows[0].address] else [];
      var head' := if (s, rows[0].id) in links then [if rows[0].id == id then address else rows[0].address] else [];
      EditedAddresses(rest, links, s, id, address);
      FirstAddress(rows, links, s);
      FirstAddress(WithAddress(rows, id, address), links, s);
      FirstEdited(rows, id, address);
      LooksChain(head, head', AddressesOfService(rest, links, s),
                 AddressesOfService(WithAddress(rest, id, address), links, s));
      HeadsLook(rows[0], links, s, id, address, head, head');
      LooksFirst(rows, id, address);
    }
  }

  lemma NoAddresses(links: seq<(int, int)>, s: int, id: int, address: IndexAddress)
    ensures LookAlike(AddressesOfService([], links, s), AddressesOfService(WithAddress([], id, address), links, s))
    ensures LooksTheSame([], id, address)
  {
  }

  lemma FirstAddress(rows: seq<AddressRow>, links: seq<(int, int)>, s: int)
    requires rows != []
    ensures AddressesOfService(rows, links, s) ==
            (if (s, rows[0].id) in links then [rows[0].address] else []) + AddressesOfService(rows[1..], links, s)
  {
  }

  lemma FirstEdited(rows: seq<AddressRow>, id: int, address: IndexAddress)
    requires rows != []
    ensures var edited := WithAddress(rows, id, address);
            && edited != [] && edited[1..] == WithAddress(rows[1..], id, address) && edited[0].id == rows[0].id
            && edited[0].address == if rows[0].id == id then address else rows[0].address
  {
  }

  lemma HeadsLook(row: AddressRow, links: seq<(int, int)>, s: int, id: int, address: IndexAddress,
                  head: seq<IndexAddress>, head': seq<IndexAddress>)
    requires head == if (s, row.id) in links then [row.address] else []
    requires head' == if (s, row.id) in links then [if row.id == id then address else row.address] else []
    ensures |head| == |head'|
    ensures LookAlike(head, head') <==> ((s, id) in links && row.id == id ==> SameLook(row.address, address))
  {
    hide SameLook;
    SameLookSelf(row.address);
    if (s, row.id) in links {
      assert LookAlike(head, head') <==> SameLook(head[0], head'[0]);
    }
  }

  lemma LooksFirst(rows: seq<AddressRow>, id: int, address: IndexAddress)
    requires rows != []
    ensures LooksTheSame(rows, id, address) <==>
            (rows[0].id == id ==> SameLook(rows[0].address, address)) && LooksTheSame(rows[1..], id, address)
  {
    hide SameLook;
    assert rows == [rows[0]] + rows[1..];
  }

  lemma SameLookSelf(a: IndexAddress)
    ensures SameLook(a, a)
  {
  }

  lemma LooksChain(a: seq<IndexAddress>, b: seq<IndexAddress>, c: seq<IndexAddress>, d: seq<IndexAddress>)
    requires |a| == |b|
    ensures LookAlike(a + c, b + d) <==> LookAlike(a, b) && LookAlike(c, d)
  {
    hide SameLook;
    if LookAlike(a + c, b + d) {
      assert forall i :: 0 <= i < |a| ==> (a + c)[i] == a[i] && (b + d)[i] == b[i];
      assert forall i :: 0 <= i < |c| ==> (a + c)[|a| + i] == c[i] && (b + d)[|a| + i] == d[i];
    }
  }

  lemma {:induction false} RemovedAddresses(rows: seq<AddressRow>, a: seq<(int, int)>, b: seq<(int, int)>, s: int,
                                            id: int)
    requires forall l :: l in b <==> l in a && l.1 != id
    ensures var before, after := AddressesOfService(rows, a, s), AddressesOfService(WithoutAddress(rows, id), b, s);
            && |after| <= |before|
            && ((s, id) in a && AddressExists(rows, id) ==> |after| < |before|)
            && (!((s, id) in a && AddressExists(rows, id)) ==> after == before)
    decreases |rows|
  {
    if rows != [] {
      RemovedAddresses(rows[1..], a, b, s, id);
      assert (s, rows[0].id) in b <==> (s, rows[0].id) in a && rows[0].id != id;
      assert AddressExists(rows, id) <==> rows[0].id == id || AddressExists(rows[1..], id);
      WithoutFirst(rows, id);
    }
  }

  lemma {:induction false} OwnedApart(rows: seq<AddressRow>, id: int, address: IndexAddress, r: int)
    requires forall row :: row in rows && row.id == id ==> row.resourceId != Some(r)
    ensures AddressesOfResource(WithAddress(rows, id, address), r) == AddressesOfResource(rows, r)
    ensures AddressesOfResource(WithoutAddress(rows, id), r) == AddressesOfResource(rows, r)
    decreases |rows|
  {
    if rows != [] {
      assert rows[0] in rows && forall row :: row in rows[1..] ==> row in rows;
      OwnedApart(rows[1..], id, address, r);
      WithoutFirst(rows, id);
      assert WithAddress(rows, id, address)[1..] == WithAddress(rows[1..], id, address);
    }
  }

  lemma WithoutFirst(rows: seq<AddressRow>, id: int)
    requires rows != []
    ensures var rest := WithoutAddress(rows[1..], id);
            if rows[0].id == id then WithoutAddress(rows, id) == rest
            else WithoutAddress(rows, id) != [] && WithoutAddress(rows, id)[0] == rows[0] && WithoutAddress(rows, id)[1..] == rest
  {
  }

  lemma {:induction false} OneOwner(rows: seq<AddressRow>, id: int)
    requires DistinctAddresses(rows)
    ensures forall row :: row in rows && row.id == id ==> row.resourceId == OwnerOf(rows, id)
    decreases |rows|
  {
    if rows != [] {
      OneOwner(rows[1..], id);
      assert forall k :: 0 < k < |rows| ==> rows[k].id != rows[0].id;
      assert forall row :: row in rows <==> row == rows[0] || row in rows[1..];
    }
  }

  // ----- When the index stays in step -----

  /** Only the addresses of the service differ: its record is the same exactly when they look alike. */
  lemma ServiceTells(a: Tables, b: Tables, reformat: Reformat, s: int)
    requires ServiceApproved(a, s) && ServiceStatusRecord(a, s, reformat).Some?
    requires a.services == b.services && SameName(a, b, a.services[s].resourceId.GetOr(0))
    requires a.attachments == b.attachments && a.schedules == b.schedules && SameNames(a, b)
    requires AddressesOfResource(a.addresses, a.services[s].resourceId.GetOr(0)) ==
             AddressesOfResource(b.addresses, a.services[s].resourceId.GetOr(0))
    ensures SameService(a, b, reformat, s) <==>
            LookAlike(AddressesOfService(a.addresses, a.links, s), AddressesOfService(b.addresses, b.links, s))
  {
    hide ServiceRecord, LookAlike, AddressesOfService, AddressesOfResource, ScheduleOf, Id, Attached, Names, First;
    var source := ServiceView(a, s).value;
    var addresses := AddressesOfService(b.addresses, b.links, s);
    assert ServiceView(b, s) == Some(source.(addresses := addresses));
    RecordTells(source, addresses, ServiceObjectId(s), s, reformat);
  }

  function TouchOwner(t: Tables, owner: Option<int>, now: string): Tables
  {
    if owner.Some? then TouchResource(t, owner.value, now) else t
  }

  /** Only addresses and links differ, and the columns of the owner. */
  ghost predicate OnlyAddresses(a: Tables, b: Tables, owner: Option<int>)
  {
    && a.services == b.services && a.serviceIds == b.serviceIds
    && a.attachments == b.attachments && a.schedules == b.schedules && SameNames(a, b)
    && (forall r: int :: SameName(a, b, r))
    && (forall r: int :: ResourceApproved(a, r) == ResourceApproved(b, r))
    && (forall r: int :: Some(r) != owner ==>
          (r in a.resources && r in b.resources ==> a.resources[r] == b.resources[r]) &&
          AddressesOfResource(a.addresses, r) == AddressesOfResource(b.addresses, r))
  }

  /** What the end of a change request refreshes. */
  ghost function ReachedResources(t: Tables, owner: Option<int>): set<int>
  {
    if owner.Some? && owner.value in t.resources then {owner.value} else {}
  }

  ghost function ReachedServices(t: Tables, owner: Option<int>): set<int>
  {
    if owner.Some? && owner.value in t.resources then Namesakes(t, owner.value) else {}
  }

  lemma OthersKept(a: Tables, b: Tables, reformat: Reformat, owner: Option<int>)
    requires OnlyAddresses(a, b, owner)
    ensures SameStatus(a, b, {}, {})
    ensures forall id :: id !in ReachedResources(a, owner) ==> SameResource(a, b, reformat, id)
  {
    hide ResourceStatusRecord, ServiceStatusRecord, Attached, AddressesOfResource, ScheduleOf;
    forall id | id !in ReachedResources(a, owner) ensures SameResource(a, b, reformat, id) {
      assert SameName(a, b, id);
      if id in a.resources {
        assert Some(id) != owner;
        ListedSame(a, b, id);
        ResourceKept(a, b, reformat, id);
      }
    }
  }

  /** Outside the refreshed objects a record is left behind exactly when the addresses of its service look different. */
  lemma AddressesBehind(a: Tables, b: Tables, reformat: Reformat, owner: Option<int>, stale: set<int>)
    requires WellFormed(a) && Built(a, reformat) && OnlyAddresses(a, b, owner)
    requires stale !! ReachedServices(a, owner)
    requires forall s :: s !in ReachedServices(a, owner) ==> (s in stale <==> ServiceApproved(a, s) && Unlike(a, b, s))
    ensures Behind(a, b, reformat, ReachedResources(a, owner), ReachedServices(a, owner), {}, stale)
  {
    hide ResourceStatusRecord, ServiceStatusRecord, Unlike, ReachedResources, ResourceApproved, SameResource;
    OthersKept(a, b, reformat, owner);
    forall s | s !in ReachedServices(a, owner) ensures SameService(a, b, reformat, s) <==> s !in stale {
      ServiceUnlike(a, b, reformat, owner, s);
    }
  }

  ghost predicate Unlike(a: Tables, b: Tables, s: int)
  {
    !LookAlike(AddressesOfService(a.addresses, a.links, s), AddressesOfService(b.addresses, b.links, s))
  }

  lemma ServiceUnlike(a: Tables, b: Tables, reformat: Reformat, owner: Option<int>, s: int)
    requires WellFormed(a) && Built(a, reformat) && OnlyAddresses(a, b, owner) && s !in ReachedServices(a, owner)
    ensures SameService(a, b, reformat, s) <==> !(ServiceApproved(a, s) && Unlike(a, b, s))
  {
    hide ResourceStatusRecord, ServiceStatusRecord, AddressesOfService, AddressesOfResource, LookAlike, Attached,
      ScheduleOf;
    if ServiceApproved(a, s) {
      HasOwner(a, s, reformat);
      assert Some(a.services[s].resourceId.value) != owner;
      assert SameName(a, b, a.services[s].resourceId.value);
      ServiceTells(a, b, reformat, s);
    }
  }

  lemma HasOwner(t: Tables, s: int, reformat: Reformat)
    requires WellFormed(t) && ServiceStatusRecord(t, s, reformat).Some?
    ensures s in t.services && t.services[s].resourceId.Some? && t.services[s].resourceId.value in t.resources
    ensures s in Namesakes(t, t.services[s].resourceId.value)
  {
    hide ServiceRecord, ServiceLists, AddressesOfService, AddressesOfResource, ScheduleOf, Id, Attached, Names;
  }

  // ----- The handlers -----

  function EditedAddress(t: Tables, id: int, address: IndexAddress, now: string): Tables
  {
    TouchOwner(t.(addresses := WithAddress(t.addresses, id, address)), OwnerOf(t.addresses, id), now)
  }

  function RemovedAddress(t: Tables, id: int, now: string): Tables
  {
    TouchOwner(t.(addresses := WithoutAddress(t.addresses, id), links := WithoutLinks(t.links, id)),
               OwnerOf(t.addresses, id), now)
  }

  lemma TouchOnlyColumns(a: Tables, m: Tables, owner: Option<int>, now: string)
    requires OnlyAddresses(a, m, owner) && m.resources == a.resources
    ensures OnlyAddresses(a, TouchOwner(m, owner, now), owner)
  {
    hide AddressesOfResource, Touched;
  }

  lemma AddressOnly(t: Tables, id: int, address: IndexAddress, now: string)
    requires WellFormed(t)
    ensures OnlyAddresses(t, EditedAddress(t, id, address, now), OwnerOf(t.addresses, id))
    ensures OnlyAddresses(t, RemovedAddress(t, id, now), OwnerOf(t.addresses, id))
  {
    hide AddressesOfResource, TouchOwner, WithAddress, WithoutAddress, WithoutLinks, OwnerOf;
    var owner := OwnerOf(t.addresses, id);
    OneOwner(t.addresses, id);
    var edited := t.(addresses := WithAddress(t.addresses, id, address));
    var removed := t.(addresses := WithoutAddress(t.addresses, id), links := WithoutLinks(t.links, id));
    forall r: int | Some(r) != owner
      ensures AddressesOfResource(edited.addresses, r) == AddressesOfResource(t.addresses, r)
      ensures AddressesOfResource(removed.addresses, r) == AddressesOfResource(t.addresses, r)
    {
      OwnedApart(t.addresses, id, address, r);
    }
    TouchOnlyColumns(t, edited, owner, now);
    TouchOnlyColumns(t, removed, owner, now);
  }

  /** The approved services outside the refreshed ones that are linked to the address. */
  ghost function LinkedServices(t: Tables, address: int, reached: set<int>): set<int>
  {
    set s | s in t.services && s !in reached && ServiceApproved(t, s) && (s, address) in t.links
  }

  /** The services that a removed address, an edited one and an unlinked one leave behind. */
  ghost function LeftByRemoval(t: Tables, id: int): set<int>
  {
    LinkedServices(t, id, ReachedServices(t, OwnerOf(t.addresses, id)))
  }

  ghost function LeftByEdit(t: Tables, id: int, address: IndexAddress): set<int>
  {
    if LooksTheSame(t.addresses, id, address) then {} else LeftByRemoval(t, id)
  }

  ghost function LeftByUnlink(t: Tables, id: int, address: int): set<int>
  {
    if ServiceApproved(t, id) && (id, address) in t.links then {id} else {}
  }

  lemma EditBehind(t: Tables, id: int, address: IndexAddress, now: string, reformat: Reformat)
    requires WellFormed(t) && Built(t, reformat)
    ensures var owner := OwnerOf(t.addresses, id);
            Behind(t, EditedAddress(t, id, address, now), reformat, ReachedResources(t, owner), ReachedServices(t, owner),
                   {}, LeftByEdit(t, id, address))
  {
    hide AddressesOfService, LookAlike, LooksTheSame, ServiceApproved, OnlyAddresses, Behind, EditedAddress,
      ReachedServices,
      OwnerOf, Built, WellFormed;
    var b, owner := EditedAddress(t, id, address, now), OwnerOf(t.addresses, id);
    AddressOnly(t, id, address, now);
    forall s: int ensures Unlike(t, b, s) <==> (s, id) in t.links && !LooksTheSame(t.addresses, id, address) {
      EditUnlike(t, id, address, now, s);
    }
    ApprovedExist(t);
    AddressesBehind(t, b, reformat, owner, LeftByEdit(t, id, address));
  }

  lemma ApprovedExist(t: Tables)
    ensures forall s :: ServiceApproved(t, s) ==> s in t.services
  {
  }

  lemma EditUnlike(t: Tables, id: int, address: IndexAddress, now: string, s: int)
    ensures Unlike(t, EditedAddress(t, id, address, now), s) <==>
            (s, id) in t.links && !LooksTheSame(t.addresses, id, address)
  {
    hide AddressesOfService, LookAlike, SameLook, Touched, WithAddress;
    EditedAddresses(t.addresses, t.links, s, id, address);
  }

  lemma RemovalBehind(t: Tables, id: int, now: string, reformat: Reformat)
    requires WellFormed(t) && Built(t, reformat) && AddressExists(t.addresses, id)
    ensures var owner := OwnerOf(t.addresses, id);
            Behind(t, RemovedAddress(t, id, now), reformat, ReachedResources(t, owner), ReachedServices(t, owner),
                   {}, LeftByRemoval(t, id))
  {
    hide AddressesOfService, LookAlike, ServiceApproved, OnlyAddresses, Behind, RemovedAddress, ReachedServices, OwnerOf,
      Built, WellFormed, AddressExists;
    var b, owner := RemovedAddress(t, id, now), OwnerOf(t.addresses, id);
    AddressOnly(t, id, IndexAddress(map[], None, None), now);
    forall s: int ensures Unlike(t, b, s) <==> (s, id) in t.links {
      RemovalUnlike(t, id, now, s);
    }
    ApprovedExist(t);
    AddressesBehind(t, b, reformat, owner, LeftByRemoval(t, id));
  }

  lemma RemovalUnlike(t: Tables, id: int, now: string, s: int)
    requires AddressExists(t.addresses, id)
    ensures Unlike(t, RemovedAddress(t, id, now), s) <==> (s, id) in t.links
  {
    hide AddressesOfService, SameLook, Touched, AddressExists, WithoutAddress, WithoutLinks;
    var b := RemovedAddress(t, id, now);
    assert b.addresses == WithoutAddress(t.addresses, id) && b.links == WithoutLinks(t.links, id);
    assert forall l :: l in b.links <==> l in t.links && l.1 != id;
    RemovedAddresses(t.addresses, t.links, b.links, s, id);
    SameLooksAlike(AddressesOfService(t.addresses, t.links, s));
  }

  lemma SameLooksAlike(a: seq<IndexAddress>)
    ensures LookAlike(a, a)
  {
  }

  lemma UnlinkBehind(t: Tables, id: int, address: int, reformat: Reformat)
    requires WellFormed(t) && Built(t, reformat) && AddressExists(t.addresses, address)
    ensures Behind(t, Unlink(t, id, address), reformat, {}, {}, {}, LeftByUnlink(t, id, address))
  {
    hide AddressesOfService, LookAlike, ServiceApproved, OnlyAddresses, Behind, Built, WellFormed, AddressExists, Unlink;
    UnlinkOnly(t, id, address);
    forall s: int ensures Unlike(t, Unlink(t, id, address), s) <==> s == id && (id, address) in t.links {
      UnlinkUnlike(t, id, address, s);
    }
    AddressesBehind(t, Unlink(t, id, address), reformat, None, LeftByUnlink(t, id, address));
  }

  lemma UnlinkUnlike(t: Tables, id: int, address: int, s: int)
    requires AddressExists(t.addresses, address)
    ensures Unlike(t, Unlink(t, id, address), s) <==> s == id && (id, address) in t.links
  {
    hide AddressesOfService, SameLook, AddressExists, WithoutLink;
    var links := Unlink(t, id, address).links;
    assert forall l :: l in links <==> l in t.links && l != (id, address);
    if s == id {
      UnlinkedAddresses(t.addresses, t.links, links, s, address);
    } else {
      LinksElsewhere(t.addresses, t.links, links, s);
    }
    SameLooksAlike(AddressesOfService(t.addresses, t.links, s));
  }

  /**
    Removing an address from a service does not refresh the service: the index stays in step
    exactly when the service is not approved or did not have the address.
   */
  method RemoveServiceAddress(site: Site, id: int, address: int) returns (reply: Reply)
    requires WellFormed(site.db)
    modifies site`db
    ensures reply == if id in old(site.db).services && AddressExists(old(site.db).addresses, address) then Done
                     else Refused(BAD_REQUEST)
    ensures site.db == if reply.Done? then Unlink(old(site.db), id, address) else old(site.db)
    ensures SettledBut(site.index, old(site.db), site.index, site.db, site.reformat, {}, {}, {},
                       if reply.Done? then LeftByUnlink(old(site.db), id, address) else {})
    ensures WellFormed(site.db)
    ensures Sound(old(site.db), site.reformat) ==> Sound(site.db, site.reformat)
  {
    hide SettledBut, Behind, Built, SameStatus, Sound, Refreshed, LeftByUnlink;
    UntouchedBut(site.index, site.db, site.reformat);
    if id !in site.db.services || !AddressExists(site.db.addresses, address) {
      return Refused(BAD_REQUEST);
    }
    ghost var t := site.db;
    site.db := Unlink(site.db, id, address);
    if Sound(t, site.reformat) {
      SoundLinks(t, site.db.links, site.reformat);
    }
    UnlinkOnly(t, id, address);
    OthersKept(t, site.db, site.reformat, None);
    RefreshedNone(site.index, site.db, site.reformat);
    if Built(t, site.reformat) {
      UnlinkBehind(t, id, address, site.reformat);
    }
    SettleBut(site.index, t, site.index, site.db, site.reformat, {}, {}, {}, LeftByUnlink(t, id, address));
    return Done;
  }

  lemma UnlinkOnly(t: Tables, id: int, address: int)
    ensures OnlyAddresses(t, Unlink(t, id, address), None)
  {
    hide AddressesOfResource;
  }

  lemma SoundAddresses(t: Tables, b: Tables, owner: Option<int>, now: string, reformat: Reformat)
    requires Sound(t, reformat) && reformat(now).Some? && WellFormed(b)
    requires b == t.(addresses := b.addresses, links := b.links)
    ensures Sound(TouchOwner(b, owner, now), reformat)
  {
    hide StampsParse, DaysNamed, TouchResource, WellFormed;
    if owner.Some? {
      SoundTouch(b, owner.value, now, reformat);
    }
  }

  lemma {:induction false} WithoutDistinct(rows: seq<AddressRow>, id: int)
    requires DistinctAddresses(rows)
    ensures DistinctAddresses(WithoutAddress(rows, id))
    decreases |rows|
  {
    if rows != [] {
      WithoutDistinct(rows[1..], id);
      WithoutFirst(rows, id);
      var r := WithoutAddress(rows, id);
      forall i, j | 0 <= i < j < |r| ensures r[i].id != r[j].id {
        if i == 0 && rows[0].id != id {
          assert r[j] in WithoutAddress(rows[1..], id);
          assert r[j] in rows[1..];
        }
      }
    }
  }

  lemma FormedDistinct(t: Tables)
    requires WellFormed(t)
    ensures DistinctAddresses(t.addresses)
  {
  }

  lemma CommittedWellFormed(t: Tables, b: Tables)
    requires WellFormed(t) && b == t.(addresses := b.addresses, links := b.links)
    requires DistinctAddresses(b.addresses)
    requires forall row :: row in b.addresses ==> row.id < t.nextAddressId
    requires forall link :: link in b.links ==> link in t.links
    ensures WellFormed(b)
  {
    hide DistinctAddresses;
  }

  lemma RemovedWellFormed(t: Tables, id: int)
    requires WellFormed(t)
    ensures WellFormed(t.(addresses := WithoutAddress(t.addresses, id), links := WithoutLinks(t.links, id)))
  {
    hide DistinctAddresses;
    FormedDistinct(t);
    WithoutDistinct(t.addresses, id);
    CommittedWellFormed(t, t.(addresses := WithoutAddress(t.addresses, id), links := WithoutLinks(t.links, id)));
  }

  lemma EditedWellFormed(t: Tables, id: int, address: IndexAddress)
    requires WellFormed(t)
    ensures WellFormed(t.(addresses := WithAddress(t.addresses, id, address)))
  {
    var rows := WithAddress(t.addresses, id, address);
    forall row | row in rows ensures row.id < t.nextAddressId {
      var i :| 0 <= i < |rows| && rows[i] == row;
      assert t.addresses[i] in t.addresses;
    }
    CommittedWellFormed(t, t.(addresses := rows));
  }

  lemma TouchedRows(t: Tables, owner: Option<int>, now: string)
    ensures var b := TouchOwner(t, owner, now);
            b.addresses == t.addresses && b.resources.Keys == t.resources.Keys &&
            (WellFormed(t) ==> WellFormed(b)) && TouchOwner(b, owner, now) == b
  {
    hide Touched;
    if owner.Some? && owner.value in t.resources {
      TouchedTwice(t.resources[owner.value].columns, now);
    }
  }

  lemma TouchedTwice(columns: Record, now: string)
    ensures Touched(Touched(columns, now), now) == Touched(columns, now)
  {
  }

  /** The end of a change request refreshes the owner, when there is one, and its services. */
  method FinishOwned(site: Site, owner: Option<int>, now: string) returns (ok: bool)
    modifies site`db, site`index
    ensures site.db == TouchOwner(old(site.db), owner, now)
    ensures ok ==> Refreshed(old(site.index), site.index, site.db, site.reformat,
                             ReachedResources(old(site.db), owner), ReachedServices(old(site.db), owner))
    ensures ok <==> (ReachedResources(old(site.db), owner) != {} ==> CanFinish(site.db, site.reformat, owner.value))
    ensures Sound(site.db, site.reformat) ==> ok
  {
    hide Refreshed, TouchResource, CanFinish, Sound;
    RefreshedNone(site.index, TouchOwner(site.db, owner, now), site.reformat);
    if owner.Some? {
      NamesakesTouched(site.db, owner.value, now);
      if owner.value in site.db.resources && Sound(TouchOwner(site.db, owner, now), site.reformat) {
        SoundFinishes(TouchOwner(site.db, owner, now), site.reformat, owner.value);
      }
    }
    ok := FinishChangeRequest(site, owner, now);
  }

  lemma NamesakesTouched(t: Tables, r: int, now: string)
    ensures Namesakes(TouchResource(t, r, now), r) == Namesakes(t, r)
    ensures r !in t.resources ==> TouchResource(t, r, now) == t
    ensures TouchResource(t, r, now).resources.Keys == t.resources.Keys
  {
    hide Touched;
    ListingSame(t, TouchResource(t, r, now), t.serviceIds, r);
  }

  lemma ReachedTouched(t: Tables, m: Tables, owner: Option<int>, now: string)
    requires m.services == t.services && m.serviceIds == t.serviceIds && m.resources == t.resources
    ensures var b := TouchOwner(m, owner, now);
            ReachedResources(b, owner) == ReachedResources(t, owner) && ReachedServices(b, owner) == ReachedServices(t, owner)
  {
    hide Touched;
    if owner.Some? {
      NamesakesTouched(m, owner.value, now);
      ListingSame(t, m, t.serviceIds, owner.value);
    }
  }

  /**
    Editing an address refreshes its resource and that resource's services: the index stays in
    step exactly when no other approved service shows the address, or it looks as before.
   */
  method EditAddress(site: Site, id: int, address: IndexAddress, now: string) returns (reply: Reply)
    requires WellFormed(site.db)
    modifies site`db, site`index
    ensures reply.Refused? <==> !AddressExists(old(site.db).addresses, id)
    ensures reply.Refused? ==> reply == Refused(NOT_FOUND) && site.db == old(site.db) && site.index == old(site.index)
    ensures !reply.Refused? ==> site.db == EditedAddress(old(site.db), id, address, now)
    ensures reply.Done? ==>
              var owner := OwnerOf(old(site.db).addresses, id);
              SettledBut(old(site.index), old(site.db), site.index, site.db, site.reformat,
                         ReachedResources(old(site.db), owner), ReachedServices(old(site.db), owner),
                         {}, LeftByEdit(old(site.db), id, address))
    ensures WellFormed(site.db)
    ensures Sound(old(site.db), site.reformat) && site.reformat(now).Some? ==>
              reply != Failed && Sound(site.db, site.reformat)
  {
    hide SettledBut, Behind, Built, SameStatus, Sound, Refreshed, OnlyAddresses, TouchOwner, WithAddress,
      ReachedResources,
      ReachedServices, OwnerOf, LeftByEdit, WellFormed, AddressExists;
    if !AddressExists(site.db.addresses, id) {
      return Refused(NOT_FOUND);
    }
    ghost var before, t := site.index, site.db;
    var owner := OwnerOf(site.db.addresses, id);
    ghost var m := t.(addresses := WithAddress(t.addresses, id, address));
    site.db := TouchOwner(site.db.(addresses := WithAddress(site.db.addresses, id, address)), owner, now);
    EditedWellFormed(t, id, address);
    Changed(site.reformat, t, m, owner, now);
    AddressOnly(t, id, address, now);
    var finished := FinishOwned(site, owner, now);
    if !finished {
      return Failed;
    }
    OthersKept(t, site.db, site.reformat, owner);
    if Built(t, site.reformat) {
      EditBehind(t, id, address, now, site.reformat);
    }
    SettleOthers(t, site.db, owner);
    SettleBut(before, t, site.index, site.db, site.reformat, ReachedResources(t, owner), ReachedServices(t, owner),
              {}, LeftByEdit(t, id, address));
    return Done;
  }

  lemma SettleOthers(a: Tables, b: Tables, owner: Option<int>)
    requires SameStatus(a, b, {}, {})
    ensures SameStatus(a, b, ReachedResources(a, owner), ReachedServices(a, owner))
  {
    hide ResourceApproved, ServiceApproved;
  }

  /** What the commit of an address change keeps. */
  lemma Changed(reformat: Reformat, t: Tables, m: Tables, owner: Option<int>, now: string)
    requires WellFormed(m) && m == t.(addresses := m.addresses, links := m.links)
    ensures var b := TouchOwner(m, owner, now);
            && WellFormed(b) && TouchOwner(b, owner, now) == b
            && ReachedResources(b, owner) == ReachedResources(t, owner) && ReachedServices(b, owner) == ReachedServices(t, owner)
            && (Sound(t, reformat) && reformat(now).Some? ==> Sound(b, reformat))
  {
    hide TouchOwner, WellFormed, Sound, ReachedResources, ReachedServices;
    ReachedTouched(t, m, owner, now);
    TouchedRows(m, owner, now);
    if Sound(t, reformat) && reformat(now).Some? {
      SoundAddresses(t, m, owner, now, reformat);
    }
  }

  /** Removing an address: in step exactly when no approved service outside the refreshed ones shows it. */
  method RemoveAddress(site: Site, id: int, now: string) returns (reply: Reply)
    requires WellFormed(site.db)
    modifies site`db, site`index
    ensures reply.Refused? <==> !AddressExists(old(site.db).addresses, id)
    ensures reply.Refused? ==> reply == Refused(NOT_FOUND) && site.db == old(site.db) && site.index == old(site.index)
    ensures !reply.Refused? ==> site.db == RemovedAddress(old(site.db), id, now)
    ensures reply.Done? ==>
              var owner := OwnerOf(old(site.db).addresses, id);
              SettledBut(old(site.index), old(site.db), site.index, site.db, site.reformat,
                         ReachedResources(old(site.db), owner), ReachedServices(old(site.db), owner),
                         {}, LeftByRemoval(old(site.db), id))
    ensures WellFormed(site.db)
    ensures Sound(old(site.db), site.reformat) && site.reformat(now).Some? ==>
              reply != Failed && Sound(site.db, site.reformat)
  {
    hide SettledBut, Behind, Built, SameStatus, Sound, Refreshed, OnlyAddresses, TouchOwner, WithoutAddress,
      WithoutLinks,
      ReachedResources, ReachedServices, OwnerOf, LeftByRemoval, WellFormed, AddressExists;
    if !AddressExists(site.db.addresses, id) {
      return Refused(NOT_FOUND);
    }
    ghost var before, t := site.index, site.db;
    var owner := OwnerOf(site.db.addresses, id);
    ghost var m := t.(addresses := WithoutAddress(t.addresses, id), links := WithoutLinks(t.links, id));
    site.db := TouchOwner(site.db.(addresses := WithoutAddress(site.db.addresses, id),
                                   links := WithoutLinks(site.db.links, id)), owner, now);
    RemovedWellFormed(t, id);
    Changed(site.reformat, t, m, owner, now);
    AddressOnly(t, id, IndexAddress(map[], None, None), now);
    var finished := FinishOwned(site, owner, now);
    if !finished {
      return Failed;
    }
    OthersKept(t, site.db, site.reformat, owner);
    if Built(t, site.reformat) {
      RemovalBehind(t, id, now, site.reformat);
    }
    SettleOthers(t, site.db, owner);
    SettleBut(before, t, site.index, site.db, site.reformat, ReachedResources(t, owner), ReachedServices(t, owner),
              {}, LeftByRemoval(t, id));
    return Done;
  }
}
