/**
  The search index kept in step with the database: the rebuilds of internal/searchindex and
  the handlers of internal/resources, internal/services and internal/changerequest that
  write rows and then the index. Handlers run one at a time; index and database calls succeed.
 */
module SearchIndex {
  import opened IndexRecords
  import opened SiteTables
  import opened Wrappers

  type Index = map<string, Record>

  // ----- What the index should hold -----

  /** The object of a resource is its current record when it is approved, and missing otherwise. */
  ghost predicate ResourceFresh(index: Index, t: Tables, reformat: Reformat, id: int)
  {
    if ResourceApproved(t, id)
    then ResourceObjectId(id) in index && Some(index[ResourceObjectId(id)]) == ResourceStatusRecord(t, id, reformat)
    else ResourceObjectId(id) !in index
  }

  ghost predicate ServiceFresh(index: Index, t: Tables, reformat: Reformat, id: int)
  {
    if ServiceApproved(t, id)
    then ServiceObjectId(id) in index && Some(index[ServiceObjectId(id)]) == ServiceStatusRecord(t, id, reformat)
    else ServiceObjectId(id) !in index
  }

  /** The index is exactly the view of the database. */
  ghost predicate Mirrors(index: Index, t: Tables, reformat: Reformat)
  {
    && (forall id: int :: ResourceFresh(index, t, reformat, id))
    && (forall id: int :: ServiceFresh(index, t, reformat, id))
    && (forall key :: key in index ==> Named(key))
  }

  /** A resource or service is in the index exactly when its row is approved, and nothing else is. */
  ghost predicate Visible(index: Index, t: Tables)
  {
    && (forall id: int :: ResourceObjectId(id) in index <==> ResourceApproved(t, id))
    && (forall id: int :: ServiceObjectId(id) in index <==> ServiceApproved(t, id))
    && (forall key :: key in index ==> Named(key))
  }

  /** Rows from which every record can be built. */
  ghost predicate Buildable(t: Tables, reformat: Reformat)
  {
    && (forall id: int :: ResourceApproved(t, id) ==> ResourceStatusRecord(t, id, reformat).Some?)
    && (forall id: int :: ServiceApproved(t, id) ==> ServiceStatusRecord(t, id, reformat).Some?)
    && (forall id: int :: id in t.services ==> ServiceView(t, id).Some?)
  }

  /** The rebuild of the resource does not fail. */
  ghost predicate CanRebuildResource(t: Tables, reformat: Reformat, id: int)
  {
    id in t.resources && (ResourceApproved(t, id) ==> ResourceStatusRecord(t, id, reformat).Some?)
  }

  ghost predicate CanRebuildService(t: Tables, reformat: Reformat, id: int)
  {
    ServiceView(t, id).Some? && (ServiceApproved(t, id) ==> ServiceStatusRecord(t, id, reformat).Some?)
  }

  ghost predicate CanRebuildServices(t: Tables, reformat: Reformat, ids: seq<int>)
  {
    forall id :: id in ids ==> CanRebuildService(t, reformat, id)
  }

  lemma BuildableRebuilds(t: Tables, reformat: Reformat, ids: seq<int>)
    requires Buildable(t, reformat)
    ensures forall id :: id in t.resources ==> CanRebuildResource(t, reformat, id)
    ensures (forall id :: id in ids ==> id in t.services) ==> CanRebuildServices(t, reformat, ids)
  {
    hide ResourceStatusRecord, ServiceStatusRecord, ServiceView, ResourceApproved, ServiceApproved;
  }

  /** Every approved row has a record; this is what a mirror shows. */
  ghost predicate Built(t: Tables, reformat: Reformat)
  {
    && (forall id: int :: ResourceApproved(t, id) ==> ResourceStatusRecord(t, id, reformat).Some?)
    && (forall id: int :: ServiceApproved(t, id) ==> ServiceStatusRecord(t, id, reformat).Some?)
  }

  /** Two indexes that agree on every other object. */
  ghost predicate SameOutside(a: Index, b: Index, keys: set<string>)
  {
    forall k :: k !in keys ==> (k in a <==> k in b) && (k in a ==> a[k] == b[k])
  }

  ghost function IdSet(ids: seq<int>): set<int>
  {
    set id | id in ids
  }

  ghost function ObjectIds(resources: set<int>, services: set<int>): set<string>
  {
    (set id | id in resources :: ResourceObjectId(id)) + (set id | id in services :: ServiceObjectId(id))
  }

  // ----- The same record from changed tables -----

  ghost predicate SameService(a: Tables, b: Tables, reformat: Reformat, id: int)
  {
    ServiceApproved(a, id) == ServiceApproved(b, id) &&
    (ServiceApproved(a, id) ==> ServiceStatusRecord(a, id, reformat) == ServiceStatusRecord(b, id, reformat))
  }

  ghost predicate SameResource(a: Tables, b: Tables, reformat: Reformat, id: int)
  {
    ResourceApproved(a, id) == ResourceApproved(b, id) &&
    (ResourceApproved(a, id) ==> ResourceStatusRecord(a, id, reformat) == ResourceStatusRecord(b, id, reformat))
  }

  /** Every resource and service outside the given sets has the same status and the same record. */
  ghost predicate Leaves(a: Tables, b: Tables, reformat: Reformat, resources: set<int>, services: set<int>)
  {
    && (forall id :: id !in resources ==> SameResource(a, b, reformat, id))
    && (forall id :: id !in services ==> SameService(a, b, reformat, id))
  }

  /** The objects of the given sets are fresh and no other object was touched. */
  ghost predicate Refreshed(before: Index, after: Index, b: Tables, reformat: Reformat,
                            resources: set<int>, services: set<int>)
  {
    && SameOutside(before, after, ObjectIds(resources, services))
    && (forall id :: id in resources ==> ResourceFresh(after, b, reformat, id))
    && (forall id :: id in services ==> ServiceFresh(after, b, reformat, id))
  }

  lemma ObjectIdsOf(resources: set<int>, services: set<int>, id: int)
    ensures ResourceObjectId(id) in ObjectIds(resources, services) <==> id in resources
    ensures ServiceObjectId(id) in ObjectIds(resources, services) <==> id in services
  {
    hide ResourceObjectId, ServiceObjectId;
    forall other: int
      ensures ResourceObjectId(other) == ResourceObjectId(id) ==> other == id
      ensures ServiceObjectId(other) == ServiceObjectId(id) ==> other == id
      ensures ResourceObjectId(other) != ServiceObjectId(id) && ResourceObjectId(id) != ServiceObjectId(other)
    {
      ObjectIdsDistinct(other, id);
      ObjectIdsDistinct(id, other);
    }
  }

  /**
    The index mirrors the new rows once the objects of the given resources and services are
    fresh, no other object was touched, and no other record changed.
   */
  lemma Restored(before: Index, after: Index, a: Tables, b: Tables, reformat: Reformat,
                 resources: set<int>, services: set<int>)
    requires Mirrors(before, a, reformat)
    requires Refreshed(before, after, b, reformat, resources, services)
    requires Leaves(a, b, reformat, resources, services)
    ensures Mirrors(after, b, reformat)
  {
    hide ResourceObjectId, ServiceObjectId, ResourceStatusRecord, ServiceStatusRecord, ResourceApproved,
      ServiceApproved;
    forall id: int ensures ResourceFresh(after, b, reformat, id) && ServiceFresh(after, b, reformat, id) {
      ObjectIdsOf(resources, services, id);
      assert ResourceFresh(before, a, reformat, id) && ServiceFresh(before, a, reformat, id);
    }
    KeysNamed(before, after, resources, services);
  }

  ghost predicate Named(key: string)
  {
    exists id: int :: key == ResourceObjectId(id) || key == ServiceObjectId(id)
  }

  /** Refreshing one set of objects and then a set apart from it refreshes both. */
  lemma RefreshedChain(a: Index, b: Index, c: Index, t: Tables, reformat: Reformat,
                       r1: set<int>, s1: set<int>, r2: set<int>, s2: set<int>)
    requires Refreshed(a, b, t, reformat, r1, s1) && Refreshed(b, c, t, reformat, r2, s2)
    ensures Refreshed(a, c, t, reformat, r1 + r2, s1 + s2)
  {
    hide ResourceObjectId, ServiceObjectId, ResourceApproved, ServiceApproved, ResourceStatusRecord,
      ServiceStatusRecord;
    forall id | id in r1 + r2 ensures ResourceFresh(c, t, reformat, id) {
      ObjectIdsOf(r2, s2, id);
    }
    forall id | id in s1 + s2 ensures ServiceFresh(c, t, reformat, id) {
      ObjectIdsOf(r2, s2, id);
    }
    assert ObjectIds(r1 + r2, s1 + s2) == ObjectIds(r1, s1) + ObjectIds(r2, s2);
  }

  lemma KeysNamed(before: Index, after: Index, resources: set<int>, services: set<int>)
    requires forall key :: key in before ==> Named(key)
    requires SameOutside(before, after, ObjectIds(resources, services))
    ensures forall key :: key in after ==> Named(key)
  {
    hide ResourceObjectId, ServiceObjectId;
    forall key | key in after ensures Named(key) {
      if key in ObjectIds(resources, services) {
        assert (exists id :: id in resources && key == ResourceObjectId(id)) ||
               (exists id :: id in services && key == ServiceObjectId(id));
      } else {
        assert key in before;
      }
    }
  }

  /** Statuses outside the given sets are the same; this is enough for visibility. */
  ghost predicate SameStatus(a: Tables, b: Tables, resources: set<int>, services: set<int>)
  {
    && (forall id :: id !in resources ==> ResourceApproved(a, id) == ResourceApproved(b, id))
    && (forall id :: id !in services ==> ServiceApproved(a, id) == ServiceApproved(b, id))
  }

  lemma LeavesStatus(a: Tables, b: Tables, reformat: Reformat, resources: set<int>, services: set<int>)
    requires Leaves(a, b, reformat, resources, services)
    ensures SameStatus(a, b, resources, services)
  {
    hide ResourceApproved, ServiceApproved, ResourceStatusRecord, ServiceStatusRecord;
    forall id | id !in resources ensures ResourceApproved(a, id) == ResourceApproved(b, id) {
      assert SameResource(a, b, reformat, id);
    }
    forall id | id !in services ensures ServiceApproved(a, id) == ServiceApproved(b, id) {
      assert SameService(a, b, reformat, id);
    }
  }

  /**
    Outside the refreshed objects every status is the same, and a record is the same exactly
    when its object is not left behind.
   */
  ghost predicate Behind(a: Tables, b: Tables, reformat: Reformat, resources: set<int>, services: set<int>,
                         staleResources: set<int>, staleServices: set<int>)
  {
    && SameStatus(a, b, resources, services)
    && staleResources !! resources && staleServices !! services
    && (forall id :: id !in resources ==> (SameResource(a, b, reformat, id) <==> id !in staleResources))
    && (forall id :: id !in services ==> (SameService(a, b, reformat, id) <==> id !in staleServices))
  }

  lemma LeavesNothingBehind(a: Tables, b: Tables, reformat: Reformat, resources: set<int>, services: set<int>)
    requires Leaves(a, b, reformat, resources, services)
    ensures Behind(a, b, reformat, resources, services, {}, {})
  {
    hide SameResource, SameService, SameStatus;
    LeavesStatus(a, b, reformat, resources, services);
  }

  /** After a refresh the index is in step exactly when no record is left behind. */
  lemma InStepIff(before: Index, after: Index, a: Tables, b: Tables, reformat: Reformat, resources: set<int>,
                  services: set<int>, staleResources: set<int>, staleServices: set<int>)
    requires Mirrors(before, a, reformat)
    requires Refreshed(before, after, b, reformat, resources, services)
    requires Behind(a, b, reformat, resources, services, staleResources, staleServices)
    ensures Mirrors(after, b, reformat) <==> staleResources == {} && staleServices == {}
  {
    hide ResourceObjectId, ServiceObjectId, ResourceStatusRecord, ServiceStatusRecord, ResourceApproved,
      ServiceApproved;
    if staleResources == {} && staleServices == {} {
      Restored(before, after, a, b, reformat, resources, services);
    }
    if Mirrors(after, b, reformat) {
      forall id: int ensures id !in staleResources && id !in staleServices {
        ObjectIdsOf(resources, services, id);
        assert ResourceFresh(before, a, reformat, id) && ResourceFresh(after, b, reformat, id);
        assert ServiceFresh(before, a, reformat, id) && ServiceFresh(after, b, reformat, id);
      }
    }
  }

  lemma BuiltFrom(index: Index, t: Tables, reformat: Reformat)
    requires Mirrors(index, t, reformat) || Buildable(t, reformat)
    ensures Built(t, reformat)
  {
    hide ResourceObjectId, ServiceObjectId, ResourceStatusRecord, ServiceStatusRecord, ResourceApproved,
      ServiceApproved, ServiceView;
    if Mirrors(index, t, reformat) {
      forall id: int
        ensures ResourceApproved(t, id) ==> ResourceStatusRecord(t, id, reformat).Some?
        ensures ServiceApproved(t, id) ==> ServiceStatusRecord(t, id, reformat).Some?
      {
        assert ResourceFresh(index, t, reformat, id) && ServiceFresh(index, t, reformat, id);
      }
    }
  }

  lemma StillVisible(before: Index, after: Index, a: Tables, b: Tables, reformat: Reformat,
                     resources: set<int>, services: set<int>)
    requires Visible(before, a)
    requires Refreshed(before, after, b, reformat, resources, services)
    requires SameStatus(a, b, resources, services)
    ensures Visible(after, b)
  {
    hide ResourceObjectId, ServiceObjectId, ResourceStatusRecord, ServiceStatusRecord, ResourceApproved,
      ServiceApproved;
    forall id: int
      ensures ResourceObjectId(id) in after <==> ResourceApproved(b, id)
      ensures ServiceObjectId(id) in after <==> ServiceApproved(b, id)
    {
      ObjectIdsOf(resources, services, id);
      assert id in resources ==> ResourceFresh(after, b, reformat, id);
      assert id in services ==> ServiceFresh(after, b, reformat, id);
      assert ResourceObjectId(id) in before <==> ResourceApproved(a, id);
      assert ServiceObjectId(id) in before <==> ServiceApproved(a, id);
    }
    KeysNamed(before, after, resources, services);
  }

  /** A mirror shows exactly the approved rows. */
  lemma MirrorsVisible(index: Index, t: Tables, reformat: Reformat)
    requires Mirrors(index, t, reformat)
    ensures Visible(index, t)
  {
    hide ResourceObjectId, ServiceObjectId, ResourceStatusRecord, ServiceStatusRecord, ResourceApproved,
      ServiceApproved;
    forall id: int
      ensures ResourceObjectId(id) in index <==> ResourceApproved(t, id)
      ensures ServiceObjectId(id) in index <==> ServiceApproved(t, id)
    {
      assert ResourceFresh(index, t, reformat, id) && ServiceFresh(index, t, reformat, id);
    }
  }

  class Site {
    var db: Tables
    var index: Index
    const reformat: Reformat

    ghost predicate Valid()
      reads this
    {
      WellFormed(db)
    }

    ghost predicate InStep()
      reads this
    {
      Mirrors(index, db, reformat)
    }

    constructor (db: Tables, index: Index, reformat: Reformat)
      ensures this.db == db && this.index == index && this.reformat == reformat
    {
      this.db, this.index, this.reformat := db, index, reformat;
    }

    /** Saves or deletes the object of a resource; false when the row is missing or no record can be built. */
    method RebuildResource(id: int) returns (ok: bool)
      modifies this`index
      ensures ok <==> CanRebuildResource(db, reformat, id)
      ensures if ok then Refreshed(old(index), index, db, reformat, {id}, {}) else index == old(index)
    {
      hide ResourceRecord, ResourceView, ResourceObjectId, ServiceObjectId;
      ResourceViewExists(db, id);
      ObjectIdsOf({id}, {}, id);
      var view := ResourceView(db, id);
      if view.None? {
        return false;
      }
      if db.resources[id].status != Some(APPROVED) {
        index := index - {ResourceObjectId(id)};
        return true;
      }
      var record := FillResourceRecord(view.value, ResourceObjectId(id), id, reformat);
      if record.None? {
        return false;
      }
      index := index[ResourceObjectId(id) := record.value];
      return true;
    }

    method RebuildService(id: int) returns (ok: bool)
      modifies this`index
      ensures ok <==> CanRebuildService(db, reformat, id)
      ensures if ok then Refreshed(old(index), index, db, reformat, {}, {id}) else index == old(index)
    {
      hide ServiceRecord, ResourceObjectId, ServiceObjectId;
      ServiceViewExists(db, id);
      ObjectIdsOf({}, {id}, id);
      hide ServiceView;
      var view := ServiceView(db, id);
      if view.None? {
        return false;
      }
      if db.services[id].status != Some(APPROVED) {
        index := index - {ServiceObjectId(id)};
        return true;
      }
      var record := FillServiceRecord(view.value, ServiceObjectId(id), id, reformat);
      if record.None? {
        return false;
      }
      index := index[ServiceObjectId(id) := record.value];
      return true;
    }

    /** Rebuilds the listed services in order, stopping at the first that fails. */
    method RebuildServices(ids: seq<int>) returns (ok: bool)
      modifies this`index
      ensures ok ==> Refreshed(old(index), index, db, reformat, {}, IdSet(ids))
      ensures SameOutside(old(index), index, ObjectIds({}, IdSet(ids)))
      ensures ok <==> CanRebuildServices(db, reformat, ids)
    {
      hide Refreshed, CanRebuildService, ServiceObjectId, ResourceObjectId, IdSet, ObjectIds, SameOutside;
      RefreshedNone(index, db, reformat);
      for i := 0 to |ids|
        invariant Refreshed(old(index), index, db, reformat, {}, IdSet(ids[..i]))
        invariant forall id :: id in ids[..i] ==> CanRebuildService(db, reformat, id)
      {
        ghost var before := index;
        SomeIds(ids, i);
        RefreshedWithin(old(index), index, db, reformat, {}, IdSet(ids[..i]), {}, IdSet(ids));
        assert ids[i] in ids;
        var built := RebuildService(ids[i]);
        if !built {
          return false;
        }
        ghost var none: set<int> := {};
        assert ids[..i + 1] == ids[..i] + [ids[i]];
        RefreshedChain(old(index), before, index, db, reformat, none, IdSet(ids[..i]), none, {ids[i]});
        assert none + none == none;
      }
      SomeIds(ids, |ids|);
      RefreshedWithin(old(index), index, db, reformat, {}, IdSet(ids), {}, IdSet(ids));
      return true;
    }

    /** The resource, then its services in scan order. */
    method RebuildResourceAndServices(id: int) returns (ok: bool)
      modifies this`index
      ensures ok ==> Refreshed(old(index), index, db, reformat, {id}, IdSet(ServicesOf(db, db.serviceIds, id)))
      ensures SameOutside(old(index), index, ObjectIds({id}, IdSet(ServicesOf(db, db.serviceIds, id))))
      ensures ok <==> CanRebuildResource(db, reformat, id) &&
                      CanRebuildServices(db, reformat, ServicesOf(db, db.serviceIds, id))
    {
      hide Refreshed, CanRebuildResource, CanRebuildServices, ServiceObjectId, ResourceObjectId, ServicesOf, IdSet,
        ObjectIds, SameOutside;
      ghost var owned := IdSet(ServicesOf(db, db.serviceIds, id));
      RefreshedNone(index, db, reformat);
      RefreshedWithin(old(index), index, db, reformat, {}, {}, {id}, owned);
      var built := RebuildResource(id);
      if !built {
        return false;
      }
      ghost var middle := index;
      var ids := ServicesOf(db, db.serviceIds, id);
      ok := RebuildServices(ids);
      RefreshedOutside(old(index), middle, index, db, reformat, {id}, owned);
      if ok {
        RefreshedChain(old(index), middle, index, db, reformat, {id}, {}, {}, owned);
        assert {id} + {} == {id} && {} + owned == owned;
      }
    }
  }

  lemma RefreshedNone(index: Index, t: Tables, reformat: Reformat)
    ensures Refreshed(index, index, t, reformat, {}, {})
    ensures IdSet([]) == {}
  {
    hide ResourceFresh, ServiceFresh;
  }

  lemma RefreshedWithin(a: Index, b: Index, t: Tables, reformat: Reformat, r1: set<int>, s1: set<int>, r2: set<int>,
                        s2: set<int>)
    requires Refreshed(a, b, t, reformat, r1, s1) && r1 <= r2 && s1 <= s2
    ensures SameOutside(a, b, ObjectIds(r2, s2))
  {
    hide ResourceFresh, ServiceFresh, ResourceObjectId, ServiceObjectId;
    assert ObjectIds(r1, s1) <= ObjectIds(r2, s2);
  }

  lemma RefreshedOutside(a: Index, b: Index, c: Index, t: Tables, reformat: Reformat, resources: set<int>,
                         services: set<int>)
    requires Refreshed(a, b, t, reformat, resources, {})
    requires SameOutside(b, c, ObjectIds({}, services))
    ensures SameOutside(a, c, ObjectIds(resources, services))
  {
    hide ResourceFresh, ServiceFresh, ResourceObjectId, ServiceObjectId;
  }

  lemma SomeIds(ids: seq<int>, i: nat)
    requires i <= |ids|
    ensures IdSet(ids[..i]) <= IdSet(ids)
    ensures i < |ids| ==> IdSet(ids[..i + 1]) == IdSet(ids[..i]) + {ids[i]}
    ensures ids[..|ids|] == ids
  {
    if i < |ids| {
      assert ids[..i + 1] == ids[..i] + [ids[i]];
    }
  }

  lemma ResourceViewExists(t: Tables, id: int)
    ensures ResourceView(t, id).Some? <==> id in t.resources
  {
  }

  lemma ServiceViewExists(t: Tables, id: int)
    ensures ServiceView(t, id).Some? ==> id in t.services
  {
  }
}
