/**
  What each member of a built record reads, said of the queried rows: the status, type and owner,
  the timestamps and the attribution, the lists, the addresses, the place on the map and the
  hours. The records themselves are built in IndexRecords.dfy.
 */
module RecordMembers {
  import opened IndexRecords
  import opened OpenTimes
  import opened RecordContents
  import opened SiteTables
  import opened Wrappers

  // ----- What a value looks like -----

  predicate Reads(r: Record, k: string, value: Json) { k in r && r[k] == value }

  /** A day of a schedule: its name and its two times, null when missing. */
  ghost predicate ReadsDay(item: Json, d: ScheduleDay)
  {
    && item.JObject? && item.members.Keys == {"day", "opens_at", "closes_at"}
    && item.members["day"] == JText(d.day)
    && item.members["opens_at"] == (if d.opensAt.Some? then JInt(d.opensAt.value) else JNull)
    && item.members["closes_at"] == (if d.closesAt.Some? then JInt(d.closesAt.value) else JNull)
  }

  /** A schedule that is there is the list of its days, in order. */
  ghost predicate ReadsDays(value: Json, schedule: Option<seq<ScheduleDay>>)
  {
    match schedule
    case None => value == JNull
    case Some(days) =>
      value.JList? && |value.items| == |days| && forall i :: 0 <= i < |days| ==> ReadsDay(value.items[i], days[i])
  }

  /** An address keeps its own members, is in the USA, and has zero for a missing coordinate. */
  ghost predicate ReadsAddress(item: Json, a: IndexAddress)
  {
    && item.JObject?
    && item.members.Keys == a.fields.Keys + {"country", "latitude", "longitude"}
    && item.members["country"] == JText("USA")
    && item.members["latitude"] == JReal(if a.latitude.Some? then a.latitude.value else 0.0)
    && item.members["longitude"] == JReal(if a.longitude.Some? then a.longitude.value else 0.0)
    && forall k :: k in a.fields && k !in {"country", "latitude", "longitude"} ==> item.members[k] == a.fields[k]
  }

  ghost predicate ReadsAddresses(value: Json, addresses: seq<IndexAddress>)
  {
    && value.JList? && |value.items| == |addresses|
    && forall i :: 0 <= i < |addresses| ==> ReadsAddress(value.items[i], addresses[i])
  }

  /** A place on the map. */
  ghost predicate ReadsPoint(item: Json, lat: real, lng: real)
  {
    && item.JObject? && item.members.Keys == {"lat", "lng"}
    && item.members["lat"] == JReal(lat) && item.members["lng"] == JReal(lng)
  }

  /** The labels of the half-hour slots, or null without a schedule. */
  ghost predicate ReadsTimes(value: Json, schedule: Option<seq<ScheduleDay>>)
  {
    match schedule
    case None => value == JNull
    case Some(days) =>
      var times := ScheduleTimes(days);
      && times.Times? && value.JList? && |value.items| == |times.labels|
      && forall i :: 0 <= i < |times.labels| ==> value.items[i] == JText(times.labels[i])
  }

  lemma DayReads(d: ScheduleDay)
    ensures ReadsDay(DayRecord(d), d)
  {
    assert "opens_at"[0] != "closes_at"[0] && "opens_at"[0] != "day"[0] && "closes_at"[0] != "day"[0];
  }

  lemma DaysRead(schedule: Option<seq<ScheduleDay>>)
    ensures ReadsDays(Days(schedule), schedule)
  {
    hide ReadsDay, DayRecord;
    if schedule.Some? {
      forall i | 0 <= i < |schedule.value| ensures ReadsDay(DayRecord(schedule.value[i]), schedule.value[i]) {
        DayReads(schedule.value[i]);
      }
    }
  }

  lemma AddressReads(a: IndexAddress)
    ensures ReadsAddress(AddressRecord(a), a)
  {
    assert "country"[0] != "latitude"[0] && |"latitude"| != |"longitude"| && "country"[0] != "longitude"[0];
  }

  lemma AddressesRead(addresses: seq<IndexAddress>)
    ensures ReadsAddresses(JList(AddressRecords(addresses)), addresses)
  {
    hide ReadsAddress, AddressRecord;
    forall i | 0 <= i < |addresses| ensures ReadsAddress(AddressRecord(addresses[i]), addresses[i]) {
      AddressReads(addresses[i]);
    }
  }

  lemma PointReads(lat: real, lng: real)
    ensures ReadsPoint(Point(JReal(lat), JReal(lng)), lat, lng)
  {
    assert "lat"[1] != "lng"[1];
  }

  lemma TimesRead(schedule: Option<seq<ScheduleDay>>)
    requires OpenTimesField(schedule).Some?
    ensures ReadsTimes(OpenTimesField(schedule).value, schedule)
  {
    hide ScheduleTimes;
  }

  // ----- Columns -----

  ghost predicate Distinct(names: seq<string>)
  {
    forall i, j :: 0 <= i < j < |names| ==> names[i] != names[j]
  }

  /** A text timestamp is reformatted and any other value is kept. */
  ghost predicate StampReads(before: Json, after: Json, reformat: Reformat)
  {
    if before.JText? then reformat(before.s).Some? && after == JText(reformat(before.s).value) else after == before
  }

  lemma {:induction false} StampsRead(r: Record, names: seq<string>, reformat: Reformat)
    requires Distinct(names) && Stamped(r, names, reformat).Some?
    ensures var b := Stamped(r, names, reformat).value;
            && b.Keys == r.Keys
            && forall k :: k in r ==> if k in names then StampReads(r[k], b[k], reformat) else b[k] == r[k]
    decreases |names|
  {
    if names != [] {
      var name, rest := names[0], names[1..];
      assert forall i :: 0 <= i < |rest| ==> rest[i] == names[i + 1];
      assert name !in rest;
      var m := if name in r && r[name].JText? then r[name := JText(reformat(r[name].s).value)] else r;
      StampsRead(m, rest, reformat);
      assert forall k :: k in names <==> k == name || k in rest;
    }
  }

  lemma StampNames()
    ensures Distinct(STAMPS)
    ensures "source_attribution" !in STAMPS && "status" !in STAMPS
  {
    assert "created_at"[0] == 'c' && "created_at"[1] == 'r' && "updated_at"[0] == 'u' && "certified_at"[0] == 'c' &&
           "certified_at"[1] == 'e' && "verified_at"[0] == 'v' && "source_attribution"[0] == 's' && "status"[0] == 's';
  }

  /** The number of an attribution becomes its name. */
  ghost predicate AttributionReads(before: Json, after: Json)
  {
    && (before == JInt(0) ==> after == JText("ask_darcel"))
    && (before == JInt(1) ==> after == JText("service_net"))
    && (before != JInt(0) && before != JInt(1) ==> after == before)
  }

  /** What a record keeps of a column that nothing else overrides. */
  ghost predicate ColumnReads(k: string, before: Json, after: Json, reformat: Reformat)
  {
    if k in STAMPS then StampReads(before, after, reformat)
    else if k == "source_attribution" then AttributionReads(before, after)
    else after == before
  }

  /** The columns, the status and the lists, before the members that the builder sets. */
  function Base(columns: Record, lists: Record, reformat: Reformat): Record
    requires Stamped(columns, STAMPS, reformat).Some?
  {
    Attributed(Stamped(columns, STAMPS, reformat).value["status" := JText("approved")]) + lists
  }

  lemma BaseReads(columns: Record, lists: Record, reformat: Reformat)
    requires Stamped(columns, STAMPS, reformat).Some?
    ensures var r := Base(columns, lists, reformat);
            && r.Keys == columns.Keys + {"status"} + lists.Keys
            && (forall k :: k in lists ==> r[k] == lists[k])
            && ("status" !in lists ==> r["status"] == JText("approved"))
            && forall k :: k in columns && k !in lists && k != "status" ==> ColumnReads(k, columns[k], r[k], reformat)
  {
    hide Stamped, STAMPS;
    StampNames();
    StampsRead(columns, STAMPS, reformat);
    assert |"status"| != |"source_attribution"|;
  }

  /** A record is its base with the members that the builder sets. */
  lemma ServiceBase(s: ServiceSource, objectId: string, id: int, reformat: Reformat)
    requires ServiceRecord(s, objectId, id, reformat).Some?
    ensures Stamped(s.columns, STAMPS, reformat).Some?
    ensures var r := ServiceRecord(s, objectId, id, reformat).value;
            && r.Keys == Base(s.columns, s.lists, reformat).Keys + SERVICE_SET
            && forall k :: k in Base(s.columns, s.lists, reformat) && k !in SERVICE_SET ==>
                 r[k] == Base(s.columns, s.lists, reformat)[k]
  {
    hide Stamped, Attributed, AddressRecords, OpenTimesField, Days, ServiceLocation, STAMPS;
  }

  lemma ResourceBase(s: ResourceSource, objectId: string, id: int, reformat: Reformat)
    requires ResourceRecord(s, objectId, id, reformat).Some?
    ensures Stamped(s.columns, STAMPS, reformat).Some?
    ensures var r := ResourceRecord(s, objectId, id, reformat).value;
            && r.Keys == Base(s.columns, s.lists, reformat).Keys + RESOURCE_SET
            && forall k :: k in Base(s.columns, s.lists, reformat) && k !in RESOURCE_SET ==>
                 r[k] == Base(s.columns, s.lists, reformat)[k]
  {
    hide Stamped, Attributed, AddressRecords, OpenTimesField, Days, STAMPS, ORIGIN, Coordinate;
  }

  // ----- Services -----

  lemma StatusApart()
    ensures "status" !in SERVICE_SET && "status" !in SERVICE_LISTS
    ensures "status" !in RESOURCE_SET && "status" !in RESOURCE_LISTS
  {
    assert "status"[0] == 's' && "status"[1] == 't' && |"status"| == 6;
    assert "service_id"[1] == 'e' && "service_of"[1] == 'e' && "schedule"[1] == 'c' && "services"[1] == 'e';
  }

  /** A service is approved, and each of its columns is as stored but for its timestamps and attribution. */
  lemma ServiceColumnsRead(s: ServiceSource, objectId: string, id: int, reformat: Reformat)
    requires ServiceRecord(s, objectId, id, reformat).Some? && s.lists.Keys == SERVICE_LISTS
    ensures var r := ServiceRecord(s, objectId, id, reformat).value;
            && r.Keys == s.columns.Keys + {"status"} + SERVICE_LISTS + SERVICE_SET
            && Reads(r, "status", JText("approved"))
            && (forall k :: k in SERVICE_LISTS ==> Reads(r, k, s.lists[k]))
            && forall k :: k in s.columns && k !in SERVICE_LISTS + SERVICE_SET && k != "status" ==>
                 ColumnReads(k, s.columns[k], r[k], reformat)
  {
    hide ServiceRecord, Base, Stamped, ColumnReads, SERVICE_LISTS, SERVICE_SET, STAMPS;
    ServiceBase(s, objectId, id, reformat);
    BaseReads(s.columns, s.lists, reformat);
    StatusApart();
    forall k | k in SERVICE_LISTS ensures k !in SERVICE_SET { ServiceListsApart(k); }
  }

  lemma ServiceNames(s: ServiceSource, objectId: string, id: int, reformat: Reformat)
    requires ServiceRecord(s, objectId, id, reformat).Some?
    ensures var r := ServiceRecord(s, objectId, id, reformat).value;
            Reads(r, "objectID", JText(objectId)) && Reads(r, "type", JText("service"))
  {
    hide Stamped, Attributed, AddressRecords, OpenTimesField, Days, ServiceLocation, STAMPS;
  }

  lemma ServiceOwner(s: ServiceSource, objectId: string, id: int, reformat: Reformat)
    requires ServiceRecord(s, objectId, id, reformat).Some?
    ensures var r := ServiceRecord(s, objectId, id, reformat).value;
            Reads(r, "service_id", JInt(id)) && Reads(r, "service_of", s.resourceName)
  {
    hide Stamped, Attributed, AddressRecords, OpenTimesField, Days, ServiceLocation, STAMPS;
  }

  lemma ServiceKinds(s: ServiceSource, objectId: string, id: int, reformat: Reformat)
    requires ServiceRecord(s, objectId, id, reformat).Some?
    ensures var r := ServiceRecord(s, objectId, id, reformat).value;
            && Reads(r, "categories", JList(s.categories))
            && Reads(r, "is_mohcd_funded", JBool(exists i :: 0 <= i < |s.categories| && s.categories[i] == JText("MOHCD Funded")))
  {
    hide Stamped, Attributed, AddressRecords, OpenTimesField, Days, ServiceLocation, STAMPS;
  }

  /** A service shows its own addresses, or else those of its resource, and null when there are none. */
  lemma ServiceAddresses(s: ServiceSource, objectId: string, id: int, reformat: Reformat)
    requires ServiceRecord(s, objectId, id, reformat).Some?
    ensures var r := ServiceRecord(s, objectId, id, reformat).value;
            && "addresses" in r
            && (s.addresses != [] ==> ReadsAddresses(r["addresses"], s.addresses))
            && (s.addresses == [] && s.resourceAddresses != [] ==> ReadsAddresses(r["addresses"], s.resourceAddresses))
            && (s.addresses == [] && s.resourceAddresses == [] ==> r["addresses"] == JNull)
  {
    hide Stamped, Attributed, AddressRecords, OpenTimesField, Days, ServiceLocation, STAMPS, ReadsAddresses;
    AddressesRead(s.addresses);
    AddressesRead(s.resourceAddresses);
  }

  /**
    Each own address with both coordinates is a place, and null without; without own addresses
    the first address of the resource is the place, and without that the origin.
   */
  lemma ServicePlaces(s: ServiceSource, objectId: string, id: int, reformat: Reformat)
    requires ServiceRecord(s, objectId, id, reformat).Some?
    ensures var r := ServiceRecord(s, objectId, id, reformat).value;
            && "_geoloc" in r
            && if s.addresses != [] then ReadsPlaces(r["_geoloc"], s.addresses)
               else if s.resourceAddresses != [] && OnMap(s.resourceAddresses[0])
               then ReadsPoint(r["_geoloc"], s.resourceAddresses[0].latitude.value, s.resourceAddresses[0].longitude.value)
               else ReadsPoint(r["_geoloc"], 0.0, 0.0)
  {
    hide ServiceLocation, ReadsPlaces, ReadsPoint;
    ServiceGeoloc(s, objectId, id, reformat);
    LocationReads(s);
  }

  predicate OnMap(a: IndexAddress) { a.latitude.Some? && a.longitude.Some? }

  ghost predicate ReadsPlaces(value: Json, addresses: seq<IndexAddress>)
  {
    && value.JList? && |value.items| == |addresses|
    && forall i :: 0 <= i < |addresses| ==> ReadsPlace(value.items[i], addresses[i])
  }

  ghost predicate ReadsPlace(item: Json, a: IndexAddress)
  {
    if OnMap(a) then ReadsPoint(item, a.latitude.value, a.longitude.value) else item == JNull
  }

  lemma ServiceGeoloc(s: ServiceSource, objectId: string, id: int, reformat: Reformat)
    requires ServiceRecord(s, objectId, id, reformat).Some?
    ensures Reads(ServiceRecord(s, objectId, id, reformat).value, "_geoloc", ServiceLocation(s))
  {
    hide Stamped, Attributed, AddressRecords, OpenTimesField, Days, ServiceLocation, STAMPS;
  }

  lemma LocationReads(s: ServiceSource)
    ensures var place := ServiceLocation(s);
            if s.addresses != [] then ReadsPlaces(place, s.addresses)
            else if s.resourceAddresses != [] && OnMap(s.resourceAddresses[0])
            then ReadsPoint(place, s.resourceAddresses[0].latitude.value, s.resourceAddresses[0].longitude.value)
            else ReadsPoint(place, 0.0, 0.0)
  {
    hide Point, ReadsPoint;
    PointReads(0.0, 0.0);
    forall a: IndexAddress | OnMap(a)
      ensures ReadsPoint(Point(JReal(a.latitude.value), JReal(a.longitude.value)), a.latitude.value, a.longitude.value)
    {
      PointReads(a.latitude.value, a.longitude.value);
    }
  }

  /** The days of the service, or else of its resource; the hours are its own when it has any day. */
  lemma ServiceHours(s: ServiceSource, objectId: string, id: int, reformat: Reformat)
    requires ServiceRecord(s, objectId, id, reformat).Some?
    ensures var r := ServiceRecord(s, objectId, id, reformat).value;
            var own := s.schedule.Some? && s.schedule.value != [];
            && {"schedule", "resource_schedule", "open_times"} <= r.Keys
            && (s.schedule.Some? ==> ReadsDays(r["schedule"], s.schedule))
            && (s.schedule.None? ==> ReadsDays(r["schedule"], s.resourceSchedule))
            && ReadsDays(r["resource_schedule"], s.resourceSchedule)
            && Reads(r, "use_resource_schedule", JBool(!own))
            && ReadsTimes(r["open_times"], if own then s.schedule else s.resourceSchedule)
  {
    hide ServiceRecord, Days, ReadsDays, ReadsTimes, OpenTimesField;
    ServiceDays(s, objectId, id, reformat);
    ServiceTimes(s, objectId, id, reformat);
    DaysRead(s.schedule);
    DaysRead(s.resourceSchedule);
    TimesRead(if UsesResourceSchedule(s) then s.resourceSchedule else s.schedule);
  }

  lemma ServiceDays(s: ServiceSource, objectId: string, id: int, reformat: Reformat)
    requires ServiceRecord(s, objectId, id, reformat).Some?
    ensures var r := ServiceRecord(s, objectId, id, reformat).value;
            && Reads(r, "schedule", Days(if s.schedule.Some? then s.schedule else s.resourceSchedule))
            && Reads(r, "resource_schedule", Days(s.resourceSchedule))
  {
    hide Stamped, Attributed, AddressRecords, OpenTimesField, Days, ServiceLocation, STAMPS;
  }

  lemma ServiceTimes(s: ServiceSource, objectId: string, id: int, reformat: Reformat)
    requires ServiceRecord(s, objectId, id, reformat).Some?
    ensures var r := ServiceRecord(s, objectId, id, reformat).value;
            var times := OpenTimesField(if UsesResourceSchedule(s) then s.resourceSchedule else s.schedule);
            && times.Some? && Reads(r, "open_times", times.value)
            && Reads(r, "use_resource_schedule", JBool(UsesResourceSchedule(s)))
  {
    hide Stamped, Attributed, AddressRecords, OpenTimesField, Days, ServiceLocation, STAMPS;
  }

  // ----- Resources -----

  lemma ResourceColumnsRead(s: ResourceSource, objectId: string, id: int, reformat: Reformat)
    requires ResourceRecord(s, objectId, id, reformat).Some? && s.lists.Keys == RESOURCE_LISTS
    ensures var r := ResourceRecord(s, objectId, id, reformat).value;
            && r.Keys == s.columns.Keys + {"status"} + RESOURCE_LISTS + RESOURCE_SET
            && Reads(r, "status", JText("approved"))
            && (forall k :: k in RESOURCE_LISTS ==> Reads(r, k, s.lists[k]))
            && forall k :: k in s.columns && k !in RESOURCE_LISTS + RESOURCE_SET && k != "status" ==>
                 ColumnReads(k, s.columns[k], r[k], reformat)
  {
    hide ResourceRecord, Base, Stamped, ColumnReads, RESOURCE_LISTS, RESOURCE_SET, STAMPS;
    ResourceBase(s, objectId, id, reformat);
    BaseReads(s.columns, s.lists, reformat);
    StatusApart();
    forall k | k in RESOURCE_LISTS ensures k !in RESOURCE_SET { ResourceListsApart(k); }
  }

  lemma ResourceNames(s: ResourceSource, objectId: string, id: int, reformat: Reformat)
    requires ResourceRecord(s, objectId, id, reformat).Some?
    ensures var r := ResourceRecord(s, objectId, id, reformat).value;
            && Reads(r, "objectID", JText(objectId)) && Reads(r, "type", JText("resource"))
            && Reads(r, "resource_id", JInt(id))
  {
    hide Stamped, Attributed, AddressRecords, OpenTimesField, Days, STAMPS, ORIGIN, Coordinate;
  }

  lemma ResourceKinds(s: ResourceSource, objectId: string, id: int, reformat: Reformat)
    requires ResourceRecord(s, objectId, id, reformat).Some?
    ensures var r := ResourceRecord(s, objectId, id, reformat).value;
            && Reads(r, "categories", JList(s.categories))
            && Reads(r, "is_mohcd_funded", JBool(exists i :: 0 <= i < |s.categories| && s.categories[i] == JText("MOHCD Funded")))
  {
    hide Stamped, Attributed, AddressRecords, OpenTimesField, Days, STAMPS, ORIGIN, Coordinate;
  }

  /** A resource shows its addresses, and the place of the first with zero for a missing coordinate, or the origin. */
  lemma ResourcePlaces(s: ResourceSource, objectId: string, id: int, reformat: Reformat)
    requires ResourceRecord(s, objectId, id, reformat).Some?
    ensures var r := ResourceRecord(s, objectId, id, reformat).value;
            && "addresses" in r && ReadsAddresses(r["addresses"], s.addresses)
            && "_geoloc" in r
            && if s.addresses == [] then ReadsPoint(r["_geoloc"], 0.0, 0.0)
               else ReadsPoint(r["_geoloc"], s.addresses[0].latitude.GetOr(0.0), s.addresses[0].longitude.GetOr(0.0))
  {
    hide Stamped, Attributed, AddressRecords, OpenTimesField, Days, STAMPS, ReadsAddresses, ReadsPoint, Point;
    AddressesRead(s.addresses);
    PointReads(0.0, 0.0);
    if s.addresses != [] {
      PointReads(s.addresses[0].latitude.GetOr(0.0), s.addresses[0].longitude.GetOr(0.0));
    }
  }

  lemma ResourceHours(s: ResourceSource, objectId: string, id: int, reformat: Reformat)
    requires ResourceRecord(s, objectId, id, reformat).Some?
    ensures var r := ResourceRecord(s, objectId, id, reformat).value;
            && {"schedule", "open_times"} <= r.Keys
            && ReadsDays(r["schedule"], s.schedule) && ReadsTimes(r["open_times"], s.schedule)
  {
    hide Stamped, Attributed, AddressRecords, OpenTimesField, Days, STAMPS, ReadsDays, ReadsTimes, ORIGIN, Coordinate;
    DaysRead(s.schedule);
    TimesRead(s.schedule);
  }

  // ----- The rows behind the members -----

  /** The rows that the record of a service reads its name, owner and categories from. */
  lemma ServiceRows(t: Tables, id: int, reformat: Reformat)
    requires ServiceStatusRecord(t, id, reformat).Some?
    ensures id in t.services && t.services[id].resourceId.Some? && t.services[id].resourceId.value in t.resources
    ensures var r, rid := ServiceStatusRecord(t, id, reformat).value, t.services[id].resourceId.value;
            && Reads(r, "id", JInt(id)) && Reads(r, "name", t.services[id].name) && Reads(r, "resource_id", JInt(rid))
            && Reads(r, "service_of", t.resources[rid].name)
            && Reads(r, "categories", JList(Names(t.categories, Attached(t.attachments, OfService(id), "category"))))
  {
    hide ServiceRecord, ServiceObjectId, Attached, Names, AddressesOfService, AddressesOfResource, ScheduleOf, Reads,
      ServiceLists, SERVICE_LISTS, SERVICE_SET, STAMPS, ColumnReads, ServiceView;
    var s := ServiceView(t, id).value;
    ServiceViewRow(t, id);
    ServiceColumnsRead(s, ServiceObjectId(id), id, reformat);
    ServiceOwner(s, ServiceObjectId(id), id, reformat);
    ServiceKinds(s, ServiceObjectId(id), id, reformat);
    PlainColumn(s, ServiceObjectId(id), id, reformat, "id", JInt(id));
    PlainColumn(s, ServiceObjectId(id), id, reformat, "name", t.services[id].name);
    PlainColumn(s, ServiceObjectId(id), id, reformat, "resource_id", JInt(t.services[id].resourceId.value));
  }

  lemma ServiceViewRow(t: Tables, id: int)
    requires ServiceView(t, id).Some?
    ensures id in t.services && t.services[id].resourceId.Some? && t.services[id].resourceId.value in t.resources
    ensures var s, rid := ServiceView(t, id).value, t.services[id].resourceId.value;
            && Reads(s.columns, "id", JInt(id)) && Reads(s.columns, "name", t.services[id].name)
            && Reads(s.columns, "resource_id", JInt(rid)) && s.resourceName == t.resources[rid].name
            && s.categories == Names(t.categories, Attached(t.attachments, OfService(id), "category"))
            && s.lists == ServiceLists(t, id, rid) && s.lists.Keys == SERVICE_LISTS
  {
    hide Attached, Names, AddressesOfService, AddressesOfResource, ScheduleOf;
    assert |"id"| == 2 && |"name"| == 4 && |"resource_id"| == 11 && |"status"| == 6;
  }

  lemma PlainColumn(s: ServiceSource, objectId: string, id: int, reformat: Reformat, k: string, value: Json)
    requires ServiceRecord(s, objectId, id, reformat).Some? && s.lists.Keys == SERVICE_LISTS
    requires k in {"id", "name", "resource_id"} && Reads(s.columns, k, value)
    ensures Reads(ServiceRecord(s, objectId, id, reformat).value, k, value)
  {
    hide ServiceRecord, SERVICE_LISTS, SERVICE_SET, STAMPS;
    ServiceColumnsRead(s, objectId, id, reformat);
    ColumnNames();
  }

  /** The rows that the lists of a service read: its own, and the phones and sites of its resource. */
  lemma ServiceListRows(t: Tables, id: int, reformat: Reformat)
    requires ServiceStatusRecord(t, id, reformat).Some?
    ensures id in t.services && t.services[id].resourceId.Some?
    ensures var r, rid := ServiceStatusRecord(t, id, reformat).value, t.services[id].resourceId.value;
            && Reads(r, "notes", JList(Attached(t.attachments, OfService(id), "note")))
            && Reads(r, "documents", JList(Attached(t.attachments, OfService(id), "document")))
            && Reads(r, "instructions", JList(Attached(t.attachments, OfService(id), "instruction")))
            && Reads(r, "phones", JList(Attached(t.attachments, OfResource(rid), "phone")))
            && Reads(r, "associated_sites", JList(Attached(t.attachments, OfResource(rid), "site")))
            && Reads(r, "eligibilities", JList(Names(t.eligibilities, Attached(t.attachments, OfService(id), "eligibility"))))
            && Reads(r, "boosted_category", var names := Attached(t.attachments, OfService(id), "boosted_category");
                                            if names == [] then JNull else names[0])
  {
    hide ServiceRecord, ServiceObjectId, Attached, Names, Reads, ServiceLists, SERVICE_LISTS, SERVICE_SET, ServiceView;
    var s := ServiceView(t, id).value;
    ServiceViewRow(t, id);
    ServiceColumnsRead(s, ServiceObjectId(id), id, reformat);
    ServiceListsRead(t, id, t.services[id].resourceId.value);
    ListNames();
  }

  lemma ListNames()
    ensures {"notes", "documents", "instructions", "phones", "associated_sites", "eligibilities", "boosted_category"} ==
            SERVICE_LISTS
    ensures {"notes", "keywords", "services", "phones", "associated_sites"} == RESOURCE_LISTS
  {
  }

  lemma ServiceListsRead(t: Tables, id: int, rid: int)
    ensures var lists := ServiceLists(t, id, rid);
            && lists.Keys == SERVICE_LISTS
            && lists["notes"] == JList(Attached(t.attachments, OfService(id), "note"))
            && lists["documents"] == JList(Attached(t.attachments, OfService(id), "document"))
            && lists["instructions"] == JList(Attached(t.attachments, OfService(id), "instruction"))
            && lists["phones"] == JList(Attached(t.attachments, OfResource(rid), "phone"))
            && lists["associated_sites"] == JList(Attached(t.attachments, OfResource(rid), "site"))
            && lists["eligibilities"] == JList(Names(t.eligibilities, Attached(t.attachments, OfService(id), "eligibility")))
            && lists["boosted_category"] ==
               (var names := Attached(t.attachments, OfService(id), "boosted_category");
                if names == [] then JNull else names[0])
  {
    hide Attached, Names;
  }

  lemma ColumnNames()
    ensures forall k :: k in {"id", "name", "resource_id"} ==>
              k !in SERVICE_LISTS + SERVICE_SET && k !in STAMPS && k != "status" && k != "source_attribution"
    ensures forall k :: k in {"id", "name"} ==> k !in RESOURCE_LISTS + RESOURCE_SET
  {
  }

  /** The addresses and the days that the record of a service reads. */
  lemma ServicePlaceRows(t: Tables, id: int, reformat: Reformat)
    requires ServiceStatusRecord(t, id, reformat).Some?
    ensures id in t.services && t.services[id].resourceId.Some?
    ensures var r, rid := ServiceStatusRecord(t, id, reformat).value, t.services[id].resourceId.value;
            var own, other := AddressesOfService(t.addresses, t.links, id), AddressesOfResource(t.addresses, rid);
            var days, otherDays := ScheduleOf(t.schedules, OfService(id)), ScheduleOf(t.schedules, OfResource(rid));
            && {"addresses", "schedule", "open_times"} <= r.Keys
            && (own != [] ==> ReadsAddresses(r["addresses"], own))
            && (own == [] && other != [] ==> ReadsAddresses(r["addresses"], other))
            && (own == [] && other == [] ==> r["addresses"] == JNull)
            && (days.Some? ==> ReadsDays(r["schedule"], days)) && (days.None? ==> ReadsDays(r["schedule"], otherDays))
            && (days.GetOr([]) != [] ==> ReadsTimes(r["open_times"], days))
            && (days.GetOr([]) == [] ==> ReadsTimes(r["open_times"], otherDays))
  {
    hide ServiceRecord, ServiceObjectId, Attached, Names, AddressesOfService, AddressesOfResource, ScheduleOf,
      ReadsAddresses, ReadsDays, ReadsTimes, ServiceLists;
    var s := ServiceView(t, id).value;
    ServiceAddresses(s, ServiceObjectId(id), id, reformat);
    ServiceHours(s, ServiceObjectId(id), id, reformat);
  }

  /** The rows that the record of a resource reads. */
  lemma ResourceRows(t: Tables, id: int, reformat: Reformat)
    requires ResourceStatusRecord(t, id, reformat).Some?
    ensures id in t.resources
    ensures var r := ResourceStatusRecord(t, id, reformat).value;
            && Reads(r, "id", JInt(id)) && Reads(r, "name", t.resources[id].name)
            && Reads(r, "categories", JList(Names(t.categories, Attached(t.attachments, OfResource(id), "category"))))
            && Reads(r, "notes", JList(Attached(t.attachments, OfResource(id), "note")))
            && Reads(r, "keywords", JList(Attached(t.attachments, OfResource(id), "keyword")))
            && Reads(r, "phones", JList(Attached(t.attachments, OfResource(id), "phone")))
            && Reads(r, "associated_sites", JList(Attached(t.attachments, OfResource(id), "site")))
            && Reads(r, "services", JList(NamesOf(t, ServicesOf(t, t.serviceIds, id))))
  {
    hide ResourceRecord, ResourceObjectId, Attached, Names, ServicesOf, NamesOf, Reads, ResourceLists, RESOURCE_LISTS,
      RESOURCE_SET, STAMPS, ColumnReads, ResourceView;
    var s := ResourceView(t, id).value;
    ResourceViewRow(t, id);
    ResourceColumnsRead(s, ResourceObjectId(id), id, reformat);
    ResourceKinds(s, ResourceObjectId(id), id, reformat);
    ResourceListsRead(t, id);
    ListNames();
    PlainResourceColumn(s, ResourceObjectId(id), id, reformat, "id", JInt(id));
    PlainResourceColumn(s, ResourceObjectId(id), id, reformat, "name", t.resources[id].name);
  }

  lemma ResourceViewRow(t: Tables, id: int)
    requires ResourceView(t, id).Some?
    ensures id in t.resources
    ensures var s := ResourceView(t, id).value;
            && Reads(s.columns, "id", JInt(id)) && Reads(s.columns, "name", t.resources[id].name)
            && s.categories == Names(t.categories, Attached(t.attachments, OfResource(id), "category"))
            && s.lists == ResourceLists(t, id) && s.lists.Keys == RESOURCE_LISTS
  {
    hide Attached, Names, ServicesOf, NamesOf, AddressesOfResource, ScheduleOf;
    assert |"id"| == 2 && |"name"| == 4 && |"status"| == 6;
  }

  lemma PlainResourceColumn(s: ResourceSource, objectId: string, id: int, reformat: Reformat, k: string, value: Json)
    requires ResourceRecord(s, objectId, id, reformat).Some? && s.lists.Keys == RESOURCE_LISTS
    requires k in {"id", "name"} && Reads(s.columns, k, value)
    ensures Reads(ResourceRecord(s, objectId, id, reformat).value, k, value)
  {
    hide ResourceRecord, RESOURCE_LISTS, RESOURCE_SET, STAMPS;
    ResourceColumnsRead(s, objectId, id, reformat);
    ColumnNames();
  }

  lemma ResourceListsRead(t: Tables, id: int)
    ensures var lists := ResourceLists(t, id);
            && lists.Keys == RESOURCE_LISTS
            && lists["notes"] == JList(Attached(t.attachments, OfResource(id), "note"))
            && lists["keywords"] == JList(Attached(t.attachments, OfResource(id), "keyword"))
            && lists["phones"] == JList(Attached(t.attachments, OfResource(id), "phone"))
            && lists["associated_sites"] == JList(Attached(t.attachments, OfResource(id), "site"))
            && lists["services"] == JList(NamesOf(t, ServicesOf(t, t.serviceIds, id)))
  {
    hide Attached, Names, ServicesOf, NamesOf;
  }

  /** The services of a resource are listed by their names, in scan order. */
  lemma {:induction false} NamesListed(t: Tables, ids: seq<int>)
    requires forall id :: id in ids ==> id in t.services
    ensures |NamesOf(t, ids)| == |ids|
    ensures forall i :: 0 <= i < |ids| ==>
              ids[i] in t.services && NamesOf(t, ids)[i] == JObject(map["name" := t.services[ids[i]].name])
    decreases |ids|
  {
    if ids != [] {
      var id0 := ids[0];
      assert id0 in ids;
      forall id | id in ids[1..] ensures id in ids { }
      NamesListed(t, ids[1..]);
      var first := JObject(map["name" := t.services[ids[0]].name]);
      assert NamesOf(t, ids) == [first] + NamesOf(t, ids[1..]);
      forall i | 0 < i < |ids| ensures NamesOf(t, ids)[i] == NamesOf(t, ids[1..])[i - 1] && ids[i] == ids[1..][i - 1] { }
    }
  }

  lemma ServicesListed(t: Tables, id: int, reformat: Reformat)
    requires ResourceStatusRecord(t, id, reformat).Some?
    ensures var r, ids := ResourceStatusRecord(t, id, reformat).value, ServicesOf(t, t.serviceIds, id);
            && "services" in r && r["services"].JList? && |r["services"].items| == |ids|
            && forall i :: 0 <= i < |ids| ==>
                 && ids[i] in t.services && t.services[ids[i]].resourceId == Some(id)
                 && r["services"].items[i] == JObject(map["name" := t.services[ids[i]].name])
  {
    hide ResourceStatusRecord, NamesOf;
    ResourceRows(t, id, reformat);
    NamesListed(t, ServicesOf(t, t.serviceIds, id));
  }

  lemma ResourcePlaceRows(t: Tables, id: int, reformat: Reformat)
    requires ResourceStatusRecord(t, id, reformat).Some?
    ensures var r := ResourceStatusRecord(t, id, reformat).value;
            && {"addresses", "schedule", "open_times"} <= r.Keys
            && ReadsAddresses(r["addresses"], AddressesOfResource(t.addresses, id))
            && ReadsDays(r["schedule"], ScheduleOf(t.schedules, OfResource(id)))
            && ReadsTimes(r["open_times"], ScheduleOf(t.schedules, OfResource(id)))
  {
    hide ResourceRecord, ResourceObjectId, Attached, Names, AddressesOfResource, ScheduleOf, ReadsAddresses, ReadsDays,
      ReadsTimes, ResourceLists;
    var s := ResourceView(t, id).value;
    ResourcePlaces(s, ResourceObjectId(id), id, reformat);
    ResourceHours(s, ResourceObjectId(id), id, reformat);
  }
}
