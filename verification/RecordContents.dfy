/**
  What a record gives away of the rows it was built from: two records of one object are equal
  exactly when the parts of the rows that they show are.
 */
module RecordContents {
  import opened IndexRecords
  import opened OpenTimes
  import opened Wrappers

  // ----- Addresses -----

  /** Two lists of addresses that look the same in a record. */
  ghost predicate LookAlike(a: seq<IndexAddress>, b: seq<IndexAddress>)
  {
    |a| == |b| && forall i :: 0 <= i < |a| ==> SameLook(a[i], b[i])
  }

  ghost predicate SameLook(a: IndexAddress, b: IndexAddress)
  {
    AddressRecord(a) == AddressRecord(b) && Location(a, JNull) == Location(b, JNull)
  }

  lemma RecordTells(s: ServiceSource, b: seq<IndexAddress>, objectId: string, id: int, reformat: Reformat)
    requires ServiceRecord(s, objectId, id, reformat).Some?
    ensures ServiceRecord(s, objectId, id, reformat) == ServiceRecord(s.(addresses := b), objectId, id, reformat) <==>
            LookAlike(s.addresses, b)
  {
    hide Stamped, Attributed, AddressRecord, OpenTimesField, Days, Location, ServiceLocation, AddressRecords;
    var s' := s.(addresses := b);
    var r, r' := ServiceRecord(s, objectId, id, reformat).value, ServiceRecord(s', objectId, id, reformat).value;
    var shown := if s.addresses == [] then s.resourceAddresses else s.addresses;
    var shown' := if b == [] then s.resourceAddresses else b;
    assert r["_geoloc"] == ServiceLocation(s) && r'["_geoloc"] == ServiceLocation(s');
    assert r["addresses"] == Listed(shown) && r'["addresses"] == Listed(shown');
    if LookAlike(s.addresses, b) {
      LookAlikeShow(s, b);
    } else if r == r' {
      ShowAlike(s, b);
      assert false;
    }
  }

  function Listed(addresses: seq<IndexAddress>): Json
  {
    if addresses == [] then JNull else JList(AddressRecords(addresses))
  }

  lemma LookAlikeShow(s: ServiceSource, b: seq<IndexAddress>)
    requires LookAlike(s.addresses, b)
    ensures ServiceLocation(s) == ServiceLocation(s.(addresses := b))
    ensures s.addresses != [] ==> Listed(s.addresses) == Listed(b)
    ensures s.addresses == [] <==> b == []
  {
    hide AddressRecord, Location;
    assert AddressRecords(s.addresses) == AddressRecords(b);
  }

  lemma ShowAlike(s: ServiceSource, b: seq<IndexAddress>)
    requires ServiceLocation(s) == ServiceLocation(s.(addresses := b))
    requires Listed(if s.addresses == [] then s.resourceAddresses else s.addresses) ==
             Listed(if b == [] then s.resourceAddresses else b)
    ensures LookAlike(s.addresses, b)
  {
    hide AddressRecord, Location;
    var a := s.addresses;
    LocationKind(s);
    LocationKind(s.(addresses := b));
    if a != [] && b != [] {
      forall i | 0 <= i < |a| ensures SameLook(a[i], b[i]) {
        assert AddressRecords(a)[i] == AddressRecords(b)[i];
        assert ServiceLocation(s).items[i] == ServiceLocation(s.(addresses := b)).items[i];
      }
    }
  }

  lemma LocationKind(s: ServiceSource)
    ensures ServiceLocation(s).JList? <==> s.addresses != []
    ensures s.addresses != [] ==> |ServiceLocation(s).items| == |s.addresses|
  {
  }

  // ----- Lists -----

  const SERVICE_LISTS := {"notes", "boosted_category", "eligibilities", "phones", "associated_sites", "documents",
                          "instructions"}

  const RESOURCE_LISTS := {"notes", "keywords", "services", "phones", "associated_sites"}

  /** Services that differ only in their categories and lists have one record exactly when these are equal. */
  lemma ListsTell(s: ServiceSource, categories: seq<Json>, lists: Record, objectId: string, id: int, reformat: Reformat)
    requires ServiceRecord(s, objectId, id, reformat).Some?
    requires s.lists.Keys == SERVICE_LISTS && lists.Keys == SERVICE_LISTS
    ensures ServiceRecord(s, objectId, id, reformat) ==
            ServiceRecord(s.(categories := categories, lists := lists), objectId, id, reformat) <==>
            s.categories == categories && s.lists == lists
  {
    hide Stamped, Attributed, AddressRecord, OpenTimesField, Days, Location, ServiceLocation, AddressRecords;
    var s' := s.(categories := categories, lists := lists);
    ServiceShows(s, objectId, id, reformat);
    ServiceShows(s', objectId, id, reformat);
    if ServiceRecord(s, objectId, id, reformat) == ServiceRecord(s', objectId, id, reformat) {
      assert forall k :: k in SERVICE_LISTS ==> s.lists[k] == lists[k];
    }
  }

  lemma ServiceShows(s: ServiceSource, objectId: string, id: int, reformat: Reformat)
    requires ServiceRecord(s, objectId, id, reformat).Some? && s.lists.Keys == SERVICE_LISTS
    ensures var r := ServiceRecord(s, objectId, id, reformat).value;
            && "categories" in r && r["categories"] == JList(s.categories)
            && forall k :: k in SERVICE_LISTS ==> k in r && r[k] == s.lists[k]
  {
    hide ServiceRecord;
    ServiceCategories(s, objectId, id, reformat);
    forall k | k in SERVICE_LISTS
      ensures var r := ServiceRecord(s, objectId, id, reformat).value; k in r && r[k] == s.lists[k]
    {
      ServiceListsApart(k);
      ServiceUnset(s, objectId, id, reformat, k);
    }
  }

  /** The members that are set after the lists. */
  const SERVICE_SET := {"objectID", "type", "service_id", "service_of", "categories", "is_mohcd_funded", "addresses",
                        "_geoloc", "schedule", "resource_schedule", "use_resource_schedule", "open_times"}

  lemma ServiceListsApart(k: string)
    requires k in SERVICE_LISTS
    ensures k !in SERVICE_SET
  {
    assert k[0] != '_' && k[0] != 'o' && k[0] != 'c' && k[0] != 't' && k[0] != 's' && k[0] != 'r' && k[0] != 'u';
  }

  lemma ServiceUnset(s: ServiceSource, objectId: string, id: int, reformat: Reformat, k: string)
    requires ServiceRecord(s, objectId, id, reformat).Some? && k in s.lists && k !in SERVICE_SET
    ensures var r := ServiceRecord(s, objectId, id, reformat).value; k in r && r[k] == s.lists[k]
  {
    hide Stamped, Attributed, AddressRecord, OpenTimesField, Days, ServiceLocation, AddressRecords;
  }

  lemma ServiceCategories(s: ServiceSource, objectId: string, id: int, reformat: Reformat)
    requires ServiceRecord(s, objectId, id, reformat).Some?
    ensures var r := ServiceRecord(s, objectId, id, reformat).value;
            "categories" in r && r["categories"] == JList(s.categories)
  {
    hide Stamped, Attributed, AddressRecord, OpenTimesField, Days, ServiceLocation, AddressRecords;
  }

  // ----- Resources -----

  /**
    Resources with the same columns have one record exactly when they show the same addresses,
    days, categories and lists. A missing coordinate looks like zero here, unlike in a service.
   */
  lemma ResourceTells(s: ResourceSource, b: ResourceSource, objectId: string, id: int, reformat: Reformat)
    requires ResourceRecord(s, objectId, id, reformat).Some? && ResourceRecord(b, objectId, id, reformat).Some?
    requires s.columns == b.columns && s.lists.Keys == RESOURCE_LISTS && b.lists.Keys == RESOURCE_LISTS
    ensures ResourceRecord(s, objectId, id, reformat) == ResourceRecord(b, objectId, id, reformat) <==>
            && s.categories == b.categories && s.lists == b.lists && s.schedule == b.schedule
            && AddressRecords(s.addresses) == AddressRecords(b.addresses)
  {
    hide Stamped, Attributed, OpenTimesField, AddressRecords, Days, ORIGIN;
    ResourceShows(s, objectId, id, reformat);
    ResourceShows(b, objectId, id, reformat);
    if ResourceRecord(s, objectId, id, reformat) == ResourceRecord(b, objectId, id, reformat) {
      assert forall k :: k in RESOURCE_LISTS ==> s.lists[k] == b.lists[k];
      DaysTell(s.schedule, b.schedule);
    }
    if AddressRecords(s.addresses) == AddressRecords(b.addresses) {
      FirstPlace(s.addresses, b.addresses);
    }
  }

  lemma ResourceShows(s: ResourceSource, objectId: string, id: int, reformat: Reformat)
    requires ResourceRecord(s, objectId, id, reformat).Some? && s.lists.Keys == RESOURCE_LISTS
    ensures var r := ResourceRecord(s, objectId, id, reformat).value;
            && {"categories", "addresses", "schedule", "open_times"} <= r.Keys
            && r["categories"] == JList(s.categories) && r["addresses"] == JList(AddressRecords(s.addresses))
            && r["schedule"] == Days(s.schedule) && Some(r["open_times"]) == OpenTimesField(s.schedule)
            && forall k :: k in RESOURCE_LISTS ==> k in r && r[k] == s.lists[k]
  {
    hide ResourceRecord;
    ResourceMembers(s, objectId, id, reformat);
    forall k | k in RESOURCE_LISTS
      ensures var r := ResourceRecord(s, objectId, id, reformat).value; k in r && r[k] == s.lists[k]
    {
      ResourceListsApart(k);
      ResourceUnset(s, objectId, id, reformat, k);
    }
  }

  const RESOURCE_SET := {"objectID", "type", "resource_id", "categories", "is_mohcd_funded", "addresses", "_geoloc",
                         "schedule", "open_times"}

  lemma ResourceListsApart(k: string)
    requires k in RESOURCE_LISTS
    ensures k !in RESOURCE_SET
  {
    assert k == "services" || (k[0] != '_' && k[0] != 'o' && k[0] != 'c' && k[0] != 't' && k[0] != 's' && k[0] != 'r');
    assert k == "services" ==> k[1] == 'e';
  }

  lemma ResourceUnset(s: ResourceSource, objectId: string, id: int, reformat: Reformat, k: string)
    requires ResourceRecord(s, objectId, id, reformat).Some? && k in s.lists && k !in RESOURCE_SET
    ensures var r := ResourceRecord(s, objectId, id, reformat).value; k in r && r[k] == s.lists[k]
  {
    hide Stamped, Attributed, AddressRecord, OpenTimesField, Days, AddressRecords, ORIGIN;
  }

  lemma ResourceMembers(s: ResourceSource, objectId: string, id: int, reformat: Reformat)
    requires ResourceRecord(s, objectId, id, reformat).Some?
    ensures var r := ResourceRecord(s, objectId, id, reformat).value;
            && {"categories", "addresses", "schedule", "open_times"} <= r.Keys
            && r["categories"] == JList(s.categories) && r["addresses"] == JList(AddressRecords(s.addresses))
            && r["schedule"] == Days(s.schedule) && Some(r["open_times"]) == OpenTimesField(s.schedule)
  {
    hide Stamped, Attributed, AddressRecord, OpenTimesField, Days, AddressRecords, ORIGIN;
  }

  lemma DaysTell(a: Option<seq<ScheduleDay>>, b: Option<seq<ScheduleDay>>)
    requires Days(a) == Days(b)
    ensures a == b
  {
    if a.Some? && b.Some? {
      assert |Days(a).items| == |a.value| && |Days(b).items| == |b.value|;
      forall i | 0 <= i < |a.value| ensures |b.value| == |a.value| && a.value[i] == b.value[i] {
        assert Days(a).items[i] == Days(b).items[i];
        DayTells(a.value[i], b.value[i]);
      }
      assert a.value == b.value;
    }
  }

  lemma DayTells(a: ScheduleDay, b: ScheduleDay)
    requires DayRecord(a) == DayRecord(b)
    ensures a == b
  {
    var r, r' := DayRecord(a).members, DayRecord(b).members;
    assert r["day"] == r'["day"] && r["opens_at"] == r'["opens_at"] && r["closes_at"] == r'["closes_at"];
  }

  function Place(addresses: seq<IndexAddress>): Json
  {
    if addresses == [] then ORIGIN
    else Point(Coordinate(addresses[0].latitude), Coordinate(addresses[0].longitude))
  }

  /** The place on the map is that of the first address shown. */
  lemma FirstPlace(a: seq<IndexAddress>, b: seq<IndexAddress>)
    requires AddressRecords(a) == AddressRecords(b)
    ensures |a| == |b| && Place(a) == Place(b)
  {
    hide ORIGIN;
    assert |AddressRecords(a)| == |a| && |AddressRecords(b)| == |b|;
    if a != [] {
      assert AddressRecords(a)[0] == AddressRecord(a[0]) && AddressRecords(b)[0] == AddressRecord(b[0]);
      var r, r' := AddressRecord(a[0]).members, AddressRecord(b[0]).members;
      assert r["latitude"] == r'["latitude"] && r["longitude"] == r'["longitude"];
    }
  }
}
