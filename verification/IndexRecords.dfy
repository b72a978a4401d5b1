/**
  The records that go into the search index: serviceIndexSource.record and
  resourceIndexSource.record of internal/searchindex, from one snapshot of the rows.
 */
module IndexRecords {
  import opened OpenTimes
  import opened Wrappers

  datatype Json =
    | JNull
    | JBool(b: bool)
    | JInt(n: int)
    | JReal(r: real)
    | JText(s: string)
    | JList(items: seq<Json>)
    | JObject(members: map<string, Json>)

  type Record = map<string, Json>

  /** Reformats a stored timestamp for the index; None when it does not parse. */
  type Reformat = string -> Option<string>

  datatype IndexAddress = IndexAddress(fields: Record, latitude: Option<real>, longitude: Option<real>)

  /** What the service query returns. */
  datatype ServiceSource = ServiceSource(
    columns: Record,
    resourceName: Json,
    addresses: seq<IndexAddress>,
    resourceAddresses: seq<IndexAddress>,
    schedule: Option<seq<ScheduleDay>>,
    resourceSchedule: Option<seq<ScheduleDay>>,
    categories: seq<Json>,
    lists: Record)

  /** What the resource query returns. */
  datatype ResourceSource = ResourceSource(
    columns: Record,
    addresses: seq<IndexAddress>,
    schedule: Option<seq<ScheduleDay>>,
    categories: seq<Json>,
    lists: Record)

  const STAMPS: seq<string> := ["created_at", "updated_at", "certified_at", "verified_at"]

  /** Text timestamps are reformatted; the first that does not parse stops the build. */
  function Stamped(r: Record, names: seq<string>, reformat: Reformat): Option<Record>
  {
    if names == [] then Some(r)
    else if names[0] in r && r[names[0]].JText? then
      match reformat(r[names[0]].s)
      case None => None
      case Some(text) => Stamped(r[names[0] := JText(text)], names[1..], reformat)
    else Stamped(r, names[1..], reformat)
  }

  function Attributed(r: Record): Record
  {
    if "source_attribution" !in r then r
    else if r["source_attribution"] == JInt(0) then r["source_attribution" := JText("ask_darcel")]
    else if r["source_attribution"] == JInt(1) then r["source_attribution" := JText("service_net")]
    else r
  }

  function Coordinate(c: Option<real>): Json { JReal(c.GetOr(0.0)) }

  function AddressRecord(a: IndexAddress): Json
  {
    JObject(a.fields + map["country" := JText("USA"),
                           "latitude" := Coordinate(a.latitude), "longitude" := Coordinate(a.longitude)])
  }

  function AddressRecords(addresses: seq<IndexAddress>): seq<Json>
  {
    seq(|addresses|, i requires 0 <= i < |addresses| => AddressRecord(addresses[i]))
  }

  function Point(latitude: Json, longitude: Json): Json
  {
    JObject(map["lat" := latitude, "lng" := longitude])
  }

  const ORIGIN := Point(JReal(0.0), JReal(0.0))

  /** An address is on the map only with both coordinates. */
  function Location(a: IndexAddress, missing: Json): Json
  {
    if a.latitude.Some? && a.longitude.Some?
    then Point(JReal(a.latitude.value), JReal(a.longitude.value))
    else missing
  }

  function ServiceLocation(s: ServiceSource): Json
  {
    if s.addresses != [] then
      JList(seq(|s.addresses|, i requires 0 <= i < |s.addresses| => Location(s.addresses[i], JNull)))
    else if s.resourceAddresses != [] then Location(s.resourceAddresses[0], ORIGIN)
    else ORIGIN
  }

  function Time(t: Option<int>): Json { if t.Some? then JInt(t.value) else JNull }

  function DayRecord(d: ScheduleDay): Json
  {
    JObject(map["day" := JText(d.day), "opens_at" := Time(d.opensAt), "closes_at" := Time(d.closesAt)])
  }

  function Days(schedule: Option<seq<ScheduleDay>>): Json
  {
    match schedule
    case None => JNull
    case Some(days) => JList(seq(|days|, i requires 0 <= i < |days| => DayRecord(days[i])))
  }

  /** The open_times member, or None when a day is not a weekday. */
  function OpenTimesField(schedule: Option<seq<ScheduleDay>>): Option<Json>
  {
    match schedule
    case None => Some(JNull)
    case Some(days) =>
      match ScheduleTimes(days)
      case InvalidDay(_) => None
      case Times(labels) => Some(JList(seq(|labels|, i requires 0 <= i < |labels| => JText(labels[i]))))
  }

  /** A service without days of its own shows the hours of its resource. */
  function UsesResourceSchedule(s: ServiceSource): bool
  {
    s.schedule.None? || s.schedule.value == []
  }

  function ServiceRecord(s: ServiceSource, objectId: string, id: int, reformat: Reformat): Option<Record>
  {
    match Stamped(s.columns, STAMPS, reformat)
    case None => None
    case Some(base) =>
      match OpenTimesField(if UsesResourceSchedule(s) then s.resourceSchedule else s.schedule)
      case None => None
      case Some(openTimes) =>
        var addresses := if s.addresses == [] then s.resourceAddresses else s.addresses;
        Some((Attributed(base["status" := JText("approved")]) + s.lists)
          ["objectID" := JText(objectId)]["type" := JText("service")]["service_id" := JInt(id)]
          ["service_of" := s.resourceName]
          ["categories" := JList(s.categories)]
          ["is_mohcd_funded" := JBool(JText("MOHCD Funded") in s.categories)]
          ["addresses" := if addresses == [] then JNull else JList(AddressRecords(addresses))]
          ["_geoloc" := ServiceLocation(s)]
          ["schedule" := Days(if s.schedule.Some? then s.schedule else s.resourceSchedule)]
          ["resource_schedule" := Days(s.resourceSchedule)]
          ["use_resource_schedule" := JBool(UsesResourceSchedule(s))]
          ["open_times" := openTimes])
  }

  function ResourceRecord(s: ResourceSource, objectId: string, id: int, reformat: Reformat): Option<Record>
  {
    match Stamped(s.columns, STAMPS, reformat)
    case None => None
    case Some(base) =>
      match OpenTimesField(s.schedule)
      case None => None
      case Some(openTimes) =>
        Some((Attributed(base["status" := JText("approved")]) + s.lists)
          ["objectID" := JText(objectId)]["type" := JText("resource")]["resource_id" := JInt(id)]
          ["categories" := JList(s.categories)]
          ["is_mohcd_funded" := JBool(JText("MOHCD Funded") in s.categories)]
          ["addresses" := JList(AddressRecords(s.addresses))]
          ["_geoloc" := if s.addresses == [] then ORIGIN
                        else Point(Coordinate(s.addresses[0].latitude), Coordinate(s.addresses[0].longitude))]
          ["schedule" := Days(s.schedule)]
          ["open_times" := openTimes])
  }

  // ----- The records as the source fills them, one member after another -----

  method StampColumns(columns: Record, reformat: Reformat) returns (r: Option<Record>)
    ensures r == Stamped(columns, STAMPS, reformat)
  {
    var row := columns;
    for i := 0 to |STAMPS|
      invariant Stamped(columns, STAMPS, reformat) == Stamped(row, STAMPS[i..], reformat)
    {
      var name := STAMPS[i];
      assert STAMPS[i..][0] == name && STAMPS[i..][1..] == STAMPS[i + 1..];
      if name in row && row[name].JText? {
        var parsed := reformat(row[name].s);
        if parsed.None? {
          return None;
        }
        row := row[name := JText(parsed.value)];
      }
    }
    return Some(row);
  }

  method CollectAddresses(addresses: seq<IndexAddress>) returns (records: seq<Json>)
    ensures records == AddressRecords(addresses)
  {
    records := [];
    for i := 0 to |addresses|
      invariant records == AddressRecords(addresses[..i])
    {
      records := records + [AddressRecord(addresses[i])];
    }
    assert addresses[..|addresses|] == addresses;
  }

  /** The source's loop over the categories. */
  method IsMohcdFunded(categories: seq<Json>) returns (funded: bool)
    ensures funded == (JText("MOHCD Funded") in categories)
  {
    funded := false;
    for i := 0 to |categories|
      invariant funded == (JText("MOHCD Funded") in categories[..i])
    {
      if categories[i] == JText("MOHCD Funded") {
        funded := true;
      }
    }
    assert categories[..|categories|] == categories;
  }

  /** The loop that collects the locations of a service's own addresses. */
  method CollectLocations(addresses: seq<IndexAddress>) returns (locations: seq<Json>)
    ensures |locations| == |addresses| && forall i :: 0 <= i < |addresses| ==> locations[i] == Location(addresses[i], JNull)
  {
    locations := [];
    for i := 0 to |addresses|
      invariant |locations| == i && forall j :: 0 <= j < i ==> locations[j] == Location(addresses[j], JNull)
    {
      locations := locations + [Location(addresses[i], JNull)];
    }
  }

  method LocateService(s: ServiceSource) returns (location: Json)
    ensures location == ServiceLocation(s)
  {
    location := ORIGIN;
    if |s.addresses| > 0 {
      var locations := CollectLocations(s.addresses);
      assert locations == seq(|s.addresses|, i requires 0 <= i < |s.addresses| => Location(s.addresses[i], JNull));
      location := JList(locations);
    } else if |s.resourceAddresses| > 0 {
      var a := s.resourceAddresses[0];
      if a.latitude.Some? && a.longitude.Some? {
        location := Point(JReal(a.latitude.value), JReal(a.longitude.value));
      }
    }
  }

  method OpenTimesOfSchedule(schedule: Option<seq<ScheduleDay>>) returns (r: Option<Json>)
    ensures r == OpenTimesField(schedule)
  {
    hide ScheduleTimes;
    if schedule.None? {
      return Some(JNull);
    }
    var outcome := OpenTimesOf(schedule.value);
    match outcome
    case InvalidDay(_) => return None;
    case Times(labels) =>
      var texts := [];
      for i := 0 to |labels|
        invariant |texts| == i && forall j :: 0 <= j < i ==> texts[j] == JText(labels[j])
      {
        texts := texts + [JText(labels[i])];
      }
      assert texts == seq(|labels|, i requires 0 <= i < |labels| => JText(labels[i]));
      return Some(JList(texts));
  }

  method FillServiceRecord(s: ServiceSource, objectId: string, id: int, reformat: Reformat) returns (r: Option<Record>)
    ensures r == ServiceRecord(s, objectId, id, reformat)
  {
    hide Stamped, Attributed, AddressRecords, OpenTimesField, Days, ServiceLocation;
    var base := StampColumns(s.columns, reformat);
    if base.None? {
      return None;
    }
    var row := Attributed(base.value["status" := JText("approved")]) + s.lists;
    row := row["objectID" := JText(objectId)]["type" := JText("service")]["service_id" := JInt(id)];
    row := row["service_of" := s.resourceName]["categories" := JList(s.categories)];
    var funded := IsMohcdFunded(s.categories);
    row := row["is_mohcd_funded" := JBool(funded)];
    var addresses := s.addresses;
    if |addresses| == 0 {
      addresses := s.resourceAddresses;
    }
    var records := CollectAddresses(addresses);
    row := row["addresses" := if addresses == [] then JNull else JList(records)];
    var location := LocateService(s);
    row := row["_geoloc" := location];
    row := row["schedule" := Days(if s.schedule.Some? then s.schedule else s.resourceSchedule)];
    row := row["resource_schedule" := Days(s.resourceSchedule)];
    var useResource := s.schedule.None? || |s.schedule.value| == 0;
    row := row["use_resource_schedule" := JBool(useResource)];
    var openTimes := OpenTimesOfSchedule(if useResource then s.resourceSchedule else s.schedule);
    if openTimes.None? {
      return None;
    }
    row := row["open_times" := openTimes.value];
    return Some(row);
  }

  method FillResourceRecord(s: ResourceSource, objectId: string, id: int,
                            reformat: Reformat) returns (r: Option<Record>)
    ensures r == ResourceRecord(s, objectId, id, reformat)
  {
    hide Stamped, Attributed, AddressRecords, OpenTimesField, Days;
    var base := StampColumns(s.columns, reformat);
    if base.None? {
      return None;
    }
    var row := Attributed(base.value["status" := JText("approved")]) + s.lists;
    row := row["objectID" := JText(objectId)]["type" := JText("resource")]["resource_id" := JInt(id)];
    row := row["categories" := JList(s.categories)];
    var funded := IsMohcdFunded(s.categories);
    row := row["is_mohcd_funded" := JBool(funded)];
    var records := CollectAddresses(s.addresses);
    row := row["addresses" := JList(records)];
    row := row["_geoloc" := if |s.addresses| == 0 then ORIGIN
                            else Point(Coordinate(s.addresses[0].latitude), Coordinate(s.addresses[0].longitude))];
    row := row["schedule" := Days(s.schedule)];
    var openTimes := OpenTimesOfSchedule(s.schedule);
    if openTimes.None? {
      return None;
    }
    row := row["open_times" := openTimes.value];
    return Some(row);
  }

  // ----- Which hours and places a service shows -----

  /** A service's own days win; without any it shows its resource's hours, and says so. */
  lemma HoursShown(s: ServiceSource, objectId: string, id: int, reformat: Reformat)
    requires ServiceRecord(s, objectId, id, reformat).Some?
    ensures var r := ServiceRecord(s, objectId, id, reformat).value;
            && r["use_resource_schedule"] == JBool(s.schedule.GetOr([]) == [])
            && (s.schedule.GetOr([]) != [] ==>
                  Some(r["open_times"]) == OpenTimesField(s.schedule) && r["schedule"] == Days(s.schedule))
            && (s.schedule.GetOr([]) == [] ==> Some(r["open_times"]) == OpenTimesField(s.resourceSchedule))
            && (s.addresses + s.resourceAddresses == [] <==> r["addresses"] == JNull)
  {
    hide Stamped, Attributed, AddressRecord, OpenTimesField, Days, ServiceLocation;
  }
}
