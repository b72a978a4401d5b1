/**
  The database rows that the search index is built from, and the two snapshot queries of
  internal/searchindex.
 */
module SiteTables {
  import opened Decimal
  import opened IndexRecords
  import opened OpenTimes
  import opened Wrappers

  const PENDING := 0
  const APPROVED := 1
  const INACTIVE := 3

  datatype ResourceRow = ResourceRow(status: Option<int>, name: Json, columns: Record)

  datatype ServiceRow = ServiceRow(status: Option<int>, resourceId: Option<int>, name: Json, columns: Record)

  datatype AddressRow = AddressRow(id: int, resourceId: Option<int>, address: IndexAddress)

  datatype Owner = OfResource(id: int) | OfService(id: int) | Nobody

  /**
    A row that reaches its owner directly (notes, phones, instructions) or through a join table,
    with the value the record shows. The rows that join a category or an eligibility hold its
    id. Primary keys are unique, so a row is addressed as the first with its kind and id.
   */
  datatype Attachment = Attachment(id: int, owner: Owner, kind: string, value: Json)

  datatype DayRow = DayRow(id: int, day: ScheduleDay)

  datatype ScheduleRow = ScheduleRow(id: int, owner: Owner, days: seq<DayRow>)

  /** serviceIds lists the services in scan order; the next ids are the sequences that number new rows. */
  datatype Tables = Tables(
    resources: map<int, ResourceRow>,
    services: map<int, ServiceRow>,
    serviceIds: seq<int>,
    nextServiceId: int,
    addresses: seq<AddressRow>,
    nextAddressId: int,
    links: seq<(int, int)>,
    schedules: seq<ScheduleRow>,
    attachments: seq<Attachment>,
    categories: map<int, Json>,
    eligibilities: map<int, Json>)

  ghost predicate WellFormed(t: Tables)
  {
    && (forall id :: id in t.services <==> id in t.serviceIds)
    && (forall id :: id in t.services ==> id < t.nextServiceId)
    && (forall i, j :: 0 <= i < j < |t.serviceIds| ==> t.serviceIds[i] != t.serviceIds[j])
    && DistinctAddresses(t.addresses)
    && (forall row :: row in t.addresses ==> row.id < t.nextAddressId)
    && (forall link :: link in t.links ==> link.1 < t.nextAddressId)
  }

  ghost predicate DistinctAddresses(rows: seq<AddressRow>)
  {
    forall i, j :: 0 <= i < j < |rows| ==> rows[i].id != rows[j].id
  }

  // ----- Queries -----

  function Attached(rows: seq<Attachment>, owner: Owner, kind: string): seq<Json>
  {
    if rows == [] then [] else
      (if rows[0].owner == owner && rows[0].kind == kind then [rows[0].value] else []) +
      Attached(rows[1..], owner, kind)
  }

  function ScheduleOf(rows: seq<ScheduleRow>, owner: Owner): Option<seq<ScheduleDay>>
  {
    if rows == [] then None
    else if rows[0].owner == owner then Some(DaysOf(rows[0].days))
    else ScheduleOf(rows[1..], owner)
  }

  function DaysOf(rows: seq<DayRow>): (days: seq<ScheduleDay>)
    ensures |days| == |rows| && forall i :: 0 <= i < |rows| ==> days[i] == rows[i].day
  {
    seq(|rows|, i requires 0 <= i < |rows| => rows[i].day)
  }

  /** The names that joined ids stand for; an id without a row joins with nothing. */
  function Names(names: map<int, Json>, ids: seq<Json>): seq<Json>
  {
    if ids == [] then [] else
      (if ids[0].JInt? && ids[0].n in names then [names[ids[0].n]] else []) + Names(names, ids[1..])
  }

  function AddressesOfResource(rows: seq<AddressRow>, id: int): seq<IndexAddress>
  {
    if rows == [] then [] else
      (if rows[0].resourceId == Some(id) then [rows[0].address] else []) + AddressesOfResource(rows[1..], id)
  }

  function AddressesOfService(rows: seq<AddressRow>, links: seq<(int, int)>, id: int): seq<IndexAddress>
  {
    if rows == [] then [] else
      (if (id, rows[0].id) in links then [rows[0].address] else []) + AddressesOfService(rows[1..], links, id)
  }

  /** Ids of the services of a resource, in scan order. */
  function ServicesOf(t: Tables, ids: seq<int>, resourceId: int): (r: seq<int>)
    ensures forall id :: id in r <==> id in ids && id in t.services && t.services[id].resourceId == Some(resourceId)
  {
    if ids == [] then [] else
      (if ids[0] in t.services && t.services[ids[0]].resourceId == Some(resourceId) then [ids[0]] else []) +
      ServicesOf(t, ids[1..], resourceId)
  }

  function NamesOf(t: Tables, ids: seq<int>): seq<Json>
  {
    if ids == [] then [] else
      (if ids[0] in t.services then [JObject(map["name" := t.services[ids[0]].name])] else []) + NamesOf(t, ids[1..])
  }

  function Id(id: Option<int>): Json { if id.Some? then JInt(id.value) else JNull }

  /** The lists that the record of a service shows, with those of its resource r. */
  function ServiceLists(t: Tables, id: int, r: int): Record
  {
    map["notes" := JList(Attached(t.attachments, OfService(id), "note")),
        "boosted_category" := First(Attached(t.attachments, OfService(id), "boosted_category")),
        "eligibilities" := JList(Names(t.eligibilities, Attached(t.attachments, OfService(id), "eligibility"))),
        "phones" := JList(Attached(t.attachments, OfResource(r), "phone")),
        "associated_sites" := JList(Attached(t.attachments, OfResource(r), "site")),
        "documents" := JList(Attached(t.attachments, OfService(id), "document")),
        "instructions" := JList(Attached(t.attachments, OfService(id), "instruction"))]
  }

  function ServiceView(t: Tables, id: int): Option<ServiceSource>
  {
    if id !in t.services then None else
      var row := t.services[id];
      if row.resourceId.None? || row.resourceId.value !in t.resources then None else
        var r := row.resourceId.value;
        Some(ServiceSource(
          row.columns["id" := JInt(id)]["name" := row.name]["status" := Id(row.status)]["resource_id" := JInt(r)],
          t.resources[r].name,
          AddressesOfService(t.addresses, t.links, id),
          AddressesOfResource(t.addresses, r),
          ScheduleOf(t.schedules, OfService(id)),
          ScheduleOf(t.schedules, OfResource(r)),
          Names(t.categories, Attached(t.attachments, OfService(id), "category")),
          ServiceLists(t, id, r)))
  }

  function First(values: seq<Json>): Json { if values == [] then JNull else values[0] }

  function ResourceLists(t: Tables, id: int): Record
  {
    map["notes" := JList(Attached(t.attachments, OfResource(id), "note")),
        "keywords" := JList(Attached(t.attachments, OfResource(id), "keyword")),
        "services" := JList(NamesOf(t, ServicesOf(t, t.serviceIds, id))),
        "phones" := JList(Attached(t.attachments, OfResource(id), "phone")),
        "associated_sites" := JList(Attached(t.attachments, OfResource(id), "site"))]
  }

  function ResourceView(t: Tables, id: int): Option<ResourceSource>
  {
    if id !in t.resources then None else
      var row := t.resources[id];
      Some(ResourceSource(
        row.columns["id" := JInt(id)]["name" := row.name]["status" := Id(row.status)],
        AddressesOfResource(t.addresses, id),
        ScheduleOf(t.schedules, OfResource(id)),
        Names(t.categories, Attached(t.attachments, OfResource(id), "category")),
        ResourceLists(t, id)))
  }

  // ----- Object ids -----

  function ResourceObjectId(id: int): string { "resource_" + IntText(id) }

  function ServiceObjectId(id: int): string { "service_" + IntText(id) }

  lemma ObjectIdsDistinct(a: int, b: int)
    ensures ResourceObjectId(a) == ResourceObjectId(b) ==> a == b
    ensures ServiceObjectId(a) == ServiceObjectId(b) ==> a == b
    ensures ResourceObjectId(a) != ServiceObjectId(b)
  {
    hide IntText;
    assert ResourceObjectId(a)[|"resource_"|..] == IntText(a) && ResourceObjectId(b)[|"resource_"|..] == IntText(b);
    assert ServiceObjectId(a)[|"service_"|..] == IntText(a) && ServiceObjectId(b)[|"service_"|..] == IntText(b);
    assert ResourceObjectId(a)[0] == 'r' && ServiceObjectId(b)[0] == 's';
    if IntText(a) == IntText(b) {
      IntTextInjective(a, b);
    }
  }

  // ----- The record an object should have -----

  function ServiceStatusRecord(t: Tables, id: int, reformat: Reformat): Option<Record>
  {
    match ServiceView(t, id)
    case None => None
    case Some(source) => ServiceRecord(source, ServiceObjectId(id), id, reformat)
  }

  function ResourceStatusRecord(t: Tables, id: int, reformat: Reformat): Option<Record>
  {
    match ResourceView(t, id)
    case None => None
    case Some(source) => ResourceRecord(source, ResourceObjectId(id), id, reformat)
  }

  predicate ServiceApproved(t: Tables, id: int) { id in t.services && t.services[id].status == Some(APPROVED) }

  predicate ResourceApproved(t: Tables, id: int) { id in t.resources && t.resources[id].status == Some(APPROVED) }
}
