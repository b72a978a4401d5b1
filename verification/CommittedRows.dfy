/**
  What each commit leaves in the rows, said of the rows alone: which columns, names, statuses,
  lists, addresses and days have which values afterwards, and that everything else is kept. The
  row changes themselves are in SiteUpdates.dfy, and none of the statements here is made of them.
 */
module CommittedRows {
  import opened AddressChanges
  import opened DayChanges
  import opened DayRequests
  import opened IndexRecords
  import opened OpenTimes
  import opened RowRequests
  import opened SiteTables
  import opened SiteUpdates
  import opened Wrappers

  /** Named columns have their values, updated_at is the time of the commit, and the others are kept. */
  ghost predicate Written(before: Record, after: Record, named: Record, now: string)
  {
    forall c ::
      if c == "updated_at" then c in after && after[c] == JText(now)
      else if c in named then c in after && after[c] == named[c]
      else (c in after <==> c in before) && (c in after ==> after[c] == before[c])
  }

  /** Two maps that agree on every other id. */
  ghost predicate SameBut<T>(a: map<int, T>, b: map<int, T>, id: int)
  {
    forall k :: k != id ==> (k in a <==> k in b) && (k in a && k in b ==> a[k] == b[k])
  }

  /** A resource row that is there before and after, and is the only one to change. */
  ghost predicate ResourceWritten(a: Tables, b: Tables, id: int, status: Option<int>, name: Json, named: Record, now: string)
    requires id in a.resources
  {
    && SameBut(a.resources, b.resources, id)
    && id in b.resources && b.resources[id].status == status && b.resources[id].name == name
    && Written(a.resources[id].columns, b.resources[id].columns, named, now)
  }

  /** The same row with another updated_at, or no row at all. */
  ghost predicate ResourceTouched(a: Tables, b: Tables, id: int, now: string)
  {
    if id in a.resources then ResourceWritten(a, b, id, a.resources[id].status, a.resources[id].name, map[], now)
    else b.resources == a.resources
  }

  /** A service row that stays with its resource and is the only one to change. */
  ghost predicate ServiceWritten(a: Tables, b: Tables, id: int, status: Option<int>, name: Json, named: Record, now: string)
    requires id in a.services
  {
    && SameBut(a.services, b.services, id)
    && id in b.services && b.services[id].status == status && b.services[id].name == name
    && b.services[id].resourceId == a.services[id].resourceId
    && Written(a.services[id].columns, b.services[id].columns, named, now)
  }

  lemma TouchWrites(t: Tables, id: int, now: string)
    ensures var b := TouchResource(t, id, now);
            ResourceTouched(t, b, id, now) && b == t.(resources := b.resources)
  {
  }

  // ----- Resources -----

  /** An edit writes the status and name that it gives and keeps those that it does not. */
  lemma EditedResource(t: Tables, id: int, status: Option<int>, name: Option<Json>, columns: Record, now: string)
    requires id in t.resources
    ensures var b := SiteUpdates.EditResource(t, id, status, name, columns, now);
            && b == t.(resources := b.resources) && id in b.resources
            && ResourceWritten(t, b, id, b.resources[id].status, b.resources[id].name, columns, now)
            && (status.Some? ==> b.resources[id].status == status)
            && (status.None? ==> b.resources[id].status == t.resources[id].status)
            && (name.Some? ==> b.resources[id].name == name.value)
            && (name.None? ==> b.resources[id].name == t.resources[id].name)
  {
  }

  lemma EditWithoutRow(t: Tables, id: int, status: Option<int>, name: Option<Json>, columns: Record, now: string)
    requires id !in t.resources
    ensures SiteUpdates.EditResource(t, id, status, name, columns, now) == t
  {
  }

  lemma CertifiedResource(t: Tables, id: int, now: string)
    requires id in t.resources
    ensures var b := MarkCertified(t, id, now);
            && b == t.(resources := b.resources)
            && ResourceWritten(t, b, id, t.resources[id].status, t.resources[id].name,
                               map["certified" := JBool(true), "certified_at" := JText(now)], now)
  {
    assert "certified"[0] != "updated_at"[0];
    assert |"certified"| != |"certified_at"|;
  }

  /** The resource becomes inactive, and with it exactly its services that were approved. */
  lemma DeactivatedResource(t: Tables, id: int, now: string)
    requires id in t.resources
    ensures var b := DeactivateResource(t, id, now);
            && b == t.(resources := b.resources, services := b.services)
            && ResourceWritten(t, b, id, Some(3), t.resources[id].name, map[], now)
            && b.services.Keys == t.services.Keys
            && forall s :: s in t.services ==>
                 if t.services[s].resourceId == Some(id) && t.services[s].status == Some(1)
                 then b.services[s].status == Some(3) && b.services[s].name == t.services[s].name &&
                      b.services[s].resourceId == t.services[s].resourceId &&
                      Written(t.services[s].columns, b.services[s].columns, map[], now)
                 else b.services[s] == t.services[s]
  {
  }

  // ----- Services -----

  lemma DeactivatedService(t: Tables, id: int, now: string)
    requires id in t.services
    ensures var b := DeactivateService(t, id, now);
            && b == t.(resources := b.resources, services := b.services)
            && ServiceWritten(t, b, id, Some(3), t.services[id].name, map[], now)
            && (t.services[id].resourceId.None? ==> b.resources == t.resources)
            && (t.services[id].resourceId.Some? ==> ResourceTouched(t, b, t.services[id].resourceId.value, now))
  {
    hide TouchResource;
    var m := t.(services := t.services[id := DeactivatedRow(t.services[id], now)]);
    if t.services[id].resourceId.Some? {
      TouchWrites(m, t.services[id].resourceId.value, now);
    }
  }

  /** The values of every list but those of one owner in these kinds. */
  ghost predicate ListsKept(a: seq<Attachment>, b: seq<Attachment>, owner: Owner, kinds: set<string>)
  {
    forall o, k :: o != owner || k !in kinds ==> Attached(a, o, k) == Attached(b, o, k)
  }

  /** An edit of a service writes its named columns and its name when it gives one. Its resource is touched. */
  lemma EditedService(t: Tables, id: int, name: Option<Json>, columns: Record, categories: Option<seq<int>>,
                      eligibilities: Option<seq<int>>, now: string)
    requires id in t.services
    ensures var b := SiteUpdates.EditService(t, id, name, columns, categories, eligibilities, now);
            && b == t.(resources := b.resources, services := b.services, attachments := b.attachments)
            && id in b.services
            && ServiceWritten(t, b, id, t.services[id].status, b.services[id].name, columns, now)
            && (name.Some? ==> b.services[id].name == name.value)
            && (name.None? ==> b.services[id].name == t.services[id].name)
            && (t.services[id].resourceId.None? ==> b.resources == t.resources)
            && (t.services[id].resourceId.Some? ==> ResourceTouched(t, b, t.services[id].resourceId.value, now))
  {
    hide TouchResource, Replace, ResourceTouched, Touched, ChangeService;
    var m := ChangeService(t, id, name, columns, categories, eligibilities, now);
    ChangedService(t, id, name, columns, categories, eligibilities, now);
    if t.services[id].resourceId.Some? {
      var r := t.services[id].resourceId.value;
      TouchWrites(m, r, now);
      TouchedAlike(t, m, TouchResource(m, r, now), r, now);
    }
  }

  lemma TouchedAlike(a: Tables, m: Tables, b: Tables, id: int, now: string)
    requires a.resources == m.resources && ResourceTouched(m, b, id, now)
    ensures ResourceTouched(a, b, id, now)
  {
  }

  lemma ChangedService(t: Tables, id: int, name: Option<Json>, columns: Record, categories: Option<seq<int>>,
                       eligibilities: Option<seq<int>>, now: string)
    requires id in t.services
    ensures var b := ChangeService(t, id, name, columns, categories, eligibilities, now);
            && b == t.(services := b.services, attachments := b.attachments)
            && id in b.services
            && ServiceWritten(t, b, id, t.services[id].status, b.services[id].name, columns, now)
            && (name.Some? ==> b.services[id].name == name.value)
            && (name.None? ==> b.services[id].name == t.services[id].name)
  {
    hide Replace;
  }

  /** The association lists that an edit gives are what it leaves; those it does not give are kept. */
  lemma EditedLists(t: Tables, id: int, name: Option<Json>, columns: Record, categories: Option<seq<int>>,
                    eligibilities: Option<seq<int>>, now: string)
    requires id in t.services
    ensures var b, owner := SiteUpdates.EditService(t, id, name, columns, categories, eligibilities, now), OfService(id);
            && ListsKept(t.attachments, b.attachments, owner, {"category", "eligibility"})
            && (categories.Some? ==> Attached(b.attachments, owner, "category") == JInts(categories.value))
            && (categories.None? ==> Attached(b.attachments, owner, "category") == Attached(t.attachments, owner, "category"))
            && (eligibilities.Some? ==> Attached(b.attachments, owner, "eligibility") == JInts(eligibilities.value))
            && (eligibilities.None? ==>
                  Attached(b.attachments, owner, "eligibility") == Attached(t.attachments, owner, "eligibility"))
  {
    hide Replace, Attached, JInts, ListsKept, SiteUpdates.EditService;
    EditedAttachments(t, id, name, columns, categories, eligibilities, now);
    ReplacedLists(t.attachments, OfService(id), categories, eligibilities);
  }

  lemma EditedAttachments(t: Tables, id: int, name: Option<Json>, columns: Record, categories: Option<seq<int>>,
                          eligibilities: Option<seq<int>>, now: string)
    requires id in t.services
    ensures SiteUpdates.EditService(t, id, name, columns, categories, eligibilities, now).attachments ==
            Replace(Replace(t.attachments, OfService(id), "category", categories), OfService(id), "eligibility", eligibilities)
  {
    hide Replace, Touched;
  }

  lemma ReplacedLists(rows: seq<Attachment>, owner: Owner, categories: Option<seq<int>>, eligibilities: Option<seq<int>>)
    ensures var b := Replace(Replace(rows, owner, "category", categories), owner, "eligibility", eligibilities);
            && ListsKept(rows, b, owner, {"category", "eligibility"})
            && (categories.Some? ==> Attached(b, owner, "category") == JInts(categories.value))
            && (categories.None? ==> Attached(b, owner, "category") == Attached(rows, owner, "category"))
            && (eligibilities.Some? ==> Attached(b, owner, "eligibility") == JInts(eligibilities.value))
            && (eligibilities.None? ==> Attached(b, owner, "eligibility") == Attached(rows, owner, "eligibility"))
  {
    hide Replace, Attached;
    assert "category"[0] != "eligibility"[0];
    var m := Replace(rows, owner, "category", categories);
    ReplacedList(rows, owner, "category", categories);
    ReplacedList(m, owner, "eligibility", eligibilities);
  }

  /** A replaced list reads as the given ids, and no other list changes. */
  lemma ReplacedList(rows: seq<Attachment>, owner: Owner, kind: string, ids: Option<seq<int>>)
    ensures var b := Replace(rows, owner, kind, ids);
            && ListsKept(rows, b, owner, {kind})
            && (ids.Some? ==> Attached(b, owner, kind) == JInts(ids.value))
            && (ids.None? ==> b == rows)
  {
    hide Attached, WithoutKind;
    if ids.Some? {
      var kept, more := WithoutKind(rows, owner, kind), OwnedRows(owner, kind, Joined(ids.value));
      WithoutKindNone(rows, owner, kind);
      forall o, k
        ensures o != owner || k != kind ==> Attached(rows, o, k) == Attached(kept + more, o, k)
        ensures o == owner && k == kind ==> Attached(kept + more, o, k) == JInts(ids.value)
      {
        AttachedAppend(kept, more, o, k);
        OwnedLists(owner, kind, Joined(ids.value), o, k);
        if o != owner || k != kind {
          WithoutKindElsewhere(rows, owner, kind, o, k);
        }
      }
    }
  }

  lemma {:induction false} WithoutKindNone(rows: seq<Attachment>, owner: Owner, kind: string)
    ensures Attached(WithoutKind(rows, owner, kind), owner, kind) == []
    decreases |rows|
  {
    if rows != [] {
      var rest := WithoutKind(rows[1..], owner, kind);
      WithoutKindNone(rows[1..], owner, kind);
      AttachedHead(rows[0], rest, owner, kind);
      assert [] + rest == rest;
    }
  }

  /** The rows of an owner in a kind show their values in order, and in no other list. */
  lemma {:induction false} OwnedLists(owner: Owner, kind: string, values: seq<(int, Json)>, o: Owner, k: string)
    ensures Attached(OwnedRows(owner, kind, values), o, k) == Added(owner, kind, values, o, k)
    decreases |values|
  {
    hide Attached, OwnedRows, Texts;
    if values == [] {
      AttachedElsewhere(OwnedRows(owner, kind, values), o, k);
      assert |Texts(values)| == 0;
    } else {
      var rest := OwnedRows(owner, kind, values[1..]);
      OwnedLists(owner, kind, values[1..], o, k);
      OwnedHead(owner, kind, values);
      AttachedHead(Attachment(values[0].0, owner, kind, values[0].1), rest, o, k);
    }
  }

  lemma OwnedHead(owner: Owner, kind: string, values: seq<(int, Json)>)
    requires values != []
    ensures OwnedRows(owner, kind, values) ==
            [Attachment(values[0].0, owner, kind, values[0].1)] + OwnedRows(owner, kind, values[1..])
    ensures Texts(values) == [values[0].1] + Texts(values[1..])
  {
  }

  // ----- New services -----

  /** The row that a new service gets: approved, under the resource, with its columns and both timestamps. */
  ghost predicate CreatedRow(b: Tables, id: int, resourceId: int, n: NewService, now: string)
  {
    && id in b.services && b.services[id].status == Some(1) && b.services[id].resourceId == Some(resourceId)
    && b.services[id].name == n.name
    && Written(n.columns, b.services[id].columns, map["created_at" := JText(now)], now)
  }

  /** The lists of a new service end with what it was created with. */
  ghost predicate CreatedLists(a: seq<Attachment>, b: seq<Attachment>, id: int, n: NewService)
  {
    var owner := OfService(id);
    && Attached(b, owner, "category") == Attached(a, owner, "category") + JInts(n.categories)
    && Attached(b, owner, "eligibility") == Attached(a, owner, "eligibility") + JInts(n.eligibilities)
    && Attached(b, owner, "note") == Attached(a, owner, "note") + Texts(n.notes)
    && Attached(b, owner, "instruction") == Attached(a, owner, "instruction") + Texts(n.instructions)
  }

  function JInts(ids: seq<int>): seq<Json> { seq(|ids|, i requires 0 <= i < |ids| => JInt(ids[i])) }

  /** The values of new rows, without their ids. */
  function Texts(values: seq<(int, Json)>): (r: seq<Json>)
    ensures |r| == |values|
  {
    seq(|values|, i requires 0 <= i < |values| => values[i].1)
  }

  const CREATED_KINDS := {"category", "eligibility", "note", "instruction"}

  lemma NewLists(rows: seq<Attachment>, id: int, n: NewService)
    ensures CreatedLists(rows, rows + NewRows(OfService(id), n), id, n)
    ensures ListsKept(rows, rows + NewRows(OfService(id), n), OfService(id), CREATED_KINDS)
  {
    hide Attached, NewRows;
    var owner := OfService(id);
    KindsApart();
    assert Texts(Joined(n.categories)) == JInts(n.categories) && Texts(Joined(n.eligibilities)) == JInts(n.eligibilities);
    NewListsOf(rows, owner, n, owner, "category");
    NewListsOf(rows, owner, n, owner, "eligibility");
    NewListsOf(rows, owner, n, owner, "note");
    NewListsOf(rows, owner, n, owner, "instruction");
    forall o, k | o != owner || k !in CREATED_KINDS
      ensures Attached(rows, o, k) == Attached(rows + NewRows(owner, n), o, k)
    {
      NewListsOf(rows, owner, n, o, k);
    }
  }

  lemma KindsApart()
    ensures "category" != "eligibility" && "category" != "note" && "category" != "instruction"
    ensures "eligibility" != "note" && "eligibility" != "instruction" && "note" != "instruction"
  {
    assert "category"[0] == 'c' && "eligibility"[0] == 'e' && "note"[0] == 'n' && "instruction"[0] == 'i';
  }

  /** What the rows of one kind add to a list. */
  function Added(owner: Owner, kind: string, values: seq<(int, Json)>, o: Owner, k: string): seq<Json>
  {
    if o == owner && k == kind then Texts(values) else []
  }

  lemma NewListsOf(rows: seq<Attachment>, owner: Owner, n: NewService, o: Owner, k: string)
    ensures Attached(rows + NewRows(owner, n), o, k) ==
            Attached(rows, o, k) +
            (Added(owner, "category", Joined(n.categories), o, k) +
             Added(owner, "eligibility", Joined(n.eligibilities), o, k) +
             Added(owner, "note", n.notes, o, k) + Added(owner, "instruction", n.instructions, o, k))
  {
    hide Attached, OwnedRows, Added, Joined;
    var c, e := OwnedRows(owner, "category", Joined(n.categories)), OwnedRows(owner, "eligibility", Joined(n.eligibilities));
    var t, i := OwnedRows(owner, "note", n.notes), OwnedRows(owner, "instruction", n.instructions);
    OwnedLists(owner, "category", Joined(n.categories), o, k);
    OwnedLists(owner, "eligibility", Joined(n.eligibilities), o, k);
    OwnedLists(owner, "note", n.notes, o, k);
    OwnedLists(owner, "instruction", n.instructions, o, k);
    AttachedAppend(c, e, o, k);
    AttachedAppend(c + e, t, o, k);
    AttachedAppend(c + e + t, i, o, k);
    AttachedAppend(rows, c + e + t + i, o, k);
  }

  /** A schedule, if one is given, is what an owner without one then has; other owners keep theirs. */
  ghost predicate ScheduleCreated(a: Tables, b: Tables, owner: Owner, schedule: Option<(int, seq<DayRow>)>)
  {
    && (forall o :: o != owner ==> ScheduleOf(b.schedules, o) == ScheduleOf(a.schedules, o))
    && (schedule.None? || ScheduleOf(a.schedules, owner).Some? ==>
          ScheduleOf(b.schedules, owner) == ScheduleOf(a.schedules, owner))
    && (schedule.Some? && ScheduleOf(a.schedules, owner).None? ==>
          ScheduleOf(b.schedules, owner) == Some(DaysOf(schedule.value.1)))
  }

  lemma InsertedService(t: Tables, r: int, n: NewService, now: string)
    ensures var b, id := InsertService(t, r, n, now), t.nextServiceId;
            && CreatedRow(b, id, r, n, now) && CreatedLists(t.attachments, b.attachments, id, n)
            && ListsKept(t.attachments, b.attachments, OfService(id), CREATED_KINDS)
            && ScheduleCreated(t, b, OfService(id), n.schedule)
            && SameBut(t.services, b.services, id) && b.serviceIds == t.serviceIds + [id] && b.nextServiceId == id + 1
            && b == t.(services := b.services, serviceIds := b.serviceIds, nextServiceId := b.nextServiceId,
                       attachments := b.attachments, schedules := b.schedules)
  {
    hide Attached, ScheduleOf, NewRows, CreatedLists, ListsKept;
    NewLists(t.attachments, t.nextServiceId, n);
    if n.schedule.Some? {
      NewSchedule(t.schedules, ScheduleRow(n.schedule.value.0, OfService(t.nextServiceId), n.schedule.value.1));
    }
  }

  lemma {:induction false} NewSchedule(rows: seq<ScheduleRow>, row: ScheduleRow)
    ensures forall o :: o != row.owner || ScheduleOf(rows, o).Some? ==> ScheduleOf(rows + [row], o) == ScheduleOf(rows, o)
    ensures ScheduleOf(rows, row.owner).None? ==> ScheduleOf(rows + [row], row.owner) == Some(DaysOf(row.days))
    decreases |rows|
  {
    if rows == [] {
      assert rows + [row] == [row] && [row][1..] == [];
    } else {
      assert (rows + [row])[1..] == rows[1..] + [row];
      NewSchedule(rows[1..], row);
    }
  }

  /** The services created together, numbered on from the next id. */
  ghost predicate AllCreated(a: Tables, b: Tables, r: int, news: seq<NewService>, now: string)
  {
    && b.serviceIds == a.serviceIds + seq(|news|, i => a.nextServiceId + i)
    && b.nextServiceId == a.nextServiceId + |news|
    && (forall i :: 0 <= i < |news| ==>
          && CreatedRow(b, a.nextServiceId + i, r, news[i], now)
          && CreatedLists(a.attachments, b.attachments, a.nextServiceId + i, news[i])
          && ShownHours(a, b, a.nextServiceId + i, news[i]))
    && (forall s :: !(a.nextServiceId <= s < a.nextServiceId + |news|) ==>
          (s in a.services <==> s in b.services) && (s in a.services && s in b.services ==> a.services[s] == b.services[s]))
    && (forall o, k :: !IsNew(o, a.nextServiceId, |news|) || k !in CREATED_KINDS ==>
          Attached(a.attachments, o, k) == Attached(b.attachments, o, k))
    && (forall o :: !IsNew(o, a.nextServiceId, |news|) ==> ScheduleOf(b.schedules, o) == ScheduleOf(a.schedules, o))
  }

  predicate IsNew(o: Owner, next: int, count: nat)
  {
    o.OfService? && next <= o.id < next + count
  }

  /** A new service that had no schedule has the given one. */
  ghost predicate ShownHours(a: Tables, b: Tables, id: int, n: NewService)
  {
    ScheduleOf(a.schedules, OfService(id)).None? ==>
      ScheduleOf(b.schedules, OfService(id)) == if n.schedule.Some? then Some(DaysOf(n.schedule.value.1)) else None
  }

  /** The rows besides those that creating services writes. */
  ghost predicate OnlyServicesCreated(a: Tables, b: Tables)
  {
    b == a.(services := b.services, serviceIds := b.serviceIds, nextServiceId := b.nextServiceId,
            attachments := b.attachments, schedules := b.schedules)
  }

  lemma {:induction false} InsertedServices(t: Tables, r: int, news: seq<NewService>, now: string)
    ensures AllCreated(t, InsertServices(t, r, news, now), r, news, now)
    ensures OnlyServicesCreated(t, InsertServices(t, r, news, now))
    decreases |news|
  {
    hide InsertService, Attached, ScheduleOf, CreatedRow, CreatedLists, ShownHours, ListsKept, AllCreated;
    if news == [] {
      NoneCreated(t, r, now);
    } else {
      var m := InsertService(t, r, news[0], now);
      InsertedService(t, r, news[0], now);
      InsertedServices(m, r, news[1..], now);
      CreatedOnTop(t, m, InsertServices(m, r, news[1..], now), r, news, now);
    }
  }

  lemma NoneCreated(t: Tables, r: int, now: string)
    ensures AllCreated(t, t, r, [], now)
  {
    assert seq(0, i => t.nextServiceId + i) == [];
    assert t.serviceIds + [] == t.serviceIds;
  }

  /** The first service as created, and the others on top of it. */
  lemma CreatedOnTop(a: Tables, m: Tables, b: Tables, r: int, news: seq<NewService>, now: string)
    requires news != [] && AllCreated(m, b, r, news[1..], now)
    requires var n, id := news[0], a.nextServiceId;
             && CreatedRow(m, id, r, n, now) && CreatedLists(a.attachments, m.attachments, id, n)
             && ListsKept(a.attachments, m.attachments, OfService(id), CREATED_KINDS)
             && ScheduleCreated(a, m, OfService(id), n.schedule)
             && SameBut(a.services, m.services, id) && m.serviceIds == a.serviceIds + [id] && m.nextServiceId == id + 1
    ensures AllCreated(a, b, r, news, now)
  {
    hide Attached, ScheduleOf, CreatedRow, CreatedLists, ShownHours;
    var next, rest := a.nextServiceId, news[1..];
    assert seq(|news|, i => next + i) == [next] + seq(|rest|, i => m.nextServiceId + i);
    assert a.serviceIds + [next] + seq(|rest|, i => m.nextServiceId + i) == a.serviceIds + seq(|news|, i => next + i);
    forall i | 0 <= i < |news|
      ensures && CreatedRow(b, next + i, r, news[i], now) && CreatedLists(a.attachments, b.attachments, next + i, news[i])
              && ShownHours(a, b, next + i, news[i])
    {
      if i == 0 {
        RowThere(m, next, r, news[0], now);
        FirstCreated(a, m, b, r, news[0], now);
      } else {
        assert rest[i - 1] == news[i] && m.nextServiceId + (i - 1) == next + i;
        LaterCreated(a, m, b, next + i, news[i]);
      }
    }
  }

  lemma RowThere(b: Tables, id: int, r: int, n: NewService, now: string)
    requires CreatedRow(b, id, r, n, now)
    ensures id in b.services
  {
  }

  lemma FirstCreated(a: Tables, m: Tables, b: Tables, r: int, n: NewService, now: string)
    requires var id := a.nextServiceId;
             && CreatedRow(m, id, r, n, now) && CreatedLists(a.attachments, m.attachments, id, n)
             && ScheduleCreated(a, m, OfService(id), n.schedule)
             && id in b.services && id in m.services && b.services[id] == m.services[id]
             && (forall k :: Attached(b.attachments, OfService(id), k) == Attached(m.attachments, OfService(id), k))
             && ScheduleOf(b.schedules, OfService(id)) == ScheduleOf(m.schedules, OfService(id))
    ensures var id := a.nextServiceId;
            && CreatedRow(b, id, r, n, now) && CreatedLists(a.attachments, b.attachments, id, n) && ShownHours(a, b, id, n)
  {
    hide Attached, ScheduleOf, Written;
  }

  lemma LaterCreated(a: Tables, m: Tables, b: Tables, id: int, n: NewService)
    requires CreatedLists(m.attachments, b.attachments, id, n) && ShownHours(m, b, id, n) && id != a.nextServiceId
    requires ListsKept(a.attachments, m.attachments, OfService(a.nextServiceId), CREATED_KINDS)
    requires ScheduleOf(m.schedules, OfService(id)) == ScheduleOf(a.schedules, OfService(id))
    ensures CreatedLists(a.attachments, b.attachments, id, n) && ShownHours(a, b, id, n)
  {
    hide Attached, ScheduleOf, JInts, Texts;
  }

  /** Creating services adds exactly theirs and touches the resource. */
  lemma CreatedServices(t: Tables, r: int, news: seq<NewService>, now: string)
    ensures var b := AddServices(t, r, news, now);
            AllCreated(t, b, r, news, now) && ResourceTouched(t, b, r, now) &&
            OnlyServicesCreated(t.(resources := b.resources), b)
  {
    hide InsertServices, TouchResource, ResourceTouched;
    var m := InsertServices(t, r, news, now);
    InsertedServices(t, r, news, now);
    TouchWrites(m, r, now);
    TouchedAlike(t, m, TouchResource(m, r, now), r, now);
    SameCreated(t, m, TouchResource(m, r, now), r, news, now);
  }

  lemma SameCreated(a: Tables, m: Tables, b: Tables, r: int, news: seq<NewService>, now: string)
    requires AllCreated(a, m, r, news, now) && b == m.(resources := b.resources)
    ensures AllCreated(a, b, r, news, now)
  {
    hide Attached, ScheduleOf, CreatedLists, Written;
  }

  // ----- Single rows of lists -----

  /** A new row goes to the end of its own list and into no other. */
  lemma AddedRow(t: Tables, row: Attachment)
    ensures var b := AddRow(t, row);
            && b == t.(attachments := b.attachments)
            && Attached(b.attachments, row.owner, row.kind) == Attached(t.attachments, row.owner, row.kind) + [row.value]
            && ListsKept(t.attachments, b.attachments, row.owner, {row.kind})
  {
    hide Attached;
    forall o, k
      ensures Attached(t.attachments + [row], o, k) ==
              Attached(t.attachments, o, k) + if o == row.owner && k == row.kind then [row.value] else []
    {
      AttachedAppend(t.attachments, [row], o, k);
      AttachedOne(row, o, k);
    }
  }

  lemma AttachedOne(row: Attachment, o: Owner, k: string)
    ensures Attached([row], o, k) == if o == row.owner && k == row.kind then [row.value] else []
  {
    assert [row][1..] == [];
  }

  /** A changed row changes one value of its own list, which was the row's. */
  lemma ChangedRow(t: Tables, row: Attachment, value: Json) returns (i: nat)
    requires row in t.attachments
    ensures var a, b := t.attachments, SetRow(t, row, value).attachments;
            && SetRow(t, row, value) == t.(attachments := b)
            && i < |Attached(a, row.owner, row.kind)| && Attached(a, row.owner, row.kind)[i] == row.value
            && Attached(b, row.owner, row.kind) == Attached(a, row.owner, row.kind)[i := value]
            && ListsKept(a, b, row.owner, {row.kind})
  {
    hide Attached, WithValue;
    i := ChangedAt(t.attachments, row, value);
    forall o, k | o != row.owner || k != row.kind
      ensures Attached(WithValue(t.attachments, row, value), o, k) == Attached(t.attachments, o, k)
    {
      ChangedLists(t.attachments, row, value, o, k);
    }
  }

  lemma {:induction false} ChangedAt(rows: seq<Attachment>, row: Attachment, value: Json) returns (i: nat)
    requires row in rows
    ensures var a, b := Attached(rows, row.owner, row.kind), Attached(WithValue(rows, row, value), row.owner, row.kind);
            i < |a| && a[i] == row.value && b == a[i := value]
    decreases |rows|
  {
    hide Attached;
    var rest := rows[1..];
    assert rows == [rows[0]] + rest;
    AttachedHead(rows[0], rest, row.owner, row.kind);
    if rows[0] == row {
      i := 0;
      AttachedHead(row.(value := value), rest, row.owner, row.kind);
    } else {
      assert row in rest;
      var j := ChangedAt(rest, row, value);
      AttachedHead(rows[0], WithValue(rest, row, value), row.owner, row.kind);
      i := if rows[0].owner == row.owner && rows[0].kind == row.kind then j + 1 else j;
      Shifted(if i == j then [] else [rows[0].value], Attached(rest, row.owner, row.kind), j, value);
    }
  }

  lemma Shifted(head: seq<Json>, list: seq<Json>, j: nat, value: Json)
    requires j < |list|
    ensures (head + list)[|head| + j := value] == head + list[j := value]
  {
  }

  /** A deleted row takes its value out of its own list, and nothing else. */
  lemma DroppedRow(t: Tables, row: Attachment) returns (i: nat)
    requires row in t.attachments
    ensures var a, b := t.attachments, DropRow(t, row).attachments;
            && DropRow(t, row) == t.(attachments := b)
            && i < |Attached(a, row.owner, row.kind)| && Attached(a, row.owner, row.kind)[i] == row.value
            && Attached(b, row.owner, row.kind) ==
               Attached(a, row.owner, row.kind)[..i] + Attached(a, row.owner, row.kind)[i + 1..]
            && ListsKept(a, b, row.owner, {row.kind})
  {
    hide Attached, WithoutRow;
    i := DroppedAt(t.attachments, row);
    forall o, k | o != row.owner || k != row.kind
      ensures Attached(WithoutRow(t.attachments, row), o, k) == Attached(t.attachments, o, k)
    {
      DroppedLists(t.attachments, row, o, k);
    }
  }

  lemma {:induction false} DroppedAt(rows: seq<Attachment>, row: Attachment) returns (i: nat)
    requires row in rows
    ensures var a, b := Attached(rows, row.owner, row.kind), Attached(WithoutRow(rows, row), row.owner, row.kind);
            i < |a| && a[i] == row.value && b == a[..i] + a[i + 1..]
    decreases |rows|
  {
    hide Attached;
    var rest := rows[1..];
    assert rows == [rows[0]] + rest;
    AttachedHead(rows[0], rest, row.owner, row.kind);
    if rows[0] == row {
      i := 0;
    } else {
      assert row in rest;
      var j := DroppedAt(rest, row);
      AttachedHead(rows[0], WithoutRow(rest, row), row.owner, row.kind);
      i := if rows[0].owner == row.owner && rows[0].kind == row.kind then j + 1 else j;
      ShiftedOut(if i == j then [] else [rows[0].value], Attached(rest, row.owner, row.kind), j);
    }
  }

  lemma ShiftedOut(head: seq<Json>, list: seq<Json>, j: nat)
    requires j < |list|
    ensures (head + list)[..|head| + j] + (head + list)[|head| + j + 1..] == head + (list[..j] + list[j + 1..])
  {
  }

  /** A note on a resource goes to the end of the notes, and the resource is touched. */
  lemma NotedResource(t: Tables, id: int, row: int, note: Json, now: string)
    ensures var b := NoteOnResource(t, id, row, note, now);
            && b == t.(resources := b.resources, attachments := b.attachments)
            && ResourceTouched(t, b, id, now)
            && Attached(b.attachments, OfResource(id), "note") == Attached(t.attachments, OfResource(id), "note") + [note]
            && ListsKept(t.attachments, b.attachments, OfResource(id), {"note"})
  {
    hide TouchResource, ResourceTouched, Attached, ListsKept;
    var m := AddNote(t, OfResource(id), row, note);
    AddedRow(t, Attachment(row, OfResource(id), "note", note));
    TouchWrites(m, id, now);
    TouchedAlike(t, m, TouchResource(m, id, now), id, now);
  }

  // ----- Requests for notes, phones and addresses -----

  /** The resource that an owner is, or that its service belongs to, has a new updated_at. */
  ghost predicate OwnerTouched(a: Tables, b: Tables, owner: Owner, now: string)
  {
    match owner
    case OfResource(r) => ResourceTouched(a, b, r, now)
    case OfService(s) =>
      if s in a.services && a.services[s].resourceId.Some? then ResourceTouched(a, b, a.services[s].resourceId.value, now)
      else b.resources == a.resources
    case Nobody => b.resources == a.resources
  }

  lemma TouchOwnerWrites(a: Tables, m: Tables, owner: Owner, now: string)
    requires m.resources == a.resources && m.services == a.services
    ensures var b := TouchOwner(m, ResourceOf(m, owner), now);
            b == m.(resources := b.resources) && OwnerTouched(a, b, owner, now)
  {
    hide TouchResource, ResourceTouched;
    if ResourceOf(m, owner).Some? {
      var r := ResourceOf(m, owner).value;
      TouchWrites(m, r, now);
      TouchedAlike(a, m, TouchResource(m, r, now), r, now);
    }
  }

  /** The value at one place of a list is replaced, and every other list is kept. */
  ghost predicate ValueSet(a: seq<Attachment>, b: seq<Attachment>, row: Attachment, i: nat, value: Json)
  {
    var list := Attached(a, row.owner, row.kind);
    && i < |list| && list[i] == row.value
    && Attached(b, row.owner, row.kind) == list[i := value] && ListsKept(a, b, row.owner, {row.kind})
  }

  /** A changed note: the text of the row with this id, and the resource behind it is touched. */
  lemma EditedNoteRow(t: Tables, id: int, text: Json, now: string) returns (row: Attachment, i: nat)
    requires exists n :: n in t.attachments && n.kind == "note" && n.id == id
    ensures FindRow(t.attachments, "note", id).Some?
    ensures row in t.attachments && row.kind == "note" && row.id == id
    ensures var b := EditedNote(t, id, text, now);
            && b == t.(resources := b.resources, attachments := b.attachments)
            && ValueSet(t.attachments, b.attachments, row, i, text) && OwnerTouched(t, b, row.owner, now)
  {
    hide TouchOwner, OwnerTouched, ResourceOf, SetRow, Attached, ListsKept;
    row := FindRow(t.attachments, "note", id).value;
    i := ChangedRow(t, row, text);
    TouchOwnerWrites(t, SetRow(t, row, text), row.owner, now);
    SameOwner(t, SetRow(t, row, text), row.owner);
  }

  lemma SameOwner(a: Tables, b: Tables, owner: Owner)
    requires a.services == b.services
    ensures ResourceOf(a, owner) == ResourceOf(b, owner)
  {
  }

  lemma EditedPhoneRow(t: Tables, id: int, phone: Json, now: string) returns (row: Attachment, i: nat)
    requires exists n :: n in t.attachments && n.kind == "phone" && n.id == id
    ensures FindRow(t.attachments, "phone", id).Some?
    ensures row in t.attachments && row.kind == "phone" && row.id == id
    ensures var b := EditedPhone(t, id, phone, now);
            && b == t.(resources := b.resources, attachments := b.attachments)
            && ValueSet(t.attachments, b.attachments, row, i, phone) && OwnerTouched(t, b, row.owner, now)
  {
    hide TouchOwner, OwnerTouched, ResourceOf, SetRow, Attached, ListsKept;
    row := FindRow(t.attachments, "phone", id).value;
    i := ChangedRow(t, row, phone);
    TouchOwnerWrites(t, SetRow(t, row, phone), row.owner, now);
    SameOwner(t, SetRow(t, row, phone), row.owner);
  }

  lemma AddedPhoneRow(t: Tables, r: int, id: int, phone: Json, now: string)
    ensures var b := AddedPhone(t, r, id, phone, now);
            && b == t.(resources := b.resources, attachments := b.attachments) && ResourceTouched(t, b, r, now)
            && Attached(b.attachments, OfResource(r), "phone") == Attached(t.attachments, OfResource(r), "phone") + [phone]
            && ListsKept(t.attachments, b.attachments, OfResource(r), {"phone"})
  {
    hide TouchOwner, OwnerTouched, AddRow, Attached, ListsKept, ResourceTouched;
    var m := AddRow(t, Attachment(id, OfResource(r), "phone", phone));
    AddedRow(t, Attachment(id, OfResource(r), "phone", phone));
    TouchOwnerWrites(t, m, OfResource(r), now);
    OwnersResource(t, m, r, now);
  }

  lemma OwnersResource(t: Tables, m: Tables, r: int, now: string)
    ensures ResourceOf(m, OfResource(r)) == Some(r)
    ensures forall b :: OwnerTouched(t, b, OfResource(r), now) <==> ResourceTouched(t, b, r, now)
  {
  }

  /** A new address stands last among the addresses of its resource, and no service shows it yet. */
  lemma AddedAddressRow(t: Tables, r: int, look: IndexAddress, now: string)
    ensures var b := AddedAddress(t, r, look, now);
            && b == t.(resources := b.resources, addresses := b.addresses, nextAddressId := t.nextAddressId + 1)
            && ResourceTouched(t, b, r, now)
            && AddressesOfResource(b.addresses, r) == AddressesOfResource(t.addresses, r) + [look]
            && (forall o :: o != r ==> AddressesOfResource(b.addresses, o) == AddressesOfResource(t.addresses, o))
            && ((forall link :: link in t.links ==> link.1 < t.nextAddressId) ==>
                  forall s :: AddressesOfService(b.addresses, b.links, s) == AddressesOfService(t.addresses, t.links, s))
  {
    hide TouchOwner, OwnerTouched, AddressesOfResource, AddressesOfService, ResourceTouched;
    var m, row := AddAddressRow(t, r, look), AddressRow(t.nextAddressId, Some(r), look);
    TouchOwnerWrites(t, m, OfResource(r), now);
    OwnersResource(t, m, r, now);
    forall o ensures AddressesOfResource(t.addresses + [row], o) ==
                     AddressesOfResource(t.addresses, o) + if o == r then [look] else []
    {
      ResourceAddressLast(t.addresses, row, o);
    }
    forall s | (s, row.id) !in t.links
      ensures AddressesOfService(t.addresses + [row], t.links, s) == AddressesOfService(t.addresses, t.links, s)
    {
      ServiceAddressLast(t.addresses, row, t.links, s);
    }
  }

  lemma {:induction false} ResourceAddressLast(rows: seq<AddressRow>, row: AddressRow, id: int)
    ensures AddressesOfResource(rows + [row], id) ==
            AddressesOfResource(rows, id) + if row.resourceId == Some(id) then [row.address] else []
    decreases |rows|
  {
    hide AddressesOfResource;
    ResourceAddressFirst(rows + [row], id);
    if rows == [] {
      NoResourceAddress(id);
      assert rows + [row] == [row] && [row][1..] == [];
    } else {
      ResourceAddressFirst(rows, id);
      assert (rows + [row])[1..] == rows[1..] + [row];
      ResourceAddressLast(rows[1..], row, id);
    }
  }

  lemma ResourceAddressFirst(rows: seq<AddressRow>, id: int)
    requires rows != []
    ensures AddressesOfResource(rows, id) ==
            (if rows[0].resourceId == Some(id) then [rows[0].address] else []) + AddressesOfResource(rows[1..], id)
  {
  }

  lemma NoResourceAddress(id: int)
    ensures AddressesOfResource([], id) == []
  {
  }

  lemma {:induction false} ServiceAddressLast(rows: seq<AddressRow>, row: AddressRow, links: seq<(int, int)>, id: int)
    ensures AddressesOfService(rows + [row], links, id) ==
            AddressesOfService(rows, links, id) + if (id, row.id) in links then [row.address] else []
    decreases |rows|
  {
    hide AddressesOfService;
    ServiceAddressFirst(rows + [row], links, id);
    if rows == [] {
      NoServiceAddress(links, id);
      assert rows + [row] == [row] && [row][1..] == [];
    } else {
      ServiceAddressFirst(rows, links, id);
      assert (rows + [row])[1..] == rows[1..] + [row];
      ServiceAddressLast(rows[1..], row, links, id);
    }
  }

  lemma ServiceAddressFirst(rows: seq<AddressRow>, links: seq<(int, int)>, id: int)
    requires rows != []
    ensures AddressesOfService(rows, links, id) ==
            (if (id, rows[0].id) in links then [rows[0].address] else []) + AddressesOfService(rows[1..], links, id)
  {
  }

  lemma NoServiceAddress(links: seq<(int, int)>, id: int)
    ensures AddressesOfService([], links, id) == []
  {
  }

  /** A resource that owns the address, if one does, has a new updated_at. */
  ghost predicate AddressOwnerTouched(a: Tables, b: Tables, row: AddressRow, now: string)
  {
    if row.resourceId.Some? then ResourceTouched(a, b, row.resourceId.value, now) else b.resources == a.resources
  }

  /** Changing an address changes the look of that row alone. */
  lemma EditedAddressRow(t: Tables, id: int, look: IndexAddress, now: string, i: nat)
    requires DistinctAddresses(t.addresses) && i < |t.addresses| && t.addresses[i].id == id
    ensures var b := EditedAddress(t, id, look, now);
            && b == t.(resources := b.resources, addresses := b.addresses)
            && b.addresses == t.addresses[i := t.addresses[i].(address := look)]
            && AddressOwnerTouched(t, b, t.addresses[i], now)
  {
    hide TouchResource, ResourceTouched, OwnerOf;
    var m := t.(addresses := WithAddress(t.addresses, id, look));
    assert m.addresses == t.addresses[i := t.addresses[i].(address := look)];
    OwnerAt(t.addresses, id, i);
    TouchAddressOwner(t, m, t.addresses[i], now);
  }

  lemma TouchAddressOwner(a: Tables, m: Tables, row: AddressRow, now: string)
    requires m.resources == a.resources
    ensures var b := TouchOwner(m, row.resourceId, now);
            b == m.(resources := b.resources) && AddressOwnerTouched(a, b, row, now)
  {
    hide TouchResource, ResourceTouched;
    if row.resourceId.Some? {
      var r := row.resourceId.value;
      TouchWrites(m, r, now);
      TouchedAlike(a, m, TouchResource(m, r, now), r, now);
    }
  }

  lemma {:induction false} OwnerAt(rows: seq<AddressRow>, id: int, i: nat)
    requires DistinctAddresses(rows) && i < |rows| && rows[i].id == id
    ensures OwnerOf(rows, id) == rows[i].resourceId
    decreases i
  {
    if i > 0 {
      assert rows[0].id != rows[i].id;
      assert rows[1..][i - 1] == rows[i];
      OwnerAt(rows[1..], id, i - 1);
    }
  }

  /** Removing an address takes out that row and its links. */
  lemma RemovedAddressRow(t: Tables, id: int, now: string, i: nat)
    requires DistinctAddresses(t.addresses) && i < |t.addresses| && t.addresses[i].id == id
    ensures var b := RemovedAddress(t, id, now);
            && b == t.(resources := b.resources, addresses := b.addresses, links := b.links)
            && b.addresses == t.addresses[..i] + t.addresses[i + 1..]
            && (forall l :: l in b.links <==> l in t.links && l.1 != id)
            && AddressOwnerTouched(t, b, t.addresses[i], now)
  {
    hide TouchResource, ResourceTouched, OwnerOf;
    var m := t.(addresses := WithoutAddress(t.addresses, id), links := WithoutLinks(t.links, id));
    WithoutAddressAt(t.addresses, id, i);
    OwnerAt(t.addresses, id, i);
    TouchAddressOwner(t, m, t.addresses[i], now);
  }

  lemma {:induction false} WithoutAddressAt(rows: seq<AddressRow>, id: int, i: nat)
    requires DistinctAddresses(rows) && i < |rows| && rows[i].id == id
    ensures WithoutAddress(rows, id) == rows[..i] + rows[i + 1..]
    decreases |rows|
  {
    if i > 0 {
      assert rows[0].id != rows[i].id;
      assert rows[1..][i - 1] == rows[i];
      WithoutAddressAt(rows[1..], id, i - 1);
      assert rows[..i] == [rows[0]] + rows[1..][..i - 1] && rows[1..][i..] == rows[i + 1..];
    } else {
      NoAddress(rows[1..], id);
    }
  }

  lemma {:induction false} NoAddress(rows: seq<AddressRow>, id: int)
    requires forall row :: row in rows ==> row.id != id
    ensures WithoutAddress(rows, id) == rows
    decreases |rows|
  {
    if rows != [] {
      assert rows[0] in rows;
      NoAddress(rows[1..], id);
      assert rows == [rows[0]] + rows[1..];
    }
  }

  // ----- Schedule days -----

  /** A change that gives both times as null deletes the day; otherwise the parts that are given replace the old ones. */
  ghost predicate DaysEdited(before: seq<DayRow>, after: seq<DayRow>, q: nat, c: ScheduleChanges)
  {
    && q < |before|
    && if c.opensAt == Some(None) && c.closesAt == Some(None) then after == before[..q] + before[q + 1..]
       else
         && |after| == |before| && (forall i :: 0 <= i < |before| && i != q ==> after[i] == before[i])
         && after[q].id == before[q].id
         && after[q].day.day == (if c.day.Some? then c.day.value else before[q].day.day)
         && after[q].day.opensAt == (if c.opensAt.Some? then c.opensAt.value else before[q].day.opensAt)
         && after[q].day.closesAt == (if c.closesAt.Some? then c.closesAt.value else before[q].day.closesAt)
  }

  /** The day with this id changes in its schedule, and no other row does; the resource behind it is touched. */
  lemma EditedDayRow(t: Tables, id: int, c: ScheduleChanges, now: string) returns (p: nat, q: nat)
    requires exists row, d :: row in t.schedules && d in row.days && d.id == id
    ensures ScheduleOfDay(t.schedules, id).Some?
    ensures p < |t.schedules| && q < |t.schedules[p].days| && t.schedules[p].days[q].id == id
    ensures var b := EditedDay(t, id, c, now);
            && b == t.(resources := b.resources, schedules := b.schedules) && p < |b.schedules|
            && b.schedules == t.schedules[p := t.schedules[p].(days := b.schedules[p].days)]
            && DaysEdited(t.schedules[p].days, b.schedules[p].days, q, c)
            && OwnerTouched(t, b, t.schedules[p].owner, now)
  {
    hide TouchOwner, OwnerTouched, ResourceOf, EditedDays, WithDays, DaysEdited;
    var row0, d0 :| row0 in t.schedules && d0 in row0.days && d0.id == id;
    assert HasDay(row0.days, id);
    var row := ScheduleOfDay(t.schedules, id).value;
    p := ScheduleAt(t.schedules, row, EditedDays(row.days, id, c));
    q := DayAt(row.days, id, c);
    TouchOwnerWrites(t, EditDay(t, row, id, c), row.owner, now);
    SameOwner(t, EditDay(t, row, id, c), row.owner);
  }

  lemma {:induction false} ScheduleAt(rows: seq<ScheduleRow>, row: ScheduleRow, days: seq<DayRow>) returns (p: nat)
    requires row in rows
    ensures p < |rows| && rows[p] == row && WithDays(rows, row, days) == rows[p := row.(days := days)]
    decreases |rows|
  {
    if rows[0] == row {
      p := 0;
      assert [row.(days := days)] + rows[1..] == rows[0 := row.(days := days)];
    } else {
      var r := ScheduleAt(rows[1..], row, days);
      p := r + 1;
      assert [rows[0]] + rows[1..][r := row.(days := days)] == rows[p := row.(days := days)];
    }
  }

  lemma {:induction false} DayAt(rows: seq<DayRow>, id: int, c: ScheduleChanges) returns (q: nat)
    requires HasDay(rows, id)
    ensures q < |rows| && rows[q].id == id && DaysEdited(rows, EditedDays(rows, id, c), q, c)
    decreases |rows|
  {
    if rows[0].id == id {
      q := 0;
      assert rows[..0] == [];
      FirstDayEdited(rows, id, c);
    } else {
      var r := DayAt(rows[1..], id, c);
      q := r + 1;
      LaterDayEdited(rows, EditedDays(rows[1..], id, c), r, c);
    }
  }

  lemma FirstDayEdited(rows: seq<DayRow>, id: int, c: ScheduleChanges)
    requires rows != [] && rows[0].id == id
    ensures DaysEdited(rows, EditedDays(rows, id, c), 0, c)
  {
    assert rows[..0] + rows[1..] == [] + rows[1..];
  }

  lemma LaterDayEdited(rows: seq<DayRow>, rest: seq<DayRow>, r: nat, c: ScheduleChanges)
    requires rows != [] && DaysEdited(rows[1..], rest, r, c)
    ensures DaysEdited(rows, [rows[0]] + rest, r + 1, c)
  {
    assert rows[1..][..r] == rows[1..r + 1] && rows[1..][r + 1..] == rows[r + 2..];
    assert [rows[0]] + (rows[1..r + 1] + rows[r + 2..]) == rows[..r + 1] + rows[r + 2..];
  }

  /** A new day stands last in its schedule with what the request gives; one that both times delete is not inserted. */
  lemma AddedDayRow(t: Tables, scheduleId: int, id: int, c: ScheduleChanges, now: string) returns (p: nat)
    requires c.day.Some? && exists row :: row in t.schedules && row.id == scheduleId
    ensures FindSchedule(t.schedules, scheduleId).Some?
    ensures p < |t.schedules| && t.schedules[p].id == scheduleId
    ensures var b := AddedDay(t, scheduleId, id, c, now);
            && b == t.(resources := b.resources, schedules := b.schedules)
            && OwnerTouched(t, b, t.schedules[p].owner, now)
            && if c.opensAt == Some(None) && c.closesAt == Some(None) then b.schedules == t.schedules
               else var day := ScheduleDay(c.day.value, if c.opensAt.Some? then c.opensAt.value else None,
                                           if c.closesAt.Some? then c.closesAt.value else None);
                    b.schedules == t.schedules[p := t.schedules[p].(days := t.schedules[p].days + [DayRow(id, day)])]
  {
    hide TouchOwner, OwnerTouched, ResourceOf, WithDays;
    var row := FindSchedule(t.schedules, scheduleId).value;
    var day := ScheduleDay(c.day.GetOr(""), c.opensAt.GetOr(None), c.closesAt.GetOr(None));
    p := ScheduleAt(t.schedules, row, row.days + [DayRow(id, day)]);
    TouchOwnerWrites(t, AddDay(t, row, id, c), row.owner, now);
    SameOwner(t, AddDay(t, row, id, c), row.owner);
  }

  /** New days of the first schedule of an owner are the hours that the owner has. */
  lemma {:induction false} HoursAt(rows: seq<ScheduleRow>, p: nat, days: seq<DayRow>)
    requires p < |rows| && forall i :: 0 <= i < p ==> rows[i].owner != rows[p].owner
    ensures ScheduleOf(rows[p := rows[p].(days := days)], rows[p].owner) == Some(DaysOf(days))
    ensures forall o :: o != rows[p].owner ==> ScheduleOf(rows[p := rows[p].(days := days)], o) == ScheduleOf(rows, o)
    decreases p
  {
    var row := rows[p].(days := days);
    if p > 0 {
      assert rows[p := row][1..] == rows[1..][p - 1 := row];
      HoursAt(rows[1..], p - 1, days);
    } else {
      assert rows[0 := row][1..] == rows[1..];
    }
  }

  // ----- Links and names -----

  lemma LinkedAddress(t: Tables, s: int, address: int)
    ensures var b := Link(t, s, address);
            b == t.(links := b.links) && forall l :: l in b.links <==> l in t.links || l == (s, address)
  {
  }

  lemma UnlinkedAddress(t: Tables, s: int, address: int)
    ensures var b := Unlink(t, s, address);
            b == t.(links := b.links) && forall l :: l in b.links <==> l in t.links && l != (s, address)
  {
  }

  lemma RenamedEligibility(t: Tables, id: int, name: Json)
    ensures var b := RenameEligibility(t, id, name);
            && b == t.(eligibilities := b.eligibilities) && SameBut(t.eligibilities, b.eligibilities, id)
            && id in b.eligibilities && b.eligibilities[id] == name
  {
  }
}
