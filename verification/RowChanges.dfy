/**
  The handlers that change what records show and do not call the index: internal/notes,
  internal/phones, internal/instructions and internal/eligibilities. Which approved records they
  leave behind is proved exactly.
 */
module RowChanges {
  import opened IndexRecords
  import opened SearchIndex
  import opened SiteFrames
  import opened SiteHandlers
  import opened SiteSteps
  import opened SiteTables
  import opened SiteUpdates
  import opened Wrappers

  // ----- Rows of notes, phones and instructions -----

  lemma RowsKeep(t: Tables, rows: seq<Attachment>, reformat: Reformat)
    requires WellFormed(t)
    ensures var b := t.(attachments := rows);
            WellFormed(b) && SameStatus(t, b, {}, {}) && (Sound(t, reformat) ==> Sound(b, reformat))
  {
    hide Sound;
    if Sound(t, reformat) {
      SoundAttachments(t, rows, reformat);
    }
  }

  /** What a changed list of rows leaves in an index that nobody refreshes. */
  lemma RowsSettle(index: Index, t: Tables, rows: seq<Attachment>, owner: Owner, kind: string, reformat: Reformat)
    requires WellFormed(t) && RowKind(kind) && OneListChanged(t.attachments, rows, owner, kind)
    ensures SettledBut(index, t, index, t.(attachments := rows), reformat, {}, {}, ResourcesShowing(t, owner, kind),
                       ServicesShowing(t, owner, kind))
  {
    hide WellFormed, RowKind, OneListChanged, Built, Behind, Refreshed, SettledBut, SameStatus;
    var b := t.(attachments := rows);
    RowsKeep(t, rows, reformat);
    RefreshedNone(index, b, reformat);
    if Built(t, reformat) {
      ListLeftBehind(t, rows, owner, kind, reformat);
    }
    SettleBut(index, t, index, b, reformat, {}, {}, ResourcesShowing(t, owner, kind), ServicesShowing(t, owner, kind));
  }

  /** The approved records that show the row of this kind and id. */
  ghost function ResourcesOfRow(t: Tables, kind: string, id: int): set<int>
  {
    match FindRow(t.attachments, kind, id)
    case None => {}
    case Some(row) => ResourcesShowing(t, row.owner, kind)
  }

  ghost function ServicesOfRow(t: Tables, kind: string, id: int): set<int>
  {
    match FindRow(t.attachments, kind, id)
    case None => {}
    case Some(row) => ServicesShowing(t, row.owner, kind)
  }

  /**
    Deleting a note or a phone: the row goes, and the index stays in step exactly when no
    approved record shows it. A note shows on its owner, a phone on its resource and that
    resource's services.
   */
  method DeleteRow(site: Site, kind: string, id: int) returns (reply: Reply)
    requires WellFormed(site.db) && RowKind(kind)
    modifies site`db
    ensures reply == if FindRow(old(site.db).attachments, kind, id).Some? then Done else Refused(NOT_FOUND)
    ensures site.db == if reply.Done? then DropRow(old(site.db), FindRow(old(site.db).attachments, kind, id).value)
                       else old(site.db)
    ensures SettledBut(site.index, old(site.db), site.index, site.db, site.reformat, {}, {},
                       ResourcesOfRow(old(site.db), kind, id), ServicesOfRow(old(site.db), kind, id))
    ensures WellFormed(site.db)
    ensures Sound(old(site.db), site.reformat) ==> Sound(site.db, site.reformat)
  {
    hide WellFormed, Sound, SettledBut, RowKind, OneListChanged, FindRow;
    UntouchedBut(site.index, site.db, site.reformat);
    var found := FindRow(site.db.attachments, kind, id);
    if found.None? {
      return Refused(NOT_FOUND);
    }
    ghost var t := site.db;
    site.db := DropRow(site.db, found.value);
    RowDropped(t.attachments, found.value);
    RowsKeep(t, site.db.attachments, site.reformat);
    RowsSettle(site.index, t, site.db.attachments, found.value.owner, kind, site.reformat);
    return Done;
  }

  function ServiceOwner(service: Option<int>): Owner { if service.Some? then OfService(service.value) else Nobody }

  ghost function LeftByInstruction(t: Tables, service: Option<int>): set<int>
  {
    if service.Some? && ServiceApproved(t, service.value) then {service.value} else {}
  }

  /** A new instruction: stale exactly when its service is approved. An unknown service breaks a foreign key. */
  method CreateInstruction(site: Site, service: Option<int>, id: int, text: Json) returns (reply: Reply)
    requires WellFormed(site.db)
    modifies site`db
    ensures reply == if service.None? || service.value in old(site.db).services then Done else Refused(SERVER_ERROR)
    ensures site.db == if reply.Done? then AddRow(old(site.db), Attachment(id, ServiceOwner(service), "instruction", text))
                       else old(site.db)
    ensures SettledBut(site.index, old(site.db), site.index, site.db, site.reformat, {}, {}, {},
                       LeftByInstruction(old(site.db), service))
    ensures WellFormed(site.db)
    ensures Sound(old(site.db), site.reformat) ==> Sound(site.db, site.reformat)
  {
    hide WellFormed, Sound, SettledBut, OneListChanged;
    UntouchedBut(site.index, site.db, site.reformat);
    if service.Some? && service.value !in site.db.services {
      return Refused(SERVER_ERROR);
    }
    ghost var t := site.db;
    var row := Attachment(id, ServiceOwner(service), "instruction", text);
    site.db := AddRow(site.db, row);
    RowAdded(t.attachments, row);
    RowsKeep(t, site.db.attachments, site.reformat);
    RowsSettle(site.index, t, site.db.attachments, row.owner, "instruction", site.reformat);
    assert ResourcesShowing(t, row.owner, "instruction") == {};
    assert ServicesShowing(t, row.owner, "instruction") == LeftByInstruction(t, service);
    return Done;
  }

  ghost function LeftByText(t: Tables, id: int, text: Json): set<int>
  {
    match FindRow(t.attachments, "instruction", id)
    case None => {}
    case Some(row) => if row.value == text then {} else ServicesShowing(t, row.owner, "instruction")
  }

  /** A changed instruction: stale exactly when its service is approved and the text differs. */
  method UpdateInstruction(site: Site, id: int, text: Json) returns (reply: Reply)
    requires WellFormed(site.db)
    modifies site`db
    ensures reply == if FindRow(old(site.db).attachments, "instruction", id).Some? then Done else Refused(NOT_FOUND)
    ensures site.db == if reply.Done?
                       then SetRow(old(site.db), FindRow(old(site.db).attachments, "instruction", id).value, text)
                       else old(site.db)
    ensures SettledBut(site.index, old(site.db), site.index, site.db, site.reformat, {}, {}, {},
                       LeftByText(old(site.db), id, text))
    ensures WellFormed(site.db)
    ensures Sound(old(site.db), site.reformat) ==> Sound(site.db, site.reformat)
  {
    hide WellFormed, Sound, SettledBut, OneListChanged, FindRow;
    UntouchedBut(site.index, site.db, site.reformat);
    var found := FindRow(site.db.attachments, "instruction", id);
    if found.None? {
      return Refused(NOT_FOUND);
    }
    ghost var t, row := site.db, found.value;
    site.db := SetRow(site.db, found.value, text);
    RowsKeep(t, site.db.attachments, site.reformat);
    if row.value == text {
      RowUnchanged(t.attachments, row);
      assert site.db == t;
    } else {
      RowChanged(t.attachments, row, text);
      RowsSettle(site.index, t, site.db.attachments, row.owner, "instruction", site.reformat);
      assert ResourcesShowing(t, row.owner, "instruction") == {};
    }
    return Done;
  }

  // ----- Names of eligibilities -----

  /** Another eligibility has the name, so the unique index refuses it. */
  predicate NameTaken(names: map<int, Json>, id: int, name: string)
  {
    exists other :: other in names && other != id && names[other] == JText(name)
  }

  predicate CanRename(t: Tables, id: int, name: Option<string>)
  {
    id in t.eligibilities && (name.Some? ==> !NameTaken(t.eligibilities, id, name.value))
  }

  /** No two eligibilities have one name. */
  ghost predicate UniqueNames(names: map<int, Json>)
  {
    forall a, b :: a in names && b in names && names[a] == names[b] ==> a == b
  }

  /** A rename is allowed exactly when names that are unique stay so. */
  lemma RenamesUnique(t: Tables, id: int, name: string)
    requires UniqueNames(t.eligibilities) && id in t.eligibilities
    ensures CanRename(t, id, Some(name)) <==> UniqueNames(t.eligibilities[id := JText(name)])
    ensures CanRename(t, id, None)
  {
    var renamed := t.eligibilities[id := JText(name)];
    if NameTaken(t.eligibilities, id, name) {
      var other :| other in t.eligibilities && other != id && t.eligibilities[other] == JText(name);
      assert renamed[other] == renamed[id];
    } else {
      assert forall other :: other in t.eligibilities && other != id ==> renamed[other] != JText(name);
    }
  }

  ghost function LeftByRename(t: Tables, id: int, name: Option<string>): set<int>
  {
    if CanRename(t, id, name) && name.Some? && t.eligibilities[id] != JText(name.value) then EligibleServices(t, id) else {}
  }

  /** A renamed eligibility: stale exactly when some approved service has it and the name differs. */
  method UpdateEligibility(site: Site, id: int, name: Option<string>) returns (reply: Reply)
    requires WellFormed(site.db)
    modifies site`db
    ensures reply == if id !in old(site.db).eligibilities then Refused(NOT_FOUND)
                     else if !CanRename(old(site.db), id, name) then Refused(BAD_REQUEST)
                     else Done
    ensures site.db == if reply.Done? && name.Some? then RenameEligibility(old(site.db), id, JText(name.value))
                       else old(site.db)
    ensures SettledBut(site.index, old(site.db), site.index, site.db, site.reformat, {}, {}, {},
                       LeftByRename(old(site.db), id, name))
    ensures WellFormed(site.db)
    ensures Sound(old(site.db), site.reformat) ==> Sound(site.db, site.reformat)
  {
    hide SettledBut, NameTaken, StampsParse, DaysNamed, DistinctAddresses;
    UntouchedBut(site.index, site.db, site.reformat);
    if id !in site.db.eligibilities {
      return Refused(NOT_FOUND);
    }
    if name.Some? && NameTaken(site.db.eligibilities, id, name.value) {
      return Refused(BAD_REQUEST);
    }
    ghost var t := site.db;
    if name.Some? {
      site.db := RenameEligibility(site.db, id, JText(name.value));
      NameSettles(site.index, t, id, JText(name.value), site.reformat);
    }
    return Done;
  }

  lemma NameSettles(index: Index, t: Tables, id: int, name: Json, reformat: Reformat)
    requires id in t.eligibilities
    ensures SettledBut(index, t, index, RenameEligibility(t, id, name), reformat, {}, {}, {},
                       if t.eligibilities[id] != name then EligibleServices(t, id) else {})
  {
    hide SettledBut, Built, Behind, Refreshed, EligibleServices;
    var b := RenameEligibility(t, id, name);
    if t.eligibilities[id] == name {
      assert b == t;
      UntouchedBut(index, t, reformat);
    } else {
      RefreshedNone(index, b, reformat);
      if Built(t, reformat) {
        NameLeftBehind(t, id, name, reformat);
      }
      SettleBut(index, t, index, b, reformat, {}, {}, {}, EligibleServices(t, id));
    }
  }
}
