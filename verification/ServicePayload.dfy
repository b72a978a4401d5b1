/**
  How a service change request is split into column writes, association lists and audit
  entries: internal/changerequest/service_change_request.go.
 */
module ServicePayload {
  import opened Decimal
  import opened FieldOrder
  import opened Fields
  import opened IndexRecords
  import opened Wrappers

  /** The compact text and the decoded value of a JSON value. */
  datatype Codec = Codec(compact: Raw -> string, decode: Raw -> Json)

  const SCALARS: seq<string> := [
    "name", "alternate_name", "short_description", "long_description", "eligibility", "required_documents", "fee",
    "application_process", "email", "interpretation_services", "url", "wait_time", "internal_note"]

  // ----- Items of an association list -----

  datatype Item = Item(id: int, rank: Option<int>)

  predicate IsInt64(n: int) { -0x8000_0000_0000_0000 <= n < 0x8000_0000_0000_0000 }

  /** Decimal digits with an optional sign, within 64 bits. */
  function Atoi(s: string): Option<int>
  {
    var signed := s != "" && (s[0] == '-' || s[0] == '+');
    var digits := if signed then s[1..] else s;
    if digits == "" || !AllDigits(digits) then None else
      var n: int := if signed && s[0] == '-' then -(TextNat(digits) as int) else TextNat(digits);
      if IsInt64(n) then Some(n) else None
  }

  /** An integer member: None when it is of another kind, Some(None) when absent or null. */
  function IntMember(members: seq<(string, Raw)>, name: string): Option<Option<int>>
  {
    match Member(members, name)
    case None => Some(None)
    case Some(RawNull) => Some(None)
    case Some(RawInt(n)) => if IsInt64(n) then Some(Some(n)) else None
    case Some(_) => None
  }

  /** A number, an object with a non-zero id, or a number in quotes; a null reads as the number zero. */
  function ItemOf(raw: Raw): Option<Item>
  {
    match raw
    case RawNull => Some(Item(0, None))
    case RawInt(n) => if IsInt64(n) then Some(Item(n, None)) else None
    case RawObject(members) =>
      (match (IntMember(members, "id"), IntMember(members, "feature_rank"))
       case (Some(Some(id)), Some(rank)) => if id != 0 then Some(Item(id, rank)) else None
       case _ => None)
    case RawText(s) => (match Atoi(s) case None => None case Some(id) => Some(Item(id, None)))
    case _ => None
  }

  function ItemsOf(items: seq<Raw>): Option<seq<Item>>
  {
    if items == [] then Some([]) else
      match (ItemOf(items[0]), ItemsOf(items[1..]))
      case (Some(item), Some(rest)) => Some([item] + rest)
      case _ => None
  }

  /** A list; a null reads as the empty one. */
  function ListOf(raw: Raw): Option<seq<Item>>
  {
    match raw
    case RawNull => Some([])
    case RawArray(items) => ItemsOf(items)
    case _ => None
  }

  function After(items: seq<Item>, rest: Option<seq<Item>>): Option<seq<Item>>
  {
    match rest
    case None => None
    case Some(more) => Some(items + more)
  }

  /** The source's loop over the items, stopping at the first that is not an item. */
  method ReadItems(raw: Raw) returns (r: Option<seq<Item>>)
    ensures r == ListOf(raw)
  {
    if raw.RawNull? {
      return Some([]);
    }
    if !raw.RawArray? {
      return None;
    }
    var items := [];
    assert raw.items[0..] == raw.items && forall rest: seq<Item> :: items + rest == rest;
    for i := 0 to |raw.items|
      invariant ListOf(raw) == After(items, ItemsOf(raw.items[i..]))
    {
      NextItem(raw.items, items, i);
      var item := ItemOf(raw.items[i]);
      if item.None? {
        return None;
      }
      items := items + [item.value];
    }
    assert raw.items[|raw.items|..] == [] && items + [] == items;
    return Some(items);
  }

  lemma NextItem(raws: seq<Raw>, items: seq<Item>, i: nat)
    requires i < |raws|
    ensures After(items, ItemsOf(raws[i..])) ==
            if ItemOf(raws[i]).None? then None else After(items + [ItemOf(raws[i]).value], ItemsOf(raws[i + 1..]))
  {
    assert raws[i..][1..] == raws[i + 1..];
    if ItemOf(raws[i]).Some? && ItemsOf(raws[i + 1..]).Some? {
      assert items + ([ItemOf(raws[i]).value] + ItemsOf(raws[i + 1..]).value) ==
             (items + [ItemOf(raws[i]).value]) + ItemsOf(raws[i + 1..]).value;
    }
  }

  // ----- Scalar fields -----

  /** A value goes into the audit rows as text, and into the answer as it was sent. */
  datatype View = AsStored | AsSent

  function Text(raw: Raw, codec: Codec, view: View): Json
  {
    if view.AsStored? then JText(codec.compact(raw)) else codec.decode(raw)
  }

  function Scalar(raw: Raw, codec: Codec, view: View): Json
  {
    match raw
    case RawNull => JNull
    case RawText(s) => JText(s)
    case _ => Text(raw, codec, view)
  }

  /** The members of the change request: those of field_changes when it is there. */
  function Changes(raw: Raw): Option<seq<(string, Raw)>>
  {
    match raw
    case RawObject(members) =>
      (match Member(members, "field_changes")
       case None => Some(members)
       case Some(RawNull) => Some([])
       case Some(RawObject(nested)) => Some(nested)
       case Some(_) => None)
    case _ => None
  }

  function Relationship(members: seq<(string, Raw)>, primary: string, fallback: string): Option<Raw>
  {
    match Member(members, primary)
    case Some(raw) => Some(raw)
    case None => Member(members, fallback)
  }

  /** One field for each scalar name that the request has, in the order of the names. */
  function ScalarFields(members: seq<(string, Raw)>, names: seq<string>, codec: Codec, view: View): seq<Field>
  {
    if names == [] then [] else
      (match Member(members, names[0])
       case None => []
       case Some(raw) => [Field(names[0], Scalar(raw, codec, view))]) + ScalarFields(members, names[1..], codec, view)
  }

  function Association(members: seq<(string, Raw)>, primary: string, fallback: string, codec: Codec,
                       view: View): seq<Field>
  {
    match Relationship(members, primary, fallback)
    case None => []
    case Some(raw) => [Field(primary, Text(raw, codec, view))]
  }

  /** Scalar fields, then the association lists: before sorting. */
  function Entries(members: seq<(string, Raw)>, codec: Codec, view: View): seq<Field>
  {
    ScalarFields(members, SCALARS, codec, view) + Association(members, "categories", "category_ids", codec, view) +
    Association(members, "eligibilities", "eligibility_ids", codec, view)
  }

  function OptionalList(raw: Option<Raw>): Option<Option<seq<Item>>>
  {
    match raw
    case None => Some(None)
    case Some(list) => (match ListOf(list) case None => None case Some(items) => Some(Some(items)))
  }

  datatype Parsed = Parsed(
    serviceFields: seq<Field>,
    categories: Option<seq<Item>>,
    eligibilities: Option<seq<Item>>,
    fieldChanges: seq<Field>,
    response: seq<Field>)

  /** What a request with these members means; None when it is refused. */
  function Meaning(raw: Raw, codec: Codec): Option<Parsed>
  {
    match Changes(raw)
    case None => None
    case Some(members) =>
      match (OptionalList(Relationship(members, "categories", "category_ids")),
             OptionalList(Relationship(members, "eligibilities", "eligibility_ids")))
      case (Some(categories), Some(eligibilities)) =>
        Some(Parsed(
          ScalarFields(members, SCALARS, codec, AsStored), categories, eligibilities,
          InRequestOrder(Entries(members, codec, AsStored), raw),
          InRequestOrder(Entries(members, codec, AsSent), raw)))
      case _ => None
  }

  /** Named fields in the order of the request, then the others. */
  function InRequestOrder(fields: seq<Field>, raw: Raw): seq<Field>
  {
    var names := NamesOf(Ordering(raw));
    NamedPart(fields, names) + UnnamedPart(fields, names)
  }

  // ----- The source's steps -----

  method AppendScalarFields(members: seq<(string, Raw)>, codec: Codec)
    returns (serviceFields: seq<Field>, fieldChanges: seq<Field>, response: seq<Field>)
    ensures serviceFields == fieldChanges == ScalarFields(members, SCALARS, codec, AsStored)
    ensures response == ScalarFields(members, SCALARS, codec, AsSent)
  {
    hide ScalarFields, Member, Scalar;
    serviceFields, fieldChanges, response := [], [], [];
    assert SCALARS[0..] == SCALARS;
    for i := 0 to |SCALARS|
      invariant serviceFields == fieldChanges
      invariant serviceFields + ScalarFields(members, SCALARS[i..], codec, AsStored) ==
                ScalarFields(members, SCALARS, codec, AsStored)
      invariant response + ScalarFields(members, SCALARS[i..], codec, AsSent) ==
                ScalarFields(members, SCALARS, codec, AsSent)
    {
      var name := SCALARS[i];
      NextScalar(members, SCALARS, i, codec, AsStored, serviceFields);
      NextScalar(members, SCALARS, i, codec, AsSent, response);
      var raw := Member(members, name);
      if raw.None? {
        continue;
      }
      serviceFields := serviceFields + [Field(name, Scalar(raw.value, codec, AsStored))];
      fieldChanges := fieldChanges + [Field(name, Scalar(raw.value, codec, AsStored))];
      response := response + [Field(name, Scalar(raw.value, codec, AsSent))];
    }
    NoScalars(members, codec);
    assert SCALARS[|SCALARS|..] == [];
  }

  lemma NoScalars(members: seq<(string, Raw)>, codec: Codec)
    ensures ScalarFields(members, [], codec, AsStored) == [] && ScalarFields(members, [], codec, AsSent) == []
  {
  }

  lemma NextScalar(members: seq<(string, Raw)>, names: seq<string>, i: nat, codec: Codec, view: View,
                   before: seq<Field>)
    requires i < |names|
    ensures before + ScalarFields(members, names[i..], codec, view) ==
            match Member(members, names[i])
            case None => before + ScalarFields(members, names[i + 1..], codec, view)
            case Some(raw) =>
              (before + [Field(names[i], Scalar(raw, codec, view))]) + ScalarFields(members, names[i + 1..], codec, view)
  {
    hide Member, Scalar;
    assert names[i..][1..] == names[i + 1..];
  }

  method SortChanges(fields: seq<Field>, raw: Raw) returns (sorted: seq<Field>)
    requires Distinct(NamesOf(Ordering(raw)))
    ensures sorted == InRequestOrder(fields, raw)
  {
    hide Ordering, NamesOf, NamedPart, UnnamedPart, Ordered, Places;
    ghost var names := NamesOf(Ordering(raw));
    var positions := FieldPositions(raw);
    var a := new Field[|fields|](i requires 0 <= i < |fields| => fields[i]);
    assert a[..] == fields;
    SortFields(a, positions, names);
    RequestOrder(fields, positions, names);
    return a[..];
  }

  method ParsePayload(changeRequest: Option<Raw>, codec: Codec) returns (r: Option<Parsed>)
    requires changeRequest.Some? ==> Distinct(NamesOf(Ordering(changeRequest.value)))
    ensures r == if changeRequest.None? then None else Meaning(changeRequest.value, codec)
  {
    hide Ordering, NamesOf, InRequestOrder, ScalarFields, Member, ListOf, Text, Changes;
    if changeRequest.None? {
      return None;
    }
    var raw := changeRequest.value;
    var members := Changes(raw);
    if members.None? {
      return None;
    }
    var serviceFields, fieldChanges, response := AppendScalarFields(members.value, codec);
    var categories, eligibilities := None, None;
    var rawCategories := Relationship(members.value, "categories", "category_ids");
    if rawCategories.Some? {
      categories := ReadItems(rawCategories.value);
      if categories.None? {
        return None;
      }
      fieldChanges := fieldChanges + [Field("categories", Text(rawCategories.value, codec, AsStored))];
      response := response + [Field("categories", Text(rawCategories.value, codec, AsSent))];
    }
    var rawEligibilities := Relationship(members.value, "eligibilities", "eligibility_ids");
    if rawEligibilities.Some? {
      eligibilities := ReadItems(rawEligibilities.value);
      if eligibilities.None? {
        return None;
      }
      fieldChanges := fieldChanges + [Field("eligibilities", Text(rawEligibilities.value, codec, AsStored))];
      response := response + [Field("eligibilities", Text(rawEligibilities.value, codec, AsSent))];
    }
    assert fieldChanges == Entries(members.value, codec, AsStored);
    assert response == Entries(members.value, codec, AsSent);
    response := SortChanges(response, raw);
    fieldChanges := SortChanges(fieldChanges, raw);
    return Some(Parsed(serviceFields, categories, eligibilities, fieldChanges, response));
  }

  // ----- What the split guarantees -----

  lemma {:induction false} ScalarNames(members: seq<(string, Raw)>, names: seq<string>, codec: Codec, view: View)
    requires Distinct(names)
    ensures forall f :: f in ScalarFields(members, names, codec, view) ==> f.name in names
    ensures Distinct(FieldNames(ScalarFields(members, names, codec, view)))
    decreases |names|
  {
    hide Member, Scalar;
    if names != [] {
      assert Distinct(names[1..]);
      ScalarNames(members, names[1..], codec, view);
      var rest := ScalarFields(members, names[1..], codec, view);
      assert names[0] !in names[1..];
      if Member(members, names[0]).Some? {
        var first := Field(names[0], Scalar(Member(members, names[0]).value, codec, view));
        assert ScalarFields(members, names, codec, view) == [first] + rest;
        FirstDistinct(first, rest);
      }
    }
  }

  lemma FirstDistinct(first: Field, rest: seq<Field>)
    requires Distinct(FieldNames(rest)) && forall f :: f in rest ==> f.name != first.name
    ensures Distinct(FieldNames([first] + rest))
  {
    var names := FieldNames([first] + rest);
    forall i, j | 0 <= i < j < |names| ensures names[i] != names[j] {
      assert names[j] == FieldNames(rest)[j - 1] && rest[j - 1] in rest;
      if i > 0 {
        assert names[i] == FieldNames(rest)[i - 1];
      }
    }
  }

  lemma {:induction false} WithNameMembers(fields: seq<Field>, name: string)
    ensures forall f :: f in WithName(fields, name) <==> f in fields && f.name == name
    decreases |fields|
  {
    if fields != [] {
      WithNameMembers(fields[1..], name);
      assert forall f :: f in fields <==> f == fields[0] || f in fields[1..];
    }
  }

  lemma {:induction false} NamedMembers(fields: seq<Field>, names: seq<string>)
    ensures forall f :: f in NamedPart(fields, names) <==> f in fields && f.name in names
    decreases |names|
  {
    hide WithName;
    if names != [] {
      WithNameMembers(fields, names[0]);
      NamedMembers(fields, names[1..]);
    }
  }

  lemma {:induction false} UnnamedMembers(fields: seq<Field>, names: seq<string>)
    ensures forall f :: f in UnnamedPart(fields, names) <==> f in fields && f.name !in names
    decreases |fields|
  {
    if fields != [] {
      UnnamedMembers(fields[1..], names);
      assert forall f :: f in fields <==> f == fields[0] || f in fields[1..];
    }
  }

  lemma OrderKeepsFields(fields: seq<Field>, raw: Raw)
    ensures forall f :: f in InRequestOrder(fields, raw) <==> f in fields
  {
    hide NamedPart, UnnamedPart, Ordering;
    NamedMembers(fields, NamesOf(Ordering(raw)));
    UnnamedMembers(fields, NamesOf(Ordering(raw)));
  }

  lemma ScalarsDistinct()
    ensures Distinct(SCALARS) && "categories" !in SCALARS && "eligibilities" !in SCALARS
  {
  }

  /**
    The audit keeps exactly the column writes, each name once, and one entry for each
    association list that the request replaces.
   */
  lemma AuditCovers(raw: Raw, codec: Codec)
    requires Meaning(raw, codec).Some?
    ensures var p := Meaning(raw, codec).value;
            && Distinct(FieldNames(p.serviceFields))
            && (forall f :: f in p.serviceFields <==> f in p.fieldChanges && f.name in SCALARS)
            && (forall f :: f in p.fieldChanges ==> f.name in SCALARS || f.name in ["categories", "eligibilities"])
            && (p.categories.Some? <==> exists f :: f in p.fieldChanges && f.name == "categories")
            && (p.eligibilities.Some? <==> exists f :: f in p.fieldChanges && f.name == "eligibilities")
  {
    hide NamedPart, UnnamedPart, Ordering, ScalarFields, Member, Text, Changes, ListOf, InRequestOrder;
    var p := Meaning(raw, codec).value;
    var members := Changes(raw).value;
    ScalarsDistinct();
    ScalarNames(members, SCALARS, codec, AsStored);
    OrderKeepsFields(Entries(members, codec, AsStored), raw);
    AssociationEntries(members, codec);
    assert forall f :: f in p.fieldChanges <==> f in Entries(members, codec, AsStored);
  }

  lemma AssociationEntries(members: seq<(string, Raw)>, codec: Codec)
    ensures var entries := Entries(members, codec, AsStored);
            && (forall f :: f in entries <==>
                  (f in ScalarFields(members, SCALARS, codec, AsStored) ||
                   f in Association(members, "categories", "category_ids", codec, AsStored) ||
                   f in Association(members, "eligibilities", "eligibility_ids", codec, AsStored)))
            && (Relationship(members, "categories", "category_ids").Some? ==>
                  Association(members, "categories", "category_ids", codec, AsStored)[0].name == "categories" &&
                  Association(members, "categories", "category_ids", codec, AsStored)[0] in entries)
            && (Relationship(members, "eligibilities", "eligibility_ids").Some? ==>
                  Association(members, "eligibilities", "eligibility_ids", codec, AsStored)[0].name == "eligibilities" &&
                  Association(members, "eligibilities", "eligibility_ids", codec, AsStored)[0] in entries)
  {
    hide ScalarFields, Member, Text;
  }

  // ----- The answer lists what the audit stores -----

  lemma {:induction false} SameWithName(a: seq<Field>, b: seq<Field>, name: string)
    requires FieldNames(a) == FieldNames(b)
    ensures FieldNames(WithName(a, name)) == FieldNames(WithName(b, name))
    decreases |a|
  {
    if a != [] {
      assert |a| == |FieldNames(a)| == |b|;
      assert a[0].name == FieldNames(a)[0] == b[0].name;
      assert FieldNames(a[1..]) == FieldNames(a)[1..] == FieldNames(b[1..]);
      SameWithName(a[1..], b[1..], name);
      NamesAppend(if a[0].name == name then [a[0]] else [], WithName(a[1..], name));
      NamesAppend(if b[0].name == name then [b[0]] else [], WithName(b[1..], name));
    }
  }

  lemma NamesAppend(a: seq<Field>, b: seq<Field>)
    ensures FieldNames(a + b) == FieldNames(a) + FieldNames(b)
  {
  }

  lemma {:induction false} SameNamed(a: seq<Field>, b: seq<Field>, names: seq<string>)
    requires FieldNames(a) == FieldNames(b)
    ensures FieldNames(NamedPart(a, names)) == FieldNames(NamedPart(b, names))
    decreases |names|
  {
    hide WithName, FieldNames;
    if names != [] {
      SameWithName(a, b, names[0]);
      SameNamed(a, b, names[1..]);
      NamesAppend(WithName(a, names[0]), NamedPart(a, names[1..]));
      NamesAppend(WithName(b, names[0]), NamedPart(b, names[1..]));
    }
  }

  lemma {:induction false} SameUnnamed(a: seq<Field>, b: seq<Field>, names: seq<string>)
    requires FieldNames(a) == FieldNames(b)
    ensures FieldNames(UnnamedPart(a, names)) == FieldNames(UnnamedPart(b, names))
    decreases |a|
  {
    assert |a| == |FieldNames(a)| == |b|;
    if a != [] {
      assert a[0].name == FieldNames(a)[0] == b[0].name;
      assert FieldNames(a[1..]) == FieldNames(a)[1..] == FieldNames(b[1..]);
      SameUnnamed(a[1..], b[1..], names);
      NamesAppend(if a[0].name in names then [] else [a[0]], UnnamedPart(a[1..], names));
      NamesAppend(if b[0].name in names then [] else [b[0]], UnnamedPart(b[1..], names));
    }
  }

  lemma {:induction false} SameScalars(members: seq<(string, Raw)>, names: seq<string>, codec: Codec)
    ensures FieldNames(ScalarFields(members, names, codec, AsStored)) == FieldNames(ScalarFields(members, names, codec, AsSent))
    decreases |names|
  {
    hide Member, Scalar;
    if names != [] {
      SameScalars(members, names[1..], codec);
      var raw := Member(members, names[0]);
      if raw.Some? {
        NamesAppend([Field(names[0], Scalar(raw.value, codec, AsStored))], ScalarFields(members, names[1..], codec, AsStored));
        NamesAppend([Field(names[0], Scalar(raw.value, codec, AsSent))], ScalarFields(members, names[1..], codec, AsSent));
      }
    }
  }

  /** The answer names the same fields in the same order as the audit rows. */
  lemma AnswerMatchesAudit(raw: Raw, codec: Codec)
    requires Meaning(raw, codec).Some?
    ensures FieldNames(Meaning(raw, codec).value.response) == FieldNames(Meaning(raw, codec).value.fieldChanges)
  {
    hide NamedPart, UnnamedPart, Ordering, ScalarFields, Member, Text, Changes, ListOf, FieldNames;
    var members := Changes(raw).value;
    var names := NamesOf(Ordering(raw));
    var a, b := Entries(members, codec, AsStored), Entries(members, codec, AsSent);
    SameEntries(members, codec);
    SameNamed(a, b, names);
    SameUnnamed(a, b, names);
    NamesAppend(NamedPart(a, names), UnnamedPart(a, names));
    NamesAppend(NamedPart(b, names), UnnamedPart(b, names));
  }

  lemma SameEntries(members: seq<(string, Raw)>, codec: Codec)
    ensures FieldNames(Entries(members, codec, AsStored)) == FieldNames(Entries(members, codec, AsSent))
  {
    hide ScalarFields, Relationship, Text;
    SameScalars(members, SCALARS, codec);
    var a, b := ScalarFields(members, SCALARS, codec, AsStored), ScalarFields(members, SCALARS, codec, AsSent);
    var c, d := Association(members, "categories", "category_ids", codec, AsStored),
                Association(members, "categories", "category_ids", codec, AsSent);
    var e, f := Association(members, "eligibilities", "eligibility_ids", codec, AsStored),
                Association(members, "eligibilities", "eligibility_ids", codec, AsSent);
    NamesAppend(a + c, e);
    NamesAppend(a, c);
    NamesAppend(b + d, f);
    NamesAppend(b, d);
  }
}
