/**
  What a service change request says, member by member: which columns it writes with which
  values, which lists it replaces, what the audit keeps and the answer repeats, and the row that
  the transaction then leaves (internal/changerequest/service_change_request.go). Everything is
  said of the request itself; the functions that compute it are in ServicePayload.dfy.
 */
module PayloadMeaning {
  import opened Decimal
  import opened FieldOrder
  import opened Fields
  import opened IndexRecords
  import opened QueryBuilders
  import opened ServiceChange
  import opened ServicePayload
  import opened SqlStatements
  import opened Wrappers

  // ----- Members -----

  /** The value that the last member with this name has. */
  ghost predicate Says(members: seq<(string, Raw)>, name: string, raw: Raw)
  {
    exists i :: 0 <= i < |members| && members[i] == (name, raw) && forall j :: i < j < |members| ==> members[j].0 != name
  }

  ghost predicate Silent(members: seq<(string, Raw)>, name: string)
  {
    forall i :: 0 <= i < |members| ==> members[i].0 != name
  }

  lemma {:induction false} MemberSays(members: seq<(string, Raw)>, name: string)
    ensures Member(members, name).None? <==> Silent(members, name)
    ensures Member(members, name).Some? ==> Says(members, name, Member(members, name).value)
    decreases |members|
  {
    if members != [] {
      var front, last := members[..|members| - 1], members[|members| - 1];
      if last.0 == name {
        assert members[|members| - 1] == (name, last.1);
      } else {
        MemberSays(front, name);
        if Member(front, name).Some? {
          var i :| 0 <= i < |front| && front[i] == (name, Member(front, name).value) &&
                   forall j :: i < j < |front| ==> front[j].0 != name;
          assert members[i] == front[i] && forall j :: i < j < |front| ==> members[j] == front[j];
        }
      }
    }
  }

  lemma SaysOnce(members: seq<(string, Raw)>, name: string, raw: Raw)
    requires Says(members, name, raw)
    ensures Member(members, name) == Some(raw) && !Silent(members, name)
  {
    hide Member;
    MemberSays(members, name);
    var i :| 0 <= i < |members| && members[i] == (name, raw) && forall j :: i < j < |members| ==> members[j].0 != name;
    assert !Silent(members, name);
    var k :| 0 <= k < |members| && members[k] == (name, Member(members, name).value) &&
             forall j :: k < j < |members| ==> members[j].0 != name;
    assert i == k;
  }

  /** A change request asks with its own members, or with those of field_changes when it has that. */
  ghost predicate Asks(raw: Raw, members: seq<(string, Raw)>)
  {
    && raw.RawObject?
    && ((Silent(raw.members, "field_changes") && members == raw.members)
        || Says(raw.members, "field_changes", RawObject(members))
        || (Says(raw.members, "field_changes", RawNull) && members == []))
  }

  lemma ChangesAsked(raw: Raw)
    ensures Changes(raw).Some? ==> Asks(raw, Changes(raw).value)
    ensures forall members :: Asks(raw, members) ==> Changes(raw) == Some(members)
  {
    hide Member, Silent, Says;
    if raw.RawObject? {
      MemberSays(raw.members, "field_changes");
      forall members | Asks(raw, members) ensures Changes(raw) == Some(members) {
        if Says(raw.members, "field_changes", RawObject(members)) {
          SaysOnce(raw.members, "field_changes", RawObject(members));
        } else if Says(raw.members, "field_changes", RawNull) {
          SaysOnce(raw.members, "field_changes", RawNull);
        }
      }
    }
  }

  /** The order of the answer is that of the members that the request asks with. */
  lemma OrderAsked(raw: Raw, members: seq<(string, Raw)>)
    requires Asks(raw, members)
    ensures Ordering(raw) == members
  {
    hide Member, Silent, Says;
    MemberSays(raw.members, "field_changes");
    if Says(raw.members, "field_changes", RawObject(members)) {
      SaysOnce(raw.members, "field_changes", RawObject(members));
    } else if Says(raw.members, "field_changes", RawNull) {
      SaysOnce(raw.members, "field_changes", RawNull);
    }
  }

  /** A list is named in full, or by its ids when it is not. */
  ghost predicate Lists(members: seq<(string, Raw)>, full: string, byIds: string, raw: Raw)
  {
    Says(members, full, raw) || (Silent(members, full) && Says(members, byIds, raw))
  }

  lemma RelationshipLists(members: seq<(string, Raw)>, full: string, byIds: string)
    ensures forall raw :: Lists(members, full, byIds, raw) <==> Relationship(members, full, byIds) == Some(raw)
    ensures Relationship(members, full, byIds).None? <==> Silent(members, full) && Silent(members, byIds)
  {
    hide Member, Silent, Says;
    MemberSays(members, full);
    MemberSays(members, byIds);
    forall raw | Lists(members, full, byIds, raw) ensures Relationship(members, full, byIds) == Some(raw) {
      if Says(members, full, raw) {
        SaysOnce(members, full, raw);
      } else {
        SaysOnce(members, byIds, raw);
      }
    }
  }

  // ----- Scalar values -----

  /** What a column stores: null, the text itself, or the JSON text of any other value. */
  ghost predicate StoredAs(raw: Raw, codec: Codec, value: Json)
  {
    match raw
    case RawNull => value == JNull
    case RawText(s) => value == JText(s)
    case RawInt(_) => value == JText(codec.compact(raw))
    case RawArray(_) => value == JText(codec.compact(raw))
    case RawObject(_) => value == JText(codec.compact(raw))
    case RawOther => value == JText(codec.compact(raw))
  }

  /** What the answer repeats: the value as it was sent. */
  ghost predicate SentAs(raw: Raw, codec: Codec, value: Json)
  {
    match raw
    case RawNull => value == JNull
    case RawText(s) => value == JText(s)
    case RawInt(_) => value == codec.decode(raw)
    case RawArray(_) => value == codec.decode(raw)
    case RawObject(_) => value == codec.decode(raw)
    case RawOther => value == codec.decode(raw)
  }

  lemma ScalarSays(raw: Raw, codec: Codec)
    ensures StoredAs(raw, codec, Scalar(raw, codec, AsStored)) && SentAs(raw, codec, Scalar(raw, codec, AsSent))
    ensures forall v :: StoredAs(raw, codec, v) ==> v == Scalar(raw, codec, AsStored)
    ensures forall v :: SentAs(raw, codec, v) ==> v == Scalar(raw, codec, AsSent)
  {
  }

  lemma {:induction false} ScalarMembers(members: seq<(string, Raw)>, names: seq<string>, codec: Codec, view: View)
    ensures forall f :: f in ScalarFields(members, names, codec, view) <==>
              f.name in names && Member(members, f.name).Some? &&
              f.value == Scalar(Member(members, f.name).value, codec, view)
    decreases |names|
  {
    hide Member, Scalar;
    if names != [] {
      ScalarMembers(members, names[1..], codec, view);
      assert forall n :: n in names <==> n == names[0] || n in names[1..];
    }
  }

  /** A field of the answer or the audit says what the request says under its name. */
  ghost predicate FieldSays(members: seq<(string, Raw)>, f: Field, codec: Codec, view: View)
  {
    exists raw ::
      Says(members, f.name, raw) && if view.AsStored? then StoredAs(raw, codec, f.value) else SentAs(raw, codec, f.value)
  }

  /** The same for a list, which is stored as JSON text and sent back as it came. */
  ghost predicate ListSays(members: seq<(string, Raw)>, full: string, byIds: string, value: Json, codec: Codec, view: View)
  {
    exists raw ::
      Lists(members, full, byIds, raw) &&
      value == if view.AsStored? then JText(codec.compact(raw)) else codec.decode(raw)
  }

  /** What a field of the audit or the answer may be. */
  ghost predicate EntrySays(members: seq<(string, Raw)>, f: Field, codec: Codec, view: View)
  {
    || (f.name in SCALARS && FieldSays(members, f, codec, view))
    || (f.name == "categories" && ListSays(members, "categories", "category_ids", f.value, codec, view))
    || (f.name == "eligibilities" && ListSays(members, "eligibilities", "eligibility_ids", f.value, codec, view))
  }

  lemma ScalarFieldsSay(members: seq<(string, Raw)>, codec: Codec, view: View)
    ensures forall f :: f in ScalarFields(members, SCALARS, codec, view) <==>
              f.name in SCALARS && FieldSays(members, f, codec, view)
  {
    hide Member, Scalar, ScalarFields, Says, Silent, StoredAs, SentAs, SCALARS;
    ScalarMembers(members, SCALARS, codec, view);
    forall f: Field
      ensures FieldSays(members, f, codec, view) <==>
              Member(members, f.name).Some? && f.value == Scalar(Member(members, f.name).value, codec, view)
    {
      FieldIsMember(members, f, codec, view);
    }
  }

  lemma FieldIsMember(members: seq<(string, Raw)>, f: Field, codec: Codec, view: View)
    ensures FieldSays(members, f, codec, view) <==>
            Member(members, f.name).Some? && f.value == Scalar(Member(members, f.name).value, codec, view)
  {
    hide Member, Scalar, Says, Silent, StoredAs, SentAs;
    MemberSays(members, f.name);
    if Member(members, f.name).Some? {
      ScalarSays(Member(members, f.name).value, codec);
    }
    if FieldSays(members, f, codec, view) {
      var raw :| Says(members, f.name, raw) &&
                 if view.AsStored? then StoredAs(raw, codec, f.value) else SentAs(raw, codec, f.value);
      SaysOnce(members, f.name, raw);
      ScalarSays(raw, codec);
    }
  }

  lemma AssociationSays(members: seq<(string, Raw)>, full: string, byIds: string, codec: Codec, view: View)
    ensures forall f :: f in Association(members, full, byIds, codec, view) <==>
              f.name == full && ListSays(members, full, byIds, f.value, codec, view)
  {
    hide Relationship, Lists;
    RelationshipLists(members, full, byIds);
  }

  lemma EntriesSay(members: seq<(string, Raw)>, codec: Codec, view: View)
    ensures forall f :: f in Entries(members, codec, view) <==> EntrySays(members, f, codec, view)
  {
    hide ScalarFields, Association, ListSays, FieldSays, SCALARS;
    ScalarFieldsSay(members, codec, view);
    AssociationSays(members, "categories", "category_ids", codec, view);
    AssociationSays(members, "eligibilities", "eligibility_ids", codec, view);
  }

  /**
    The columns, the audit and the answer of a request, from its members alone: a scalar name
    that it has gives one field with the value it says, a list gives one, and there is no other.
   */
  lemma RequestSays(raw: Raw, codec: Codec, members: seq<(string, Raw)>)
    requires Meaning(raw, codec).Some? && Asks(raw, members)
    ensures var p := Meaning(raw, codec).value;
            && (forall f :: f in p.serviceFields <==> f.name in SCALARS && FieldSays(members, f, codec, AsStored))
            && (forall f :: f in p.fieldChanges <==> EntrySays(members, f, codec, AsStored))
            && (forall f :: f in p.response <==> EntrySays(members, f, codec, AsSent))
            && Distinct(FieldNames(p.serviceFields))
  {
    hide ScalarFields, Entries, InRequestOrder, EntrySays, FieldSays, Changes, Asks, ListOf, Relationship, SCALARS;
    ChangesAsked(raw);
    ScalarFieldsSay(members, codec, AsStored);
    EntriesSay(members, codec, AsStored);
    EntriesSay(members, codec, AsSent);
    OrderKeepsFields(Entries(members, codec, AsStored), raw);
    OrderKeepsFields(Entries(members, codec, AsSent), raw);
    ScalarsDistinct();
    ScalarNames(members, SCALARS, codec, AsStored);
  }

  /** The case of a text: the column, the audit and the answer hold the text itself. */
  lemma TextSays(raw: Raw, codec: Codec, members: seq<(string, Raw)>, name: string, s: string)
    requires Meaning(raw, codec).Some? && Asks(raw, members) && name in SCALARS && Says(members, name, RawText(s))
    ensures var p, f := Meaning(raw, codec).value, Field(name, JText(s));
            && f in p.serviceFields && f in p.fieldChanges && f in p.response
            && forall g :: g in p.serviceFields + p.fieldChanges + p.response && g.name == name ==> g == f
  {
    hide Meaning, Asks, SCALARS, Says, ListSays;
    RequestSays(raw, codec, members);
    ScalarsDistinct();
    forall other | Says(members, name, other) ensures other == RawText(s) {
      SaysOnce(members, name, other);
      SaysOnce(members, name, RawText(s));
    }
    assert FieldSays(members, Field(name, JText(s)), codec, AsStored);
    assert FieldSays(members, Field(name, JText(s)), codec, AsSent);
  }

  // ----- Items -----

  predicate In64Bits(n: int) { -9223372036854775808 <= n <= 9223372036854775807 }

  function Abs(n: int): nat { if n < 0 then -n else n }

  /** A decimal number: an optional sign, any number of zeros, and the digits of the number. */
  ghost predicate DecimalText(s: string, n: int)
  {
    && In64Bits(n)
    && exists sign, k: nat :: Signs(sign, n) && s == sign + (Zeros(k) + NatText(Abs(n)))
  }

  predicate Signs(sign: string, n: int)
  {
    if sign == "-" then n <= 0 else (sign == "" || sign == "+") && n >= 0
  }

  /** Digits are zeros before the digits of their number, unless they are nothing but zeros. */
  lemma {:induction false} DigitsAre(s: string) returns (k: nat)
    requires s != "" && AllDigits(s)
    ensures s == Zeros(k) + NatText(TextNat(s))
    decreases |s|
  {
    hide AllDigits, Zeros, NatText;
    var front, last := s[..|s| - 1], s[|s| - 1];
    DigitsSplit(s);
    var m := TextNat(front);
    TextNatSnoc(front, last);
    if front == "" {
      k := 0;
      OneDigit(last);
      NoZeros();
    } else {
      k := DigitsAre(front);
      NatTextSnoc(m, last);
      if m == 0 {
        ZeroText();
        ZerosSnoc(k);
        assert s == (Zeros(k) + "0") + [last];
        k := k + 1;
      } else {
        assert s == Zeros(k) + (NatText(m) + [last]);
      }
    }
  }

  lemma DigitsSplit(s: string)
    requires s != "" && AllDigits(s)
    ensures s == s[..|s| - 1] + [s[|s| - 1]] && AllDigits(s[..|s| - 1]) && IsDigit(s[|s| - 1])
    ensures s[..|s| - 1] == "" ==> TextNat(s[..|s| - 1]) == 0
  {
    assert s[|s| - 1] in s;
  }

  lemma OneDigit(c: char)
    requires IsDigit(c)
    ensures NatText(DigitValue(c)) == [c]
  {
  }

  lemma NoZeros()
    ensures Zeros(0) == ""
  {
  }

  lemma ZeroText()
    ensures NatText(0) == "0"
  {
  }

  lemma NatTextSnoc(m: nat, c: char)
    requires IsDigit(c)
    ensures NatText(m * 10 + DigitValue(c)) == if m == 0 then [c] else NatText(m) + [c]
  {
  }

  lemma ZerosDigits(k: nat, n: nat)
    ensures AllDigits(Zeros(k) + NatText(n)) && TextNat(Zeros(k) + NatText(n)) == n
  {
    hide Zeros, NatText, TextNat;
    ZerosTextNat(k, NatText(n));
    NatTextReads(n);
  }

  lemma AtoiExactly(s: string, n: int)
    ensures Atoi(s) == Some(n) <==> DecimalText(s, n)
  {
    if Atoi(s) == Some(n) {
      AtoiReads(s, n);
    }
    if DecimalText(s, n) {
      var sign, k: nat :| Signs(sign, n) && s == sign + (Zeros(k) + NatText(Abs(n)));
      DecimalReads(sign, k, n);
    }
  }

  lemma AtoiReads(s: string, n: int)
    requires Atoi(s) == Some(n)
    ensures DecimalText(s, n)
  {
    hide AllDigits, Zeros, NatText, TextNat;
    var signed := s != "" && (s[0] == '-' || s[0] == '+');
    var digits := if signed then s[1..] else s;
    var k := DigitsAre(digits);
    var sign: string := if signed then s[..1] else "";
    assert s == sign + digits;
    assert Signs(sign, n);
  }

  lemma DecimalReads(sign: string, k: nat, n: int)
    requires In64Bits(n) && Signs(sign, n)
    ensures Atoi(sign + (Zeros(k) + NatText(Abs(n)))) == Some(n)
  {
    hide Zeros, NatText, TextNat;
    var digits := Zeros(k) + NatText(Abs(n));
    ZerosDigits(k, Abs(n));
    assert digits[0] in digits;
    if sign == "" {
      assert sign + digits == digits;
    } else {
      assert (sign + digits)[1..] == digits;
    }
  }

  /** An integer member that is there, or one that is absent or null. */
  ghost predicate SaysInt(members: seq<(string, Raw)>, name: string, n: Option<int>)
  {
    if n.Some? then In64Bits(n.value) && Says(members, name, RawInt(n.value))
    else Silent(members, name) || Says(members, name, RawNull)
  }

  /** What an item of a list says: a number, a number in quotes, an object with a non-zero id, or null for zero. */
  ghost predicate SaysItem(raw: Raw, item: Item)
  {
    match raw
    case RawNull => item == Item(0, None)
    case RawInt(n) => In64Bits(n) && item == Item(n, None)
    case RawText(s) => DecimalText(s, item.id) && item.rank == None
    case RawObject(members) =>
      item.id != 0 && SaysInt(members, "id", Some(item.id)) && SaysInt(members, "feature_rank", item.rank)
    case RawArray(_) => false
    case RawOther => false
  }

  lemma IntMemberSays(members: seq<(string, Raw)>, name: string, n: Option<int>)
    ensures IntMember(members, name) == Some(n) <==> SaysInt(members, name, n)
  {
    hide Member, Says, Silent;
    MemberSays(members, name);
    if n.Some? && Says(members, name, RawInt(n.value)) {
      SaysOnce(members, name, RawInt(n.value));
    }
    if Says(members, name, RawNull) {
      SaysOnce(members, name, RawNull);
    }
  }

  lemma ItemSays(raw: Raw, item: Item)
    ensures ItemOf(raw) == Some(item) <==> SaysItem(raw, item)
  {
    hide IntMember, SaysInt, Atoi, DecimalText;
    match raw
    case RawText(s) => AtoiExactly(s, item.id);
    case RawObject(members) =>
      IntMemberSays(members, "id", Some(item.id));
      IntMemberSays(members, "feature_rank", item.rank);
    case _ =>
  }

  /** A list says its items one by one; null says the empty list. */
  ghost predicate SaysList(raw: Raw, items: seq<Item>)
  {
    match raw
    case RawNull => items == []
    case RawArray(raws) => |items| == |raws| && forall i :: 0 <= i < |raws| ==> SaysItem(raws[i], items[i])
    case _ => false
  }

  lemma {:induction false} ItemsSay(raws: seq<Raw>, items: seq<Item>)
    ensures ItemsOf(raws) == Some(items) <==> SaysList(RawArray(raws), items)
    decreases |raws|
  {
    hide ItemOf, SaysItem;
    if raws != [] && items != [] {
      ItemSays(raws[0], items[0]);
      ItemsSay(raws[1..], items[1..]);
      assert items == [items[0]] + items[1..];
      if SaysList(RawArray(raws[1..]), items[1..]) && SaysItem(raws[0], items[0]) {
        assert forall i :: 1 <= i < |raws| ==> raws[i] == raws[1..][i - 1] && items[i] == items[1..][i - 1];
      }
      if SaysList(RawArray(raws), items) {
        assert forall i :: 0 <= i < |raws| - 1 ==> raws[1..][i] == raws[i + 1] && items[1..][i] == items[i + 1];
      }
    }
  }

  lemma ListOfSays(raw: Raw, items: seq<Item>)
    ensures ListOf(raw) == Some(items) <==> SaysList(raw, items)
  {
    hide ItemsOf, SaysItem;
    if raw.RawArray? {
      ItemsSay(raw.items, items);
    }
  }

  /** The list that a request gives, if it gives one. */
  ghost predicate GivesList(members: seq<(string, Raw)>, full: string, byIds: string, list: Option<seq<Item>>)
  {
    if list.None? then Silent(members, full) && Silent(members, byIds)
    else exists raw :: Lists(members, full, byIds, raw) && SaysList(raw, list.value)
  }

  lemma OptionalListGives(members: seq<(string, Raw)>, full: string, byIds: string, list: Option<seq<Item>>)
    ensures OptionalList(Relationship(members, full, byIds)) == Some(list) <==> GivesList(members, full, byIds, list)
  {
    hide Relationship, Lists, Silent, ListOf, SaysList;
    RelationshipLists(members, full, byIds);
    var raw := Relationship(members, full, byIds);
    if raw.Some? && list.Some? {
      ListOfSays(raw.value, list.value);
    }
  }

  /** A request is accepted exactly when it asks with an object and each list it gives can be read; its lists are those. */
  lemma RequestLists(raw: Raw, codec: Codec, categories: Option<seq<Item>>, eligibilities: Option<seq<Item>>)
    ensures (exists members :: && Asks(raw, members)
                               && GivesList(members, "categories", "category_ids", categories)
                               && GivesList(members, "eligibilities", "eligibility_ids", eligibilities)) <==>
            && Meaning(raw, codec).Some?
            && Meaning(raw, codec).value.categories == categories
            && Meaning(raw, codec).value.eligibilities == eligibilities
  {
    hide Changes, Asks, Relationship, OptionalList, GivesList, ScalarFields, InRequestOrder;
    ChangesAsked(raw);
    if Changes(raw).Some? {
      var members := Changes(raw).value;
      OptionalListGives(members, "categories", "category_ids", categories);
      OptionalListGives(members, "eligibilities", "eligibility_ids", eligibilities);
    }
  }

  // ----- The committed row -----

  /** The row of a service after the request: each scalar that it says, the time of the commit, and the rest as before. */
  ghost predicate RowSays(before: Record, after: Record, members: seq<(string, Raw)>, codec: Codec, now: Json)
  {
    forall c ::
      if c == "updated_at" then c in after && after[c] == now
      else if c in SCALARS && !Silent(members, c)
      then c in after && exists raw :: Says(members, c, raw) && StoredAs(raw, codec, after[c])
      else (c in after <==> c in before) && (c in after && c in before ==> after[c] == before[c])
  }

  ghost predicate NoScalarSaid(members: seq<(string, Raw)>)
  {
    forall name :: name in SCALARS ==> Silent(members, name)
  }

  /**
    The committed tables, from the request alone: the row of the service, its association rows,
    and one pending request row; every other row stays.
   */
  lemma CommitSays(t: ChangeTables, id: int, raw: Raw, codec: Codec, now: Json, members: seq<(string, Raw)>)
    requires id in t.services && Meaning(raw, codec).Some? && Asks(raw, members)
    ensures var b := Applied(t, id, Meaning(raw, codec).value, now);
            && b.services.Keys == t.services.Keys
            && (forall s :: s in t.services && s != id ==> b.services[s] == t.services[s])
            && (if NoScalarSaid(members) then b.services[id] == t.services[id]
                else RowSays(t.services[id], b.services[id], members, codec, now))
  {
    hide Meaning, Asks, NoScalarSaid, RowSays, FieldMap, FieldSays, SCALARS, Replaced, Stored;
    var fields := Meaning(raw, codec).value.serviceFields;
    RequestSays(raw, codec, members);
    SaidFields(members, fields, codec);
    if fields != [] {
      WrittenSays(t.services[id], fields, members, codec, now);
    }
  }

  lemma SaidFields(members: seq<(string, Raw)>, fields: seq<Field>, codec: Codec)
    requires forall f :: f in fields <==> f.name in SCALARS && FieldSays(members, f, codec, AsStored)
    ensures fields == [] <==> NoScalarSaid(members)
  {
    hide SCALARS, Says, Silent;
    forall name | name in SCALARS && !Silent(members, name) ensures fields != [] {
      MemberSays(members, name);
      var raw := Member(members, name).value;
      ScalarSays(raw, codec);
      assert Field(name, Scalar(raw, codec, AsStored)) in fields;
    }
    if fields != [] {
      assert fields[0] in fields;
      var raw :| Says(members, fields[0].name, raw) && StoredAs(raw, codec, fields[0].value);
      SaysOnce(members, fields[0].name, raw);
    }
  }

  lemma WrittenSays(before: Record, fields: seq<Field>, members: seq<(string, Raw)>, codec: Codec, now: Json)
    requires forall f :: f in fields <==> f.name in SCALARS && FieldSays(members, f, codec, AsStored)
    ensures RowSays(before, before + FieldMap(fields) + map["updated_at" := now], members, codec, now)
  {
    hide SCALARS, Says, Silent, StoredAs, FieldMap;
    FieldMapFrom(fields);
    var values := FieldMap(fields);
    forall c
      ensures c in values <==> c in SCALARS && !Silent(members, c)
      ensures c in values ==> exists raw :: Says(members, c, raw) && StoredAs(raw, codec, values[c])
    {
      SaidColumn(c, fields, values, members, codec);
    }
  }

  lemma SaidColumn(c: string, fields: seq<Field>, values: Record, members: seq<(string, Raw)>, codec: Codec)
    requires forall f :: f in fields <==> f.name in SCALARS && FieldSays(members, f, codec, AsStored)
    requires forall k :: k in values ==> Field(k, values[k]) in fields
    requires forall f :: f in fields ==> f.name in values
    ensures c in values <==> c in SCALARS && !Silent(members, c)
    ensures c in values ==> exists raw :: Says(members, c, raw) && StoredAs(raw, codec, values[c])
  {
    hide SCALARS, Says, Silent, StoredAs;
    if c in values {
      assert Field(c, values[c]) in fields;
      var raw :| Says(members, c, raw) && StoredAs(raw, codec, values[c]);
      SaysOnce(members, c, raw);
    }
    if c in SCALARS && !Silent(members, c) {
      MemberSays(members, c);
      var raw := Member(members, c).value;
      ScalarSays(raw, codec);
      assert Field(c, Scalar(raw, codec, AsStored)) in fields;
    }
  }

  /** The association rows and the request row that the commit leaves. */
  lemma CommitLists(t: ChangeTables, id: int, raw: Raw, codec: Codec, now: Json, other: int)
    requires id in t.services && Meaning(raw, codec).Some?
    ensures var p := Meaning(raw, codec).value;
            var b := Applied(t, id, p, now);
            && (other != id || p.categories.None? ==> RowsOf(b.categories, other) == RowsOf(t.categories, other))
            && (other == id && p.categories.Some? ==> RowsOf(b.categories, other) == p.categories.value)
            && (other != id || p.eligibilities.None? ==> RowsOf(b.eligibilities, other) == RowsOf(t.eligibilities, other))
            && (other == id && p.eligibilities.Some? ==>
                  var ids := RowsOf(b.eligibilities, other);
                  |ids| == |p.eligibilities.value| && forall i :: 0 <= i < |ids| ==> ids[i] == p.eligibilities.value[i].id)
            && |b.requests| == |t.requests| + 1 && b.requests[..|t.requests|] == t.requests
            && var request := b.requests[|t.requests|];
               && request.id == t.nextRequestId && request.kind == "ServiceChangeRequest" && request.objectId == id
               && request.status == 0 && request.action == 1
               && (if "resource_id" in t.services[id] && t.services[id]["resource_id"].JInt?
                   then request.resourceId == t.services[id]["resource_id"] else request.resourceId == JNull)
  {
    hide Meaning, FieldMap, Replaced, Stored, Written, RowsOf;
    var p := Meaning(raw, codec).value;
    AssociationsReplaced(t.categories, id, p.categories, other);
    AssociationsReplaced(t.eligibilities, id, Ids(p.eligibilities), other);
  }
}
