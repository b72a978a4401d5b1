/** Named values: what a change request writes and what its audit rows keep. */
module Fields {
  import opened IndexRecords

  datatype Field = Field(name: string, value: Json)

  predicate Distinct(names: seq<string>)
  {
    forall i, j :: 0 <= i < j < |names| ==> names[i] != names[j]
  }

  function FieldNames(fields: seq<Field>): (r: seq<string>)
    ensures |r| == |fields| && forall i :: 0 <= i < |r| ==> r[i] == fields[i].name
  {
    seq(|fields|, i requires 0 <= i < |fields| => fields[i].name)
  }

  function FieldValues(fields: seq<Field>): (r: seq<Json>)
    ensures |r| == |fields| && forall i :: 0 <= i < |r| ==> r[i] == fields[i].value
  {
    seq(|fields|, i requires 0 <= i < |fields| => fields[i].value)
  }

  /** The columns that the fields, written one after another, leave. */
  function FieldMap(fields: seq<Field>): Record
  {
    if fields == [] then map[] else
      var last := fields[|fields| - 1];
      FieldMap(fields[..|fields| - 1])[last.name := last.value]
  }

  lemma {:induction false} FieldKeys(fields: seq<Field>)
    ensures forall k :: k in FieldMap(fields) <==> k in FieldNames(fields)
    decreases |fields|
  {
    if fields != [] {
      var front, last := fields[..|fields| - 1], fields[|fields| - 1];
      FieldKeys(front);
      assert FieldNames(fields) == FieldNames(front) + [last.name];
    }
  }

  /** Every column gets the value of some field with its name. */
  lemma {:induction false} FieldMapFrom(fields: seq<Field>)
    ensures forall k :: k in FieldMap(fields) ==> Field(k, FieldMap(fields)[k]) in fields
    ensures forall f :: f in fields ==> f.name in FieldMap(fields)
    decreases |fields|
  {
    if fields != [] {
      var front, last := fields[..|fields| - 1], fields[|fields| - 1];
      FieldMapFrom(front);
      assert fields == front + [last];
    }
  }

  predicate OneValueEach(fields: seq<Field>)
  {
    forall f, g :: f in fields && g in fields && f.name == g.name ==> f.value == g.value
  }

  /** Fields that give each name one value write the same columns in any order and number. */
  lemma SameFieldMap(a: seq<Field>, b: seq<Field>)
    requires OneValueEach(a) && forall f :: f in a <==> f in b
    ensures FieldMap(a) == FieldMap(b)
  {
    hide FieldMap;
    FieldMapFrom(a);
    FieldMapFrom(b);
    forall k | k in FieldMap(a) ensures k in FieldMap(b) && FieldMap(a)[k] == FieldMap(b)[k] {
      assert Field(k, FieldMap(a)[k]) in b;
      assert Field(k, FieldMap(b)[k]) in a;
    }
    forall k | k in FieldMap(b) ensures k in FieldMap(a) {
      assert Field(k, FieldMap(b)[k]) in a;
    }
  }

  lemma DistinctValues(fields: seq<Field>)
    requires Distinct(FieldNames(fields))
    ensures OneValueEach(fields)
  {
    forall f, g | f in fields && g in fields && f.name == g.name ensures f.value == g.value {
      var i :| 0 <= i < |fields| && fields[i] == f;
      var j :| 0 <= j < |fields| && fields[j] == g;
      assert FieldNames(fields)[i] == FieldNames(fields)[j];
    }
  }
}
