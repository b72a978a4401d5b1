/**
  The order of the audit answer: fieldOrder and orderFieldChanges of
  internal/changerequest/parity.go, and the sort of service_change_request.go.
 */
module FieldOrder {
  import opened Fields
  import opened Wrappers

  /** A JSON value of a request, with object members in the order they were written. */
  datatype Raw =
    | RawNull
    | RawText(s: string)
    | RawInt(n: int)
    | RawArray(items: seq<Raw>)
    | RawObject(members: seq<(string, Raw)>)
    | RawOther

  /** The last member with this name, as a decoded map keeps it. */
  function Member(members: seq<(string, Raw)>, name: string): (r: Option<Raw>)
    ensures r.Some? <==> exists i :: 0 <= i < |members| && members[i].0 == name
  {
    if members == [] then None
    else if members[|members| - 1].0 == name then Some(members[|members| - 1].1)
    else
      assert forall i :: 0 <= i < |members| - 1 ==> members[..|members| - 1][i] == members[i];
      Member(members[..|members| - 1], name)
  }

  // ----- Positions -----

  /** The object whose member order counts: the nested field changes when there are some. */
  function Ordering(raw: Raw): seq<(string, Raw)>
  {
    match raw
    case RawObject(members) =>
      (match Member(members, "field_changes")
       case None => members
       case Some(RawObject(nested)) => nested
       case Some(_) => [])
    case _ => []
  }

  function NamesOf(members: seq<(string, Raw)>): (r: seq<string>)
    ensures |r| == |members| && forall i :: 0 <= i < |r| ==> r[i] == members[i].0
  {
    seq(|members|, i requires 0 <= i < |members| => members[i].0)
  }

  /** Each name has the place where it stands. */
  ghost predicate Places(positions: map<string, nat>, names: seq<string>)
  {
    && |positions| == |names|
    && (forall i :: 0 <= i < |names| ==> names[i] in positions && positions[names[i]] == i)
    && (forall name :: name in positions ==> name in names)
  }

  method FieldPositions(raw: Raw) returns (positions: map<string, nat>)
    ensures Distinct(NamesOf(Ordering(raw))) ==> Places(positions, NamesOf(Ordering(raw)))
  {
    hide Ordering, Places;
    var members := Ordering(raw);
    ghost var names := NamesOf(members);
    positions := map[];
    NoPlaces(names);
    for i := 0 to |members|
      invariant Distinct(names) ==> Places(positions, names[..i])
    {
      if Distinct(names) {
        PlacesSnoc(positions, names, i);
      }
      positions := positions[members[i].0 := |positions|];
    }
    assert names[..|names|] == names;
  }

  lemma NoPlaces(names: seq<string>)
    ensures Places(map[], names[..0])
  {
  }

  lemma PlacesSnoc(positions: map<string, nat>, names: seq<string>, i: nat)
    requires i < |names| && Distinct(names) && Places(positions, names[..i])
    ensures Places(positions[names[i] := |positions|], names[..i + 1])
  {
    var name := names[i];
    assert names[..i + 1] == names[..i] + [name];
    assert name !in names[..i];
    var positions' := positions[name := |positions|];
    assert positions' - {name} == positions;
    assert |positions'| == |positions| + 1;
  }

  // ----- The two comparators -----

  /** Names without a position rank after all the others. */
  function Rank(positions: map<string, nat>, name: string): nat
  {
    if name in positions then positions[name] else |positions|
  }

  /** The comparator of orderFieldChanges. */
  predicate ComesBefore(positions: map<string, nat>, a: Field, b: Field)
  {
    if a.name !in positions then false
    else if b.name !in positions then true
    else positions[a.name] < positions[b.name]
  }

  /** The comparator of the service change request compares ranks: it is the same order. */
  lemma ComparatorsAgree(positions: map<string, nat>, names: seq<string>, a: Field, b: Field)
    requires Places(positions, names)
    ensures ComesBefore(positions, a, b) <==> Rank(positions, a.name) < Rank(positions, b.name)
  {
  }

  // ----- The stable order -----

  function OfRank(fields: seq<Field>, positions: map<string, nat>, r: nat): seq<Field>
  {
    if fields == [] then [] else
      (if Rank(positions, fields[0].name) == r then [fields[0]] else []) + OfRank(fields[1..], positions, r)
  }

  /** The fields of each rank, rank by rank, each group in its old order. */
  function Ordered(fields: seq<Field>, positions: map<string, nat>, from: nat, end: nat): seq<Field>
    decreases end - from
  {
    if from >= end then [] else OfRank(fields, positions, from) + Ordered(fields, positions, from + 1, end)
  }

  lemma {:induction false} OfRankAppend(a: seq<Field>, b: seq<Field>, positions: map<string, nat>, r: nat)
    ensures OfRank(a + b, positions, r) == OfRank(a, positions, r) + OfRank(b, positions, r)
    decreases |a|
  {
    hide Rank;
    if a == [] {
      assert a + b == b;
    } else {
      assert (a + b)[1..] == a[1..] + b;
      OfRankAppend(a[1..], b, positions, r);
    }
  }

  ghost predicate Sorted(fields: seq<Field>, positions: map<string, nat>)
  {
    forall i, j :: 0 <= i < j < |fields| ==> Rank(positions, fields[i].name) <= Rank(positions, fields[j].name)
  }

  ghost predicate SameGroups(a: seq<Field>, b: seq<Field>, positions: map<string, nat>)
  {
    forall r: nat :: OfRank(a, positions, r) == OfRank(b, positions, r)
  }

  lemma {:induction false} GroupsDecide(a: seq<Field>, b: seq<Field>, positions: map<string, nat>, from: nat, end: nat)
    requires SameGroups(a, b, positions)
    ensures Ordered(a, positions, from, end) == Ordered(b, positions, from, end)
    decreases end - from
  {
    if from < end {
      GroupsDecide(a, b, positions, from + 1, end);
      assert OfRank(a, positions, from) == OfRank(b, positions, from);
    }
  }

  lemma {:induction false} EmptyGroups(fields: seq<Field>, positions: map<string, nat>, r: nat)
    requires forall f :: f in fields ==> Rank(positions, f.name) != r
    ensures OfRank(fields, positions, r) == []
    decreases |fields|
  {
    if fields != [] {
      assert fields[0] in fields && forall f :: f in fields[1..] ==> f in fields;
      EmptyGroups(fields[1..], positions, r);
    }
  }

  lemma {:induction false} NothingOrdered(positions: map<string, nat>, from: nat, end: nat)
    ensures Ordered([], positions, from, end) == []
    decreases end - from
  {
    if from < end {
      NothingOrdered(positions, from + 1, end);
    }
  }

  lemma OrderedUnfold(fields: seq<Field>, positions: map<string, nat>, from: nat, end: nat)
    requires from < end
    ensures Ordered(fields, positions, from, end) ==
            OfRank(fields, positions, from) + Ordered(fields, positions, from + 1, end)
  {
  }

  lemma OfRankUnfold(first: Field, rest: seq<Field>, positions: map<string, nat>, r: nat)
    ensures OfRank([first] + rest, positions, r) ==
            (if Rank(positions, first.name) == r then [first] else []) + OfRank(rest, positions, r)
  {
    assert ([first] + rest)[1..] == rest;
  }

  /** A list already sorted is its own stable order. */
  lemma {:induction false} SortedIsOrdered(fields: seq<Field>, positions: map<string, nat>, from: nat, end: nat)
    requires Sorted(fields, positions)
    requires forall f :: f in fields ==> from <= Rank(positions, f.name) < end
    ensures Ordered(fields, positions, from, end) == fields
    decreases end - from, |fields|
  {
    hide Rank, Ordered, OfRank;
    if fields == [] {
      NothingOrdered(positions, from, end);
    } else {
      var first, rest := fields[0], fields[1..];
      assert first in fields;
      assert [first] + rest == fields;
      if Rank(positions, first.name) == from {
        forall f | f in rest ensures f in fields { }
        SortedIsOrdered(rest, positions, from, end);
        HeadFirst(first, rest, positions, from, end);
      } else {
        LargerRanks(fields, positions, from);
        EmptyGroups(fields, positions, from);
        SortedIsOrdered(fields, positions, from + 1, end);
        OrderedUnfold(fields, positions, from, end);
      }
    }
  }

  lemma LargerRanks(fields: seq<Field>, positions: map<string, nat>, from: nat)
    requires Sorted(fields, positions) && fields != [] && Rank(positions, fields[0].name) > from
    ensures forall f :: f in fields ==> Rank(positions, f.name) > from
  {
    hide Rank;
    forall f | f in fields ensures Rank(positions, f.name) > from {
      var i :| 0 <= i < |fields| && fields[i] == f;
    }
  }

  lemma HeadFirst(first: Field, rest: seq<Field>, positions: map<string, nat>, from: nat, end: nat)
    requires Rank(positions, first.name) == from < end
    ensures Ordered([first] + rest, positions, from, end) == [first] + Ordered(rest, positions, from, end)
  {
    hide Rank, Ordered, OfRank;
    OrderedUnfold([first] + rest, positions, from, end);
    OrderedUnfold(rest, positions, from, end);
    OfRankUnfold(first, rest, positions, from);
    LaterGroups(first, rest, positions, from + 1, end);
  }

  lemma {:induction false} LaterGroups(first: Field, rest: seq<Field>, positions: map<string, nat>, from: nat, end: nat)
    requires Rank(positions, first.name) < from
    ensures Ordered([first] + rest, positions, from, end) == Ordered(rest, positions, from, end)
    decreases end - from
  {
    hide Rank, OfRank;
    if from < end {
      OfRankUnfold(first, rest, positions, from);
      LaterGroups(first, rest, positions, from + 1, end);
    }
  }

  // ----- The sort in place -----

  lemma SwapGroups(fields: seq<Field>, k: nat, positions: map<string, nat>)
    requires k + 1 < |fields| && Rank(positions, fields[k].name) != Rank(positions, fields[k + 1].name)
    ensures SameGroups(fields, fields[k := fields[k + 1]][k + 1 := fields[k]], positions)
  {
    hide Rank, OfRank;
    var x, y := fields[k], fields[k + 1];
    var front, back := fields[..k], fields[k + 2..];
    assert fields == front + ([x] + ([y] + back));
    assert fields[k := y][k + 1 := x] == front + ([y] + ([x] + back));
    forall r: nat
      ensures OfRank(fields, positions, r) == OfRank(fields[k := y][k + 1 := x], positions, r)
    {
      OfRankAppend(front, [x] + ([y] + back), positions, r);
      OfRankAppend(front, [y] + ([x] + back), positions, r);
      OfRankUnfold(x, [y] + back, positions, r);
      OfRankUnfold(y, back, positions, r);
      OfRankUnfold(y, [x] + back, positions, r);
      OfRankUnfold(x, back, positions, r);
    }
  }

  /** Sorted up to i, but for the field at j, which is on its way down. */
  ghost predicate SortedBut(fields: seq<Field>, positions: map<string, nat>, i: nat, j: nat)
    requires i < |fields|
  {
    forall p, q :: 0 <= p < q <= i && q != j ==> Rank(positions, fields[p].name) <= Rank(positions, fields[q].name)
  }

  lemma OneDown(fields: seq<Field>, positions: map<string, nat>, i: nat, j: nat)
    requires 0 < j <= i < |fields| && SortedBut(fields, positions, i, j)
    requires Rank(positions, fields[j].name) < Rank(positions, fields[j - 1].name)
    ensures SortedBut(fields[j - 1 := fields[j]][j := fields[j - 1]], positions, i, j - 1)
  {
    hide Rank;
  }

  lemma InPlace(fields: seq<Field>, positions: map<string, nat>, i: nat, j: nat)
    requires j <= i < |fields| && SortedBut(fields, positions, i, j)
    requires j == 0 || Rank(positions, fields[j - 1].name) <= Rank(positions, fields[j].name)
    ensures Sorted(fields[..i + 1], positions)
  {
    hide Rank;
    var front := fields[..i + 1];
    forall p, q | 0 <= p < q < |front| ensures Rank(positions, front[p].name) <= Rank(positions, front[q].name) {
      if q == j && p < j - 1 {
        assert Rank(positions, fields[p].name) <= Rank(positions, fields[j - 1].name);
      }
    }
  }

  function Swapped(fields: seq<Field>, j: nat): seq<Field>
    requires 0 < j < |fields|
  {
    fields[j - 1 := fields[j]][j := fields[j - 1]]
  }

  method Swap(a: array<Field>, j: nat)
    requires 0 < j < a.Length
    modifies a
    ensures a[..] == Swapped(old(a[..]), j)
  {
    a[j], a[j - 1] := a[j - 1], a[j];
  }

  /** One swap keeps the groups and moves the field on its way down by one. */
  lemma SwapStep(before: seq<Field>, fields: seq<Field>, positions: map<string, nat>, names: seq<string>, i: nat,
                 j: nat)
    requires Places(positions, names) && 0 < j <= i < |fields|
    requires SameGroups(before, fields, positions) && SortedBut(fields, positions, i, j)
    requires ComesBefore(positions, fields[j], fields[j - 1])
    ensures SameGroups(before, Swapped(fields, j), positions)
    ensures SortedBut(Swapped(fields, j), positions, i, j - 1)
  {
    hide Rank, OfRank, SameGroups, Places, SortedBut, ComesBefore;
    ComparatorsAgree(positions, names, fields[j], fields[j - 1]);
    SwapGroups(fields, j - 1, positions);
    OneDown(fields, positions, i, j);
    SameChain(before, fields, Swapped(fields, j), positions);
  }

  /** The stable sort of the source, by insertion; no stable sort could give another result. */
  method SortFields(a: array<Field>, positions: map<string, nat>, ghost names: seq<string>)
    requires Places(positions, names)
    modifies a
    ensures a[..] == Ordered(old(a[..]), positions, 0, |positions| + 1)
  {
    hide Rank, OfRank, Ordered, SameGroups, Places, SortedBut, Sorted, ComesBefore, Swapped;
    ghost var before := a[..];
    SameSelf(before, positions);
    for i := 0 to a.Length
      invariant SameGroups(before, a[..], positions)
      invariant Sorted(a[..i], positions)
    {
      var j := i;
      StartSorted(a[..], positions, i);
      while j > 0 && ComesBefore(positions, a[j], a[j - 1])
        invariant 0 <= j <= i < a.Length
        invariant SameGroups(before, a[..], positions)
        invariant SortedBut(a[..], positions, i, j)
      {
        SwapStep(before, a[..], positions, names, i, j);
        Swap(a, j);
        j := j - 1;
      }
      if j > 0 {
        ComparatorsAgree(positions, names, a[j], a[j - 1]);
      }
      InPlace(a[..], positions, i, j);
      assert a[..][..i + 1] == a[..i + 1];
    }
    assert a[..a.Length] == a[..];
    RanksBounded(a[..], positions, names);
    SortedIsOrdered(a[..], positions, 0, |positions| + 1);
    GroupsDecide(before, a[..], positions, 0, |positions| + 1);
  }

  lemma SameSelf(fields: seq<Field>, positions: map<string, nat>)
    ensures SameGroups(fields, fields, positions)
    ensures Sorted(fields[..0], positions)
  {
  }

  lemma SameChain(a: seq<Field>, b: seq<Field>, c: seq<Field>, positions: map<string, nat>)
    requires SameGroups(a, b, positions) && SameGroups(b, c, positions)
    ensures SameGroups(a, c, positions)
  {
    hide OfRank;
    forall r: nat ensures OfRank(a, positions, r) == OfRank(c, positions, r) {
      assert OfRank(a, positions, r) == OfRank(b, positions, r);
    }
  }

  lemma StartSorted(fields: seq<Field>, positions: map<string, nat>, i: nat)
    requires i < |fields| && Sorted(fields[..i], positions)
    ensures SortedBut(fields, positions, i, i)
  {
    hide Rank;
    forall p, q | 0 <= p < q <= i && q != i ensures Rank(positions, fields[p].name) <= Rank(positions, fields[q].name) {
      assert Rank(positions, fields[..i][p].name) <= Rank(positions, fields[..i][q].name);
    }
  }

  lemma RanksBounded(fields: seq<Field>, positions: map<string, nat>, names: seq<string>)
    requires Places(positions, names)
    ensures forall f :: f in fields ==> 0 <= Rank(positions, f.name) < |positions| + 1
  {
    forall f | f in fields ensures Rank(positions, f.name) < |positions| + 1 {
      if f.name in positions {
        var i :| 0 <= i < |names| && names[i] == f.name;
      }
    }
  }

  // ----- What the order is -----

  function WithName(fields: seq<Field>, name: string): seq<Field>
  {
    if fields == [] then [] else (if fields[0].name == name then [fields[0]] else []) + WithName(fields[1..], name)
  }

  /** The fields that the request names, in the order it names them. */
  function NamedPart(fields: seq<Field>, names: seq<string>): seq<Field>
  {
    if names == [] then [] else WithName(fields, names[0]) + NamedPart(fields, names[1..])
  }

  /** The fields that the request does not name, in their old order. */
  function UnnamedPart(fields: seq<Field>, names: seq<string>): seq<Field>
  {
    if fields == [] then [] else (if fields[0].name in names then [] else [fields[0]]) + UnnamedPart(fields[1..], names)
  }

  lemma {:induction false} RankIsName(fields: seq<Field>, positions: map<string, nat>, names: seq<string>, r: nat)
    requires Places(positions, names) && r < |names|
    ensures OfRank(fields, positions, r) == WithName(fields, names[r])
    decreases |fields|
  {
    if fields != [] {
      RankIsName(fields[1..], positions, names, r);
      var name := fields[0].name;
      if name in positions {
        var i :| 0 <= i < |names| && names[i] == name;
      }
    }
  }

  lemma PlacesNames(positions: map<string, nat>, names: seq<string>)
    requires Places(positions, names)
    ensures forall name :: name in names <==> name in positions
    ensures forall name :: name in positions ==> positions[name] < |positions|
  {
    forall name | name in positions ensures positions[name] < |positions| {
      var i :| 0 <= i < |names| && names[i] == name;
    }
  }

  lemma {:induction false} LastRank(fields: seq<Field>, positions: map<string, nat>, names: seq<string>)
    requires Places(positions, names)
    ensures OfRank(fields, positions, |positions|) == UnnamedPart(fields, names)
    decreases |fields|
  {
    if fields != [] {
      LastRank(fields[1..], positions, names);
      PlacesNames(positions, names);
    }
  }

  lemma {:induction false} OrderedFrom(fields: seq<Field>, positions: map<string, nat>, names: seq<string>, from: nat)
    requires Places(positions, names) && from <= |names|
    ensures Ordered(fields, positions, from, |positions| + 1) == NamedPart(fields, names[from..]) + UnnamedPart(fields, names)
    decreases |names| - from
  {
    hide Places, OfRank, WithName, UnnamedPart;
    PlacesSize(positions, names);
    if from == |names| {
      LastRank(fields, positions, names);
    } else {
      RankIsName(fields, positions, names, from);
      OrderedFrom(fields, positions, names, from + 1);
      assert names[from..][1..] == names[from + 1..];
    }
  }

  lemma PlacesSize(positions: map<string, nat>, names: seq<string>)
    requires Places(positions, names)
    ensures |positions| == |names|
  {
  }

  /** Fields named in the request come in its order, and then the others in the order they had. */
  lemma RequestOrder(fields: seq<Field>, positions: map<string, nat>, names: seq<string>)
    requires Places(positions, names)
    ensures Ordered(fields, positions, 0, |positions| + 1) == NamedPart(fields, names) + UnnamedPart(fields, names)
  {
    hide Places, OfRank, WithName, UnnamedPart, NamedPart, Ordered;
    OrderedFrom(fields, positions, names, 0);
    assert names[0..] == names;
  }

  predicate DistinctFields(fields: seq<Field>)
  {
    forall i, j :: 0 <= i < j < |fields| ==> fields[i].name != fields[j].name
  }

  lemma {:induction false} OnlyField(fields: seq<Field>, f: Field)
    requires DistinctFields(fields) && f in fields
    ensures WithName(fields, f.name) == [f]
    decreases |fields|
  {
    if fields[0].name == f.name {
      assert forall i :: 0 < i < |fields| ==> fields[i].name != f.name && fields[i] != f;
      NoField(fields[1..], f.name);
    } else {
      OnlyField(fields[1..], f);
    }
  }

  lemma {:induction false} NoField(fields: seq<Field>, name: string)
    requires forall f :: f in fields ==> f.name != name
    ensures WithName(fields, name) == []
    decreases |fields|
  {
    if fields != [] {
      assert fields[0] in fields && forall f :: f in fields[1..] ==> f in fields;
      NoField(fields[1..], name);
    }
  }

  /** The named part depends on which fields there are, not on the order they start in. */
  lemma {:induction false} NamedPartFixed(a: seq<Field>, b: seq<Field>, names: seq<string>)
    requires DistinctFields(a) && DistinctFields(b) && forall f :: f in a <==> f in b
    ensures NamedPart(a, names) == NamedPart(b, names)
    decreases |names|
  {
    hide WithName;
    if names != [] {
      if f :| f in a && f.name == names[0] {
        OnlyField(a, f);
        OnlyField(b, f);
      } else {
        NoField(a, names[0]);
        NoField(b, names[0]);
      }
      NamedPartFixed(a, b, names[1..]);
    }
  }
}
