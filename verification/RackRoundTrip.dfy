/**
  Writing a parameter tree as bracketed pairs and reading it back. The reader decides
  from the keys alone where one array record ends and the next begins, so the module
  also says exactly which trees survive.
 */
module RackRoundTrip {
  import opened ParamTree
  import opened RackKeys
  import opened RackInsert

  type Pair = (string, Tree)

  // ----- The writer -----

  predicate IsLeaf(t: Tree) { t.Nil? || t.Str? }

  /** One pair per leaf below prefix, in document order. */
  function Flatten(prefix: string, t: Tree): seq<Pair>
    decreases t, 1
  {
    match t
    case Hash(es) => FlattenEntries(prefix, es)
    case Builder(items) => FlattenItems(prefix, items)
    case _ => [(prefix, t)]
  }

  function FlattenEntries(prefix: string, es: seq<Entry>): seq<Pair>
    decreases es, 0
  {
    if es == [] then [] else
      Flatten(prefix + ("[" + es[0].key + "]"), es[0].value) + FlattenEntries(prefix, es[1..])
  }

  function FlattenItems(prefix: string, items: seq<Tree>): seq<Pair>
  {
    if items == [] then [] else
      (if items[0].Hash? then FlattenCells(prefix, items[0].entries) else [(prefix + "[]", items[0])]) +
      FlattenItems(prefix, items[1..])
  }

  function FlattenCells(prefix: string, es: seq<Entry>): seq<Pair>
  {
    if es == [] then [] else
      [(prefix + ("[][" + es[0].key + "]"), es[0].value)] + FlattenCells(prefix, es[1..])
  }

  /** The whole parameter hash: top-level keys stand without brackets. */
  function FlattenTop(es: seq<Entry>): seq<Pair>
  {
    if es == [] then [] else Flatten(es[0].key, es[0].value) + FlattenTop(es[1..])
  }

  // ----- Trees that can be written this way -----

  ghost predicate PlainEntries(es: seq<Entry>)
  {
    DistinctKeys(es) && forall e :: e in es ==> PlainKey(e.key)
  }

  ghost predicate FlatRecord(t: Tree)
  {
    t.Hash? && t.entries != [] && PlainEntries(t.entries) && forall e :: e in t.entries ==> IsLeaf(e.value)
  }

  ghost predicate Writable(t: Tree)
  {
    match t
    case Hash(es) => es != [] && WritableEntries(es)
    case Builder(items) => items != [] && WritableItems(items)
    case _ => IsLeaf(t)
  }

  ghost predicate WritableItems(items: seq<Tree>)
  {
    forall x :: x in items ==> IsLeaf(x) || FlatRecord(x)
  }

  ghost predicate WritableEntries(es: seq<Entry>)
  {
    PlainEntries(es) && forall e :: e in es ==> Writable(e.value)
  }

  // ----- What comes back -----

  /** One array pair: a leaf item, or one cell of a record. */
  datatype Event = Append(item: Tree) | Cell(key: string, value: Tree)

  function Cells(es: seq<Entry>): (evs: seq<Event>)
    ensures |evs| == |es|
  {
    if es == [] then [] else [Cell(es[0].key, es[0].value)] + Cells(es[1..])
  }

  function Events(items: seq<Tree>): seq<Event>
  {
    if items == [] then [] else
      (if items[0].Hash? then Cells(items[0].entries) else [Append(items[0])]) + Events(items[1..])
  }

  /** A cell joins the last record unless that record has its key already. */
  function AddEvent(items: seq<Tree>, ev: Event): seq<Tree>
  {
    match ev
    case Append(item) => items + [item]
    case Cell(key, value) =>
      if items != [] && items[|items| - 1].Hash? && !Has(items[|items| - 1].entries, key)
      then items[|items| - 1 := Hash(items[|items| - 1].entries + [Entry(key, value)])]
      else items + [Hash([Entry(key, value)])]
  }

  function AddEvents(items: seq<Tree>, evs: seq<Event>): seq<Tree>
    decreases |evs|
  {
    if evs == [] then items else AddEvents(AddEvent(items, evs[0]), evs[1..])
  }

  /** The tree with every array regrouped the way the reader groups its records. */
  function Regroup(t: Tree): Tree
    decreases t, 1
  {
    match t
    case Hash(es) => Hash(RegroupEntries(es))
    case Builder(items) => Builder(AddEvents([], Events(items)))
    case _ => t
  }

  function RegroupEntries(es: seq<Entry>): (r: seq<Entry>)
    ensures |r| == |es|
    ensures forall i :: 0 <= i < |es| ==> r[i].key == es[i].key
    decreases es, 0
  {
    if es == [] then [] else [Entry(es[0].key, Regroup(es[0].value))] + RegroupEntries(es[1..])
  }

  /** Between two neighbouring records, the second must start with a key of the first. */
  predicate Separates(left: Tree, right: Tree)
  {
    left.Hash? && right.Hash? && right.entries != [] ==> Has(left.entries, right.entries[0].key)
  }

  predicate RecordsSeparate(items: seq<Tree>)
  {
    |items| < 2 || (Separates(items[0], items[1]) && RecordsSeparate(items[1..]))
  }

  ghost predicate Separated(t: Tree)
  {
    match t
    case Hash(es) => forall e :: e in es ==> Separated(e.value)
    case Builder(items) => RecordsSeparate(items)
    case _ => true
  }

  // ----- Regrouping is the identity exactly on separated trees -----

  lemma {:induction false} AddEventsSplit(items: seq<Tree>, a: seq<Event>, b: seq<Event>)
    ensures AddEvents(items, a + b) == AddEvents(AddEvents(items, a), b)
    decreases |a|
  {
    if a == [] {
      assert a + b == b;
    } else {
      assert (a + b)[1..] == a[1..] + b;
      AddEventsSplit(AddEvent(items, a[0]), a[1..], b);
    }
  }

  /** The cells of es, read after those of done, complete the last record. */
  lemma {:induction false} CellsGrow(items: seq<Tree>, done: seq<Entry>, es: seq<Entry>)
    requires DistinctKeys(done + es) && done != []
    ensures AddEvents(items + [Hash(done)], Cells(es)) == items + [Hash(done + es)]
    decreases |es|
  {
    if es == [] {
      assert done + es == done;
    } else {
      var e := es[0];
      assert (done + es)[|done|] == e;
      assert forall i :: 0 <= i < |done| ==> (done + es)[i] == done[i];
      PositionAbsent(done, e.key);
      var grown := done + [Entry(e.key, e.value)];
      assert grown + es[1..] == done + es;
      assert AddEvent(items + [Hash(done)], Cell(e.key, e.value)) == items + [Hash(grown)];
      CellsGrow(items, grown, es[1..]);
    }
  }

  /** Reading never shortens an array, nor any record already in it. */
  lemma {:induction false} ReadingGrows(items: seq<Tree>, evs: seq<Event>, i: nat)
    requires i < |items|
    ensures var r := AddEvents(items, evs);
            i < |r| && (items[i].Hash? ==> r[i].Hash? && |items[i].entries| <= |r[i].entries|)
    decreases |evs|
  {
    if evs != [] {
      ReadingGrows(AddEvent(items, evs[0]), evs[1..], i);
    }
  }

  /** An unseparated record runs into the one before it. */
  lemma RunsTogether(before: seq<Tree>, x: Tree, rest: seq<Event>)
    requires before != [] && !Separates(before[|before| - 1], x)
    ensures var last := |before| - 1;
            var r := AddEvents(before, EventsOf(x) + rest);
            last < |r| && r[last] != before[last]
  {
    var last := |before| - 1;
    var e := x.entries[0];
    var evs := Cells(x.entries) + rest;
    assert evs[0] == Cell(e.key, e.value);
    var joined := AddEvent(before, evs[0]);
    ReadingGrows(joined, evs[1..], last);
  }

  /** Reading the events of items after before appends them unchanged iff neighbours are separated. */
  function EventsOf(x: Tree): seq<Event>
  {
    if x.Hash? then Cells(x.entries) else [Append(x)]
  }

  lemma EventsUnfold(x: Tree, rest: seq<Tree>)
    ensures Events([x] + rest) == EventsOf(x) + Events(rest)
  {
    assert ([x] + rest)[1..] == rest;
  }

  lemma RecordsUnfold(a: Tree, items: seq<Tree>)
    requires items != []
    ensures RecordsSeparate([a] + items) <==> Separates(a, items[0]) && RecordsSeparate(items)
  {
    var near := [a] + items;
    assert near[0] == a && near[1] == items[0] && near[1..] == items;
  }

  lemma {:induction false} RegroupItemsIff(before: seq<Tree>, items: seq<Tree>)
    requires WritableItems(items)
    ensures AddEvents(before, Events(items)) == before + items <==> RecordsSeparate(LastOf(before) + items)
    decreases |items|
  {
    hide AddEvents, Events, RecordsSeparate, Separates, Cells, LastOf;
    if items == [] {
      NoItems(before);
    } else {
      var x, rest := items[0], items[1..];
      assert x in items && forall y :: y in rest ==> y in items;
      assert items == [x] + rest && (before + [x]) + rest == before + items;
      EventsUnfold(x, rest);
      LastRecords(before, items);
      if before == [] || Separates(before[|before| - 1], x) {
        OneItem(before, x);
        AddEventsSplit(before, EventsOf(x), Events(rest));
        RegroupItemsIff(before + [x], rest);
        LastAdded(before, x);
      } else {
        RunsTogether(before, x, Events(rest));
        assert (before + items)[|before| - 1] == before[|before| - 1];
      }
    }
  }

  /** The item that the next one is compared with. */
  function LastOf(items: seq<Tree>): seq<Tree> { if items == [] then [] else [items[|items| - 1]] }

  lemma LastAdded(before: seq<Tree>, x: Tree)
    ensures LastOf(before + [x]) == [x]
  {
  }

  lemma NoItems(before: seq<Tree>)
    ensures AddEvents(before, Events([])) == before + [] && RecordsSeparate(LastOf(before) + [])
  {
    assert before + [] == before;
  }

  lemma LastRecords(before: seq<Tree>, items: seq<Tree>)
    requires items != []
    ensures RecordsSeparate(LastOf(before) + items) <==>
            (before == [] || Separates(before[|before| - 1], items[0])) && RecordsSeparate([items[0]] + items[1..])
  {
    hide RecordsSeparate, Separates;
    assert [items[0]] + items[1..] == items;
    if before == [] {
      assert [] + items == items;
    } else {
      RecordsUnfold(before[|before| - 1], items);
    }
  }

  lemma OneItem(before: seq<Tree>, x: Tree)
    requires IsLeaf(x) || FlatRecord(x)
    requires before == [] || Separates(before[|before| - 1], x)
    ensures AddEvents(before, if x.Hash? then Cells(x.entries) else [Append(x)]) == before + [x]
  {
    if x.Hash? {
      var e := x.entries[0];
      assert x.entries == [e] + x.entries[1..];
      assert Cells(x.entries)[1..] == Cells(x.entries[1..]);
      CellsGrow(before, [Entry(e.key, e.value)], x.entries[1..]);
    } else {
      assert [Append(x)][1..] == [];
    }
  }

  /** Grouping changes nothing exactly when every record is told apart from the one before it. */
  lemma {:induction false} RegroupIff(t: Tree)
    requires Writable(t)
    ensures Regroup(t) == t <==> Separated(t)
    decreases t, 1
  {
    match t
    case Hash(es) => RegroupEntriesIff(es);
    case Builder(items) =>
      RegroupItemsIff([], items);
      assert [] + items == items;
    case _ =>
  }

  lemma {:induction false} RegroupEntriesIff(es: seq<Entry>)
    requires forall e :: e in es ==> Writable(e.value)
    ensures RegroupEntries(es) == es <==> AllSeparated(es)
    decreases es, 0
  {
    hide Separated, AllSeparated, Writable, Regroup, RegroupEntries;
    RegroupedEntries(es);
    FirstSeparated(es);
    if es != [] {
      assert es[0] in es && forall e :: e in es[1..] ==> e in es;
      RegroupIff(es[0].value);
      RegroupEntriesIff(es[1..]);
      var first := Entry(es[0].key, Regroup(es[0].value));
      assert es == [es[0]] + es[1..];
      ConsEqual(first, RegroupEntries(es[1..]), es[0], es[1..]);
    }
  }

  ghost predicate AllSeparated(es: seq<Entry>) { forall e :: e in es ==> Separated(e.value) }

  lemma FirstSeparated(es: seq<Entry>)
    ensures AllSeparated(es) <==> es == [] || (Separated(es[0].value) && AllSeparated(es[1..]))
  {
    hide Separated;
    if es != [] {
      assert forall e :: e in es <==> e == es[0] || e in es[1..];
    }
  }

  lemma RegroupedEntries(es: seq<Entry>)
    ensures RegroupEntries(es) ==
            if es == [] then [] else [Entry(es[0].key, Regroup(es[0].value))] + RegroupEntries(es[1..])
  {
    hide Regroup;
  }

  lemma ConsEqual(a: Entry, as': seq<Entry>, b: Entry, bs: seq<Entry>)
    ensures [a] + as' == [b] + bs <==> a == b && as' == bs
  {
    assert ([a] + as')[0] == a && ([b] + bs)[0] == b;
    assert ([a] + as')[1..] == as' && ([b] + bs)[1..] == bs;
  }

  // ----- Names the writer produces -----

  function Prefix(k: string, bracketed: bool): string
  {
    if bracketed then "[" + k + "]" else k
  }

  lemma SplitPrefix(k: string, bracketed: bool, tail: string)
    requires PlainKey(k)
    requires tail == "" || tail[0] == '['
    ensures SplitKey(Prefix(k, bracketed) + tail) == Split(k, tail)
  {
    if bracketed { SplitBracketed(k, tail); } else { SplitBare(k, tail); }
  }

  predicate Extends(prefix: string, name: string)
  {
    prefix <= name && (|name| == |prefix| || name[|prefix|] == '[')
  }

  ghost predicate AllExtend(prefix: string, pairs: seq<Pair>)
  {
    forall p :: p in pairs ==> Extends(prefix, p.0)
  }

  function Prefixed(prefix: string, pairs: seq<Pair>): (r: seq<Pair>)
    ensures |r| == |pairs|
  {
    if pairs == [] then [] else [(prefix + pairs[0].0, pairs[0].1)] + Prefixed(prefix, pairs[1..])
  }

  lemma {:induction false} PrefixedSplit(prefix: string, a: seq<Pair>, b: seq<Pair>)
    ensures Prefixed(prefix, a + b) == Prefixed(prefix, a) + Prefixed(prefix, b)
    decreases |a|
  {
    if a == [] {
      assert a + b == b;
    } else {
      assert (a + b)[1..] == a[1..] + b;
      PrefixedSplit(prefix, a[1..], b);
    }
  }

  /** Every name below a prefix is the prefix itself or goes on with a bracket. */
  lemma {:induction false} FlattenExtends(prefix: string, t: Tree)
    ensures AllExtend(prefix, Flatten(prefix, t))
    decreases t, 1
  {
    match t
    case Hash(es) => FlattenEntriesExtend(prefix, es);
    case Builder(items) => FlattenItemsExtend(prefix, items);
    case _ =>
  }

  lemma {:induction false} FlattenEntriesExtend(prefix: string, es: seq<Entry>)
    ensures AllExtend(prefix, FlattenEntries(prefix, es))
    decreases es, 0
  {
    if es != [] {
      FlattenExtends(prefix + ("[" + es[0].key + "]"), es[0].value);
      FlattenEntriesExtend(prefix, es[1..]);
    }
  }

  lemma {:induction false} FlattenItemsExtend(prefix: string, items: seq<Tree>)
    ensures AllExtend(prefix, FlattenItems(prefix, items))
    decreases |items|
  {
    if items != [] {
      if items[0].Hash? {
        FlattenCellsExtend(prefix, items[0].entries);
      }
      FlattenItemsExtend(prefix, items[1..]);
    }
  }

  lemma {:induction false} FlattenCellsExtend(prefix: string, es: seq<Entry>)
    ensures AllExtend(prefix, FlattenCells(prefix, es))
    decreases |es|
  {
    if es != [] {
      FlattenCellsExtend(prefix, es[1..]);
    }
  }

  /** Writing under a longer prefix only lengthens the names. */
  lemma {:induction false} FlattenUnder(p: string, q: string, t: Tree)
    ensures Flatten(p + q, t) == Prefixed(p, Flatten(q, t))
    decreases t, 1
  {
    match t
    case Hash(es) => FlattenEntriesUnder(p, q, es);
    case Builder(items) => FlattenItemsUnder(p, q, items);
    case _ =>
  }

  lemma {:induction false} FlattenEntriesUnder(p: string, q: string, es: seq<Entry>)
    ensures FlattenEntries(p + q, es) == Prefixed(p, FlattenEntries(q, es))
    decreases es, 0
  {
    if es != [] {
      var field := "[" + es[0].key + "]";
      assert (p + q) + field == p + (q + field);
      FlattenUnder(p, q + field, es[0].value);
      FlattenEntriesUnder(p, q, es[1..]);
      PrefixedSplit(p, Flatten(q + field, es[0].value), FlattenEntries(q, es[1..]));
    }
  }

  lemma {:induction false} FlattenItemsUnder(p: string, q: string, items: seq<Tree>)
    ensures FlattenItems(p + q, items) == Prefixed(p, FlattenItems(q, items))
    decreases |items|
  {
    if items != [] {
      FlattenItemsUnder(p, q, items[1..]);
      if items[0].Hash? {
        FlattenCellsUnder(p, q, items[0].entries);
        PrefixedSplit(p, FlattenCells(q, items[0].entries), FlattenItems(q, items[1..]));
      } else {
        assert (p + q) + "[]" == p + (q + "[]");
        PrefixedSplit(p, [(q + "[]", items[0])], FlattenItems(q, items[1..]));
      }
    }
  }

  lemma {:induction false} FlattenCellsUnder(p: string, q: string, es: seq<Entry>)
    ensures FlattenCells(p + q, es) == Prefixed(p, FlattenCells(q, es))
    decreases |es|
  {
    if es != [] {
      var cell := "[][" + es[0].key + "]";
      assert (p + q) + cell == p + (q + cell);
      FlattenCellsUnder(p, q, es[1..]);
      PrefixedSplit(p, [(q + cell, es[0].value)], FlattenCells(q, es[1..]));
    }
  }

  // ----- Reading the pairs back -----

  lemma {:induction false} InsertAllSplit(es: seq<Entry>, a: seq<Pair>, b: seq<Pair>)
    ensures InsertAll(es, a + b) ==
            match InsertAll(es, a) case BadRequest => BadRequest case Done(_, es') => InsertAll(es', b)
    decreases |a|
  {
    hide Insert;
    if a == [] {
      assert a + b == b;
    } else {
      assert (a + b)[1..] == a[1..] + b;
      match Insert(es, a[0].0, a[0].1)
      case BadRequest =>
      case Done(_, es1) => InsertAllSplit(es1, a[1..], b);
    }
  }

  /** Pairs that all lie below field k are read inside the hash stored there. */
  lemma {:induction false} Descend(es: seq<Entry>, k: string, prefix: string, sub: seq<Entry>, pairs: seq<Pair>)
    requires HashEntries(Get(es, k)).Some? && HashEntries(Get(es, k)).value == sub
    requires forall p :: p in pairs ==> ShapeOf(prefix + p.0) == HashChild(k, p.0)
    requires InsertAll(sub, pairs).Done? && pairs != []
    ensures InsertAll(es, Prefixed(prefix, pairs)) == DonePut(es, k, Hash(InsertAll(sub, pairs).entries))
    decreases |pairs|
  {
    hide ShapeOf, HasKeyPath;
    var p, rest := pairs[0], pairs[1..];
    assert p in pairs && forall r :: r in rest ==> r in pairs;
    var sub1 := Insert(sub, p.0, p.1).entries;
    var es1 := Put(es, k, Hash(sub1));
    assert Insert(es, prefix + p.0, p.1) == Done(Hash(es1), es1);
    if rest != [] {
      PutTwice(es, k, Hash(sub1), Hash(InsertAll(sub1, rest).entries));
      Descend(es1, k, prefix, sub1, rest);
    }
  }

  /** One array pair adds one event. */
  lemma ReadCell(es: seq<Entry>, name: string, k: string, items: seq<Tree>, cell: Entry)
    requires ShapeOf(name) == ArrayChild(k, cell.key) && PlainKey(cell.key)
    requires ArrayItems(Get(es, k)).Some? && ArrayItems(Get(es, k)).value == items
    ensures Insert(es, name, cell.value) == DonePut(es, k, Builder(AddEvent(items, Cell(cell.key, cell.value))))
  {
    hide ShapeOf, Pieces, HasEmptyBrackets;
    PiecesOfPlain(cell.key);
    assert ShapeOf(cell.key) == Scalar(cell.key) by { ShapeOfPlain(cell.key); }
    assert Put([], cell.key, cell.value) == [Entry(cell.key, cell.value)];
    if items != [] && items[|items| - 1].Hash? {
      var last := items[|items| - 1];
      assert [cell.key][1..] == [];
      assert HasPieces(last, [cell.key]) == Has(last.entries, cell.key);
      assert JoinsLast(items, cell.key) == !Has(last.entries, cell.key);
    }
  }

  lemma ShapeOfPlain(k: string)
    requires PlainKey(k)
    ensures ShapeOf(k) == Scalar(k)
  {
    assert k + "" == k;
    SplitBare(k, "");
  }

  /** The first cell is stored, and the rest is read from there. */
  lemma CellStep(es: seq<Entry>, k: string, b: bool, items: seq<Tree>, cells: seq<Entry>)
    requires PlainKey(k) && cells != [] && PlainKey(cells[0].key)
    requires ArrayItems(Get(es, k)).Some? && ArrayItems(Get(es, k)).value == items
    ensures var items1 := AddEvent(items, Cell(cells[0].key, cells[0].value));
            && InsertAll(es, FlattenCells(Prefix(k, b), cells)) ==
               InsertAll(Put(es, k, Builder(items1)), FlattenCells(Prefix(k, b), cells[1..]))
            && AddEvents(items, Cells(cells)) == AddEvents(items1, Cells(cells[1..]))
  {
    hide ShapeOf, Insert, AddEvent, PlainKey, Put;
    var cell, rest := cells[0], cells[1..];
    var tail := "[][" + cell.key + "]";
    var name := Prefix(k, b) + tail;
    SplitPrefix(k, b, tail);
    ShapeOfRecord(name, k, cell.key);
    ReadCell(es, name, k, items, cell);
    var pairs := FlattenCells(Prefix(k, b), cells);
    assert pairs[0] == (name, cell.value) && pairs[1..] == FlattenCells(Prefix(k, b), rest);
    assert Cells(cells)[0] == Cell(cell.key, cell.value) && Cells(cells)[1..] == Cells(rest);
  }

  lemma {:induction false} ReadCells(es: seq<Entry>, k: string, b: bool, items: seq<Tree>, cells: seq<Entry>)
    requires PlainKey(k) && forall e :: e in cells ==> PlainKey(e.key)
    requires ArrayItems(Get(es, k)).Some? && ArrayItems(Get(es, k)).value == items
    requires cells != []
    ensures InsertAll(es, FlattenCells(Prefix(k, b), cells)) == DonePut(es, k, Builder(AddEvents(items, Cells(cells))))
    decreases |cells|
  {
    hide ShapeOf, Insert, AddEvent, AddEvents, Put, Get, FlattenCells, Cells, Prefix, PlainKey, InsertAll;
    var cell, rest := cells[0], cells[1..];
    assert cell in cells && forall e :: e in rest ==> e in cells;
    CellStep(es, k, b, items, cells);
    var items1 := AddEvent(items, Cell(cell.key, cell.value));
    var es1 := Put(es, k, Builder(items1));
    PutTwice(es, k, Builder(items1), Builder(AddEvents(items1, Cells(rest))));
    if rest == [] {
      NoCells(es1, Prefix(k, b), items1);
    } else {
      ReadCells(es1, k, b, items1, rest);
    }
  }

  lemma NoCells(es: seq<Entry>, prefix: string, items: seq<Tree>)
    ensures InsertAll(es, FlattenCells(prefix, [])) == Done(Hash(es), es)
    ensures AddEvents(items, Cells([])) == items
  {
  }

  lemma {:induction false} ReadItems(es: seq<Entry>, k: string, b: bool, before: seq<Tree>, items: seq<Tree>)
    requires PlainKey(k) && WritableItems(items) && items != []
    requires ArrayItems(Get(es, k)).Some? && ArrayItems(Get(es, k)).value == before
    ensures InsertAll(es, FlattenItems(Prefix(k, b), items)) == DonePut(es, k, Builder(AddEvents(before, Events(items))))
    decreases |items|
  {
    hide ShapeOf, Insert;
    var x, rest := items[0], items[1..];
    assert x in items && forall y :: y in rest ==> y in items;
    var evs := if x.Hash? then Cells(x.entries) else [Append(x)];
    var pairs := if x.Hash? then FlattenCells(Prefix(k, b), x.entries) else [(Prefix(k, b) + "[]", x)];
    var items1 := AddEvents(before, evs);
    var es1 := Put(es, k, Builder(items1));
    if x.Hash? {
      ReadCells(es, k, b, before, x.entries);
    } else {
      ReadAppend(es, k, b, before, x);
      assert evs[1..] == [] && AddEvents(before, evs) == before + [x];
    }
    assert InsertAll(es, pairs) == Done(Hash(es1), es1);
    InsertAllSplit(es, pairs, FlattenItems(Prefix(k, b), rest));
    AddEventsSplit(before, evs, Events(rest));
    if rest == [] {
      assert pairs + [] == pairs && evs + [] == evs;
    } else {
      PutTwice(es, k, Builder(items1), Builder(AddEvents(items1, Events(rest))));
      ReadItems(es1, k, b, items1, rest);
    }
  }

  lemma ReadAppend(es: seq<Entry>, k: string, b: bool, before: seq<Tree>, x: Tree)
    requires PlainKey(k)
    requires ArrayItems(Get(es, k)).Some? && ArrayItems(Get(es, k)).value == before
    ensures InsertAll(es, [(Prefix(k, b) + "[]", x)]) == DonePut(es, k, Builder(before + [x]))
  {
    hide ShapeOf, SplitKey, Insert, InsertAll, Put, Get, PlainKey, Prefix;
    var name := Prefix(k, b) + "[]";
    SplitPrefix(k, b, "[]");
    ShapeOfArrayEnd(name, k);
    AppendStep(es, name, k, before, x);
    InsertOne(es, name, x, Put(es, k, Builder(before + [x])));
  }

  lemma AppendStep(es: seq<Entry>, name: string, k: string, before: seq<Tree>, x: Tree)
    requires ShapeOf(name) == ArrayEnd(k)
    requires ArrayItems(Get(es, k)).Some? && ArrayItems(Get(es, k)).value == before
    ensures Insert(es, name, x) == DonePut(es, k, Builder(before + [x]))
  {
    hide ShapeOf, Put, Get;
  }

  lemma InsertOne(es: seq<Entry>, name: string, x: Tree, after: seq<Entry>)
    requires Insert(es, name, x) == Done(Hash(after), after)
    ensures InsertAll(es, [(name, x)]) == Done(Hash(after), after)
  {
    hide Insert;
    assert [(name, x)][1..] == [];
  }

  /** Reading what was written under a new key stores the regrouped tree under that key, last. */
  lemma {:induction false} ReadNode(es: seq<Entry>, k: string, b: bool, t: Tree)
    requires PlainKey(k) && !Has(es, k) && Writable(t)
    ensures InsertAll(es, Flatten(Prefix(k, b), t)) == DonePut(es, k, Regroup(t))
    decreases t, 1
  {
    hide ShapeOf, Insert, InsertAll, Prefix, FlattenEntries, WritableEntries, DistinctKeys, RegroupEntries;
    match t
    case Hash(fields) =>
      assert [] + fields == fields && [] + RegroupEntries(fields) == RegroupEntries(fields);
      DistinctFields(fields);
      ReadEntries([], fields);
      ReadHash(es, k, b, fields);
    case Builder(items) => ReadItems(es, k, b, [], items);
    case _ =>
      ShapeOfPrefix(k, b);
      ReadLeaf(es, Prefix(k, b), k, t);
  }

  lemma DistinctFields(fields: seq<Entry>)
    requires WritableEntries(fields)
    ensures DistinctKeys(fields) && forall e :: e in fields ==> PlainKey(e.key)
  {
    hide Writable, DistinctKeys;
  }

  /** The pairs below a key are read inside the hash that is stored there. */
  lemma ReadHash(es: seq<Entry>, k: string, b: bool, fields: seq<Entry>)
    requires PlainKey(k) && !Has(es, k) && fields != [] && WritableEntries(fields)
    requires InsertAll([], FlattenEntries("", fields)) == Done(Hash(RegroupEntries(fields)), RegroupEntries(fields))
    ensures InsertAll(es, FlattenEntries(Prefix(k, b), fields)) == DonePut(es, k, Hash(RegroupEntries(fields)))
  {
    hide ShapeOf, Insert, InsertAll, FlattenEntries, Prefix, Writable, DistinctKeys, PlainKey;
    var pairs := FlattenEntries("", fields);
    assert Prefix(k, b) + "" == Prefix(k, b);
    FlattenEntriesUnder(Prefix(k, b), "", fields);
    FieldShapes(k, b, fields);
    FlattenNotEmpty("", fields[0].value, fields);
    PositionAbsent(es, k);
    Descend(es, k, Prefix(k, b), [], pairs);
  }

  lemma ShapeOfPrefix(k: string, b: bool)
    requires PlainKey(k)
    ensures ShapeOf(Prefix(k, b)) == Scalar(k)
  {
    assert Prefix(k, b) + "" == Prefix(k, b);
    SplitPrefix(k, b, "");
  }

  lemma ReadLeaf(es: seq<Entry>, name: string, k: string, t: Tree)
    requires ShapeOf(name) == Scalar(k)
    ensures InsertAll(es, [(name, t)]) == DonePut(es, k, t)
  {
    hide ShapeOf;
    assert [(name, t)][1..] == [];
  }

  lemma FlattenNotEmpty(prefix: string, t: Tree, es: seq<Entry>)
    requires WritableEntries(es) && es != []
    ensures FlattenEntries(prefix, es) != []
    decreases es
  {
    assert es[0] in es;
    match es[0].value
    case Hash(sub) => FlattenNotEmpty(prefix + ("[" + es[0].key + "]"), t, sub);
    case Builder(items) => assert items[0] in items;
    case _ =>
  }

  lemma {:induction false} FieldShapes(k: string, b: bool, fields: seq<Entry>)
    requires PlainKey(k) && forall e :: e in fields ==> PlainKey(e.key)
    ensures forall p :: p in FlattenEntries("", fields) ==> ShapeOf(Prefix(k, b) + p.0) == HashChild(k, p.0)
    decreases |fields|
  {
    hide ShapeOf;
    if fields != [] {
      var f, t := fields[0].key, fields[0].value;
      assert fields[0] in fields && forall e :: e in fields[1..] ==> e in fields;
      FieldShapes(k, b, fields[1..]);
      var field := "[" + f + "]";
      assert "" + field == field;
      FlattenExtends(field, t);
      forall p | p in Flatten(field, t) ensures ShapeOf(Prefix(k, b) + p.0) == HashChild(k, p.0) {
        var rest := p.0[|field|..];
        assert p.0 == field + rest;
        SplitPrefix(k, b, p.0);
        ShapeOfField(Prefix(k, b) + p.0, k, f, rest);
      }
    }
  }

  lemma {:induction false} ReadEntries(es: seq<Entry>, fields: seq<Entry>)
    requires WritableEntries(fields) && DistinctKeys(es + fields)
    ensures InsertAll(es, FlattenEntries("", fields)) ==
            Done(Hash(es + RegroupEntries(fields)), es + RegroupEntries(fields))
    decreases fields, 0
  {
    hide ShapeOf, Insert, Writable, WritableEntries, DistinctKeys, Regroup, Flatten;
    if fields == [] {
      assert es + RegroupEntries(fields) == es;
    } else {
      var f := fields[0];
      NextField(es, fields);
      assert "" + ("[" + f.key + "]") == Prefix(f.key, true);
      ReadNode(es, f.key, true, f.value);
      var es1 := es + [Entry(f.key, Regroup(f.value))];
      ReadEntries(es1, fields[1..]);
      ConsAppend(es, Entry(f.key, Regroup(f.value)), RegroupEntries(fields[1..]));
      InsertAllSplit(es, Flatten(Prefix(f.key, true), f.value), FlattenEntries("", fields[1..]));
    }
  }

  lemma NextField(es: seq<Entry>, fields: seq<Entry>)
    requires WritableEntries(fields) && DistinctKeys(es + fields) && fields != []
    ensures Writable(fields[0].value) && PlainKey(fields[0].key) && !Has(es, fields[0].key)
    ensures Put(es, fields[0].key, Regroup(fields[0].value)) == es + [Entry(fields[0].key, Regroup(fields[0].value))]
    ensures WritableEntries(fields[1..])
    ensures DistinctKeys(es + [Entry(fields[0].key, Regroup(fields[0].value))] + fields[1..])
  {
    hide Writable, Regroup, PlainKey;
    assert fields[0] in fields;
    assert forall i :: 0 <= i < |fields| - 1 ==> fields[1..][i] == fields[i + 1];
    hide DistinctKeys;
    MovedKeys(es, fields, Regroup(fields[0].value));
    PositionAbsent(es, fields[0].key);
  }

  lemma MovedKeys(es: seq<Entry>, fields: seq<Entry>, value: Tree)
    requires DistinctKeys(es + fields) && fields != []
    ensures forall i :: 0 <= i < |es| ==> es[i].key != fields[0].key
    ensures DistinctKeys(es + [Entry(fields[0].key, value)] + fields[1..])
  {
    var all := es + fields;
    assert all[|es|] == fields[0] && forall i :: 0 <= i < |es| ==> all[i] == es[i];
    var next := es + [Entry(fields[0].key, value)] + fields[1..];
    assert forall i :: 0 <= i < |all| ==> next[i].key == all[i].key;
  }

  lemma ConsAppend(es: seq<Entry>, e: Entry, rest: seq<Entry>)
    ensures (es + [e]) + rest == es + ([e] + rest)
  {
  }

  lemma ReadFirst(es: seq<Entry>, fields: seq<Entry>)
    requires WritableEntries(fields) && DistinctKeys(es + fields) && fields != []
    ensures InsertAll(es, FlattenTop(fields)) ==
            InsertAll(es + [Entry(fields[0].key, Regroup(fields[0].value))], FlattenTop(fields[1..]))
  {
    hide ShapeOf, Insert, Writable, WritableEntries, DistinctKeys, Regroup, Flatten;
    var f := fields[0];
    NextField(es, fields);
    ReadNode(es, f.key, false, f.value);
    InsertAllSplit(es, Flatten(f.key, f.value), FlattenTop(fields[1..]));
  }

  /** Reading back everything that was written gives the regrouped tree, entry by entry. */
  lemma {:induction false} ReadTop(es: seq<Entry>, fields: seq<Entry>)
    requires WritableEntries(fields) && DistinctKeys(es + fields)
    ensures InsertAll(es, FlattenTop(fields)) ==
            Done(Hash(es + RegroupEntries(fields)), es + RegroupEntries(fields))
    decreases |fields|
  {
    hide ShapeOf, Insert, Writable, WritableEntries, DistinctKeys, Regroup, Flatten;
    if fields == [] {
      assert es + RegroupEntries(fields) == es;
    } else {
      hide InsertAll, FlattenTop;
      NextField(es, fields);
      ReadFirst(es, fields);
      var first := Entry(fields[0].key, Regroup(fields[0].value));
      ReadTop(es + [first], fields[1..]);
      ConsAppend(es, first, RegroupEntries(fields[1..]));
    }
  }

  /**
    Round trip: writing a parameter tree and reading the pairs in order rebuilds the
    same tree, with the same key order at every level, exactly when in every array each
    record starts with a key of the record before it.
   */
  lemma RoundTrip(es: seq<Entry>)
    requires WritableEntries(es)
    ensures InsertAll([], FlattenTop(es)).Done?
    ensures InsertAll([], FlattenTop(es)).entries == es <==> forall e :: e in es ==> Separated(e.value)
  {
    assert [] + es == es && [] + RegroupEntries(es) == RegroupEntries(es);
    ReadTop([], es);
    RegroupEntriesIff(es);
  }

  /** Records that share one key sequence are always told apart. */
  lemma {:induction false} SharedKeysSeparate(items: seq<Tree>, keys: seq<string>)
    requires keys != [] && forall x :: x in items ==> x.Hash? && Keys(x.entries) == keys
    ensures RecordsSeparate(items)
    decreases |items|
  {
    if |items| >= 2 {
      var a, b := items[0], items[1];
      assert a in items && b in items && forall x :: x in items[1..] ==> x in items;
      assert Keys(a.entries)[0] == b.entries[0].key;
      SharedKeysSeparate(items[1..], keys);
    }
  }

  /** One-cell records with different keys are read back as one record. */
  lemma TwoCells(a: string, v: Tree, b: string, w: Tree)
    requires a != b
    ensures Regroup(Builder([Hash([Entry(a, v)]), Hash([Entry(b, w)])])) ==
            Builder([Hash([Entry(a, v), Entry(b, w)])])
  {
    var one, two := Hash([Entry(a, v)]), Hash([Entry(b, w)]);
    assert Cells([Entry(a, v)]) == [Cell(a, v)] && Cells([Entry(b, w)]) == [Cell(b, w)];
    assert [one, two][1..] == [two] && [two][1..] == [];
    var evs := [Cell(a, v), Cell(b, w)];
    assert Events([two]) == [evs[1]];
    assert Events([one, two]) == evs;
    assert evs[1..] == [Cell(b, w)] && evs[1..][1..] == [];
    assert AddEvent([], evs[0]) == [one];
    PositionAbsent(one.entries, b);
    assert AddEvents([], evs) == AddEvents([one], [evs[1]]);
    assert AddEvents([one], [evs[1]]) == AddEvent([one], evs[1]);
    assert one.entries + [Entry(b, w)] == [Entry(a, v), Entry(b, w)];
    assert AddEvent([one], evs[1]) == [Hash([Entry(a, v), Entry(b, w)])];
    assert [evs[1]][1..] == [];
  }

  lemma RunTogetherExample()
    ensures var tree := [Entry("x", Builder([Hash([Entry("a", Str("1"))]), Hash([Entry("b", Str("2"))])]))];
            var back := [Entry("x", Builder([Hash([Entry("a", Str("1")), Entry("b", Str("2"))])]))];
            InsertAll([], FlattenTop(tree)) == Done(Hash(back), back)
  {
    hide Regroup, ShapeOf, Insert;
    var node := Builder([Hash([Entry("a", Str("1"))]), Hash([Entry("b", Str("2"))])]);
    var tree := [Entry("x", node)];
    TwoCells("a", Str("1"), "b", Str("2"));
    assert [] + tree == tree && [] + RegroupEntries(tree) == RegroupEntries(tree);
    ReadTop([], tree);
    assert tree[1..] == [] && RegroupEntries(tree) == [Entry("x", Regroup(node))];
  }
}
