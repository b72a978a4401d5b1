/**
  The round trip of whole parameter trees: hashes, arrays, and records in arrays whose values
  are again hashes, lists and arrays of records. Reading back what was written gives the same
  tree exactly when every record can be told from the one before it.
 */
module RackTrees {
  import opened Wrappers
  import opened ParamTree
  import opened RackKeys
  import opened RackInsert
  import opened RackNames
  import R = RackRoundTrip

  // ----- The writer -----

  /** A leaf and the parts that lead to it. */
  datatype Path = Path(parts: seq<Part>, value: Tree)

  function Under(part: Part, paths: seq<Path>): (r: seq<Path>)
    ensures |r| == |paths|
    ensures forall i :: 0 <= i < |r| ==> r[i] == Path([part] + paths[i].parts, paths[i].value)
  {
    seq(|paths|, i requires 0 <= i < |paths| => Path([part] + paths[i].parts, paths[i].value))
  }

  /** The leaves of a tree in document order. */
  function Paths(t: Tree): seq<Path>
    decreases t, 1
  {
    match t
    case Hash(es) => EntryPaths(es)
    case Builder(items) => ItemPaths(items)
    case _ => [Path([], t)]
  }

  function EntryPaths(es: seq<Entry>): seq<Path>
    decreases es, 0
  {
    if es == [] then [] else Under(Named(es[0].key), Paths(es[0].value)) + EntryPaths(es[1..])
  }

  function ItemPaths(items: seq<Tree>): seq<Path>
    decreases items, 0
  {
    if items == [] then [] else Under(Empty, Paths(items[0])) + ItemPaths(items[1..])
  }

  /** The pairs of a query string or a form that hold the tree under a key. */
  function PairsOf(k: string, paths: seq<Path>): (r: seq<(string, Tree)>)
    ensures |r| == |paths|
    ensures forall i :: 0 <= i < |r| ==> r[i] == (k + Text(paths[i].parts), paths[i].value)
  {
    seq(|paths|, i requires 0 <= i < |paths| => (k + Text(paths[i].parts), paths[i].value))
  }

  function WrittenTree(es: seq<Entry>): seq<(string, Tree)>
  {
    if es == [] then [] else PairsOf(es[0].key, Paths(es[0].value)) + WrittenTree(es[1..])
  }

  // ----- Trees that can be written this way -----

  /** A key of its own, without brackets and line breaks. */
  predicate GoodKey(k: string) { PlainKey(k) && '\n' !in k }

  /** Leaves, hashes that are not empty, and arrays of leaves and of hashes that are not empty. */
  ghost predicate Writable(t: Tree)
    decreases t, 1
  {
    match t
    case Hash(es) => es != [] && WritableEntries(es)
    case Builder(items) => items != [] && forall x :: x in items ==> !x.Builder? && Writable(x)
    case _ => R.IsLeaf(t)
  }

  ghost predicate WritableEntries(es: seq<Entry>)
    decreases es, 0
  {
    DistinctKeys(es) && forall e :: e in es ==> GoodKey(e.key) && Writable(e.value)
  }

  // ----- Records that can be told apart -----

  /** Of two neighbouring records, the first leaf of the second stands under fields that the first has. */
  predicate ToldFrom(left: Tree, right: Tree)
  {
    left.Hash? && right.Hash? ==> Paths(right) != [] && Leads(left, Paths(right)[0].parts)
  }

  ghost predicate Apart(t: Tree)
    decreases t
  {
    match t
    case Hash(es) => forall e :: e in es ==> Apart(e.value)
    case Builder(items) =>
      && (forall x :: x in items ==> Apart(x))
      && (forall i :: 0 < i < |items| ==> ToldFrom(items[i - 1], items[i]))
    case _ => true
  }

  // ----- Storing paths one after another -----

  function StoreAll(es: seq<Entry>, k: string, paths: seq<Path>): Outcome
    decreases |paths|
  {
    if paths == [] then Done(Hash(es), es) else
      match Stored(es, k, paths[0].parts, paths[0].value)
      case BadRequest => BadRequest
      case Done(_, es') => StoreAll(es', k, paths[1..])
  }

  /** The same inside a hash, where the first part is the key. */
  function BelowAll(es: seq<Entry>, paths: seq<Path>): Outcome
    decreases |paths|
  {
    if paths == [] then Done(Hash(es), es) else
      match StoredBelow(es, paths[0].parts, paths[0].value)
      case BadRequest => BadRequest
      case Done(_, es') => BelowAll(es', paths[1..])
  }

  /** One path into the items of an array: at the end, into the last record, or into a new one. */
  function AddPath(items: seq<Tree>, parts: seq<Part>, value: Tree): Option<seq<Tree>>
  {
    if parts == [] then Some(items + [value])
    else if Joins(items, parts) then
      match StoredBelow(items[|items| - 1].entries, parts, value)
      case BadRequest => None
      case Done(_, sub) => Some(items[..|items| - 1] + [Hash(sub)])
    else
      match StoredBelow([], parts, value)
      case BadRequest => None
      case Done(item, _) => Some(items + [item])
  }

  function AddPaths(items: seq<Tree>, paths: seq<Path>): Option<seq<Tree>>
    decreases |paths|
  {
    if paths == [] then Some(items) else
      match AddPath(items, paths[0].parts, paths[0].value)
      case None => None
      case Some(items') => AddPaths(items', paths[1..])
  }

  lemma {:induction false} BelowAllSplit(es: seq<Entry>, a: seq<Path>, b: seq<Path>)
    ensures BelowAll(es, a + b) ==
            if BelowAll(es, a).Done? then BelowAll(BelowAll(es, a).entries, b) else BadRequest
    decreases |a|
  {
    hide StoredBelow;
    if a == [] {
      assert a + b == b;
    } else {
      assert (a + b)[0] == a[0] && (a + b)[1..] == a[1..] + b;
      var first := StoredBelow(es, a[0].parts, a[0].value);
      if first.Done? { BelowAllSplit(first.entries, a[1..], b); }
    }
  }

  lemma {:induction false} AddPathsSplit(items: seq<Tree>, a: seq<Path>, b: seq<Path>)
    ensures AddPaths(items, a + b) ==
            if AddPaths(items, a).Some? then AddPaths(AddPaths(items, a).value, b) else None
    decreases |a|
  {
    hide AddPath;
    if a == [] {
      assert a + b == b;
    } else {
      assert (a + b)[0] == a[0] && (a + b)[1..] == a[1..] + b;
      var first := AddPath(items, a[0].parts, a[0].value);
      if first.Some? { AddPathsSplit(first.value, a[1..], b); }
    }
  }

  /** The outcome inside a hash, as the outcome of storing that hash under a key. */
  function HashUnder(es: seq<Entry>, k: string, o: Outcome): Outcome
  {
    match o
    case BadRequest => BadRequest
    case Done(_, sub) => Kept(es, k, Hash(sub))
  }

  function ItemsUnderKey(es: seq<Entry>, k: string, items: Option<seq<Tree>>): Outcome
  {
    match items
    case None => BadRequest
    case Some(now) => Kept(es, k, Builder(now))
  }

  /** Below a key that is missing or holds a hash, fields are stored in that hash. */
  lemma {:induction false} HashDescends(es: seq<Entry>, k: string, h: seq<Entry>, paths: seq<Path>)
    requires Get(es, k) == Hash(h) || (Get(es, k) == Nil && h == [] && paths != [])
    requires forall p :: p in paths ==> p.parts != [] && p.parts[0].Named?
    ensures Get(es, k) == Hash(h) && paths == [] ==> StoreAll(es, k, paths) == Done(Hash(es), es)
    ensures paths != [] ==>
              StoreAll(es, k, paths) ==
              HashUnder(es, k, BelowAll(h, paths))
    decreases |paths|
  {
    hide Stored, StoredBelow, Put, Get;
    if paths != [] {
      var p := paths[0];
      assert p in paths && forall q :: q in paths[1..] ==> q in paths;
      FieldStored(es, k, h, p.parts, p.value);
      var first := StoredBelow(h, p.parts, p.value);
      if first.Done? {
        var es1 := Put(es, k, Hash(first.entries));
        PutLaws(es, k, Hash(first.entries), k);
        HashDescends(es1, k, first.entries, paths[1..]);
        HashRest(es, k, first.entries, paths[1..]);
      }
    }
  }

  lemma FieldStored(es: seq<Entry>, k: string, h: seq<Entry>, parts: seq<Part>, value: Tree)
    requires Get(es, k) == Hash(h) || (Get(es, k) == Nil && h == [])
    requires parts != [] && parts[0].Named?
    ensures Stored(es, k, parts, value) ==
            HashUnder(es, k, StoredBelow(h, parts, value))
  {
    hide StoredBelow, StoredInItems, Put, Get;
  }

  lemma HashRest(es: seq<Entry>, k: string, h1: seq<Entry>, rest: seq<Path>)
    requires var es1 := Put(es, k, Hash(h1));
             if rest == [] then StoreAll(es1, k, rest) == Done(Hash(es1), es1)
             else StoreAll(es1, k, rest) == HashUnder(es1, k, BelowAll(h1, rest))
    ensures StoreAll(Put(es, k, Hash(h1)), k, rest) == HashUnder(es, k, BelowAll(h1, rest))
  {
    hide StoreAll, Put, StoredBelow;
    if rest != [] && BelowAll(h1, rest).Done? {
      PutTwice(es, k, Hash(h1), Hash(BelowAll(h1, rest).entries));
    }
  }

  /** Paths that all start with empty brackets. */
  ghost predicate IntoItems(paths: seq<Path>)
  {
    forall p :: p in paths ==> Single(p.parts) && !LineBreak(p.parts) && p.parts != [] && p.parts[0].Empty?
  }

  lemma IntoItemsRest(paths: seq<Path>)
    requires IntoItems(paths) && paths != []
    ensures IntoItems(paths[1..])
    ensures var parts := paths[0].parts; Single(parts) && !LineBreak(parts) && parts != [] && parts[0].Empty?
    ensures Below(paths)[0] == Path(paths[0].parts[1..], paths[0].value) && Below(paths)[1..] == Below(paths[1..])
  {
    hide Single, LineBreak;
    assert paths[0] in paths && forall q :: q in paths[1..] ==> q in paths;
  }

  /** Below a key that is missing or holds an array, empty brackets are stored in that array. */
  lemma {:induction false} ItemsDescend(es: seq<Entry>, k: string, items: seq<Tree>, paths: seq<Path>)
    requires Get(es, k) == Builder(items) || (Get(es, k) == Nil && items == [] && paths != [])
    requires IntoItems(paths)
    ensures Get(es, k) == Builder(items) && paths == [] ==> StoreAll(es, k, paths) == Done(Hash(es), es)
    ensures paths != [] ==> StoreAll(es, k, paths) == ItemsUnderKey(es, k, AddPaths(items, Below(paths)))
    decreases |paths|
  {
    hide Stored, AddPath, Put, Get, Single, LineBreak, IntoItems, Below;
    if paths != [] {
      var p := paths[0];
      IntoItemsRest(paths);
      ItemStored(es, k, items, p.parts, p.value);
      var first := AddPath(items, p.parts[1..], p.value);
      if first.Some? {
        PutLaws(es, k, Builder(first.value), k);
        ItemsDescend(Put(es, k, Builder(first.value)), k, first.value, paths[1..]);
        ItemsRest(es, k, first.value, paths[1..]);
      }
    }
  }

  /** Without the first part of each path. */
  function Below(paths: seq<Path>): (r: seq<Path>)
    ensures |r| == |paths|
    ensures forall i :: 0 <= i < |r| && paths[i].parts != [] ==> r[i] == Path(paths[i].parts[1..], paths[i].value)
  {
    seq(|paths|, i requires 0 <= i < |paths| =>
      if paths[i].parts == [] then paths[i] else Path(paths[i].parts[1..], paths[i].value))
  }

  lemma ItemStored(es: seq<Entry>, k: string, items: seq<Tree>, parts: seq<Part>, value: Tree)
    requires Get(es, k) == Builder(items) || (Get(es, k) == Nil && items == [])
    requires Single(parts) && !LineBreak(parts) && parts != [] && parts[0].Empty?
    ensures Stored(es, k, parts, value) == ItemsUnderKey(es, k, AddPath(items, parts[1..], value))
  {
    hide StoredBelow, Put, Get, LineBreak, Leads, Single;
    assert parts == [Empty] <==> parts[1..] == [];
    assert Stored(es, k, parts, value) == StoredInItems(es, k, items, parts, value);
  }

  lemma ItemsRest(es: seq<Entry>, k: string, now: seq<Tree>, rest: seq<Path>)
    requires var es1 := Put(es, k, Builder(now));
             if rest == [] then StoreAll(es1, k, rest) == Done(Hash(es1), es1)
             else StoreAll(es1, k, rest) == ItemsUnderKey(es1, k, AddPaths(now, Below(rest)))
    ensures StoreAll(Put(es, k, Builder(now)), k, rest) == ItemsUnderKey(es, k, AddPaths(now, Below(rest)))
  {
    hide StoreAll, Put, AddPath;
    if rest != [] && AddPaths(now, Below(rest)).Some? {
      PutTwice(es, k, Builder(now), Builder(AddPaths(now, Below(rest)).value));
    }
  }

  // ----- What a path leads to afterwards -----

  predicate Fields(parts: seq<Part>) { forall p :: p in parts ==> p.Named? }

  /** A path that leads somewhere after a leaf is stored led there before, or is the start of the stored path. */
  lemma {:induction false} LeadsAfter(es: seq<Entry>, k: string, parts: seq<Part>, value: Tree, q: seq<Part>)
    requires R.IsLeaf(value) && Single(parts) && !LineBreak(parts) && Stored(es, k, parts, value).Done?
    requires q != [] && Leads(Hash(Stored(es, k, parts, value).entries), q)
    ensures Leads(Hash(es), q) || q <= [Named(k)] + parts
    decreases |parts|
  {
    hide Put, Get, Has, Joins, LineBreak, Stored, Single;
    var f := q[0].field;
    if parts == [] {
      StoredPlain(es, k, value);
      PutLaws(es, k, value, f);
      LeafLeads(value, q[1..]);
      StartOf(k, parts, q);
    } else if parts[0].Empty? {
      var now := StoredArray(es, k, parts, value);
      PutLaws(es, k, Builder(now), f);
      LeafLeads(Builder(now), q[1..]);
      StartOf(k, parts, q);
    } else {
      var sub := StoredHash(es, k, parts, value);
      PutLaws(es, k, Hash(Stored(sub, parts[0].field, parts[1..], value).entries), f);
      PartsAhead(parts);
      StartOf(k, parts, q);
      if f == k && q[1..] != [] {
        LeadsAfter(sub, parts[0].field, parts[1..], value, q[1..]);
        EmptyLeads(q[1..]);
        if Get(es, k).Hash? { MissingIsNil(es, k); }
      }
    }
  }

  lemma LeafLeads(t: Tree, q: seq<Part>)
    requires !t.Hash?
    ensures Leads(t, q) <==> q == []
  {
  }

  lemma AlwaysLed(t: Tree)
    ensures Leads(t, [])
  {
  }

  lemma EmptyLeads(q: seq<Part>)
    requires q != []
    ensures !Leads(Hash([]), q)
  {
  }

  /** How a path starts a longer one, one part at a time. */
  lemma StartOf(k: string, parts: seq<Part>, q: seq<Part>)
    requires q != []
    ensures q[0] == Named(k) && q[1..] == [] ==> q <= [Named(k)] + parts
    ensures q[0] == Named(k) && parts != [] && parts[0].Named? && q[1..] <= [Named(parts[0].field)] + parts[1..] ==>
              q <= [Named(k)] + parts
  {
    assert q == [q[0]] + q[1..];
    if parts != [] && parts[0].Named? {
      assert [Named(parts[0].field)] + parts[1..] == parts;
    }
  }

  lemma StoredArray(es: seq<Entry>, k: string, parts: seq<Part>, value: Tree) returns (now: seq<Tree>)
    requires parts != [] && parts[0].Empty? && Single(parts) && !LineBreak(parts) && Stored(es, k, parts, value).Done?
    ensures Stored(es, k, parts, value) == Kept(es, k, Builder(now))
  {
    hide Put, Get, LineBreak, Single, Stored, AddPath;
    HeldArray(es, k, parts, value);
    var items := ItemsUnder(es, k);
    ItemStored(es, k, items, parts, value);
    now := AddPath(items, parts[1..], value).value;
  }

  lemma HeldArray(es: seq<Entry>, k: string, parts: seq<Part>, value: Tree)
    requires parts != [] && parts[0].Empty? && !LineBreak(parts) && Stored(es, k, parts, value).Done?
    ensures Get(es, k) == Nil || Get(es, k).Builder?
  {
    hide Put, Get, LineBreak, StoredInItems;
  }

  lemma StoredHash(es: seq<Entry>, k: string, parts: seq<Part>, value: Tree) returns (sub: seq<Entry>)
    requires parts != [] && parts[0].Named? && Stored(es, k, parts, value).Done?
    ensures Get(es, k) == Hash(sub) || (Get(es, k) == Nil && sub == [])
    ensures Stored(sub, parts[0].field, parts[1..], value).Done?
    ensures Stored(es, k, parts, value) == Kept(es, k, Hash(Stored(sub, parts[0].field, parts[1..], value).entries))
  {
    hide Put, Get, StoredInItems;
    sub := if Get(es, k).Hash? then Get(es, k).entries else [];
    assert Empties(parts) == 0;
  }

  // ----- The paths of a tree -----

  /** A leaf under plain parts, no two empty brackets side by side and no line break. */
  ghost predicate FinePath(p: Path)
  {
    R.IsLeaf(p.value) && Single(p.parts) && !LineBreak(p.parts) && PlainParts(p.parts)
  }

  /** What the paths of a hash, an array and a leaf start with. */
  predicate Starts(t: Tree, parts: seq<Part>)
  {
    match t
    case Hash(_) => parts != [] && parts[0].Named?
    case Builder(_) => parts != [] && parts[0].Empty? && (|parts| > 1 ==> parts[1].Named?)
    case _ => parts == []
  }

  ghost predicate AllFine(paths: seq<Path>) { forall p :: p in paths ==> FinePath(p) }

  lemma {:induction false} TreePaths(t: Tree)
    requires Writable(t)
    ensures Paths(t) != [] && AllFine(Paths(t)) && forall p :: p in Paths(t) ==> Starts(t, p.parts)
    decreases t, 1
  {
    hide FinePath;
    match t
    case Hash(es) => EntryTreePaths(es);
    case Builder(items) =>
      forall x | x in items ensures !x.Builder? && Writable(x) { }
      ItemTreePaths(items);
    case _ => LeafPath(t);
  }

  lemma LeafPath(t: Tree)
    requires R.IsLeaf(t)
    ensures FinePath(Path([], t))
  {
  }

  lemma FieldPath(f: string, p: Path)
    requires GoodKey(f) && FinePath(p)
    ensures FinePath(Path([Named(f)] + p.parts, p.value))
  {
    hide LineBreak, PlainKey;
    var parts := [Named(f)] + p.parts;
    LineBreakUnfolds(parts);
    assert parts[1..] == p.parts;
    assert forall i :: 0 < i < |parts| ==> parts[i] == p.parts[i - 1];
    assert forall q :: q in parts ==> q == Named(f) || q in p.parts;
  }

  lemma ItemPath(p: Path)
    requires FinePath(p) && (p.parts != [] ==> p.parts[0].Named?)
    ensures FinePath(Path([Empty] + p.parts, p.value))
  {
    hide LineBreak, PlainKey;
    var parts := [Empty] + p.parts;
    LineBreakUnfolds(parts);
    assert parts[1..] == p.parts;
    assert forall i :: 0 < i < |parts| ==> parts[i] == p.parts[i - 1];
    assert forall q :: q in parts ==> q == Empty || q in p.parts;
  }

  lemma {:induction false} EntryTreePaths(es: seq<Entry>)
    requires forall e :: e in es ==> GoodKey(e.key) && Writable(e.value)
    ensures AllFine(EntryPaths(es)) && (es != [] ==> EntryPaths(es) != [])
    ensures forall p :: p in EntryPaths(es) ==> p.parts != [] && p.parts[0].Named?
    ensures forall p :: p in EntryPaths(es) ==> exists e :: e in es && p.parts[0] == Named(e.key)
    decreases es, 0
  {
    hide FinePath, GoodKey;
    if es != [] {
      var f, below := es[0].key, Paths(es[0].value);
      assert es[0] in es && forall e :: e in es[1..] ==> e in es;
      TreePaths(es[0].value);
      EntryTreePaths(es[1..]);
      forall p | p in Under(Named(f), below) ensures FinePath(p) && p.parts != [] && p.parts[0] == Named(f) {
        var i :| 0 <= i < |below| && Under(Named(f), below)[i] == p;
        assert below[i] in below;
        FieldPath(f, below[i]);
      }
    }
  }

  lemma {:induction false} ItemTreePaths(items: seq<Tree>)
    requires forall x :: x in items ==> !x.Builder? && Writable(x)
    ensures AllFine(ItemPaths(items)) && (items != [] ==> ItemPaths(items) != [])
    ensures forall p :: p in ItemPaths(items) ==> Starts(Builder(items), p.parts)
    decreases items, 0
  {
    hide FinePath;
    if items != [] {
      assert items[0] in items && forall x :: x in items[1..] ==> x in items;
      TreePaths(items[0]);
      ItemTreePaths(items[1..]);
      ItemsUnderEmpty(items[0], items);
    }
  }

  lemma ItemsUnderEmpty(x: Tree, items: seq<Tree>)
    requires !x.Builder? && AllFine(Paths(x)) && forall p :: p in Paths(x) ==> Starts(x, p.parts)
    ensures AllFine(Under(Empty, Paths(x))) && forall p :: p in Under(Empty, Paths(x)) ==> Starts(Builder(items), p.parts)
  {
    hide FinePath;
    var below := Paths(x);
    forall p | p in Under(Empty, below) ensures FinePath(p) && Starts(Builder(items), p.parts) {
      var i :| 0 <= i < |below| && Under(Empty, below)[i] == p;
      assert below[i] in below;
      ItemPath(below[i]);
    }
  }

  /** No path of fields alone starts another path of the same tree. */
  lemma {:induction false} PathsPart(t: Tree, i: nat, j: nat)
    requires Writable(t) && i < |Paths(t)| && j < |Paths(t)| && i != j && Fields(Paths(t)[j].parts)
    ensures !(Paths(t)[j].parts <= Paths(t)[i].parts)
    decreases t, 1
  {
    hide Fields;
    match t
    case Hash(es) => EntryPathsPart(es, i, j);
    case Builder(items) => ArrayNotFields(t, j);
    case _ =>
  }

  lemma ArrayNotFields(t: Tree, j: nat)
    requires Writable(t) && t.Builder? && j < |Paths(t)|
    ensures !Fields(Paths(t)[j].parts)
  {
    TreePaths(t);
    var p := Paths(t)[j];
    assert p in Paths(t) && p.parts[0] in p.parts;
  }

  lemma {:induction false} EntryPathsPart(es: seq<Entry>, i: nat, j: nat)
    requires WritableEntries(es)
    requires i < |EntryPaths(es)| && j < |EntryPaths(es)| && i != j && Fields(EntryPaths(es)[j].parts)
    ensures !(EntryPaths(es)[j].parts <= EntryPaths(es)[i].parts)
    decreases es, 0
  {
    hide GoodKey, EntryPaths, Fields, WritableEntries, Paths;
    EntryPathsAt(es, i);
    EntryPathsAt(es, j);
    var f, below, rest := es[0].key, Paths(es[0].value), es[1..];
    var n := |below|;
    WritableRest(es);
    if i < n && j < n {
      FieldsBelow(f, below[j].parts);
      PathsPart(es[0].value, i, j);
      StartsAlike(f, below[j].parts, below[i].parts);
    } else if i >= n && j >= n {
      EntryPathsPart(rest, i - n, j - n);
    } else {
      RestStarts(rest, f, if i >= n then i - n else j - n);
    }
  }

  lemma EntryPathsAt(es: seq<Entry>, i: nat)
    requires i < |EntryPaths(es)|
    ensures es != []
    ensures var below := Paths(es[0].value);
            if i < |below| then EntryPaths(es)[i].parts == [Named(es[0].key)] + below[i].parts
            else i - |below| < |EntryPaths(es[1..])| && EntryPaths(es)[i] == EntryPaths(es[1..])[i - |below|]
  {
    hide Paths;
  }

  /** The paths of the other entries start with other keys. */
  lemma RestStarts(rest: seq<Entry>, f: string, i: nat)
    requires WritableEntries(rest) && (forall e :: e in rest ==> e.key != f) && i < |EntryPaths(rest)|
    ensures EntryPaths(rest)[i].parts != [] && EntryPaths(rest)[i].parts[0].Named?
    ensures EntryPaths(rest)[i].parts[0] != Named(f)
  {
    hide GoodKey, EntryPaths, Writable;
    EntryTreePaths(rest);
    assert EntryPaths(rest)[i] in EntryPaths(rest);
  }

  lemma StartsAlike(f: string, q: seq<Part>, p: seq<Part>)
    requires !(q <= p)
    ensures !([Named(f)] + q <= [Named(f)] + p)
  {
    assert ([Named(f)] + q)[1..] == q && ([Named(f)] + p)[1..] == p;
  }

  lemma FieldsBelow(f: string, parts: seq<Part>)
    requires Fields([Named(f)] + parts)
    ensures Fields(parts)
  {
    assert forall p :: p in parts ==> p in [Named(f)] + parts;
  }

  lemma WritableRest(es: seq<Entry>)
    requires WritableEntries(es) && es != []
    ensures WritableEntries(es[1..]) && GoodKey(es[0].key) && Writable(es[0].value)
    ensures forall e :: e in es[1..] ==> e.key != es[0].key
  {
    hide GoodKey, Writable;
    assert es[0] in es && forall e :: e in es[1..] ==> e in es;
    assert forall k :: 0 <= k < |es| - 1 ==> es[1..][k] == es[k + 1];
  }

  // ----- Inside one record every later leaf joins -----

  /** What leads somewhere after all the paths led there before, or starts one of them. */
  lemma {:induction false} LedBy(h: seq<Entry>, paths: seq<Path>, q: seq<Part>)
    requires AllFine(paths) && (forall p :: p in paths ==> p.parts != [] && p.parts[0].Named?)
    requires BelowAll(h, paths).Done? && q != [] && Leads(Hash(BelowAll(h, paths).entries), q)
    ensures Leads(Hash(h), q) || exists i :: 0 <= i < |paths| && q <= paths[i].parts
    decreases |paths|
  {
    hide StoredBelow, Leads, FinePath;
    if paths != [] {
      var p := paths[0];
      assert p in paths && forall r :: r in paths[1..] ==> r in paths;
      var h1 := StoredBelow(h, p.parts, p.value).entries;
      LedBy(h1, paths[1..], q);
      if Leads(Hash(h1), q) {
        LedByOne(h, p, q);
      } else {
        var i :| 0 <= i < |paths| - 1 && q <= paths[1..][i].parts;
        assert paths[i + 1] == paths[1..][i];
      }
    }
  }

  lemma LedByOne(h: seq<Entry>, p: Path, q: seq<Part>)
    requires FinePath(p) && p.parts != [] && p.parts[0].Named? && StoredBelow(h, p.parts, p.value).Done?
    requires q != [] && Leads(Hash(StoredBelow(h, p.parts, p.value).entries), q)
    ensures Leads(Hash(h), q) || q <= p.parts
  {
    hide Leads, LineBreak, Single, Stored;
    var k, rest := p.parts[0].field, p.parts[1..];
    OnlyFieldFirst(p);
    assert StoredBelow(h, p.parts, p.value) == Stored(h, k, rest, p.value) by { FirstField(h, p.parts, p.value); }
    LeadsAfter(h, k, rest, p.value, q);
    assert [Named(k)] + rest == p.parts;
  }

  lemma OnlyFieldFirst(p: Path)
    requires FinePath(p) && p.parts != [] && p.parts[0].Named?
    ensures R.IsLeaf(p.value) && Single(p.parts[1..]) && !LineBreak(p.parts[1..])
  {
    hide LineBreak;
    LineBreakUnfolds(p.parts);
  }

  /** A field in front is the key below. */
  lemma FirstField(h: seq<Entry>, parts: seq<Part>, value: Tree)
    requires parts != [] && parts[0].Named?
    ensures StoredBelow(h, parts, value) == Stored(h, parts[0].field, parts[1..], value)
  {
    hide Stored;
    assert Empties(parts) == 0;
  }

  /** No path of the list is led to by those before it. */
  ghost predicate Unled(h: seq<Entry>, paths: seq<Path>)
  {
    forall j :: 0 <= j < |paths| && BelowAll(h, paths[..j]).Done? ==>
      !Leads(Hash(BelowAll(h, paths[..j]).entries), paths[j].parts)
  }

  lemma UnledRest(h: seq<Entry>, paths: seq<Path>)
    requires paths != [] && Unled(h, paths) && StoredBelow(h, paths[0].parts, paths[0].value).Done?
    ensures Unled(StoredBelow(h, paths[0].parts, paths[0].value).entries, paths[1..])
    ensures !Leads(Hash(h), paths[0].parts)
  {
    hide Leads, StoredBelow;
    var h1 := StoredBelow(h, paths[0].parts, paths[0].value).entries;
    assert paths[..0] == [] && BelowAll(h, []) == Done(Hash(h), h);
    forall j | 0 <= j < |paths| - 1 && BelowAll(h1, paths[1..][..j]).Done?
      ensures !Leads(Hash(BelowAll(h1, paths[1..][..j]).entries), paths[1..][j].parts)
    {
      assert paths[..j + 1][0] == paths[0] && paths[..j + 1][1..] == paths[1..][..j];
      assert BelowAll(h, paths[..j + 1]) == BelowAll(h1, paths[1..][..j]);
    }
  }

  /** Such paths all join the last record. */
  lemma {:induction false} AllJoin(acc: seq<Tree>, h: seq<Entry>, paths: seq<Path>)
    requires Unled(h, paths) && forall p :: p in paths ==> p.parts != []
    ensures AddPaths(acc + [Hash(h)], paths) ==
            if BelowAll(h, paths).Done? then Some(acc + [Hash(BelowAll(h, paths).entries)]) else None
    decreases |paths|
  {
    hide Leads, StoredBelow, Unled;
    if paths != [] {
      var p := paths[0];
      assert p in paths && forall q :: q in paths[1..] ==> q in paths;
      var items := acc + [Hash(h)];
      assert items[|items| - 1] == Hash(h) && items[..|items| - 1] == acc;
      UnledFirst(h, paths);
      var first := StoredBelow(h, p.parts, p.value);
      if first.Done? {
        UnledRest(h, paths);
        AllJoin(acc, first.entries, paths[1..]);
      }
    }
  }

  lemma UnledFirst(h: seq<Entry>, paths: seq<Path>)
    requires paths != [] && Unled(h, paths)
    ensures !Leads(Hash(h), paths[0].parts)
  {
    hide Leads, StoredBelow;
    assert paths[..0] == [] && BelowAll(h, []) == Done(Hash(h), h);
  }

  /** The leaves of one record are not led to by those before them. */
  lemma RecordUnled(x: Tree)
    requires Writable(x) && x.Hash?
    ensures Unled([], Paths(x))
  {
    hide Leads, StoredBelow, FinePath, Fields;
    var paths := Paths(x);
    TreePaths(x);
    forall j | 0 <= j < |paths| && BelowAll([], paths[..j]).Done?
      ensures !Leads(Hash(BelowAll([], paths[..j]).entries), paths[j].parts)
    {
      var q := paths[j].parts;
      assert paths[j] in paths && forall p :: p in paths[..j] ==> p in paths;
      EmptyLeads(q);
      if Leads(Hash(BelowAll([], paths[..j]).entries), q) {
        LedBy([], paths[..j], q);
        var i :| 0 <= i < j && q <= paths[..j][i].parts;
        LedFields(Hash(BelowAll([], paths[..j]).entries), q);
        PathsPart(x, i, j);
      }
    }
  }

  lemma {:induction false} LedFields(t: Tree, q: seq<Part>)
    requires Leads(t, q)
    ensures Fields(q)
    decreases |q|
  {
    if q != [] {
      LedFields(Get(t.entries, q[0].field), q[1..]);
      assert q == [q[0]] + q[1..];
    }
  }

  /** A record whose first leaf opens a new item becomes one item. */
  lemma RecordOpens(acc: seq<Tree>, x: Tree)
    requires Writable(x) && x.Hash? && Paths(x) != [] && !Joins(acc, Paths(x)[0].parts)
    ensures AddPaths(acc, Paths(x)) ==
            if BelowAll([], Paths(x)).Done? then Some(acc + [Hash(BelowAll([], Paths(x)).entries)]) else None
  {
    hide Leads, StoredBelow, FinePath, Joins, Unled;
    var paths := Paths(x);
    TreePaths(x);
    var p := paths[0];
    assert p in paths && forall q :: q in paths[1..] ==> q in paths;
    RecordUnled(x);
    var first := StoredBelow([], p.parts, p.value);
    if first.Done? {
      FreshReturned(p);
      UnledRest([], paths);
      AllJoin(acc, first.entries, paths[1..]);
    }
  }

  lemma FreshReturned(p: Path)
    requires p.parts != [] && p.parts[0].Named? && StoredBelow([], p.parts, p.value).Done?
    ensures StoredBelow([], p.parts, p.value).returned == Hash(StoredBelow([], p.parts, p.value).entries)
  {
    hide StoredBelow, Put, Get, Joins, Leads, HashNext;
    FirstField([], p.parts, p.value);
    KeptReturned([], p.parts[0].field, p.parts[1..], p.value);
  }

  lemma KeptReturned(es: seq<Entry>, k: string, parts: seq<Part>, value: Tree)
    requires Stored(es, k, parts, value).Done?
    ensures Stored(es, k, parts, value).returned == Hash(Stored(es, k, parts, value).entries)
  {
    hide StoredBelow, Put, Get, Joins, Leads, HashNext;
  }

  // ----- Trees only grow -----

  /** Everything that a reads, b reads too; a nil may have become anything. */
  ghost predicate Grows(a: Tree, b: Tree)
    decreases a
  {
    match a
    case Nil => true
    case Hash(es) =>
      b.Hash? && forall k :: Has(es, k) ==> Has(b.entries, k) && Grows(es[Position(es, k)].value, Get(b.entries, k))
    case Builder(items) =>
      b.Builder? && |items| <= |b.items| && forall i :: 0 <= i < |items| ==> Grows(items[i], b.items[i])
    case _ => a == b
  }

  lemma {:induction false} GrowsSelf(a: Tree)
    ensures Grows(a, a)
    decreases a
  {
    match a
    case Hash(es) =>
      forall k | Has(es, k) ensures Grows(es[Position(es, k)].value, Get(es, k)) { GrowsSelf(es[Position(es, k)].value); }
    case Builder(items) =>
      forall i | 0 <= i < |items| ensures Grows(items[i], items[i]) { GrowsSelf(items[i]); }
    case _ =>
  }

  lemma {:induction false} GrowsOn(a: Tree, b: Tree, c: Tree)
    requires Grows(a, b) && Grows(b, c)
    ensures Grows(a, c)
    decreases a
  {
    match a
    case Hash(es) =>
      forall k | Has(es, k) ensures Has(c.entries, k) && Grows(es[Position(es, k)].value, Get(c.entries, k)) {
        assert Has(b.entries, k);
        GrowsOn(es[Position(es, k)].value, Get(b.entries, k), Get(c.entries, k));
      }
    case Builder(items) =>
      forall i | 0 <= i < |items| ensures Grows(items[i], c.items[i]) { GrowsOn(items[i], b.items[i], c.items[i]); }
    case _ =>
  }

  /** How far a path leads: one for each field that is there, and all items of an array on the way. */
  function Extent(t: Tree, parts: seq<Part>): nat
    decreases |parts|, 0
  {
    if parts == [] then 0
    else if parts[0].Named? then
      if t.Hash? && Has(t.entries, parts[0].field) then 1 + Extent(Get(t.entries, parts[0].field), parts[1..]) else 0
    else if t.Builder? then 1 + ExtentSum(t.items, parts[1..])
    else 0
  }

  function ExtentSum(items: seq<Tree>, parts: seq<Part>): nat
    decreases |parts|, |items|
  {
    if items == [] then 0 else ExtentSum(items[..|items| - 1], parts) + 1 + Extent(items[|items| - 1], parts)
  }

  lemma {:induction false} ExtentGrows(a: Tree, b: Tree, parts: seq<Part>)
    requires Grows(a, b)
    ensures Extent(a, parts) <= Extent(b, parts)
    decreases |parts|, 0
  {
    if parts != [] {
      if parts[0].Named? {
        if a.Hash? && Has(a.entries, parts[0].field) {
          ExtentGrows(Get(a.entries, parts[0].field), Get(b.entries, parts[0].field), parts[1..]);
        }
      } else if a.Builder? {
        SumGrows(a.items, b.items, parts[1..]);
      }
    }
  }

  lemma {:induction false} SumGrows(a: seq<Tree>, b: seq<Tree>, parts: seq<Part>)
    requires |a| <= |b| && forall i :: 0 <= i < |a| ==> Grows(a[i], b[i])
    ensures ExtentSum(a, parts) <= ExtentSum(b, parts)
    decreases |parts|, |b|
  {
    if b != [] {
      var last := |b| - 1;
      if |a| == |b| {
        ExtentGrows(a[last], b[last], parts);
        SumGrows(a[..last], b[..last], parts);
      } else {
        SumGrows(a, b[..last], parts);
      }
    }
  }

  lemma PutGrows(es: seq<Entry>, k: string, value: Tree)
    requires Has(es, k) ==> Grows(Get(es, k), value)
    ensures Grows(Hash(es), Hash(Put(es, k, value)))
  {
    hide Put, Position;
    var es' := Put(es, k, value);
    forall key | Has(es, key) ensures Has(es', key) && Grows(es[Position(es, key)].value, Get(es', key)) {
      PutLaws(es, k, value, key);
      GrowsSelf(Get(es, key));
    }
  }

  /** Storing a leaf where no path led only adds to a tree, and the path then leads farther. */
  lemma {:induction false} StoringGrows(es: seq<Entry>, k: string, parts: seq<Part>, value: Tree)
    requires R.IsLeaf(value) && Single(parts) && !LineBreak(parts) && Stored(es, k, parts, value).Done?
    requires !Leads(Hash(es), [Named(k)] + parts)
    ensures Grows(Hash(es), Hash(Stored(es, k, parts, value).entries))
    ensures Extent(Hash(es), [Named(k)] + parts) < Extent(Hash(Stored(es, k, parts, value).entries), [Named(k)] + parts)
    decreases |parts|
  {
    hide Put, Get, Has, Joins, LineBreak, Stored, Single, Leads, Grows, Extent, AddPath, ExtentSum;
    ReachesBelow(es, k, parts);
    if parts == [] {
      StoredPlain(es, k, value);
      AlwaysLed(Get(es, k));
      PutGrows(es, k, value);
      PutExtent(es, k, value, parts);
    } else if parts[0].Empty? {
      HeldArray(es, k, parts, value);
      var items := ItemsUnder(es, k);
      ItemStored(es, k, items, parts, value);
      var now := AddPath(items, parts[1..], value).value;
      OneEmptyFirst(parts);
      ItemsGrow(items, parts[1..], value);
      NilGrows(Get(es, k), Builder(now));
      PutGrows(es, k, Builder(now));
      PutExtent(es, k, Builder(now), parts);
      NilExtent(parts);
      ArrayExtent(items, parts);
      ArrayExtent(now, parts);
    } else {
      var sub := StoredHash(es, k, parts, value);
      PartsAhead(parts);
      var f, rest := parts[0].field, parts[1..];
      assert [Named(f)] + rest == parts;
      EmptyLeads(parts);
      if Get(es, k).Hash? { MissingIsNil(es, k); }
      var held := Hash(Stored(sub, f, rest, value).entries);
      StoringGrows(sub, f, rest, value);
      NilGrows(Get(es, k), held);
      PutGrows(es, k, held);
      PutExtent(es, k, held, parts);
      NilExtent(parts);
    }
  }

  lemma NilGrows(a: Tree, b: Tree)
    ensures a == Nil ==> Grows(a, b)
  {
  }

  lemma NilExtent(parts: seq<Part>)
    ensures Extent(Nil, parts) == 0
  {
  }

  lemma ReachesBelow(es: seq<Entry>, k: string, parts: seq<Part>)
    ensures Leads(Hash(es), [Named(k)] + parts) <==> Has(es, k) && Leads(Get(es, k), parts)
    ensures Extent(Hash(es), [Named(k)] + parts) == if Has(es, k) then 1 + Extent(Get(es, k), parts) else 0
  {
    hide Get, Has;
    assert ([Named(k)] + parts)[1..] == parts;
  }

  lemma PutExtent(es: seq<Entry>, k: string, value: Tree, parts: seq<Part>)
    ensures Extent(Hash(Put(es, k, value)), [Named(k)] + parts) == 1 + Extent(value, parts)
  {
    hide Put, Get, Has, Extent;
    PutLaws(es, k, value, k);
    ReachesBelow(Put(es, k, value), k, parts);
  }

  lemma OneEmptyFirst(parts: seq<Part>)
    requires parts != [] && parts[0].Empty? && Single(parts) && !LineBreak(parts)
    ensures Single(parts[1..]) && !LineBreak(parts[1..]) && (parts[1..] != [] ==> parts[1..][0].Named?)
  {
    hide LineBreak;
    LineBreakUnfolds(parts);
  }

  lemma ArrayExtent(items: seq<Tree>, parts: seq<Part>)
    requires parts != [] && parts[0].Empty?
    ensures Extent(Builder(items), parts) == 1 + ExtentSum(items, parts[1..])
  {
  }

  /** Adding a path to an array adds an item, or adds to the last record. */
  lemma {:induction false} ItemsGrow(items: seq<Tree>, parts: seq<Part>, value: Tree)
    requires R.IsLeaf(value) && Single(parts) && !LineBreak(parts) && (parts != [] ==> parts[0].Named?)
    requires AddPath(items, parts, value).Some?
    ensures Grows(Builder(items), Builder(AddPath(items, parts, value).value))
    ensures ExtentSum(items, parts) < ExtentSum(AddPath(items, parts, value).value, parts)
    ensures Joins(items, parts) && parts != [] ==>
              var now := AddPath(items, parts, value).value;
              |now| == |items| && !Grows(now[|items| - 1], items[|items| - 1])
    decreases |parts|
  {
    hide Stored, StoredBelow, LineBreak, Single, Leads, Grows, Extent, ExtentSum;
    var now := AddPath(items, parts, value).value;
    if parts != [] && Joins(items, parts) {
      var last := |items| - 1;
      var h, f, rest := items[last].entries, parts[0].field, parts[1..];
      FirstField(h, parts, value);
      LineBreakUnfolds(parts);
      SingleRest(parts);
      assert [Named(f)] + rest == parts;
      StoringGrows(h, f, rest, value);
      LastGrows(items, Hash(Stored(h, f, rest, value).entries), parts);
      if Grows(now[last], items[last]) { ExtentGrows(now[last], items[last], parts); }
    } else {
      OneMoreItem(items, now[|items|], parts);
    }
  }

  lemma SingleRest(parts: seq<Part>)
    requires parts != [] && Single(parts)
    ensures Single(parts[1..])
  {
  }

  lemma OneMoreItem(items: seq<Tree>, item: Tree, parts: seq<Part>)
    ensures Grows(Builder(items), Builder(items + [item]))
    ensures ExtentSum(items, parts) < ExtentSum(items + [item], parts)
  {
    hide Extent;
    forall i | 0 <= i < |items| ensures Grows(items[i], (items + [item])[i]) { GrowsSelf(items[i]); }
    assert (items + [item])[..|items|] == items;
  }

  lemma LastGrows(items: seq<Tree>, item: Tree, parts: seq<Part>)
    requires items != [] && Grows(items[|items| - 1], item)
    requires Extent(items[|items| - 1], parts) < Extent(item, parts)
    ensures var now := items[..|items| - 1] + [item];
            Grows(Builder(items), Builder(now)) && ExtentSum(items, parts) < ExtentSum(now, parts)
  {
    hide Extent;
    var now := items[..|items| - 1] + [item];
    forall i | 0 <= i < |items| ensures Grows(items[i], now[i]) {
      if i < |items| - 1 { GrowsSelf(items[i]); }
    }
    assert now[..|items| - 1] == items[..|items| - 1];
  }

  lemma {:induction false} AllGrow(items: seq<Tree>, paths: seq<Path>)
    requires AllFine(paths) && (forall p :: p in paths ==> p.parts != [] ==> p.parts[0].Named?)
    requires AddPaths(items, paths).Some?
    ensures Grows(Builder(items), Builder(AddPaths(items, paths).value))
    decreases |paths|
  {
    hide AddPath, Grows, FinePath;
    if paths == [] {
      GrowsSelf(Builder(items));
    } else {
      var p := paths[0];
      assert p in paths && forall q :: q in paths[1..] ==> q in paths;
      var next := AddPath(items, p.parts, p.value).value;
      OneGrows(items, p);
      AllGrow(next, paths[1..]);
      GrowsOn(Builder(items), Builder(next), Builder(AddPaths(items, paths).value));
    }
  }

  lemma OneGrows(items: seq<Tree>, p: Path)
    requires FinePath(p) && (p.parts != [] ==> p.parts[0].Named?) && AddPath(items, p.parts, p.value).Some?
    ensures Grows(Builder(items), Builder(AddPath(items, p.parts, p.value).value))
  {
    hide AddPath, Grows;
    ItemsGrow(items, p.parts, p.value);
  }

  // ----- Reading back what was written -----

  ghost predicate AllApart(es: seq<Entry>) { forall e :: e in es ==> Apart(e.value) }

  /** The items from here on are right, and each record is told from the one before it. */
  ghost predicate ItemsApart(before: seq<Tree>, items: seq<Tree>)
  {
    && (forall x :: x in items ==> Apart(x))
    && forall i :: |before| <= i < |before + items| && i > 0 ==> ToldFrom((before + items)[i - 1], (before + items)[i])
  }

  lemma ItemsApartUnfolds(before: seq<Tree>, items: seq<Tree>)
    requires items != []
    ensures ItemsApart(before, items) <==>
            && Apart(items[0]) && (before == [] || ToldFrom(before[|before| - 1], items[0]))
            && ItemsApart(before + [items[0]], items[1..])
  {
    hide Apart, ToldFrom;
    var all := before + items;
    assert items == [items[0]] + items[1..];
    assert before + [items[0]] + items[1..] == all && all[|before|] == items[0];
    assert before != [] ==> all[|before| - 1] == before[|before| - 1];
  }

  /** A list of paths under a field is stored under that key. */
  lemma {:induction false} UnderField(h: seq<Entry>, f: string, paths: seq<Path>)
    ensures BelowAll(h, Under(Named(f), paths)) == StoreAll(h, f, paths)
    decreases |paths|
  {
    hide Stored, StoredBelow;
    if paths != [] {
      var p := paths[0];
      var parts := [Named(f)] + p.parts;
      FirstField(h, parts, p.value);
      assert parts[1..] == p.parts;
      assert Under(Named(f), paths)[1..] == Under(Named(f), paths[1..]);
      var first := Stored(h, f, p.parts, p.value);
      if first.Done? { UnderField(first.entries, f, paths[1..]); }
    }
  }

  /** Paths under other keys leave a key as it is. */
  lemma {:induction false} KeyKept(h: seq<Entry>, paths: seq<Path>, f: string)
    requires forall p :: p in paths ==> p.parts != [] && p.parts[0].Named? && p.parts[0].field != f
    requires BelowAll(h, paths).Done?
    ensures var h' := BelowAll(h, paths).entries; Get(h', f) == Get(h, f) && Has(h', f) == Has(h, f)
    decreases |paths|
  {
    hide StoredBelow, Put, Get, Has;
    if paths != [] {
      var p := paths[0];
      assert p in paths && forall q :: q in paths[1..] ==> q in paths;
      KeyKeptOnce(h, p, f);
      KeyKept(StoredBelow(h, p.parts, p.value).entries, paths[1..], f);
    }
  }

  lemma KeyKeptOnce(h: seq<Entry>, p: Path, f: string)
    requires p.parts != [] && p.parts[0].Named? && p.parts[0].field != f && StoredBelow(h, p.parts, p.value).Done?
    ensures var h' := StoredBelow(h, p.parts, p.value).entries; Get(h', f) == Get(h, f) && Has(h', f) == Has(h, f)
  {
    hide Put, Get, Has, Stored, StoredBelow;
    var k, rest := p.parts[0].field, p.parts[1..];
    FirstField(h, p.parts, p.value);
    var v := KeptUnder(h, k, rest, p.value);
    PutLaws(h, k, v, f);
  }

  lemma KeptUnder(es: seq<Entry>, k: string, parts: seq<Part>, value: Tree) returns (v: Tree)
    requires Stored(es, k, parts, value).Done?
    ensures Stored(es, k, parts, value) == Kept(es, k, v)
  {
    hide StoredBelow, Put, Get, Joins, HashNext, Leads;
    var held := Get(es, k);
    if parts == [] {
      v := value;
    } else if HashNext(parts) {
      v := Hash(StoredBelow(if held.Hash? then held.entries else [], parts, value).entries);
    } else {
      v := KeptItems(es, k, if held.Builder? then held.items else [], parts, value);
    }
  }

  lemma KeptItems(es: seq<Entry>, k: string, items: seq<Tree>, parts: seq<Part>, value: Tree) returns (v: Tree)
    requires parts != [] && StoredInItems(es, k, items, parts, value).Done?
    ensures StoredInItems(es, k, items, parts, value) == Kept(es, k, v)
  {
    hide StoredBelow, Put, Get, Leads;
    if parts == [Empty] {
      v := Builder(items + [value]);
    } else if Joins(items, parts[1..]) {
      v := Builder(items[..|items| - 1] + [Hash(StoredBelow(items[|items| - 1].entries, parts[1..], value).entries)]);
    } else {
      v := Builder(items + [StoredBelow([], parts[1..], value).returned]);
    }
  }

  /** The outcome is a refusal, or a tree under the key that has something that t has not. */
  ghost predicate Misread(o: Outcome, es: seq<Entry>, k: string, t: Tree)
  {
    o == BadRequest || exists u :: o == Kept(es, k, u) && !Grows(u, t)
  }

  /** Some field of the outcome has something that the written field has not. */
  ghost predicate FieldsMisread(o: Outcome, fields: seq<Entry>)
  {
    o == BadRequest || exists e :: e in fields && Has(o.entries, e.key) && !Grows(Get(o.entries, e.key), e.value)
  }

  /** Some item has something that the written item at its place has not. */
  ghost predicate ItemsMisread(o: Option<seq<Tree>>, items: seq<Tree>)
  {
    o == None || exists m :: 0 <= m < |items| && m < |o.value| && !Grows(o.value[m], items[m])
  }

  lemma {:induction false} ReadNode(es: seq<Entry>, k: string, t: Tree)
    requires Writable(t) && !Has(es, k)
    ensures Apart(t) ==> StoreAll(es, k, Paths(t)) == Kept(es, k, t)
    ensures !Apart(t) ==> Misread(StoreAll(es, k, Paths(t)), es, k, t)
    decreases t, 1
  {
    hide Stored, AddPath, StoredBelow, Grows, Get, Has, Put, FinePath;
    MissingKey(es, k);
    match t
    case Hash(fields) =>
      TreePaths(t);
      HashDescends(es, k, [], Paths(t));
      NothingThere(fields);
      assert [] + fields == fields;
      ReadFields([], fields);
      if !AllApart(fields) { FieldsThenHash(es, k, BelowAll([], EntryPaths(fields)), fields); }
    case Builder(items) =>
      TreePaths(t);
      ArrayParts(t);
      ItemsDescend(es, k, [], Paths(t));
      BelowItems(items);
      assert [] + items == items;
      ReadItems([], items);
      if !ItemsApart([], items) { ItemsThenArray(es, k, AddPaths([], LeavesOf(items)), items); }
    case _ => OneLeaf(es, k, t);
  }

  lemma MissingKey(es: seq<Entry>, k: string)
    requires !Has(es, k)
    ensures Get(es, k) == Nil
  {
  }

  lemma NothingThere(fields: seq<Entry>)
    ensures forall e :: e in fields ==> !Has([], e.key)
  {
  }

  lemma OneLeaf(es: seq<Entry>, k: string, t: Tree)
    requires R.IsLeaf(t)
    ensures StoreAll(es, k, Paths(t)) == Kept(es, k, t) && Apart(t)
  {
    hide Put;
    assert Paths(t) == [Path([], t)] && Paths(t)[1..] == [];
    StoredPlain(es, k, t);
  }

  lemma ArrayParts(t: Tree)
    requires Writable(t) && t.Builder?
    ensures IntoItems(Paths(t))
  {
    hide Single, LineBreak, PlainParts;
    TreePaths(t);
  }

  lemma FieldsThenHash(es: seq<Entry>, k: string, o: Outcome, fields: seq<Entry>)
    requires FieldsMisread(o, fields) && DistinctKeys(fields)
    ensures Misread(HashUnder(es, k, o), es, k, Hash(fields))
  {
    hide Put;
    if o.Done? {
      var e :| e in fields && Has(o.entries, e.key) && !Grows(Get(o.entries, e.key), e.value);
      DistinctGet(fields, e);
      assert !Grows(Hash(o.entries), Hash(fields));
    }
  }

  lemma DistinctGet(fields: seq<Entry>, e: Entry)
    requires DistinctKeys(fields) && e in fields
    ensures Has(fields, e.key) && Get(fields, e.key) == e.value
  {
    var i :| 0 <= i < |fields| && fields[i] == e;
    assert forall j :: 0 <= j < i ==> fields[j].key != fields[i].key;
  }

  lemma ItemsThenArray(es: seq<Entry>, k: string, o: Option<seq<Tree>>, items: seq<Tree>)
    requires ItemsMisread(o, items)
    ensures Misread(ItemsUnderKey(es, k, o), es, k, Builder(items))
  {
    hide Put;
    if o.Some? {
      assert !Grows(Builder(o.value), Builder(items));
    }
  }

  /** The paths of the items, one item after another. */
  function LeavesOf(items: seq<Tree>): seq<Path>
  {
    if items == [] then [] else Paths(items[0]) + LeavesOf(items[1..])
  }

  lemma {:induction false} BelowItems(items: seq<Tree>)
    ensures Below(ItemPaths(items)) == LeavesOf(items)
    decreases |items|
  {
    hide Paths;
    if items != [] {
      BelowItems(items[1..]);
      var below, rest := Under(Empty, Paths(items[0])), ItemPaths(items[1..]);
      forall i | 0 <= i < |below| ensures below[i].parts[1..] == Paths(items[0])[i].parts { }
      assert Below(below + rest) == Paths(items[0]) + Below(rest);
    }
  }

  lemma {:induction false} ReadFields(h: seq<Entry>, fields: seq<Entry>)
    requires WritableEntries(fields) && forall e :: e in fields ==> !Has(h, e.key)
    ensures AllApart(fields) ==> BelowAll(h, EntryPaths(fields)) == Done(Hash(h + fields), h + fields)
    ensures !AllApart(fields) ==> FieldsMisread(BelowAll(h, EntryPaths(fields)), fields)
    decreases fields, 0
  {
    hide Grows, Get, Has, Put, Apart, Writable, WritableEntries, StoredBelow, AllApart, FieldsMisread, Misread, StoreAll,
      GoodKey, DistinctKeys, Paths;
    AllApartUnfolds(fields);
    if fields == [] {
      assert h + fields == h;
    } else {
      var f, v, rest := fields[0].key, fields[0].value, fields[1..];
      WritableRest(fields);
      assert fields[0] in fields && forall e :: e in rest ==> e in fields;
      ReadNode(h, f, v);
      UnderField(h, f, Paths(v));
      BelowAllSplit(h, Under(Named(f), Paths(v)), EntryPaths(rest));
      if Apart(v) {
        var next := h + [Entry(f, v)];
        PutNew(h, f, v);
        OtherKeys(h, f, v, rest);
        ReadFields(next, rest);
        assert next + rest == h + fields;
        RestMisread(BelowAll(next, EntryPaths(rest)), fields);
      } else {
        FirstMisread(h, StoreAll(h, f, Paths(v)), fields);
      }
    }
  }

  lemma AllApartUnfolds(fields: seq<Entry>)
    ensures AllApart(fields) <==> fields == [] || (Apart(fields[0].value) && AllApart(fields[1..]))
  {
    hide Apart;
    if fields != [] {
      assert forall e :: e in fields <==> e == fields[0] || e in fields[1..];
    }
  }

  lemma RestMisread(o: Outcome, fields: seq<Entry>)
    requires fields != []
    ensures FieldsMisread(o, fields[1..]) ==> FieldsMisread(o, fields)
  {
    hide Grows, Has, Get;
    assert forall e :: e in fields[1..] ==> e in fields;
  }

  /** A field that is misread stays so, as the fields after it have other keys. */
  lemma FirstMisread(h: seq<Entry>, o: Outcome, fields: seq<Entry>)
    requires WritableEntries(fields) && fields != [] && Misread(o, h, fields[0].key, fields[0].value)
    ensures FieldsMisread(if o.Done? then BelowAll(o.entries, EntryPaths(fields[1..])) else BadRequest, fields)
  {
    hide Grows, Get, Has, Put, Writable, WritableEntries, GoodKey, StoredBelow;
    var f, v, rest := fields[0].key, fields[0].value, fields[1..];
    WritableRest(fields);
    assert fields[0] in fields;
    if o.Done? {
      var u :| o == Kept(h, f, u) && !Grows(u, v);
      PutLaws(h, f, u, f);
      RestKeeps(Put(h, f, u), rest, f);
    }
  }

  lemma PutNew(h: seq<Entry>, f: string, v: Tree)
    requires !Has(h, f)
    ensures Put(h, f, v) == h + [Entry(f, v)]
  {
  }

  lemma OtherKeys(h: seq<Entry>, f: string, v: Tree, rest: seq<Entry>)
    requires !Has(h, f) && forall e :: e in rest ==> e.key != f && !Has(h, e.key)
    ensures forall e :: e in rest ==> !Has(h + [Entry(f, v)], e.key)
  {
    hide Has, Put;
    PutNew(h, f, v);
    forall e | e in rest ensures !Has(Put(h, f, v), e.key) { PutLaws(h, f, v, e.key); }
  }

  lemma RestKeeps(h: seq<Entry>, rest: seq<Entry>, f: string)
    requires WritableEntries(rest) && forall e :: e in rest ==> e.key != f
    ensures BelowAll(h, EntryPaths(rest)).Done? ==>
              var h' := BelowAll(h, EntryPaths(rest)).entries; Get(h', f) == Get(h, f) && Has(h', f) == Has(h, f)
  {
    hide GoodKey, Writable, FinePath, Get, Has, StoredBelow;
    EntryTreePaths(rest);
    if BelowAll(h, EntryPaths(rest)).Done? { KeyKept(h, EntryPaths(rest), f); }
  }

  lemma {:induction false} ReadItems(before: seq<Tree>, items: seq<Tree>)
    requires forall x :: x in items ==> !x.Builder? && Writable(x)
    ensures ItemsApart(before, items) ==> AddPaths(before, LeavesOf(items)) == Some(before + items)
    ensures !ItemsApart(before, items) ==> ItemsMisread(AddPaths(before, LeavesOf(items)), before + items)
    decreases items, 0
  {
    hide Grows, Apart, Writable, AddPath, StoredBelow, ItemsApart, ToldFrom, Leads, Paths, ItemsMisread;
    if items == [] {
      assert before + items == before;
      NoItemsApart(before);
    } else {
      var x, rest := items[0], items[1..];
      assert x in items && forall y :: y in rest ==> y in items;
      assert before + [x] + rest == before + items;
      ItemsApartUnfolds(before, items);
      AddPathsSplit(before, Paths(x), LeavesOf(rest));
      ReadItem(before, x);
      if Apart(x) && (before == [] || ToldFrom(before[|before| - 1], x)) {
        ReadItems(before + [x], rest);
      } else {
        StaysMisread(before + [x], AddPaths(before, Paths(x)), rest, before + items);
      }
    }
  }

  lemma NoItemsApart(before: seq<Tree>)
    ensures ItemsApart(before, [])
  {
  }

  /** One item after right ones: it is read right, or spoils itself or the record that it joins. */
  lemma {:induction false} ReadItem(before: seq<Tree>, x: Tree)
    requires !x.Builder? && Writable(x)
    ensures Apart(x) && (before == [] || ToldFrom(before[|before| - 1], x)) ==>
              AddPaths(before, Paths(x)) == Some(before + [x])
    ensures !(Apart(x) && (before == [] || ToldFrom(before[|before| - 1], x))) ==>
              ItemsMisread(AddPaths(before, Paths(x)), before + [x])
    decreases x, 2
  {
    hide Grows, Apart, Writable, AddPath, StoredBelow, Leads, Paths, FinePath;
    TreePaths(x);
    if !x.Hash? {
      LeafItem(before, x);
    } else if Joins(before, Paths(x)[0].parts) {
      JoinSpoils(before, x);
    } else {
      RecordOpens(before, x);
      HashPaths(x);
      HashFields(x);
      NothingThere(x.entries);
      assert [] + x.entries == x.entries;
      ReadFields([], x.entries);
      if !Apart(x) { RecordSpoilt(before, BelowAll([], Paths(x)), x); }
    }
  }

  lemma HashPaths(x: Tree)
    requires x.Hash?
    ensures Paths(x) == EntryPaths(x.entries)
  {
  }

  lemma HashFields(x: Tree)
    requires Writable(x) && x.Hash?
    ensures WritableEntries(x.entries) && DistinctKeys(x.entries) && (Apart(x) <==> AllApart(x.entries))
  {
    hide GoodKey;
  }

  lemma LeafItem(before: seq<Tree>, x: Tree)
    requires !x.Builder? && !x.Hash? && Writable(x)
    ensures AddPaths(before, Paths(x)) == Some(before + [x]) && Apart(x)
    ensures before == [] || ToldFrom(before[|before| - 1], x)
  {
    assert Paths(x) == [Path([], x)] && Paths(x)[1..] == [];
  }

  lemma RecordSpoilt(before: seq<Tree>, o: Outcome, x: Tree)
    requires x.Hash? && DistinctKeys(x.entries) && FieldsMisread(o, x.entries)
    ensures ItemsMisread(if o.Done? then Some(before + [Hash(o.entries)]) else None, before + [x])
  {
    if o.Done? {
      var e :| e in x.entries && Has(o.entries, e.key) && !Grows(Get(o.entries, e.key), e.value);
      DistinctGet(x.entries, e);
      assert !Grows(Hash(o.entries), x);
      assert (before + [Hash(o.entries)])[|before|] == Hash(o.entries) && (before + [x])[|before|] == x;
    }
  }

  /** A record that is not told from the one before it adds to that one. */
  lemma JoinSpoils(before: seq<Tree>, x: Tree)
    requires Writable(x) && x.Hash? && Paths(x) != [] && Joins(before, Paths(x)[0].parts)
    ensures before != [] && !ToldFrom(before[|before| - 1], x)
    ensures ItemsMisread(AddPaths(before, Paths(x)), before + [x])
  {
    hide Grows, AddPath, StoredBelow, Leads, Paths, Writable, FinePath;
    TreePaths(x);
    var paths := Paths(x);
    var p := paths[0];
    assert p in paths && forall q :: q in paths[1..] ==> q in paths;
    var next := AddPath(before, p.parts, p.value);
    if next.Some? {
      FineParts(p);
      ItemsGrow(before, p.parts, p.value);
      var last := |before| - 1;
      if AddPaths(next.value, paths[1..]).Some? {
        AllGrow(next.value, paths[1..]);
        ItemGrown(next.value, AddPaths(next.value, paths[1..]).value, last);
        NotBack(next.value[last], AddPaths(next.value, paths[1..]).value[last], before[last]);
        assert (before + [x])[last] == before[last];
      }
    }
  }

  lemma FineParts(p: Path)
    requires FinePath(p)
    ensures R.IsLeaf(p.value) && Single(p.parts) && !LineBreak(p.parts)
  {
    hide Single, LineBreak, PlainParts;
  }

  lemma ItemGrown(a: seq<Tree>, b: seq<Tree>, i: nat)
    requires Grows(Builder(a), Builder(b)) && i < |a|
    ensures |a| <= |b| && Grows(a[i], b[i])
  {
  }

  lemma NotBack(a: Tree, b: Tree, c: Tree)
    requires Grows(a, b) && !Grows(a, c)
    ensures !Grows(b, c)
  {
    hide Grows;
    if Grows(b, c) { GrowsOn(a, b, c); }
  }

  /** What was misread stays misread, whatever is read after it. */
  lemma StaysMisread(some: seq<Tree>, o: Option<seq<Tree>>, rest: seq<Tree>, all: seq<Tree>)
    requires ItemsMisread(o, some) && some <= all && forall x :: x in rest ==> !x.Builder? && Writable(x)
    ensures ItemsMisread(if o.Some? then AddPaths(o.value, LeavesOf(rest)) else None, all)
  {
    hide Grows, AddPath, Writable, FinePath, Paths;
    if o.Some? && AddPaths(o.value, LeavesOf(rest)).Some? {
      var m :| 0 <= m < |some| && m < |o.value| && !Grows(o.value[m], some[m]);
      var last := AddPaths(o.value, LeavesOf(rest)).value;
      LeavesFine(rest);
      AllGrow(o.value, LeavesOf(rest));
      ItemGrown(o.value, last, m);
      NotBack(o.value[m], last[m], some[m]);
      assert all[m] == some[m];
    }
  }

  lemma {:induction false} LeavesFine(items: seq<Tree>)
    requires forall x :: x in items ==> !x.Builder? && Writable(x)
    ensures AllFine(LeavesOf(items)) && forall p :: p in LeavesOf(items) ==> p.parts != [] ==> p.parts[0].Named?
    decreases |items|
  {
    hide Writable, FinePath, Paths;
    if items != [] {
      assert items[0] in items && forall x :: x in items[1..] ==> x in items;
      TreePaths(items[0]);
      LeavesFine(items[1..]);
    }
  }

  // ----- The main result -----

  lemma {:induction false} NamesStored(es: seq<Entry>, k: string, paths: seq<Path>)
    requires PlainKey(k) && AllFine(paths)
    ensures InsertAll(es, PairsOf(k, paths)) == StoreAll(es, k, paths)
    decreases |paths|
  {
    hide Stored, Insert, Text, PlainKey, Single, LineBreak, PlainParts;
    if paths != [] {
      var p := paths[0];
      assert p in paths && forall q :: q in paths[1..] ==> q in paths;
      StoredByName(es, k, p.parts, p.value);
      assert PairsOf(k, paths)[1..] == PairsOf(k, paths[1..]);
      var first := Stored(es, k, p.parts, p.value);
      if first.Done? { NamesStored(first.entries, k, paths[1..]); }
    }
  }

  lemma {:induction false} TreeStored(h: seq<Entry>, fields: seq<Entry>)
    requires WritableEntries(fields)
    ensures InsertAll(h, WrittenTree(fields)) == BelowAll(h, EntryPaths(fields))
    decreases |fields|
  {
    hide StoredBelow, Insert, GoodKey, Writable, WritableEntries, FinePath, Paths, PlainKey;
    if fields != [] {
      var f, v, rest := fields[0].key, fields[0].value, fields[1..];
      WritableRest(fields);
      KeyIsPlain(f);
      TreePaths(v);
      NamesStored(h, f, Paths(v));
      UnderField(h, f, Paths(v));
      R.InsertAllSplit(h, PairsOf(f, Paths(v)), WrittenTree(rest));
      BelowAllSplit(h, Under(Named(f), Paths(v)), EntryPaths(rest));
      var first := StoreAll(h, f, Paths(v));
      if first.Done? { TreeStored(first.entries, rest); }
    }
  }

  lemma KeyIsPlain(f: string)
    requires GoodKey(f)
    ensures PlainKey(f)
  {
  }

  /**
    Writing a parameter tree of any depth and reading its pairs in order rebuilds the same tree,
    with the same key order everywhere, exactly when in every array at any depth the first leaf
    of each record stands under fields that the record before it has.
   */
  lemma TreeRoundTrip(es: seq<Entry>)
    requires WritableEntries(es)
    ensures InsertAll([], WrittenTree(es)) == Done(Hash(es), es) <==> forall e :: e in es ==> Apart(e.value)
  {
    hide GoodKey, Writable, Apart, Grows;
    NothingThere(es);
    assert [] + es == es;
    TreeStored([], es);
    ReadFields([], es);
    if FieldsMisread(Done(Hash(es), es), es) {
      var e :| e in es && Has(es, e.key) && !Grows(Get(es, e.key), e.value);
      DistinctGet(es, e);
      GrowsSelf(e.value);
    }
  }
}
