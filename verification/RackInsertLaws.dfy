/**
  Laws of storing bracketed names: when it is refused, what it leaves alone, where the
  value can be read again, and how deep the tree can get.
 */
module RackInsertLaws {
  import opened Wrappers
  import opened ParamTree
  import opened RackKeys
  import opened RackInsert

  // ----- Refusals -----

  /** A value found where the name needs a container: an array for "[]", otherwise a hash. */
  datatype Meeting = Meeting(found: Tree, needsArray: bool)

  predicate Clash(m: Meeting)
  {
    m.found != Nil && (if m.needsArray then !m.found.Builder? else !m.found.Hash?)
  }

  /** The container slots along a name, outermost first, with what the old tree holds there. */
  function Met(es: seq<Entry>, name: string): seq<Meeting>
    decreases |name|
  {
    match ShapeOf(name)
    case ArrayEnd(key) => [Meeting(Get(es, key), true)]
    case ArrayChild(key, childKey) =>
      [Meeting(Get(es, key), true)] +
      (match ArrayItems(Get(es, key))
       case None => []
       case Some(items) => Met(SlotEntries(items, childKey), childKey))
    case HashChild(key, after) =>
      [Meeting(Get(es, key), false)] +
      (match HashEntries(Get(es, key)) case None => [] case Some(sub) => Met(sub, after))
    case _ => []
  }

  ghost predicate SomeClash(met: seq<Meeting>)
  {
    exists i :: 0 <= i < |met| && Clash(met[i])
  }

  lemma ClashSplit(first: Meeting, rest: seq<Meeting>)
    ensures SomeClash([first] + rest) <==> Clash(first) || SomeClash(rest)
  {
    var met := [first] + rest;
    assert met[0] == first && met[1..] == rest;
    if SomeClash(rest) {
      var i :| 0 <= i < |rest| && Clash(rest[i]);
      assert Clash(met[i + 1]);
    }
  }

  /** A name is refused exactly when a container slot on its way holds a value of another kind. */
  lemma {:induction false} RefusedIffClash(es: seq<Entry>, name: string, value: Tree)
    ensures Insert(es, name, value) == BadRequest <==> SomeClash(Met(es, name))
    decreases |name|
  {
    hide ShapeOf, HasKeyPath;
    match ShapeOf(name)
    case Keyless =>
    case Scalar(key) =>
    case ArrayEnd(key) => assert Met(es, name)[0] == Meeting(Get(es, key), true);
    case ArrayChild(key, childKey) =>
      var items := ArrayItems(Get(es, key));
      if items.Some? {
        var sub := SlotEntries(items.value, childKey);
        RefusedIffClash(sub, childKey, value);
        ClashSplit(Meeting(Get(es, key), true), Met(sub, childKey));
      } else {
        assert Clash(Met(es, name)[0]);
      }
    case HashChild(key, after) =>
      var sub := HashEntries(Get(es, key));
      if sub.Some? {
        RefusedIffClash(sub.value, after, value);
        ClashSplit(Meeting(Get(es, key), false), Met(sub.value, after));
      } else {
        assert Clash(Met(es, name)[0]);
      }
  }

  /** An empty hash accepts every name. */
  lemma {:induction false} FreshNeverRefuses(name: string, value: Tree)
    ensures Insert([], name, value).Done?
    decreases |name|
  {
    hide ShapeOf, HasKeyPath;
    match ShapeOf(name)
    case ArrayChild(_, childKey) => FreshNeverRefuses(childKey, value);
    case HashChild(_, after) => FreshNeverRefuses(after, value);
    case _ =>
  }

  // ----- What stays: every path away from the written one -----

  datatype Step = Field(key: string) | Item(index: nat)

  function Child(t: Tree, step: Step): Option<Tree>
  {
    match step
    case Field(k) => if t.Hash? && Has(t.entries, k) then Some(Get(t.entries, k)) else None
    case Item(i) => if (t.Builder? || t.List?) && i < |t.items| then Some(t.items[i]) else None
  }

  /** The subtree at a path, if the path exists. */
  function At(t: Tree, path: seq<Step>): Option<Tree>
    decreases |path|
  {
    if path == [] then Some(t) else
      match Child(t, path[0])
      case None => None
      case Some(c) => At(c, path[1..])
  }

  /** The path that storing a name writes, in the tree after the write. */
  function Trail(es: seq<Entry>, name: string): seq<Step>
    decreases |name|
  {
    match ShapeOf(name)
    case Keyless => []
    case Scalar(key) => [Field(key)]
    case ArrayEnd(key) => [Field(key), Item(|ArrayItems(Get(es, key)).GetOr([])|)]
    case ArrayChild(key, childKey) =>
      var items := ArrayItems(Get(es, key)).GetOr([]);
      [Field(key)] + ([Item(SlotIndex(items, childKey))] + Trail(SlotEntries(items, childKey), childKey))
    case HashChild(key, after) => [Field(key)] + Trail(HashEntries(Get(es, key)).GetOr([]), after)
  }

  ghost predicate Apart(p: seq<Step>, q: seq<Step>)
  {
    !(p <= q) && !(q <= p)
  }

  /** At one hash level, storing under key is seen only by the paths that start there. */
  lemma AtAfterPut(es: seq<Entry>, key: string, value: Tree, path: seq<Step>)
    requires path != []
    ensures path[0] == Field(key) ==> At(Hash(Put(es, key, value)), path) == At(value, path[1..])
    ensures path[0] == Field(key) && |path| > 1 && !Get(es, key).Nil? ==>
              At(Hash(es), path) == At(Get(es, key), path[1..])
    ensures path[0] == Field(key) && |path| > 1 && Get(es, key).Nil? ==> At(Hash(es), path) == None
    ensures path[0] != Field(key) ==> At(Hash(Put(es, key, value)), path) == At(Hash(es), path)
  {
    hide Put, Position;
    if path[0].Field? {
      PutLaws(es, key, value, path[0].key);
    }
    if path[0] == Field(key) && Get(es, key).Nil? && |path| > 1 {
      assert At(Nil, path[1..]) == None;
    }
  }

  lemma ApartTail(p: seq<Step>, q: seq<Step>)
    requires p != [] && q != [] && p[0] == q[0] && Apart(p, q)
    ensures p[1..] != [] && q[1..] != [] && Apart(p[1..], q[1..])
  {
    assert p == [p[0]] + p[1..] && q == [q[0]] + q[1..];
  }

  lemma NothingBelowEmpty(path: seq<Step>)
    requires path != []
    ensures At(Hash([]), path) == None && At(Builder([]), path) == None && At(Nil, path) == None
  {
  }

  /** Every subtree off the written path is unchanged. */
  lemma {:induction false} OnlyTheTrailChanges(es: seq<Entry>, name: string, value: Tree, path: seq<Step>)
    requires Insert(es, name, value).Done?
    requires Apart(path, Trail(es, name))
    ensures At(Hash(Insert(es, name, value).entries), path) == At(Hash(es), path)
    decreases |name|
  {
    hide ShapeOf, HasKeyPath;
    var trail := Trail(es, name);
    match ShapeOf(name)
    case Keyless =>
    case Scalar(key) => AtAfterPut(es, key, value, path);
    case ArrayEnd(key) =>
      var items := ArrayItems(Get(es, key)).value;
      AtAfterPut(es, key, Builder(items + [value]), path);
      if path[0] == trail[0] {
        ApartTail(path, trail);
      }
    case ArrayChild(key, childKey) =>
      ArrayChildTrail(es, name, value, path, key, childKey);
    case HashChild(key, after) =>
      var sub := HashEntries(Get(es, key)).value;
      AtAfterPut(es, key, Hash(Insert(sub, after, value).entries), path);
      if path[0] == trail[0] {
        ApartTail(path, trail);
        assert trail[1..] == Trail(sub, after);
        OnlyTheTrailChanges(sub, after, value, path[1..]);
        NothingBelowEmpty(path[1..]);
      }
  }

  /** A missing array reads like an empty one below its field. */
  lemma AtInArray(es: seq<Entry>, key: string, items: seq<Tree>, path: seq<Step>)
    requires ArrayItems(Get(es, key)) == Some(items)
    requires |path| > 1 && path[0] == Field(key)
    ensures At(Hash(es), path) == At(Builder(items), path[1..])
  {
    NothingBelowEmpty(path[1..]);
  }

  /** The array step of the frame: the item at index i is new, the others are as before. */
  lemma AtChangedItem(items: seq<Tree>, i: nat, item: Tree, path: seq<Step>)
    requires i <= |items| && path != []
    requires path[0] == Item(i) ==> At(item, path[1..]) == if i < |items| then At(items[i], path[1..]) else None
    ensures At(Builder(PutItem(items, i, item)), path) == At(Builder(items), path)
  {
  }

  /** A name with a key returns the hash it stored into. */
  lemma ReturnedIsHash(es: seq<Entry>, name: string, value: Tree)
    requires Insert(es, name, value).Done? && Trail(es, name) != []
    ensures Insert(es, name, value).returned == Hash(Insert(es, name, value).entries)
  {
    hide ShapeOf, HasKeyPath, Put, Get, SlotIndex, SlotEntries, PutItem;
  }

  lemma {:induction false} ArrayChildTrail(
    es: seq<Entry>, name: string, value: Tree, path: seq<Step>, key: string, childKey: string)
    requires ShapeOf(name) == ArrayChild(key, childKey)
    requires Insert(es, name, value).Done?
    requires Apart(path, Trail(es, name))
    ensures At(Hash(Insert(es, name, value).entries), path) == At(Hash(es), path)
    decreases |name|, 0
  {
    hide ShapeOf, Put, At, Get, SlotIndex, SlotEntries, PutItem, Trail, Apart, Insert;
    ArrayChildInserts(es, name, value, key, childKey);
    ApartNotEmpty(path, Trail(es, name));
    var items := ArrayItems(Get(es, key)).value;
    var i, sub := SlotIndex(items, childKey), SlotEntries(items, childKey);
    SlotHolds(items, childKey);
    var out := Insert(sub, childKey, value);
    var item := if i < |items| then Hash(out.entries) else out.returned;
    AtAfterPut(es, key, Builder(PutItem(items, i, item)), path);
    if path[0] == Field(key) {
      var below := [Item(i)] + Trail(sub, childKey);
      ApartTail(path, Trail(es, name));
      AtInArray(es, key, items, path);
      var rest := path[1..];
      ApartNotEmpty(rest, below);
      if rest[0] == Item(i) {
        assert below[1..] == Trail(sub, childKey);
        ApartTail(rest, below);
        ReturnedIsHash(sub, childKey, value);
        OnlyTheTrailChanges(sub, childKey, value, rest[1..]);
        NothingBelowEmpty(rest[1..]);
      }
      AtChangedItem(items, i, item, rest);
    }
  }

  lemma ApartNotEmpty(p: seq<Step>, q: seq<Step>)
    requires Apart(p, q)
    ensures p != []
  {
  }

  lemma ArrayChildInserts(es: seq<Entry>, name: string, value: Tree, key: string, childKey: string)
    requires ShapeOf(name) == ArrayChild(key, childKey) && Insert(es, name, value).Done?
    ensures ArrayItems(Get(es, key)).Some?
    ensures var items := ArrayItems(Get(es, key)).value;
            var i, out := SlotIndex(items, childKey), Insert(SlotEntries(items, childKey), childKey, value);
            var trail := Trail(es, name);
            && out.Done? && i <= |items|
            && Insert(es, name, value).entries ==
               Put(es, key, Builder(PutItem(items, i, if i < |items| then Hash(out.entries) else out.returned)))
            && trail != [] && trail[0] == Field(key)
            && trail[1..] == [Item(i)] + Trail(SlotEntries(items, childKey), childKey)
  {
    hide ShapeOf, Put, Get, PutItem, SlotEntries, JoinsLast;
  }

  lemma SlotHolds(items: seq<Tree>, childKey: string)
    ensures var i, sub := SlotIndex(items, childKey), SlotEntries(items, childKey);
            && i <= |items|
            && (i < |items| ==> items[i] == Hash(sub))
            && (i == |items| ==> sub == [])
  {
    hide HasKeyPath;
  }

  // ----- What is stored -----

  /** No level of the name is made of brackets alone. */
  predicate KeyedThroughout(name: string)
    decreases |name|
  {
    match ShapeOf(name)
    case Keyless => false
    case ArrayChild(_, childKey) => KeyedThroughout(childKey)
    case HashChild(_, after) => KeyedThroughout(after)
    case _ => true
  }

  /** The value is read back at the end of the written path. */
  lemma {:induction false} ReadBack(es: seq<Entry>, name: string, value: Tree)
    requires KeyedThroughout(name) && Insert(es, name, value).Done?
    ensures At(Hash(Insert(es, name, value).entries), Trail(es, name)) == Some(value)
    decreases |name|
  {
    hide ShapeOf, HasKeyPath;
    var trail := Trail(es, name);
    match ShapeOf(name)
    case Keyless =>
    case Scalar(key) => AtAfterPut(es, key, value, trail);
    case ArrayEnd(key) =>
      var items := ArrayItems(Get(es, key)).value;
      AtAfterPut(es, key, Builder(items + [value]), trail);
    case ArrayChild(key, childKey) =>
      var items := ArrayItems(Get(es, key)).value;
      var i, sub := SlotIndex(items, childKey), SlotEntries(items, childKey);
      var out := Insert(sub, childKey, value);
      var item := if i < |items| then Hash(out.entries) else out.returned;
      ReadBack(sub, childKey, value);
      KeyedTrail(sub, childKey);
      ReturnedIsHash(sub, childKey, value);
      AtAfterPut(es, key, Builder(PutItem(items, i, item)), trail);
      var below := [Item(i)] + Trail(sub, childKey);
      assert trail[1..] == below && below[1..] == Trail(sub, childKey);
    case HashChild(key, after) =>
      var sub := HashEntries(Get(es, key)).value;
      ReadBack(sub, after, value);
      AtAfterPut(es, key, Hash(Insert(sub, after, value).entries), trail);
      assert trail[1..] == Trail(sub, after);
  }

  lemma KeyedTrail(es: seq<Entry>, name: string)
    requires KeyedThroughout(name)
    ensures Trail(es, name) != []
  {
    hide ShapeOf, HasKeyPath;
  }

  /** A name of brackets alone stores nothing; only "[]" with a value hands back a one-item list. */
  lemma KeylessStoresNothing(es: seq<Entry>, name: string, value: Tree)
    requires ShapeOf(name).Keyless?
    ensures Insert(es, name, value) == Done(if name == "[]" && value != Nil then List([value]) else Nil, es)
  {
  }

  // ----- Hashes stay well keyed -----

  lemma GetWellKeyed(es: seq<Entry>, key: string)
    requires WellKeyed(Hash(es))
    ensures WellKeyed(Get(es, key))
  {
    var i := Position(es, key);
    if i < |es| {
      assert es[i] in es;
    }
  }

  lemma PutWellKeyed(es: seq<Entry>, key: string, value: Tree)
    requires WellKeyed(Hash(es)) && WellKeyed(value)
    ensures WellKeyed(Hash(Put(es, key, value)))
  {
    PutLaws(es, key, value, key);
    forall e | e in Put(es, key, value) ensures WellKeyed(e.value) {
      assert e == Entry(key, value) || e in es;
    }
  }

  lemma SlotWellKeyed(t: Tree, childKey: string)
    requires WellKeyed(t) && ArrayItems(t).Some?
    ensures WellKeyed(Hash(SlotEntries(ArrayItems(t).value, childKey)))
  {
    hide HasKeyPath;
    var items := ArrayItems(t).value;
    assert JoinsLast(items, childKey) ==> items[|items| - 1] in items;
  }

  lemma ItemWellKeyed(t: Tree, i: nat, item: Tree)
    requires WellKeyed(t) && ArrayItems(t).Some? && i <= |ArrayItems(t).value| && WellKeyed(item)
    ensures WellKeyed(Builder(PutItem(ArrayItems(t).value, i, item)))
  {
    var items := ArrayItems(t).value;
    assert forall x :: x in PutItem(items, i, item) ==> x == item || x in items;
  }

  lemma EntriesWellKeyed(t: Tree)
    requires WellKeyed(t) && HashEntries(t).Some?
    ensures WellKeyed(Hash(HashEntries(t).value))
  {
  }

  /** Storing a leaf keeps every hash of the tree free of repeated keys. */
  lemma {:induction false} InsertWellKeyed(es: seq<Entry>, name: string, value: Tree)
    requires WellKeyed(Hash(es)) && (value.Nil? || value.Str?)
    requires Insert(es, name, value).Done?
    ensures WellKeyed(Hash(Insert(es, name, value).entries))
    ensures WellKeyed(Insert(es, name, value).returned)
    decreases |name|
  {
    hide ShapeOf, HasKeyPath, Put, Get, WellKeyed, ArrayItems, HashEntries, SlotEntries, PutItem;
    LeavesWellKeyed(value);
    match ShapeOf(name)
    case Keyless =>
    case Scalar(key) => PutWellKeyed(es, key, value);
    case ArrayEnd(key) =>
      GetWellKeyed(es, key);
      var items := ArrayItems(Get(es, key)).value;
      ItemWellKeyed(Get(es, key), |items|, value);
      AppendedItem(items, value);
      PutWellKeyed(es, key, Builder(items + [value]));
    case ArrayChild(key, childKey) =>
      GetWellKeyed(es, key);
      SlotWellKeyed(Get(es, key), childKey);
      var items := ArrayItems(Get(es, key)).value;
      var i, sub := SlotIndex(items, childKey), SlotEntries(items, childKey);
      InsertWellKeyed(sub, childKey, value);
      var out := Insert(sub, childKey, value);
      var item := if i < |items| then Hash(out.entries) else out.returned;
      ItemWellKeyed(Get(es, key), i, item);
      PutWellKeyed(es, key, Builder(PutItem(items, i, item)));
    case HashChild(key, after) =>
      GetWellKeyed(es, key);
      EntriesWellKeyed(Get(es, key));
      var sub := HashEntries(Get(es, key)).value;
      InsertWellKeyed(sub, after, value);
      PutWellKeyed(es, key, Hash(Insert(sub, after, value).entries));
  }

  lemma LeavesWellKeyed(value: Tree)
    requires value.Nil? || value.Str?
    ensures WellKeyed(value) && WellKeyed(List([value])) && WellKeyed(Nil)
  {
  }

  lemma AppendedItem(items: seq<Tree>, value: Tree)
    ensures PutItem(items, |items|, value) == items + [value]
  {
  }

  // ----- Depth -----

  /** At most d containers lie on any path of the tree. */
  ghost predicate AtMostDeep(t: Tree, d: nat)
  {
    match t
    case List(items) => d > 0 && forall x :: x in items ==> AtMostDeep(x, d - 1)
    case Builder(items) => d > 0 && forall x :: x in items ==> AtMostDeep(x, d - 1)
    case Hash(es) => d > 0 && forall e :: e in es ==> AtMostDeep(e.value, d - 1)
    case _ => true
  }

  function Max(a: nat, b: nat): nat { if a < b then b else a }

  lemma {:induction false} DeeperBound(t: Tree, d: nat, e: nat)
    requires AtMostDeep(t, d) && d <= e
    ensures AtMostDeep(t, e)
    decreases t
  {
    match t
    case List(items) => forall x | x in items ensures AtMostDeep(x, e - 1) { DeeperBound(x, d - 1, e - 1); }
    case Builder(items) => forall x | x in items ensures AtMostDeep(x, e - 1) { DeeperBound(x, d - 1, e - 1); }
    case Hash(es) => forall x | x in es ensures AtMostDeep(x.value, e - 1) { DeeperBound(x.value, d - 1, e - 1); }
    case _ =>
  }

  lemma PutDepth(es: seq<Entry>, key: string, value: Tree, d: nat)
    requires AtMostDeep(Hash(es), d) && AtMostDeep(value, d - 1)
    ensures AtMostDeep(Hash(Put(es, key, value)), d)
  {
    forall e | e in Put(es, key, value) ensures AtMostDeep(e.value, d - 1) {
      assert e == Entry(key, value) || e in es;
    }
  }

  lemma GetDepth(es: seq<Entry>, key: string, d: nat)
    requires AtMostDeep(Hash(es), d)
    ensures AtMostDeep(Get(es, key), d - 1)
  {
    var i := Position(es, key);
    if i < |es| {
      assert es[i] in es;
    }
  }

  /** Storing a leaf makes the tree no deeper than the name is long, unless it was deeper already. */
  lemma {:induction false} InsertDepth(es: seq<Entry>, name: string, value: Tree, d: nat)
    requires AtMostDeep(Hash(es), d) && (value.Nil? || value.Str?)
    requires Insert(es, name, value).Done?
    requires |name| <= d
    ensures AtMostDeep(Hash(Insert(es, name, value).entries), d)
    ensures AtMostDeep(Insert(es, name, value).returned, d)
    decreases |name|
  {
    hide ShapeOf, HasKeyPath;
    match ShapeOf(name)
    case Keyless =>
    case Scalar(key) => PutDepth(es, key, value, d);
    case ArrayEnd(key) =>
      GetDepth(es, key, d);
      PutDepth(es, key, Builder(ArrayItems(Get(es, key)).value + [value]), d);
    case ArrayChild(key, childKey) =>
      ArrayChildDepth(es, name, value, d, key, childKey);
    case HashChild(key, after) =>
      GetDepth(es, key, d);
      var sub := HashEntries(Get(es, key)).value;
      InsertDepth(sub, after, value, d - 1);
      PutDepth(es, key, Hash(Insert(sub, after, value).entries), d);
  }

  lemma {:induction false} ArrayChildDepth(
    es: seq<Entry>, name: string, value: Tree, d: nat, key: string, childKey: string)
    requires ShapeOf(name) == ArrayChild(key, childKey)
    requires AtMostDeep(Hash(es), d) && (value.Nil? || value.Str?)
    requires Insert(es, name, value).Done?
    requires |name| <= d
    ensures AtMostDeep(Hash(Insert(es, name, value).entries), d)
    decreases |name|, 0
  {
    hide ShapeOf, HasKeyPath, Put, Get, AtMostDeep, ArrayItems, SlotEntries, PutItem;
    GetDepth(es, key, d);
    SlotDepth(Get(es, key), childKey, d - 1);
    var items := ArrayItems(Get(es, key)).value;
    var i, sub := SlotIndex(items, childKey), SlotEntries(items, childKey);
    InsertDepth(sub, childKey, value, d - 2);
    var out := Insert(sub, childKey, value);
    var item := if i < |items| then Hash(out.entries) else out.returned;
    ItemDepth(Get(es, key), i, item, d - 1);
    PutDepth(es, key, Builder(PutItem(items, i, item)), d);
  }

  lemma SlotDepth(t: Tree, childKey: string, d: nat)
    requires AtMostDeep(t, d) && ArrayItems(t).Some? && d >= 2
    ensures AtMostDeep(Hash(SlotEntries(ArrayItems(t).value, childKey)), d - 1)
  {
    hide HasKeyPath;
    var items := ArrayItems(t).value;
    assert JoinsLast(items, childKey) ==> items[|items| - 1] in items;
  }

  lemma ItemDepth(t: Tree, i: nat, item: Tree, d: nat)
    requires AtMostDeep(t, d) && ArrayItems(t).Some? && i <= |ArrayItems(t).value|
    requires d > 0 && AtMostDeep(item, d - 1)
    ensures AtMostDeep(Builder(PutItem(ArrayItems(t).value, i, item)), d)
  {
    var items := ArrayItems(t).value;
    assert forall x :: x in PutItem(items, i, item) ==> x == item || x in items;
  }

  function LongestKey(pairs: seq<(string, Tree)>): (n: nat)
    ensures forall p :: p in pairs ==> |p.0| <= n
  {
    if pairs == [] then 0 else Max(|pairs[0].0|, LongestKey(pairs[1..]))
  }

  predicate LeafPairs(pairs: seq<(string, Tree)>)
  {
    forall p :: p in pairs ==> p.1.Nil? || p.1.Str?
  }

  lemma {:induction false} InsertAllBounds(es: seq<Entry>, pairs: seq<(string, Tree)>, d: nat)
    requires WellKeyed(Hash(es)) && AtMostDeep(Hash(es), d) && LeafPairs(pairs)
    requires forall p :: p in pairs ==> |p.0| <= d
    requires InsertAll(es, pairs).Done?
    ensures WellKeyed(Hash(InsertAll(es, pairs).entries))
    ensures AtMostDeep(Hash(InsertAll(es, pairs).entries), d)
    decreases |pairs|
  {
    if pairs != [] {
      var p := pairs[0];
      assert p in pairs;
      InsertDepth(es, p.0, p.1, d);
      InsertWellKeyed(es, p.0, p.1);
      InsertAllBounds(Insert(es, p.0, p.1).entries, pairs[1..], d);
    }
  }

  /** After any list of pairs the tree is at most max(1, longest key) containers deep, and well keyed. */
  lemma ParsedTreeBounds(pairs: seq<(string, Tree)>)
    requires LeafPairs(pairs) && InsertAll([], pairs).Done?
    ensures WellKeyed(Hash(InsertAll([], pairs).entries))
    ensures AtMostDeep(Hash(InsertAll([], pairs).entries), Max(1, LongestKey(pairs)))
  {
    InsertAllBounds([], pairs, Max(1, LongestKey(pairs)));
  }
}
