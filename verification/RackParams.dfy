/**
  The mutable parameter tree of internal/news_articles/rails_params.go: hashes and
  growing arrays that are updated in place while bracketed keys are read. Each object
  owns the objects below it, and its ghost Contents is the tree it stands for.
 */
module RackParams {
  import opened Wrappers
  import opened ParamTree
  import opened RackKeys
  import opened RackInsert
  import opened RackInsertLaws
  import opened NilRemoval

  /** What a hash or an array stores: an immutable value, or an object it owns. */
  datatype Value = Plain(t: Tree) | Array(a: ParamArray) | HashRef(h: ParamHash)

  ghost function Roots(v: Value): set<object>
  {
    match v case Plain(_) => {} case Array(a) => {a as object} case HashRef(h) => {h as object}
  }

  /** The objects that make up a value. */
  ghost function Footprint(v: Value): set<object>
    reads Roots(v)
  {
    match v
    case Plain(_) => {}
    case Array(a) => a.Repr
    case HashRef(h) => h.Repr
  }

  /** The tree a value stands for. */
  ghost function Abs(v: Value): Tree
    reads Roots(v)
  {
    match v
    case Plain(t) => t
    case Array(a) => Builder(a.Contents)
    case HashRef(h) => Hash(h.Contents)
  }

  ghost predicate Inside(v: Value, space: set<object>)
    reads space
  {
    Roots(v) <= space && Footprint(v) <= space
  }

  ghost predicate Sound(v: Value)
    reads Roots(v), Footprint(v)
    decreases Footprint(v), 2
  {
    match v
    case Plain(t) => !t.Builder? && !t.Hash?
    case Array(a) => a.Valid()
    case HashRef(h) => h.Valid()
  }

  /** Sound values inside space that share no object. */
  ghost predicate Forest(vs: seq<Value>, space: set<object>)
    reads space
    decreases space, 3
  {
    && (forall i :: 0 <= i < |vs| ==> Inside(vs[i], space) && Sound(vs[i]))
    && (forall i, j :: 0 <= i < |vs| && 0 <= j < |vs| && i != j ==> Footprint(vs[i]) !! Footprint(vs[j]))
  }

  /** A forest if the value at index i is left out. */
  ghost predicate ForestBut(vs: seq<Value>, i: nat, space: set<object>)
    reads space
  {
    && (forall j :: 0 <= j < |vs| && j != i ==> Inside(vs[j], space) && Sound(vs[j]))
    && (forall j, k :: 0 <= j < |vs| && 0 <= k < |vs| && j != i && k != i && j != k ==>
          Footprint(vs[j]) !! Footprint(vs[k]))
  }

  lemma OpenForest(vs: seq<Value>, i: nat, space: set<object>)
    requires Forest(vs, space) && i < |vs|
    ensures ForestBut(vs, i, space - Footprint(vs[i]))
  {
    forall j | 0 <= j < |vs| && j != i ensures Inside(vs[j], space - Footprint(vs[i])) {
      RootsInFootprint(vs[j]);
      assert Footprint(vs[j]) !! Footprint(vs[i]);
    }
  }

  lemma ForestRoots(vs: seq<Value>, space: set<object>)
    requires Forest(vs, space)
    ensures forall i :: 0 <= i < |vs| ==> Roots(vs[i]) <= space
  {
  }

  lemma RootsInFootprint(v: Value)
    requires Sound(v)
    ensures Roots(v) <= Footprint(v)
  {
  }

  lemma CloseForest(vs: seq<Value>, i: nat, space: set<object>, whole: set<object>)
    requires ForestBut(vs, i, space) && i < |vs| && space <= whole
    requires Sound(vs[i]) && Inside(vs[i], whole) && Footprint(vs[i]) !! space
    ensures Forest(vs, whole)
  {
    forall j, k | 0 <= j < |vs| && 0 <= k < |vs| && j != k ensures Footprint(vs[j]) !! Footprint(vs[k]) {
      assert j != i ==> Inside(vs[j], space);
      assert k != i ==> Inside(vs[k], space);
    }
  }

  lemma PlantForest(vs: seq<Value>, i: nat, v: Value, space: set<object>, whole: set<object>)
    requires Forest(vs, space) && space <= whole
    requires Sound(v) && Inside(v, whole) && Footprint(v) !! space
    ensures Forest(vs + [v], whole)
    ensures i < |vs| ==> Forest(vs[i := v], whole)
  {
    assert forall j :: 0 <= j < |vs| ==> Inside(vs[j], space) && Inside(vs[j], whole);
  }

  /** keys lists the domain of values once each. */
  ghost predicate OrderedDomain(keys: seq<string>, values: map<string, Value>)
  {
    && (forall i, j :: 0 <= i < j < |keys| ==> keys[i] != keys[j])
    && (forall k :: k in values <==> k in keys)
  }

  function InOrder(keys: seq<string>, values: map<string, Value>): (vs: seq<Value>)
    requires OrderedDomain(keys, values)
    ensures |vs| == |keys|
    ensures forall i :: 0 <= i < |vs| ==> vs[i] == values[keys[i]]
  {
    seq(|keys|, i requires 0 <= i < |keys| => values[keys[i]])
  }

  ghost predicate SameKeys(keys: seq<string>, es: seq<Entry>)
  {
    |es| == |keys| && forall i :: 0 <= i < |keys| ==> es[i].key == keys[i]
  }

  lemma LookupKey(keys: seq<string>, values: map<string, Value>, es: seq<Entry>, key: string)
    requires OrderedDomain(keys, values) && SameKeys(keys, es)
    ensures Has(es, key) == (key in values)
    ensures var p := Position(es, key);
            if key in values then p < |keys| && keys[p] == key else p == |keys|
  {
    var p := Position(es, key);
    if p < |es| {
      assert keys[p] == key;
    } else {
      assert forall i :: 0 <= i < |keys| ==> es[i].key == keys[i];
    }
  }

  function KeysWith(keys: seq<string>, present: bool, key: string): seq<string>
  {
    if present then keys else keys + [key]
  }

  lemma SetValues(keys: seq<string>, values: map<string, Value>, key: string, v: Value, p: nat)
    requires OrderedDomain(keys, values)
    requires if key in values then p < |keys| && keys[p] == key else p == |keys|
    ensures var keys' := KeysWith(keys, key in values, key);
            var vs := InOrder(keys, values);
            && OrderedDomain(keys', values[key := v])
            && InOrder(keys', values[key := v]) == (if p < |vs| then vs[p := v] else vs + [v])
  {
    var keys' := KeysWith(keys, key in values, key);
    assert forall k :: k in keys' <==> k in keys || k == key;
  }

  /** Setting a key in both fields sets one value in order, or appends one, and so does Put. */
  lemma SetInOrder(
    keys: seq<string>, values: map<string, Value>, es: seq<Entry>, key: string, v: Value, t: Tree)
    requires OrderedDomain(keys, values) && SameKeys(keys, es)
    ensures var p := Position(es, key);
            var keys' := if key in values then keys else keys + [key];
            var vs, es' := InOrder(keys, values), Put(es, key, t);
            && OrderedDomain(keys', values[key := v])
            && InOrder(keys', values[key := v]) == (if p < |vs| then vs[p := v] else vs + [v])
            && |es'| == |keys'| && p < |keys'|
            && keys'[p] == key && es'[p] == Entry(key, t)
            && forall i :: 0 <= i < |keys'| && i != p ==> i < |keys| && keys'[i] == keys[i] && es'[i] == es[i]
  {
    hide OrderedDomain, InOrder, Position;
    LookupKey(keys, values, es, key);
    SetValues(keys, values, key, v, Position(es, key));
  }

  /** Entries that show the stored values still do when one of them is set. */
  lemma StillShown(keys: seq<string>, vs: seq<Value>, es: seq<Entry>,
                   keys': seq<string>, vs': seq<Value>, es': seq<Entry>, p: nat, v: Value)
    requires |keys| == |vs| == |es| && |keys'| == |vs'| == |es'| && p < |keys'|
    requires forall i :: 0 <= i < |keys| ==> es[i] == Entry(keys[i], Abs(vs[i]))
    requires vs' == (if p < |vs| then vs[p := v] else vs + [v]) && es'[p] == Entry(keys'[p], Abs(v))
    requires forall i :: 0 <= i < |keys'| && i != p ==> i < |keys| && keys'[i] == keys[i] && es'[i] == es[i]
    requires p <= |vs|
    ensures forall i :: 0 <= i < |keys'| ==> es'[i] == Entry(keys'[i], Abs(vs'[i]))
  {
    hide Abs;
    assert forall i :: 0 <= i < |keys'| && i != p ==> vs'[i] == vs[i];
  }

  class ParamHash {
    var keys: seq<string>
    var values: map<string, Value>
    ghost var Repr: set<object>
    ghost var Contents: seq<Entry>

    /** The stored values form a tree below this hash, and Contents is what they stand for. */
    ghost predicate Valid()
      reads this, Repr
      ensures Valid() ==> this in Repr
      decreases Repr, 1
    {
      && this in Repr
      && OrderedDomain(keys, values)
      && Forest(InOrder(keys, values), Repr - {this})
      && |Contents| == |keys|
      && (forall i :: 0 <= i < |keys| ==> Contents[i] == Entry(keys[i], Abs(InOrder(keys, values)[i])))
    }

    /** Valid, apart from the value at index i, whose objects are all in hole. */
    ghost predicate ValidBut(i: nat, hole: set<object>)
      reads this, Repr - hole
    {
      && this in Repr && this !in hole
      && OrderedDomain(keys, values) && i < |keys|
      && ForestBut(InOrder(keys, values), i, Repr - {this} - hole)
      && |Contents| == |keys|
      && (forall j :: 0 <= j < |keys| && j != i ==> Contents[j] == Entry(keys[j], Abs(InOrder(keys, values)[j])))
      && Contents[i].key == keys[i]
    }

    constructor ()
      ensures Valid() && fresh(Repr) && Contents == []
    {
      keys, values := [], map[];
      Repr, Contents := {this}, [];
    }

    predicate HasKey(key: string)
      reads this
    {
      key in values
    }

    /** A missing key gives nil. */
    function GetKey(key: string): Value
      reads this
    {
      if key in values then values[key] else Plain(Nil)
    }

    lemma GetKeyAbs(key: string)
      requires Valid()
      ensures HasKey(key) == Has(Contents, key)
      ensures Sound(GetKey(key)) && Inside(GetKey(key), Repr - {this})
      ensures Abs(GetKey(key)) == Get(Contents, key)
    {
      LookupKey(keys, values, Contents, key);
      if key in values {
        assert InOrder(keys, values)[Position(Contents, key)] == values[key];
      }
    }

    /** Appends a new key, or replaces the value of an existing one in its place. */
    method Set(key: string, v: Value)
      requires Valid()
      requires Sound(v) && Footprint(v) !! Repr
      modifies this
      ensures Valid() && Repr == old(Repr) + Footprint(v)
      ensures Contents == Put(old(Contents), key, Abs(v))
      ensures GetKey(key) == v
    {
      hide Sound, Forest, Put, Position, OrderedDomain, InOrder, Inside, Abs, Roots;
      LookupKey(keys, values, Contents, key);
      SetInOrder(keys, values, Contents, key, v, Abs(v));
      RootsInFootprint(v);
      ForestRoots(InOrder(keys, values), Repr - {this});
      assert this !in Roots(v) && this !in Footprint(v);
      ghost var p, vs := Position(Contents, key), InOrder(keys, values);
      ghost var vs' := if p < |vs| then vs[p := v] else vs + [v];
      ghost var space, es := Repr - {this} + Footprint(v), Put(Contents, key, Abs(v));
      PlantForest(vs, p, v, Repr - {this}, space);
      var keys' := if key in values then keys else keys + [key];
      StillShown(keys, vs, Contents, keys', vs', es, p, v);
      assert forall i :: 0 <= i < |vs'| ==> this !in Roots(vs'[i]);
      keys, values := keys', values[key := v];
      Repr, Contents := Repr + Footprint(v), es;
      assert Repr - {this} == space && InOrder(keys, values) == vs';
    }

    lemma EntriesAbs()
      requires Valid()
      ensures |Contents| == |keys| && DistinctKeys(Contents)
    {
    }

    lemma EntryAbs(i: nat)
      requires Valid() && i < |keys|
      ensures |Contents| == |keys| && DistinctKeys(Contents)
      ensures keys[i] in values && Contents[i] == Entry(keys[i], Abs(values[keys[i]]))
      ensures Sound(values[keys[i]]) && Footprint(values[keys[i]]) < Repr
    {
      assert InOrder(keys, values)[i] == values[keys[i]];
    }

    ghost function IndexOfKey(key: string): (i: nat)
      requires Valid() && key in values
      reads this, Repr
      ensures i < |keys| && keys[i] == key && i == Position(Contents, key)
      ensures InOrder(keys, values)[i] == values[key]
    {
      LookupKey(keys, values, Contents, key);
      Position(Contents, key)
    }

    /** The value at index i can be changed on its own. */
    lemma Open(i: nat)
      requires Valid() && i < |keys|
      ensures ValidBut(i, Footprint(InOrder(keys, values)[i]))
      ensures Inside(InOrder(keys, values)[i], Repr - {this}) && Sound(InOrder(keys, values)[i])
    {
      OpenForest(InOrder(keys, values), i, Repr - {this});
    }

    /** Takes in what became of the value at index i. */
    ghost method Close(i: nat, hole: set<object>)
      requires ValidBut(i, hole)
      requires Sound(InOrder(keys, values)[i]) && this !in Footprint(InOrder(keys, values)[i])
      requires Footprint(InOrder(keys, values)[i]) !! Repr - hole
      modifies this`Repr, this`Contents
      ensures Valid() && Repr == old(Repr) + Footprint(InOrder(keys, values)[i])
      ensures Contents == old(Contents)[i := Entry(keys[i], Abs(InOrder(keys, values)[i]))]
    {
      hide Sound, Forest, OrderedDomain, InOrder, Inside;
      var v := InOrder(keys, values)[i];
      RootsInFootprint(v);
      CloseForest(InOrder(keys, values), i, Repr - {this} - hole, Repr - {this} + Footprint(v));
      Contents := Contents[i := Entry(keys[i], Abs(v))];
      Repr := Repr + Footprint(v);
      assert Repr - {this} == old(Repr) - {this} + Footprint(v);
    }
  }

  class ParamArray {
    var items: seq<Value>
    ghost var Repr: set<object>
    ghost var Contents: seq<Tree>

    ghost predicate Valid()
      reads this, Repr
      ensures Valid() ==> this in Repr
      decreases Repr, 1
    {
      && this in Repr
      && |Contents| == |items|
      && Forest(items, Repr - {this})
      && (forall i :: 0 <= i < |items| ==> Contents[i] == Abs(items[i]))
    }

    ghost predicate ValidBut(i: nat, hole: set<object>)
      reads this, Repr - hole
    {
      && this in Repr && this !in hole
      && |Contents| == |items| && i < |items|
      && ForestBut(items, i, Repr - {this} - hole)
      && (forall j :: 0 <= j < |items| && j != i ==> Contents[j] == Abs(items[j]))
    }

    constructor ()
      ensures Valid() && fresh(Repr) && Contents == []
    {
      items := [];
      Repr, Contents := {this}, [];
    }

    method Append(v: Value)
      requires Valid()
      requires Sound(v) && Footprint(v) !! Repr
      modifies this
      ensures Valid() && Repr == old(Repr) + Footprint(v)
      ensures Contents == old(Contents) + [Abs(v)]
    {
      RootsInFootprint(v);
      PlantForest(items, 0, v, Repr - {this}, Repr - {this} + Footprint(v));
      items := items + [v];
      Contents := Contents + [Abs(v)];
      Repr := Repr + Footprint(v);
      assert Repr - {this} == old(Repr) - {this} + Footprint(v);
    }

    lemma ItemsAbs()
      requires Valid()
      ensures |Contents| == |items|
    {
    }

    lemma ItemAbs(i: nat)
      requires Valid() && i < |items|
      ensures |Contents| == |items| && Contents[i] == Abs(items[i])
      ensures Sound(items[i]) && Footprint(items[i]) < Repr
    {
    }

    lemma Open(i: nat)
      requires Valid() && i < |items|
      ensures ValidBut(i, Footprint(items[i]))
      ensures Inside(items[i], Repr - {this}) && Sound(items[i])
    {
      OpenForest(items, i, Repr - {this});
    }

    ghost method Close(i: nat, hole: set<object>)
      requires ValidBut(i, hole)
      requires Sound(items[i]) && this !in Footprint(items[i])
      requires Footprint(items[i]) !! Repr - hole
      modifies this`Repr, this`Contents
      ensures Valid() && Repr == old(Repr) + Footprint(items[i])
      ensures Contents == old(Contents)[i := Abs(items[i])]
    {
      var v := items[i];
      RootsInFootprint(v);
      CloseForest(items, i, Repr - {this} - hole, Repr - {this} + Footprint(v));
      Contents := Contents[i := Abs(v)];
      Repr := Repr + Footprint(v);
      assert Repr - {this} == old(Repr) - {this} + Footprint(v);
    }
  }

  /** Refused is the bad-request error; otherwise the value the reader hands to its caller. */
  datatype RackResult = Refused | Returned(v: Value)

  /** The growing array under key, created when nothing is there; null is the refusal. */
  method RackArray(params: ParamHash, key: string) returns (list: ParamArray?)
    requires params.Valid()
    modifies params
    ensures params.Valid() && fresh(params.Repr - old(params.Repr))
    ensures old(params.Repr) <= params.Repr
    ensures var items := ArrayItems(Get(old(params.Contents), key));
            if list == null
            then items == None && params.Contents == old(params.Contents)
            else items.Some? && params.GetKey(key) == Array(list) &&
                 params.Contents == Put(old(params.Contents), key, Builder(items.value))
  {
    params.GetKeyAbs(key);
    match params.GetKey(key)
    case Plain(Nil) =>
      list := new ParamArray();
      params.Set(key, Array(list));
    case Array(a) =>
      list := a;
      PutSame(params.Contents, key);
    case _ =>
      list := null;
  }

  /** Walks down hashes only, piece by piece. */
  method RackHashHasKey(hash: ParamHash, key: string) returns (found: bool)
    requires hash.Valid()
    ensures found == HasKeyPath(Hash(hash.Contents), key)
  {
    if HasEmptyBrackets(key) {
      return false;
    }
    var current := HashRef(hash);
    var pieces := Pieces(key);
    for i := 0 to |pieces|
      invariant Sound(current)
      invariant HasPieces(Hash(hash.Contents), pieces) == HasPieces(Abs(current), pieces[i..])
    {
      if !current.HashRef? {
        return false;
      }
      current.h.GetKeyAbs(pieces[i]);
      if !current.h.HasKey(pieces[i]) {
        return false;
      }
      current := current.h.GetKey(pieces[i]);
    }
    return true;
  }

  /** Appends to the array that params keeps under key. */
  method AppendUnder(params: ParamHash, key: string, list: ParamArray, v: Value)
    requires params.Valid() && params.GetKey(key) == Array(list)
    requires Sound(v) && Footprint(v) !! params.Repr
    modifies params.Repr
    ensures params.Valid() && params.Repr == old(params.Repr) + Footprint(v)
    ensures params.Contents == Put(old(params.Contents), key, Builder(old(list.Contents) + [Abs(v)]))
  {
    hide Forest, ForestBut, OrderedDomain, Position, Put;
    params.GetKeyAbs(key);
    ghost var p := params.IndexOfKey(key);
    PutAt(params.Contents, key, p, Builder(list.Contents + [Abs(v)]));
    params.Open(p);
    ghost var hole := list.Repr;
    list.Append(v);
    params.Close(p, hole);
  }

  /**
    Stores value under a bracketed name, in place. What params becomes, what is returned
    and when the name is refused are those of Insert; a refusal changes nothing.
   */
  method NormalizeRackParams(params: ParamHash, name: string, value: Tree) returns (r: RackResult)
    requires params.Valid() && (value.Nil? || value.Str?)
    modifies params.Repr
    ensures params.Valid() && fresh(params.Repr - old(params.Repr)) && old(params.Repr) <= params.Repr
    ensures Carried(r, params, old(params.Contents), Insert(old(params.Contents), name, value))
    decreases |name|, 1
  {
    hide ParamHash.Valid, ParamArray.Valid, Forest, ForestBut, OrderedDomain, InOrder, Put, Position;
    hide SplitKey, ChildKey;
    var Split(key, after) := SplitKey(name);
    if key == "" {
      if value != Nil && name == "[]" {
        return Returned(Plain(List([value])));
      }
      return Returned(Plain(Nil));
    }
    if after == "" {
      params.Set(key, Plain(value));
    } else if after == "[" {
      params.Set(name, Plain(value));
    } else if after == "[]" {
      var list := RackArray(params, key);
      if list == null {
        return Refused;
      }
      params.GetKeyAbs(key);
      ghost var items := list.Contents;
      AppendUnder(params, key, list, Plain(value));
      PutTwice(old(params.Contents), key, Builder(items), Builder(items + [value]));
      PutTwice(old(params.Contents), key, Builder(ArrayItems(Get(old(params.Contents), key)).value), Nil);
    } else {
      var child := ChildKey(after);
      var stored;
      if child.Some? {
        stored := StoreInArray(params, name, key, child.value, value);
      } else {
        stored := StoreInHash(params, name, key, after, value);
      }
      if !stored {
        return Refused;
      }
    }
    return Returned(HashRef(params));
  }

  /** params holds the outcome: its entries and returned value, or what it held before. */
  ghost predicate Carried(r: RackResult, params: ParamHash, before: seq<Entry>, outcome: Outcome)
    reads params
  {
    match outcome
    case BadRequest => r == Refused && params.Contents == before
    case Done(returned, entries) =>
      params.Contents == entries && r.Returned? && !returned.Builder? &&
      (if returned.Hash? then r.v == HashRef(params) && returned == Hash(entries) else r.v == Plain(returned))
  }

  /** Stores a child name in the last element of a growing array. */
  method StoreInLast(list: ParamArray, childKey: string, value: Tree) returns (stored: bool)
    requires list.Valid() && (value.Nil? || value.Str?)
    requires list.Contents != [] && list.Contents[|list.Contents| - 1].Hash?
    modifies list.Repr
    ensures list.Valid() && fresh(list.Repr - old(list.Repr)) && old(list.Repr) <= list.Repr
    ensures var after := StoredInLast(old(list.Contents), childKey, value);
            stored == after.Some? && list.Contents == after.GetOr(old(list.Contents))
    decreases |childKey|, 2
  {
    hide ParamHash.Valid, ParamArray.Valid, ParamArray.ValidBut, Forest, ForestBut, Insert;
    list.ItemsAbs();
    list.ItemAbs(|list.items| - 1);
    var n := |list.items| - 1;
    list.Open(n);
    var last := list.items[n].h;
    ghost var hole := last.Repr;
    var r := NormalizeRackParams(last, childKey, value);
    list.Close(n, hole);
    return r.Returned?;
  }

  /** The items after a child name is stored in the last of them; None when it is refused. */
  function StoredInLast(items: seq<Tree>, childKey: string, value: Tree): Option<seq<Tree>>
    requires items != [] && items[|items| - 1].Hash?
  {
    match Insert(items[|items| - 1].entries, childKey, value)
    case BadRequest => None
    case Done(_, sub) => Some(items[|items| - 1 := Hash(sub)])
  }

  /** A child name joins the last item, or starts a new one. */
  function StoredInItems(items: seq<Tree>, childKey: string, value: Tree): Option<seq<Tree>>
  {
    if JoinsLast(items, childKey) then StoredInLast(items, childKey, value) else
      match Insert([], childKey, value)
      case BadRequest => None
      case Done(child, _) => Some(items + [child])
  }

  lemma InsertArrayChild(es: seq<Entry>, name: string, key: string, childKey: string, value: Tree)
    requires ShapeOf(name) == ArrayChild(key, childKey)
    ensures Insert(es, name, value) ==
            match ArrayItems(Get(es, key))
            case None => BadRequest
            case Some(items) =>
              match StoredInItems(items, childKey, value)
              case None => BadRequest
              case Some(items') => DonePut(es, key, Builder(items'))
  {
    hide ShapeOf, HasKeyPath, Put, Get;
  }

  /** Stores a child name in the last element of the array that params keeps under key. */
  method StoreInLastUnder(params: ParamHash, key: string, list: ParamArray, childKey: string, value: Tree)
    returns (stored: bool)
    requires params.Valid() && params.GetKey(key) == Array(list) && (value.Nil? || value.Str?)
    requires list.Contents != [] && list.Contents[|list.Contents| - 1].Hash?
    modifies params.Repr
    ensures params.Valid() && fresh(params.Repr - old(params.Repr)) && old(params.Repr) <= params.Repr
    ensures var after := StoredInLast(old(list.Contents), childKey, value);
            && stored == after.Some?
            && params.Contents == Put(old(params.Contents), key, Builder(after.GetOr(old(list.Contents))))
    decreases |childKey|, 3
  {
    hide ParamHash.Valid, ParamArray.Valid, Forest, ForestBut, OrderedDomain, InOrder, Put, Position, StoredInLast;
    ghost var es := params.Contents;
    params.GetKeyAbs(key);
    ghost var p := params.IndexOfKey(key);
    params.Open(p);
    ghost var hole := list.Repr;
    stored := StoreInLast(list, childKey, value);
    params.Close(p, hole);
    PutAt(es, key, p, Builder(list.Contents));
  }

  /** Stores a child name in a new element after the others. */
  method StoreInNewUnder(params: ParamHash, key: string, list: ParamArray, childKey: string, value: Tree)
    requires params.Valid() && params.GetKey(key) == Array(list) && (value.Nil? || value.Str?)
    requires Insert([], childKey, value).Done?
    modifies params.Repr
    ensures params.Valid() && fresh(params.Repr - old(params.Repr)) && old(params.Repr) <= params.Repr
    ensures params.Contents == Put(old(params.Contents), key,
              Builder(old(list.Contents) + [Insert([], childKey, value).returned]))
    decreases |childKey|, 3
  {
    hide ParamHash.Valid, ParamArray.Valid, Forest, ForestBut, OrderedDomain, InOrder, Put, Position, Insert;
    params.GetKeyAbs(key);
    var created := new ParamHash();
    var r := NormalizeRackParams(created, childKey, value);
    AppendUnder(params, key, list, r.v);
  }

  method StoreInArray(params: ParamHash, ghost name: string, key: string, childKey: string, value: Tree)
    returns (stored: bool)
    requires params.Valid() && (value.Nil? || value.Str?)
    requires ShapeOf(name) == ArrayChild(key, childKey)
    modifies params.Repr
    ensures params.Valid() && fresh(params.Repr - old(params.Repr)) && old(params.Repr) <= params.Repr
    ensures CarriedBy(stored, params, old(params.Contents), Insert(old(params.Contents), name, value))
    decreases |childKey|, 4
  {
    hide ParamHash.Valid, ParamArray.Valid, Forest, ForestBut, OrderedDomain, InOrder, Put, Position, ShapeOf,
      HasKeyPath, Insert, StoredInLast, JoinsLast;
    ghost var es := params.Contents;
    InsertArrayChild(es, name, key, childKey, value);
    var list := RackArray(params, key);
    if list == null {
      return false;
    }
    params.GetKeyAbs(key);
    ghost var items := list.Contents;
    FreshNeverRefuses(childKey, value);
    PutTwice(es, key, Builder(ArrayItems(Get(es, key)).value), Nil);
    var joins := JoinsLastItem(list, childKey);
    if joins {
      JoinsHash(items, childKey);
      stored := StoreInLastUnder(params, key, list, childKey, value);
      PutTwice(es, key, Builder(items), Builder(StoredInLast(items, childKey, value).GetOr(items)));
      if !stored {
        PutSame(es, key);
      }
    } else {
      PutTwice(es, key, Builder(items), Builder(items + [Insert([], childKey, value).returned]));
      StoreInNewUnder(params, key, list, childKey, value);
      stored := true;
    }
  }

  lemma JoinsHash(items: seq<Tree>, childKey: string)
    requires JoinsLast(items, childKey)
    ensures items != [] && items[|items| - 1].Hash?
  {
    hide HasKeyPath;
  }

  /** Whether the last element is a hash that lacks the child name. */
  method JoinsLastItem(list: ParamArray, childKey: string) returns (joins: bool)
    requires list.Valid()
    ensures joins == JoinsLast(list.Contents, childKey)
  {
    if list.items == [] {
      return false;
    }
    list.ItemAbs(|list.items| - 1);
    match list.items[|list.items| - 1]
    case HashRef(last) =>
      var has := RackHashHasKey(last, childKey);
      return !has;
    case _ =>
      return false;
  }

  method StoreInHash(params: ParamHash, ghost name: string, key: string, after: string, value: Tree)
    returns (stored: bool)
    requires params.Valid() && (value.Nil? || value.Str?)
    requires ShapeOf(name) == HashChild(key, after)
    modifies params.Repr
    ensures params.Valid() && fresh(params.Repr - old(params.Repr)) && old(params.Repr) <= params.Repr
    ensures CarriedBy(stored, params, old(params.Contents), Insert(old(params.Contents), name, value))
    decreases |after|, 2
  {
    hide ParamHash.Valid, ParamHash.ValidBut, ParamArray.Valid, Forest, ForestBut, OrderedDomain, InOrder, Put, Position,
      ShapeOf, Insert;
    InsertHashChild(params.Contents, name, key, after, value);
    params.GetKeyAbs(key);
    var existing := params.GetKey(key);
    if existing == Plain(Nil) {
      var created := new ParamHash();
      existing := HashRef(created);
      params.Set(key, existing);
    }
    if !existing.HashRef? {
      return false;
    }
    params.GetKeyAbs(key);
    ghost var es := params.Contents;
    ghost var p := params.IndexOfKey(key);
    params.Open(p);
    var child := existing.h;
    ghost var hole := child.Repr;
    FreshNeverRefuses(after, value);
    var r := NormalizeRackParams(child, after, value);
    params.Close(p, hole);
    PutAt(es, key, p, Hash(child.Contents));
    PutTwice(old(params.Contents), key, Hash([]), Hash(child.Contents));
    PutSame(es, key);
    return r.Returned?;
  }

  lemma InsertHashChild(es: seq<Entry>, name: string, key: string, after: string, value: Tree)
    requires ShapeOf(name) == HashChild(key, after)
    ensures Insert(es, name, value) ==
            match HashEntries(Get(es, key))
            case None => BadRequest
            case Some(sub) =>
              match Insert(sub, after, value)
              case BadRequest => BadRequest
              case Done(_, sub') => DonePut(es, key, Hash(sub'))
  {
    hide ShapeOf, HasKeyPath, Put, Get;
  }

  ghost predicate CarriedBy(stored: bool, params: ParamHash, before: seq<Entry>, outcome: Outcome)
    reads params
  {
    stored == outcome.Done? && params.Contents == if stored then outcome.entries else before
  }

  /** Reads decoded pairs into a new hash; null is the bad-request answer. */
  method ParseRackPairs(pairs: seq<(string, Tree)>) returns (params: ParamHash?)
    requires LeafPairs(pairs)
    ensures params == null <==> InsertAll([], pairs) == BadRequest
    ensures params != null ==> fresh(params.Repr) && params.Valid()
    ensures params != null ==> InsertAll([], pairs) == Done(Hash(params.Contents), params.Contents)
  {
    hide ParamHash.Valid, Insert;
    var hash := new ParamHash();
    for i := 0 to |pairs|
      invariant hash.Valid() && fresh(hash.Repr)
      invariant InsertAll([], pairs) == InsertAll(hash.Contents, pairs[i..])
    {
      assert pairs[i] in pairs && pairs[i..][0] == pairs[i] && pairs[i..][1..] == pairs[i + 1..];
      var r := NormalizeRackParams(hash, pairs[i].0, pairs[i].1);
      if r == Refused {
        return null;
      }
    }
    return hash;
  }

  /**
    Rebuilds a value without the nils of its arrays, reading the objects in place and
    leaving them as they are. The copy is never changed afterwards, so it is a tree.
   */
  method NormalizeParam(v: Value) returns (t: Tree)
    requires Sound(v)
    ensures t == Normalize(Abs(v))
    decreases Footprint(v), 1
  {
    match v
    case Plain(p) =>
      t := Normalize(p);
    case Array(a) =>
      var items := NormalizeArray(a);
      t := List(items);
    case HashRef(h) =>
      var entries := NormalizeHash(h);
      t := Hash(entries);
  }

  method NormalizeArray(a: ParamArray) returns (kept: seq<Tree>)
    requires a.Valid()
    ensures kept == NormalizeItems(a.Contents)
    decreases a.Repr, 0
  {
    hide ParamHash.Valid, ParamArray.Valid, Forest, Normalize;
    kept := [];
    a.ItemsAbs();
    for i := 0 to |a.items|
      invariant kept == NormalizeItems(a.Contents[..i])
    {
      a.ItemAbs(i);
      assert a.Contents[..i + 1] == a.Contents[..i] + [a.Contents[i]];
      NormalizeItemsSnoc(a.Contents[..i], a.Contents[i]);
      var item := NormalizeParam(a.items[i]);
      if item != Nil {
        kept := kept + [item];
      }
    }
    assert a.Contents[..|a.items|] == a.Contents;
  }

  method NormalizeHash(h: ParamHash) returns (entries: seq<Entry>)
    requires h.Valid()
    ensures entries == NormalizeEntries(h.Contents)
    decreases h.Repr, 0
  {
    hide ParamHash.Valid, ParamArray.Valid, Forest, Normalize, Put, Position, OrderedDomain, InOrder;
    entries := [];
    h.EntriesAbs();
    for i := 0 to |h.keys|
      invariant entries == NormalizeEntries(h.Contents[..i])
    {
      h.EntryAbs(i);
      assert h.Contents[..i + 1] == h.Contents[..i] + [h.Contents[i]];
      var value := NormalizeParam(h.GetKey(h.keys[i]));
      NormalizeEntriesSnoc(h.Contents[..i], h.Contents[i]);
      entries := Put(entries, h.keys[i], value);
    }
    assert h.Contents[..|h.keys|] == h.Contents;
  }
}
