/**
  The parameter hash of a request, requestParams of rails_params.go: query, then body, then
  the attributes wrapped for a JSON body, then the path, and nils removed last.
 */
module RequestParams {
  import opened NilRemoval
  import opened ParamTree

  const ATTRIBUTES: seq<string> := [
    "id", "headline", "effective_date", "body", "priority", "expiration_date", "created_at", "updated_at", "url"]

  const WRAPPER := "news_article"

  /** The entries of from are set on into, one after another. */
  function Merged(into: seq<Entry>, from: seq<Entry>): seq<Entry>
    decreases |from|
  {
    if from == [] then into else Merged(Put(into, from[0].key, from[0].value), from[1..])
  }

  function Wrapped(body: seq<Entry>, names: seq<string>): seq<Entry>
  {
    if names == [] then [] else
      (if Has(body, names[0]) then [Entry(names[0], Get(body, names[0]))] else []) + Wrapped(body, names[1..])
  }

  predicate Wraps(query: seq<Entry>, body: seq<Entry>, isJson: bool)
  {
    isJson && !Has(query, WRAPPER) && !Has(body, WRAPPER)
  }

  function Combined(query: seq<Entry>, body: seq<Entry>, isJson: bool, path: seq<Entry>): seq<Entry>
  {
    var merged := Merged(Merged([], query), body);
    var wrapped := if isJson && !Has(merged, WRAPPER) then Put(merged, WRAPPER, Hash(Wrapped(body, ATTRIBUTES))) else merged;
    Merged(wrapped, path)
  }

  // ----- Laws of merging -----

  lemma ConsReads(first: Entry, rest: seq<Entry>, key: string)
    ensures Has([first] + rest, key) <==> first.key == key || Has(rest, key)
    ensures Get([first] + rest, key) == if first.key == key then first.value else Get(rest, key)
  {
    assert ([first] + rest)[1..] == rest;
    assert Position([first] + rest, key) == if first.key == key then 0 else 1 + Position(rest, key);
  }

  lemma DistinctRest(es: seq<Entry>)
    requires DistinctKeys(es) && es != []
    ensures DistinctKeys(es[1..]) && !Has(es[1..], es[0].key) && es == [es[0]] + es[1..]
  {
    assert forall j :: 0 <= j < |es| - 1 ==> es[1..][j] == es[j + 1];
    PositionAbsent(es[1..], es[0].key);
  }

  lemma {:induction false} MergedReads(into: seq<Entry>, from: seq<Entry>, key: string)
    requires DistinctKeys(from)
    ensures Has(Merged(into, from), key) <==> Has(into, key) || Has(from, key)
    ensures Get(Merged(into, from), key) == if Has(from, key) then Get(from, key) else Get(into, key)
    ensures DistinctKeys(into) ==> DistinctKeys(Merged(into, from))
    decreases |from|
  {
    hide Get, Has, Put, DistinctKeys;
    if from == [] {
      AbsentIsNil([], key);
      NothingStored(key);
    } else {
      var first, rest := from[0], from[1..];
      DistinctRest(from);
      MergedReads(Put(into, first.key, first.value), rest, key);
      PutLaws(into, first.key, first.value, key);
      ConsReads(first, rest, key);
    }
  }

  lemma AbsentIsNil(es: seq<Entry>, key: string)
    ensures !Has(es, key) ==> Get(es, key) == Nil
  {
  }

  lemma {:induction false} WrappedReads(body: seq<Entry>, names: seq<string>, key: string)
    ensures Has(Wrapped(body, names), key) <==> key in names && Has(body, key)
    ensures Has(Wrapped(body, names), key) ==> Get(Wrapped(body, names), key) == Get(body, key)
    decreases |names|
  {
    hide Get, Has;
    if names == [] {
      NothingStored(key);
    } else {
      WrappedReads(body, names[1..], key);
      assert key in names <==> key == names[0] || key in names[1..];
      ConsReads(Entry(names[0], Get(body, names[0])), Wrapped(body, names[1..]), key);
      if !Has(body, names[0]) {
        assert Wrapped(body, names) == Wrapped(body, names[1..]);
      }
    }
  }

  /** Nil removal leaves the keys where they are and works on each value. */
  lemma {:induction false} NormalizedReads(es: seq<Entry>, key: string)
    ensures Has(NormalizeEntries(es), key) <==> Has(es, key)
    ensures Get(NormalizeEntries(es), key) == Normalize(Get(es, key))
    decreases |es|
  {
    if es != [] {
      NormalizedReads(es[1..], key);
      assert NormalizeEntries(es)[1..] == NormalizeEntries(es[1..]);
    }
  }

  // ----- Precedence -----

  /** Which source a parameter comes from. */
  function Source(query: seq<Entry>, body: seq<Entry>, isJson: bool, path: seq<Entry>, key: string): Tree
  {
    if Has(path, key) then Get(path, key)
    else if key == WRAPPER && Wraps(query, body, isJson) then Hash(Wrapped(body, ATTRIBUTES))
    else if Has(body, key) then Get(body, key)
    else Get(query, key)
  }

  /**
    The path wins over the wrapped attributes, those over the body, and the body over the
    query; the parameters have distinct keys and no nil inside any array.
   */
  lemma Precedence(query: seq<Entry>, body: seq<Entry>, isJson: bool, path: seq<Entry>, key: string)
    requires DistinctKeys(query) && DistinctKeys(body) && DistinctKeys(path)
    ensures var params := NormalizeEntries(Combined(query, body, isJson, path));
            && Get(params, key) == Normalize(Source(query, body, isJson, path, key))
            && (Has(params, key) <==>
                  (Has(path, key) || Has(body, key) || Has(query, key) || (key == WRAPPER && isJson)))
            && DistinctKeys(params) && Clean(Hash(params))
  {
    hide Get, Has, Put, Merged, Wrapped, Normalize, NormalizeEntries, DistinctKeys, Clean;
    var first := Merged([], query);
    var merged := Merged(first, body);
    NothingStored(key);
    NothingStored(WRAPPER);
    AbsentIsNil(query, key);
    MergedReads([], query, key);
    MergedReads([], query, WRAPPER);
    MergedReads(first, body, key);
    MergedReads(first, body, WRAPPER);
    var wrapper := Hash(Wrapped(body, ATTRIBUTES));
    PutLaws(merged, WRAPPER, wrapper, key);
    var wrapped := if isJson && !Has(merged, WRAPPER) then Put(merged, WRAPPER, wrapper) else merged;
    MergedReads(wrapped, path, key);
    NormalizedReads(Merged(wrapped, path), key);
    NormalizedClean(Merged(wrapped, path));
  }

  lemma NothingStored(key: string)
    ensures !Has([], key) && Get([], key) == Nil && DistinctKeys([])
  {
  }

  lemma NormalizedClean(es: seq<Entry>)
    requires DistinctKeys(es)
    ensures DistinctKeys(NormalizeEntries(es)) && Clean(Hash(NormalizeEntries(es)))
  {
    EntriesAreClean(es);
    var r := NormalizeEntries(es);
    assert Keys(r) == Keys(es);
    assert forall i :: 0 <= i < |es| ==> Keys(r)[i] == r[i].key && Keys(es)[i] == es[i].key;
  }

  // ----- The source's steps -----

  method Merge(into: seq<Entry>, from: seq<Entry>) returns (r: seq<Entry>)
    ensures r == Merged(into, from)
  {
    r := into;
    for i := 0 to |from|
      invariant Merged(r, from[i..]) == Merged(into, from)
    {
      assert from[i..][1..] == from[i + 1..];
      r := Put(r, from[i].key, from[i].value);
    }
    assert from[|from|..] == [];
  }

  method WrapAttributes(body: seq<Entry>) returns (r: seq<Entry>)
    ensures r == Wrapped(body, ATTRIBUTES)
  {
    r := [];
    assert ATTRIBUTES[0..] == ATTRIBUTES;
    for i := 0 to |ATTRIBUTES|
      invariant r + Wrapped(body, ATTRIBUTES[i..]) == Wrapped(body, ATTRIBUTES)
      invariant forall e :: e in r ==> e.key in ATTRIBUTES[..i]
    {
      var key := ATTRIBUTES[i];
      NextAttribute(r, body, ATTRIBUTES, i);
      assert ATTRIBUTES[..i + 1] == ATTRIBUTES[..i] + [key];
      if Has(body, key) {
        NewKey(r, ATTRIBUTES, i);
        r := Put(r, key, Get(body, key));
      }
    }
    assert ATTRIBUTES[|ATTRIBUTES|..] == [];
  }

  lemma NextAttribute(r: seq<Entry>, body: seq<Entry>, names: seq<string>, i: nat)
    requires i < |names|
    ensures r + Wrapped(body, names[i..]) ==
            (if Has(body, names[i]) then r + [Entry(names[i], Get(body, names[i]))] else r) + Wrapped(body, names[i + 1..])
  {
    hide Has, Get;
    assert names[i..][1..] == names[i + 1..];
  }

  lemma NewKey(r: seq<Entry>, names: seq<string>, i: nat)
    requires i < |names| && forall e :: e in r ==> e.key in names[..i]
    requires names == ATTRIBUTES
    ensures !Has(r, names[i])
  {
    AttributesDistinct();
    forall j | 0 <= j < |r| ensures r[j].key != names[i] {
      assert r[j] in r && r[j].key in names[..i];
    }
    PositionAbsent(r, names[i]);
  }

  lemma AttributesDistinct()
    ensures forall i, j :: 0 <= i < j < |ATTRIBUTES| ==> ATTRIBUTES[i] != ATTRIBUTES[j]
  {
  }

  method ReadRequest(query: seq<Entry>, body: seq<Entry>, isJson: bool, path: seq<Entry>) returns (params: seq<Entry>)
    ensures params == NormalizeEntries(Combined(query, body, isJson, path))
  {
    hide Merged, Wrapped, Put, Has, NormalizeEntries;
    var merged := Merge([], query);
    merged := Merge(merged, body);
    if isJson && !Has(merged, WRAPPER) {
      var wrapped := WrapAttributes(body);
      merged := Put(merged, WRAPPER, Hash(wrapped));
    }
    merged := Merge(merged, path);
    return NormalizeEntries(merged);
  }
}
