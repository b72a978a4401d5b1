/**
  Request parameters as immutable trees: the values that the Rack reader, the JSON
  reader and the nil remover of internal/news_articles exchange.
 */
module ParamTree {
  import opened RubyFloat

  /** A decoded JSON number: an integer literal, or a literal with a fraction or exponent. */
  datatype Number = Integer(n: int) | Float(f: Float64)

  /**
    Nil, Str, Bool and Num are leaves. List is a plain slice, Builder is the growable
    array that only exists while Rack keys are read, and Hash keeps its entries in
    insertion order.
   */
  datatype Tree =
    | Nil
    | Str(s: string)
    | Bool(b: bool)
    | Num(number: Number)
    | List(items: seq<Tree>)
    | Builder(items: seq<Tree>)
    | Hash(entries: seq<Entry>)

  datatype Entry = Entry(key: string, value: Tree)

  // ----- One hash level: entries as an insertion-ordered map -----

  /** Position of the first entry stored under key, or |es| when there is none. */
  function Position(es: seq<Entry>, key: string): (i: nat)
    ensures i <= |es|
    ensures i < |es| ==> es[i].key == key
    ensures forall j :: 0 <= j < i ==> es[j].key != key
  {
    if es == [] || es[0].key == key then 0 else 1 + Position(es[1..], key)
  }

  predicate Has(es: seq<Entry>, key: string)
  {
    Position(es, key) < |es|
  }

  /** The stored value, or Nil for a missing key. */
  function Get(es: seq<Entry>, key: string): Tree
  {
    var i := Position(es, key);
    if i < |es| then es[i].value else Nil
  }

  /** Stores a value: an existing key keeps its place, a new key goes last. */
  function Put(es: seq<Entry>, key: string, value: Tree): seq<Entry>
  {
    var i := Position(es, key);
    if i < |es| then es[i := Entry(key, value)] else es + [Entry(key, value)]
  }

  function Keys(es: seq<Entry>): (ks: seq<string>)
    ensures |ks| == |es|
    ensures forall i :: 0 <= i < |es| ==> ks[i] == es[i].key
  {
    seq(|es|, i requires 0 <= i < |es| => es[i].key)
  }

  ghost predicate DistinctKeys(es: seq<Entry>)
  {
    forall i, j :: 0 <= i < j < |es| ==> es[i].key != es[j].key
  }

  lemma PositionAbsent(es: seq<Entry>, key: string)
    requires forall i :: 0 <= i < |es| ==> es[i].key != key
    ensures Position(es, key) == |es|
  {
  }

  lemma PutPosition(es: seq<Entry>, key: string, value: Tree)
    ensures var es1, p := Put(es, key, value), Position(es, key);
            && p < |es1| && es1[p] == Entry(key, value) && Position(es1, key) == p
            && |es1| == (if p < |es| then |es| else |es| + 1)
            && forall j :: 0 <= j < |es| && j != p ==> es1[j] == es[j]
  {
    var es1, p := Put(es, key, value), Position(es, key);
    var q := Position(es1, key);
    assert forall j :: 0 <= j < p ==> es1[j] == es[j];
    if q < p { assert false; }
  }

  /** Read-over-write laws of the ordered map, with the key order it keeps. */
  lemma PutLaws(es: seq<Entry>, key: string, value: Tree, other: string)
    ensures Get(Put(es, key, value), key) == value && Has(Put(es, key, value), key)
    ensures other != key ==> Get(Put(es, key, value), other) == Get(es, other)
    ensures other != key ==> Has(Put(es, key, value), other) == Has(es, other)
    ensures Keys(Put(es, key, value)) == if Has(es, key) then Keys(es) else Keys(es) + [key]
    ensures DistinctKeys(es) ==> DistinctKeys(Put(es, key, value))
  {
    hide Put;
    PutPosition(es, key, value);
    var es1, p := Put(es, key, value), Position(es, key);
    if other != key {
      OtherPosition(es, es1, p, other);
    }
    assert forall j :: 0 <= j < |es| ==> es1[j].key == es[j].key;
  }

  /** A key that is not the one at p has the same position in entries that differ only there. */
  lemma OtherPosition(es: seq<Entry>, es1: seq<Entry>, p: nat, other: string)
    requires |es| <= |es1| <= |es| + 1 && p < |es1| && (|es1| == |es| + 1 ==> p == |es|)
    requires es1[p].key != other && (p < |es| ==> es[p].key != other)
    requires forall j :: 0 <= j < |es| && j != p ==> es1[j] == es[j]
    ensures Position(es1, other) < |es1| <==> Position(es, other) < |es|
    ensures Position(es, other) < |es| ==> Position(es1, other) == Position(es, other) != p
  {
    var o, n := Position(es, other), Position(es1, other);
    assert forall j :: 0 <= j < |es| && j != p ==> es1[j].key == es[j].key;
    if o < |es| {
      assert es1[o] == es[o];
    }
    if n < |es1| && (o >= |es| || n < o) { assert false; }
  }

  lemma PutAt(es: seq<Entry>, key: string, i: nat, value: Tree)
    requires i == Position(es, key) && i < |es|
    ensures es[i := Entry(key, value)] == Put(es, key, value)
  {
  }

  lemma PutSame(es: seq<Entry>, key: string)
    requires Has(es, key)
    ensures Put(es, key, Get(es, key)) == es
  {
    var i := Position(es, key);
    assert es[i] == Entry(key, Get(es, key));
  }

  lemma PutTwice(es: seq<Entry>, key: string, a: Tree, b: Tree)
    ensures Put(Put(es, key, a), key, b) == Put(es, key, b)
    ensures Get(Put(es, key, a), key) == a
  {
    PutPosition(es, key, a);
  }

  // ----- Whole trees -----

  /** Every hash anywhere in the tree has distinct keys. */
  ghost predicate WellKeyed(t: Tree)
  {
    match t
    case List(items) => forall x :: x in items ==> WellKeyed(x)
    case Builder(items) => forall x :: x in items ==> WellKeyed(x)
    case Hash(es) => DistinctKeys(es) && forall e :: e in es ==> WellKeyed(e.value)
    case _ => true
  }
}
