/**
  Rails' deep munge, normalizeParam of rails_params.go: arrays lose their nils at every
  depth, and the builder arrays of the Rack reader become plain lists.
 */
module NilRemoval {
  import opened ParamTree

  function Normalize(t: Tree): Tree
    decreases t, 1
  {
    match t
    case List(items) => List(NormalizeItems(items))
    case Builder(items) => List(NormalizeItems(items))
    case Hash(es) => Hash(NormalizeEntries(es))
    case _ => t
  }

  function NormalizeItems(items: seq<Tree>): seq<Tree>
    decreases items, 0
  {
    if items == [] then [] else
      var first := Normalize(items[0]);
      (if first == Nil then [] else [first]) + NormalizeItems(items[1..])
  }

  function NormalizeEntries(es: seq<Entry>): (r: seq<Entry>)
    ensures Keys(r) == Keys(es)
    decreases es, 0
  {
    if es == [] then [] else
      [Entry(es[0].key, Normalize(es[0].value))] + NormalizeEntries(es[1..])
  }

  /** No nil in any array and no builder array, at any depth. */
  ghost predicate Clean(t: Tree)
  {
    match t
    case List(items) => Nil !in items && forall x :: x in items ==> Clean(x)
    case Builder(_) => false
    case Hash(es) => forall e :: e in es ==> Clean(e.value)
    case _ => true
  }

  lemma {:induction false} NormalizeIsClean(t: Tree)
    ensures Clean(Normalize(t))
    decreases t, 1
  {
    match t
    case List(items) => ItemsAreClean(items);
    case Builder(items) => ItemsAreClean(items);
    case Hash(es) => EntriesAreClean(es);
    case _ =>
  }

  lemma {:induction false} ItemsAreClean(items: seq<Tree>)
    ensures Clean(List(NormalizeItems(items)))
    decreases items, 0
  {
    if items != [] {
      NormalizeIsClean(items[0]);
      ItemsAreClean(items[1..]);
    }
  }

  lemma {:induction false} EntriesAreClean(es: seq<Entry>)
    ensures Clean(Hash(NormalizeEntries(es)))
    decreases es, 0
  {
    if es != [] {
      NormalizeIsClean(es[0].value);
      EntriesAreClean(es[1..]);
    }
  }

  // ----- What survives -----

  /** A tree read from left to right. Nils of arrays leave no mark, nils of hashes do. */
  datatype Mark = Leaf(t: Tree) | Key(k: string) | OpenArray | OpenHash | Close

  function Outline(t: Tree): (ms: seq<Mark>)
    ensures ms != [] && ms[0] != Close && !ms[0].Key?
    decreases t, 1
  {
    match t
    case List(items) => [OpenArray] + OutlineItems(items) + [Close]
    case Builder(items) => [OpenArray] + OutlineItems(items) + [Close]
    case Hash(es) => [OpenHash] + OutlineEntries(es) + [Close]
    case _ => [Leaf(t)]
  }

  function OutlineItems(items: seq<Tree>): seq<Mark>
    decreases items, 0
  {
    if items == [] then [] else (if items[0] == Nil then [] else Outline(items[0])) + OutlineItems(items[1..])
  }

  function OutlineEntries(es: seq<Entry>): seq<Mark>
    decreases es, 0
  {
    if es == [] then [] else [Key(es[0].key)] + Outline(es[0].value) + OutlineEntries(es[1..])
  }

  lemma {:induction false} OutlineKept(t: Tree)
    ensures Outline(Normalize(t)) == Outline(t)
    decreases t, 1
  {
    match t
    case List(items) => OutlineItemsKept(items);
    case Builder(items) => OutlineItemsKept(items);
    case Hash(es) => OutlineEntriesKept(es);
    case _ =>
  }

  lemma {:induction false} OutlineItemsKept(items: seq<Tree>)
    ensures OutlineItems(NormalizeItems(items)) == OutlineItems(items)
    decreases items, 0
  {
    if items != [] {
      OutlineKept(items[0]);
      OutlineItemsKept(items[1..]);
      var first, rest := Normalize(items[0]), NormalizeItems(items[1..]);
      if first != Nil {
        assert ([first] + rest)[1..] == rest;
      } else {
        assert [] + rest == rest && [] + OutlineItems(items[1..]) == OutlineItems(items[1..]);
      }
    }
  }

  lemma {:induction false} OutlineEntriesKept(es: seq<Entry>)
    ensures OutlineEntries(NormalizeEntries(es)) == OutlineEntries(es)
    decreases es, 0
  {
    if es != [] {
      OutlineKept(es[0].value);
      OutlineEntriesKept(es[1..]);
      assert NormalizeEntries(es)[1..] == NormalizeEntries(es[1..]);
    }
  }

  lemma ConsAssoc(a: seq<Mark>, b: seq<Mark>, c: seq<Mark>)
    ensures (a + b) + c == a + (b + c)
  {
  }

  /** Clean trees with one outline are the same tree, whatever follows them. */
  lemma {:induction false} OutlineReads(a: Tree, b: Tree, p: seq<Mark>, q: seq<Mark>)
    requires Clean(a) && Clean(b) && Outline(a) + p == Outline(b) + q
    ensures a == b && p == q
    decreases a, 1
  {
    assert (Outline(a) + p)[0] == Outline(a)[0] && (Outline(b) + q)[0] == Outline(b)[0];
    match a
    case List(items) =>
      ConsAssoc([OpenArray] + OutlineItems(a.items), [Close], p);
      ConsAssoc([OpenArray] + OutlineItems(b.items), [Close], q);
      ConsAssoc([OpenArray], OutlineItems(a.items), [Close] + p);
      ConsAssoc([OpenArray], OutlineItems(b.items), [Close] + q);
      Unprefix(OpenArray, OutlineItems(a.items) + ([Close] + p), OutlineItems(b.items) + ([Close] + q));
      ItemsRead(a.items, b.items, p, q);
    case Hash(es) =>
      ConsAssoc([OpenHash] + OutlineEntries(a.entries), [Close], p);
      ConsAssoc([OpenHash] + OutlineEntries(b.entries), [Close], q);
      ConsAssoc([OpenHash], OutlineEntries(a.entries), [Close] + p);
      ConsAssoc([OpenHash], OutlineEntries(b.entries), [Close] + q);
      Unprefix(OpenHash, OutlineEntries(a.entries) + ([Close] + p), OutlineEntries(b.entries) + ([Close] + q));
      EntriesRead(a.entries, b.entries, p, q);
    case _ =>
      Unprefix(Leaf(a), p, q);
  }

  lemma Unprefix(m: Mark, a: seq<Mark>, b: seq<Mark>)
    requires [m] + a == [m] + b
    ensures a == b
  {
    assert ([m] + a)[1..] == a && ([m] + b)[1..] == b;
  }

  lemma ClosedIffNoItem(items: seq<Tree>, p: seq<Mark>)
    requires Clean(List(items))
    ensures var x := OutlineItems(items) + ([Close] + p);
            items == [] <==> x[0] == Close
    ensures items == [] ==> OutlineItems(items) + ([Close] + p) == [Close] + p
  {
    if items != [] {
      assert OutlineItems(items)[0] == Outline(items[0])[0];
    }
  }

  lemma ClosedIffNoEntry(es: seq<Entry>, p: seq<Mark>)
    ensures var x := OutlineEntries(es) + ([Close] + p);
            x[0] == if es == [] then Close else Key(es[0].key)
    ensures es == [] ==> OutlineEntries(es) + ([Close] + p) == [Close] + p
  {
  }

  lemma {:induction false} ItemsRead(as': seq<Tree>, bs: seq<Tree>, p: seq<Mark>, q: seq<Mark>)
    requires Clean(List(as')) && Clean(List(bs))
    requires OutlineItems(as') + ([Close] + p) == OutlineItems(bs) + ([Close] + q)
    ensures as' == bs && p == q
    decreases as', 0
  {
    ClosedIffNoItem(as', p);
    ClosedIffNoItem(bs, q);
    if as' == [] {
      Unprefix(Close, p, q);
    } else {
      assert as'[0] in as' && bs[0] in bs;
      ConsAssoc(Outline(as'[0]), OutlineItems(as'[1..]), [Close] + p);
      ConsAssoc(Outline(bs[0]), OutlineItems(bs[1..]), [Close] + q);
      OutlineReads(as'[0], bs[0], OutlineItems(as'[1..]) + ([Close] + p), OutlineItems(bs[1..]) + ([Close] + q));
      ItemsRead(as'[1..], bs[1..], p, q);
      assert as' == [as'[0]] + as'[1..] && bs == [bs[0]] + bs[1..];
    }
  }

  lemma {:induction false} EntriesRead(as': seq<Entry>, bs: seq<Entry>, p: seq<Mark>, q: seq<Mark>)
    requires Clean(Hash(as')) && Clean(Hash(bs))
    requires OutlineEntries(as') + ([Close] + p) == OutlineEntries(bs) + ([Close] + q)
    ensures as' == bs && p == q
    decreases as', 0
  {
    hide Outline, OutlineEntries;
    ClosedIffNoEntry(as', p);
    ClosedIffNoEntry(bs, q);
    if as' == [] {
      Unprefix(Close, p, q);
    } else {
      assert as'[0] in as' && bs[0] in bs;
      var restA, restB := OutlineEntries(as'[1..]) + ([Close] + p), OutlineEntries(bs[1..]) + ([Close] + q);
      EntriesUnfold(as', p);
      EntriesUnfold(bs, q);
      Unprefix(Key(as'[0].key), Outline(as'[0].value) + restA, Outline(bs[0].value) + restB);
      OutlineReads(as'[0].value, bs[0].value, restA, restB);
      EntriesRead(as'[1..], bs[1..], p, q);
      assert as' == [as'[0]] + as'[1..] && bs == [bs[0]] + bs[1..];
    }
  }

  lemma EntriesUnfold(es: seq<Entry>, p: seq<Mark>)
    requires es != []
    ensures OutlineEntries(es) + ([Close] + p) ==
            [Key(es[0].key)] + (Outline(es[0].value) + (OutlineEntries(es[1..]) + ([Close] + p)))
  {
  }

  /**
    Nil removal is fully described by two facts: the result is clean, and reads the same
    from left to right. In particular it changes nothing exactly on clean trees.
   */
  lemma NormalizeCharacterised(t: Tree, r: Tree)
    ensures r == Normalize(t) <==> Clean(r) && Outline(r) == Outline(t)
    ensures Normalize(t) == t <==> Clean(t)
    ensures Normalize(Normalize(t)) == Normalize(t)
  {
    NormalizeIsClean(t);
    OutlineKept(t);
    if Clean(r) && Outline(r) == Outline(t) {
      OutlineReads(r, Normalize(t), [], []);
    }
    if Clean(t) {
      OutlineReads(t, Normalize(t), [], []);
    }
    NormalizeIsClean(Normalize(t));
    OutlineKept(Normalize(t));
    OutlineReads(Normalize(Normalize(t)), Normalize(t), [], []);
  }

  lemma {:induction false} NormalizeItemsSnoc(items: seq<Tree>, x: Tree)
    ensures NormalizeItems(items + [x]) ==
            NormalizeItems(items) + (if Normalize(x) == Nil then [] else [Normalize(x)])
    decreases |items|
  {
    hide Normalize, NormalizeItems;
    FirstNormalized(items + [x]);
    FirstNormalized(items);
    if items == [] {
      assert items + [x] == [x] && [x][1..] == [];
      FirstNormalized([]);
    } else {
      assert (items + [x])[1..] == items[1..] + [x];
      NormalizeItemsSnoc(items[1..], x);
    }
  }

  lemma FirstNormalized(items: seq<Tree>)
    ensures NormalizeItems(items) ==
            if items == [] then [] else
              (if Normalize(items[0]) == Nil then [] else [Normalize(items[0])]) + NormalizeItems(items[1..])
  {
    hide Normalize;
  }

  lemma {:induction false} NormalizeEntriesSnoc(es: seq<Entry>, e: Entry)
    requires DistinctKeys(es + [e])
    ensures Put(NormalizeEntries(es), e.key, Normalize(e.value)) == NormalizeEntries(es + [e])
  {
    var all := es + [e];
    assert all[|es|] == e && forall i :: 0 <= i < |es| ==> all[i] == es[i];
    var r := NormalizeEntries(es);
    assert forall i :: 0 <= i < |r| ==> r[i].key == Keys(r)[i] && Keys(es)[i] == es[i].key;
    PositionAbsent(r, e.key);
    NormalizeEntriesAppend(es, e);
  }

  lemma {:induction false} NormalizeEntriesAppend(es: seq<Entry>, e: Entry)
    ensures NormalizeEntries(es + [e]) == NormalizeEntries(es) + [Entry(e.key, Normalize(e.value))]
    decreases |es|
  {
    if es == [] {
      assert es + [e] == [e] && [e][1..] == [];
    } else {
      assert (es + [e])[1..] == es[1..] + [e];
      NormalizeEntriesAppend(es[1..], e);
    }
  }
}
