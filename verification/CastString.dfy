/** String casts of request parameters: castString of rails_cast.go. */
module CastString {
  import opened NilRemoval
  import opened ParamTree
  import opened RubyFloat
  import opened RubyInspect
  import opened RubyInspectReader
  import opened Wrappers

  /** nil stays nil; strings are kept, booleans become one letter, everything else is printed. */
  function Cast(t: Tree, printable: Printable): Option<string>
    requires Inspectable(t)
  {
    match t
    case Nil => None
    case Str(s) => Some(s)
    case Bool(b) => Some(if b then "t" else "f")
    case _ => Some(Inspect(t, printable))
  }

  /** Every float in the tree has the digits of a float. */
  ghost predicate WellNumbered(t: Tree)
  {
    match t
    case Num(Float(f)) => WellFormed(f)
    case List(items) => forall x :: x in items ==> WellNumbered(x)
    case Builder(items) => forall x :: x in items ==> WellNumbered(x)
    case Hash(es) => forall e :: e in es ==> WellNumbered(e.value)
    case _ => true
  }

  lemma {:induction false} NormalizedNumbers(t: Tree)
    requires WellNumbered(t)
    ensures Inspectable(Normalize(t))
    decreases t, 1
  {
    match t
    case List(items) => ItemNumbers(items);
    case Builder(items) => ItemNumbers(items);
    case Hash(es) => EntryNumbers(es);
    case _ =>
  }

  lemma {:induction false} ItemNumbers(items: seq<Tree>)
    requires forall x :: x in items ==> WellNumbered(x)
    ensures forall x :: x in NormalizeItems(items) ==> Inspectable(x)
    decreases items, 0
  {
    if items != [] {
      assert items[0] in items && forall x :: x in items[1..] ==> x in items;
      NormalizedNumbers(items[0]);
      ItemNumbers(items[1..]);
    }
  }

  lemma {:induction false} EntryNumbers(es: seq<Entry>)
    requires forall e :: e in es ==> WellNumbered(e.value)
    ensures forall e :: e in NormalizeEntries(es) ==> Inspectable(e.value)
    decreases es, 0
  {
    if es != [] {
      assert es[0] in es && forall e :: e in es[1..] ==> e in es;
      NormalizedNumbers(es[0].value);
      EntryNumbers(es[1..]);
    }
  }

  predicate SameKind(a: Tree, b: Tree)
  {
    (a.Nil? <==> b.Nil?) && (a.Str? <==> b.Str?) && (a.Bool? <==> b.Bool?)
  }

  /**
    Every parameter that survives nil removal can be cast, and two parameters of one kind
    cast alike only when they are equal, whatever the printable characters are.
   */
  lemma CastsApart(a: Tree, b: Tree, printable: Printable)
    requires WellNumbered(a) && WellNumbered(b)
    ensures Inspectable(Normalize(a)) && Inspectable(Normalize(b))
    ensures SameKind(Normalize(a), Normalize(b)) && Cast(Normalize(a), printable) == Cast(Normalize(b), printable) ==>
              Normalize(a) == Normalize(b)
  {
    hide Normalize, Inspect, Inspectable, WellNumbered;
    NormalizedNumbers(a);
    NormalizedNumbers(b);
    var x, y := Normalize(a), Normalize(b);
    if SameKind(x, y) && Cast(x, printable) == Cast(y, printable) {
      if x.Bool? {
        assert (if x.b then "t" else "f")[0] == (if y.b then "t" else "f")[0];
      } else if !x.Nil? && !x.Str? {
        InspectInjective(x, y, printable);
      }
    }
  }
}
