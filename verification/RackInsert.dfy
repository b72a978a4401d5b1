/**
  What storing one bracketed name does to the parameter tree, as a function on values.
  RackParams.dfy proves the in-place algorithm of rails_params.go against it.
 */
module RackInsert {
  import opened Wrappers
  import opened ParamTree
  import opened RackKeys

  /** BadRequest is Rack's ParameterTypeError; Done carries the returned value and the new entries. */
  datatype Outcome = BadRequest | Done(returned: Tree, entries: seq<Entry>)

  /** True when every piece of key leads to an entry, walking down hashes only. */
  predicate HasPieces(t: Tree, pieces: seq<string>)
    decreases |pieces|
  {
    pieces == [] ||
    (t.Hash? && Has(t.entries, pieces[0]) && HasPieces(Get(t.entries, pieces[0]), pieces[1..]))
  }

  predicate HasKeyPath(t: Tree, key: string)
  {
    !HasEmptyBrackets(key) && HasPieces(t, Pieces(key))
  }

  /** The element of a growing array that the next child name goes into, if it may. */
  predicate JoinsLast(items: seq<Tree>, childKey: string)
  {
    items != [] && items[|items| - 1].Hash? && !HasKeyPath(items[|items| - 1], childKey)
  }

  /** Where the next child name goes: into the last element, or into a new one after it. */
  function SlotIndex(items: seq<Tree>, childKey: string): nat
  {
    if JoinsLast(items, childKey) then |items| - 1 else |items|
  }

  function SlotEntries(items: seq<Tree>, childKey: string): seq<Entry>
  {
    if JoinsLast(items, childKey) then items[|items| - 1].entries else []
  }

  function PutItem(items: seq<Tree>, i: nat, item: Tree): seq<Tree>
    requires i <= |items|
  {
    if i < |items| then items[i := item] else items + [item]
  }

  /** The items an array name appends to; a value of another kind refuses. */
  function ArrayItems(t: Tree): (r: Option<seq<Tree>>)
    ensures r == None <==> t != Nil && !t.Builder?
  {
    match t
    case Nil => Some([])
    case Builder(items) => Some(items)
    case _ => None
  }

  function HashEntries(t: Tree): (r: Option<seq<Entry>>)
    ensures r == None <==> t != Nil && !t.Hash?
  {
    match t
    case Nil => Some([])
    case Hash(entries) => Some(entries)
    case _ => None
  }

  function Insert(es: seq<Entry>, name: string, value: Tree): (r: Outcome)
    decreases |name|
  {
    match ShapeOf(name)
    case Keyless => Done(if value != Nil && name == "[]" then List([value]) else Nil, es)
    case Scalar(key) => DonePut(es, key, value)
    case ArrayEnd(key) => (
      match ArrayItems(Get(es, key))
      case None => BadRequest
      case Some(items) => DonePut(es, key, Builder(items + [value])))
    case ArrayChild(key, childKey) => (
      match ArrayItems(Get(es, key))
      case None => BadRequest
      case Some(items) =>
        var i := SlotIndex(items, childKey);
        match Insert(SlotEntries(items, childKey), childKey, value)
        case BadRequest => BadRequest
        case Done(child, sub) => DonePut(es, key, Builder(PutItem(items, i, if i < |items| then Hash(sub) else child))))
    case HashChild(key, after) =>
      match HashEntries(Get(es, key))
      case None => BadRequest
      case Some(sub) =>
        match Insert(sub, after, value)
        case BadRequest => BadRequest
        case Done(_, sub') => DonePut(es, key, Hash(sub'))
  }

  function DonePut(es: seq<Entry>, key: string, value: Tree): Outcome
  {
    var es' := Put(es, key, value);
    Done(Hash(es'), es')
  }

  /** A query string or a form: decoded pairs stored in order, stopping at the first refusal. */
  function InsertAll(es: seq<Entry>, pairs: seq<(string, Tree)>): Outcome
    decreases |pairs|
  {
    if pairs == [] then Done(Hash(es), es) else
      match Insert(es, pairs[0].0, pairs[0].1)
      case BadRequest => BadRequest
      case Done(_, es') => InsertAll(es', pairs[1..])
  }
}
