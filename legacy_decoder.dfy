/**
 * The older revision's decoder over the tree `json_decode($string, true)`
 * yields: a `#hash`-tagged array is a hash with the tag dropped, any other
 * tag names a class, and an untagged array is read as a list by position.
 */
module LegacyDecoder {
  import opened Wrappers
  import opened PhpArrays
  import opened PhpValues
  import opened Reflection
  import opened LegacyEncoder

  /** `_unserialize($data)`. */
  function Decode(st: Setup, data: Value): Result<Value>
    decreases Size(data), 2
  {
    match data
    case Arr(es) =>
      SizeUnfold(data);
      (match Lookup(es, TypeKey)
       case None => ArrayDecode(st, es)
       case Some(tag) =>
         if tag == Str(HASH) then HashDecode(st, es)
         else ObjectDecode(st, es, tag))
    case _ => Ok(data)
  }

  /** `$data[$i]` for an array read by position: the value of the first entry under key i, or null where there is none. */
  function At(es: seq<(Key, Value)>, i: nat): Value
  {
    if es == [] then Null
    else if es[0].0 == IntK(i) then es[0].1
    else At(es[1..], i)
  }

  /** Reading position i is looking up key i, a missing key reading as null. */
  lemma {:induction false} AtIsLookup(es: seq<(Key, Value)>, i: nat)
    ensures Lookup(es, IntK(i)).Some? ==> At(es, i) == Lookup(es, IntK(i)).value
    ensures Lookup(es, IntK(i)).None? ==> At(es, i) == Null
  {
    if es != [] && es[0].0 != IntK(i) {
      AtIsLookup(es[1..], i);
    }
  }

  lemma {:induction false} AtSmaller(es: seq<(Key, Value)>, i: nat)
    requires es != []
    ensures Size(At(es, i)) < EntriesSize(es)
  {
    if es[0].0 != IntK(i) && es[1..] != [] {
      AtSmaller(es[1..], i);
    }
  }

  /** `_unserializeArray($data)` as a value. */
  function ArrayDecode(st: Setup, es: seq<(Key, Value)>): Result<Value>
    decreases EntriesSize(es) + 1, 1
  {
    match ItemsFrom(st, es, 0, [])
    case Ok(a) => Ok(Arr(a))
    case Err(e) => Err(e)
  }

  /** The loop of `_unserializeArray` from position i on: as many items as `$data` has entries, appended in turn. */
  function ItemsFrom(st: Setup, es: seq<(Key, Value)>, i: nat, acc: seq<(Key, Value)>): Result<seq<(Key, Value)>>
    requires i <= |es|
    decreases EntriesSize(es), |es| - i
  {
    if i == |es| then Ok(acc)
    else
      AtSmaller(es, i);
      match Decode(st, At(es, i))
      case Err(e) => Err(e)
      case Ok(x) => ItemsFrom(st, es, i + 1, acc + [(IntK(i), x)])
  }

  /** `_unserializeHash($data)` as a value. */
  function HashDecode(st: Setup, es: seq<(Key, Value)>): Result<Value>
    decreases EntriesSize(es) + 1, 1
  {
    match HashEntriesFrom(st, es, 0, [])
    case Ok(a) => Ok(Arr(a))
    case Err(e) => Err(e)
  }

  /** The loop of `_unserializeHash` from entry i on: the `#type` entry is passed over, every other one stored under its key. */
  function HashEntriesFrom(st: Setup, es: seq<(Key, Value)>, i: nat, acc: seq<(Key, Value)>): Result<seq<(Key, Value)>>
    requires i <= |es|
    decreases EntriesSize(es), |es| - i
  {
    if i == |es| then Ok(acc)
    else if es[i].0 == TypeKey then HashEntriesFrom(st, es, i + 1, acc)
    else
      EntrySmaller(es, i);
      match Decode(st, es[i].1)
      case Err(e) => Err(e)
      case Ok(x) => HashEntriesFrom(st, es, i + 1, Put(acc, es[i].0, x))
  }

  /**
   * `_unserializeObject($data)`, where `tag` is `$data['#type']`: an
   * instance made without its constructor, then every reflected property
   * present in the data rebuilt and set. Setting a static property changes
   * the class, not the instance.
   */
  function ObjectDecode(st: Setup, es: seq<(Key, Value)>, tag: Value): Result<Value>
    decreases EntriesSize(es) + 1, 1
  {
    if !tag.Str? then Err(BadTypeTag(tag))
    else
      match ClassDecls(st.classes, tag.s)
      case None => Err(UnknownClass(tag.s))
      case Some(decls) =>
        match FieldsFrom(st, es, LegacyTable(decls), 0, Instantiate(tag.s, decls).fields)
        case Ok(f) => Ok(Obj(tag.s, f))
        case Err(e) => Err(e)
  }

  /** The property loop of `_unserializeObject` from table entry i on, the instance's properties being `fields`. */
  function FieldsFrom(st: Setup, es: seq<(Key, Value)>, table: PropTable, i: nat, fields: seq<(string, Value)>)
    : Result<seq<(string, Value)>>
    requires i <= |table|
    decreases EntriesSize(es), |table| - i
  {
    if i == |table| then Ok(fields)
    else
      var name := table[i].0;
      match Lookup(es, NormalizeKey(name))
      case None => FieldsFrom(st, es, table, i + 1, fields)
      case Some(data) =>
        LookupSmaller(es, NormalizeKey(name));
        match Decode(st, data)
        case Err(e) => Err(e)
        case Ok(x) =>
          FieldsFrom(st, es, table, i + 1, SetValue(fields, table[i], x))
  }

  /** `$prop->setValue($object, $value)` for table entry p: an instance property's slot is assigned, a static property belongs to the class. */
  function SetValue(fields: seq<(string, Value)>, p: (string, PropDecl), x: Value): seq<(string, Value)>
  {
    if p.1.isStatic then fields else Put(fields, p.0, x)
  }

  // ---------------------------------------------------------------------------
  // One turn of each loop.

  /** One turn of the `_unserializeArray` loop: the rebuilt item is appended. */
  lemma ItemsStep(st: Setup, es: seq<(Key, Value)>, i: nat, acc: seq<(Key, Value)>, x: Value)
    requires i < |es| && Decode(st, At(es, i)) == Ok(x)
    ensures ItemsFrom(st, es, i, acc) == ItemsFrom(st, es, i + 1, acc + [(IntK(i), x)])
  {
  }

  /** A position of `_unserializeArray` that fails makes the whole list fail with its error. */
  lemma ItemsFail(st: Setup, es: seq<(Key, Value)>, i: nat, acc: seq<(Key, Value)>, e: Error)
    requires i < |es| && Decode(st, At(es, i)) == Err(e)
    ensures ItemsFrom(st, es, i, acc) == Err(e)
  {
  }

  /** A turn of the `_unserializeHash` loop on the `#type` entry: it is passed over. */
  lemma EntryTagSkipped(st: Setup, es: seq<(Key, Value)>, i: nat, acc: seq<(Key, Value)>)
    requires i < |es| && es[i].0 == TypeKey
    ensures HashEntriesFrom(st, es, i, acc) == HashEntriesFrom(st, es, i + 1, acc)
  {
  }

  /** One turn of the `_unserializeHash` loop on another entry: it is rebuilt and stored under its key. */
  lemma EntryStep(st: Setup, es: seq<(Key, Value)>, i: nat, acc: seq<(Key, Value)>, x: Value)
    requires i < |es| && es[i].0 != TypeKey && Decode(st, es[i].1) == Ok(x)
    ensures HashEntriesFrom(st, es, i, acc) == HashEntriesFrom(st, es, i + 1, Put(acc, es[i].0, x))
  {
  }

  /** An entry of `_unserializeHash` that fails makes the whole hash fail with its error. */
  lemma EntryFails(st: Setup, es: seq<(Key, Value)>, i: nat, acc: seq<(Key, Value)>, e: Error)
    requires i < |es| && es[i].0 != TypeKey && Decode(st, es[i].1) == Err(e)
    ensures HashEntriesFrom(st, es, i, acc) == Err(e)
  {
  }
}
