/**
 * The current revision's decoder (`_unserialize` and the functions it
 * dispatches to) over the generic tree `json_decode($string, true)` yields.
 * The loops that fill `$array` and set properties are accumulator folds.
 */
module Decoder {
  import opened Wrappers
  import opened PhpArrays
  import opened PhpValues
  import opened Reflection
  import opened Settings

  /** `_unserialize($data)`. */
  function Decode(cfg: Config, fuel: nat, data: Value): Result<Value>
    decreases fuel, Size(data), 2
  {
    match data
    case Arr(es) =>
      SizeUnfold(data);
      (match Lookup(es, TypeKey)
       case None => ArrayDecode(cfg, fuel, es)
       case Some(tag) =>
         if tag == Str(HASH) then
           RemoveSize(es, TypeKey);
           ArrayDecode(cfg, fuel, Remove(es, TypeKey))
         else ObjectDecode(cfg, fuel, es, tag))
    case _ => Ok(data)
  }

  /** `_unserializeArray($data)` as a value. */
  function ArrayDecode(cfg: Config, fuel: nat, es: seq<(Key, Value)>): Result<Value>
    decreases fuel, EntriesSize(es) + 1, 0
  {
    match ArrayFrom(cfg, fuel, es, 0, [])
    case Ok(a) => Ok(Arr(a))
    case Err(e) => Err(e)
  }

  /** The loop of `_unserializeArray` from entry i on, with `$array` holding `acc`. */
  function ArrayFrom(cfg: Config, fuel: nat, es: seq<(Key, Value)>, i: nat, acc: seq<(Key, Value)>)
    : Result<seq<(Key, Value)>>
    requires i <= |es|
    decreases fuel, EntriesSize(es), |es| - i
  {
    if i == |es| then Ok(acc)
    else
      EntrySmaller(es, i);
      match Decode(cfg, fuel, es[i].1)
      case Err(e) => Err(e)
      case Ok(x) => ArrayFrom(cfg, fuel, es, i + 1, Put(acc, es[i].0, x))
  }

  /** `_unserializeObject($data)`, where `tag` is `$data['#type']`. */
  function ObjectDecode(cfg: Config, fuel: nat, es: seq<(Key, Value)>, tag: Value): Result<Value>
    decreases fuel, EntriesSize(es) + 1, 1
  {
    if !tag.Str? then Err(BadTypeTag(tag))
    else
      var cls := tag.s;
      if cls in cfg.unserializers then
        if fuel == 0 then Err(CodecNesting)
        else Decode(cfg, fuel - 1, cfg.unserializers[cls].apply(Arr(es)))
      else if cls == STD_CLASS then
        RemoveSize(es, TypeKey);
        match ArrayFrom(cfg, fuel, Remove(es, TypeKey), 0, [])
        case Ok(a) => Ok(Obj(STD_CLASS, CastToObject(a)))
        case Err(e) => Err(e)
      else
        match ClassDecls(cfg.classes, cls)
        case None => Err(UnknownClass(cls))
        case Some(decls) =>
          match FieldsFrom(cfg, fuel, es, PropertyTable(decls, cfg.skipPrivate), 0, Instantiate(cls, decls).fields)
          case Ok(f) => Ok(Obj(cls, f))
          case Err(e) => Err(e)
  }

  /** The property loop of `_unserializeObject` from table entry i on, the object's properties being `fields`. */
  function FieldsFrom(cfg: Config, fuel: nat, es: seq<(Key, Value)>, table: PropTable, i: nat,
                      fields: seq<(string, Value)>): Result<seq<(string, Value)>>
    requires i <= |table|
    decreases fuel, EntriesSize(es), |table| - i
  {
    if i == |table| then Ok(fields)
    else
      var name := table[i].0;
      match Lookup(es, NormalizeKey(name))
      case None => FieldsFrom(cfg, fuel, es, table, i + 1, fields)
      case Some(data) =>
        LookupSmaller(es, NormalizeKey(name));
        match Decode(cfg, fuel, data)
        case Err(e) => Err(e)
        case Ok(x) => FieldsFrom(cfg, fuel, es, table, i + 1, Put(fields, name, x))
  }
}
