/**
 * The current revision's encoder (`_serialize` and the functions it
 * dispatches to) as recursive functions over values. Each loop that appends
 * to `$string` is a right fold here: `ListFrom(.., i)` is the text the loop
 * still appends from item i on, the closing bracket included.
 */
module Encoder {
  import opened Wrappers
  import opened PhpArrays
  import opened Numerals
  import opened PhpValues
  import opened Reflection
  import opened JsonText
  import opened Settings

  /** `array_keys($a) === array_keys(array_values($a))`: the keys are 0, 1, ..., n-1 in order. */
  predicate IsList(es: seq<(Key, Value)>)
  {
    forall i :: 0 <= i < |es| ==> es[i].0 == IntK(i)
  }

  /** A hash key as written: `json_encode((string) $key)`, unchecked. */
  function KeyLiteral(escape: Escaper, k: Key): string
  {
    EncodedOrEmpty(escape, KeyString(k))
  }

  /** Text `s` followed by a result that may have failed. */
  function Prepend(s: string, r: Result<string>): (q: Result<string>)
    ensures q.Ok? <==> r.Ok?
    ensures q.Ok? ==> q.value == s + r.value
  {
    match r
    case Ok(t) => Ok(s + t)
    case Err(e) => Err(e)
  }

  /** `_serialize($value, $indent)`. */
  function Text(cfg: Config, fuel: nat, indent: nat, v: Value): Result<string>
    decreases fuel, Size(v), 2
  {
    match v
    case Null => Ok("null")
    case Bool(b) => Ok(if b then "true" else "false")
    case Int(i) => Ok(Decimal(i))
    case Str(s) =>
      (match JsonString(cfg.escape, s)
       case Some(t) => Ok(t)
       case None => Err(MalformedString(s)))
    case Arr(es) =>
      SizeUnfold(v);
      if IsList(es) then Prepend("[", ListFrom(cfg, fuel, indent, es, 0))
      else Prepend("{", HashFrom(cfg, fuel, indent, es, 0))
    case Obj(cls, f) =>
      SizeUnfold(v);
      if cls == STD_CLASS then StdClassText(cfg, fuel, indent, f)
      else ObjectText(cfg, fuel, indent, cls, f)
  }

  /** `_serializeArray` from item i on: each item, a comma unless its key is the last one, then `]`. */
  function ListFrom(cfg: Config, fuel: nat, indent: nat, es: seq<(Key, Value)>, i: nat): Result<string>
    requires i <= |es|
    decreases fuel, EntriesSize(es) + 1, |es| - i
  {
    if i == |es| then Ok("]")
    else
      EntrySmaller(es, i);
      match Text(cfg, fuel, indent, es[i].1)
      case Err(e) => Err(e)
      case Ok(t) =>
        Prepend(t + (if es[i].0 == IntK(|es| - 1) then "" else ","), ListFrom(cfg, fuel, indent, es, i + 1))
  }

  /** `_serializeHash` from entry i on: a comma after the first entry, the entry on its own line, then the close. */
  function HashFrom(cfg: Config, fuel: nat, indent: nat, es: seq<(Key, Value)>, i: nat): Result<string>
    requires i <= |es|
    decreases fuel, EntriesSize(es) + 1, |es| - i
  {
    if i == |es| then Ok(Ws(cfg.format, indent) + "}")
    else
      EntrySmaller(es, i);
      match Text(cfg, fuel, indent + 1, es[i].1)
      case Err(e) => Err(e)
      case Ok(t) =>
        var entry := (if i == 0 then "" else ",") + Ws(cfg.format, indent + 1)
          + KeyLiteral(cfg.escape, es[i].0) + ":" + cfg.format.padding + t;
        Prepend(entry, HashFrom(cfg, fuel, indent, es, i + 1))
  }

  /** The array `_serializeStdClass` hands to `_serializeHash`: the properties, then the class tag. */
  function StdClassHash(f: seq<(string, Value)>): (h: seq<(Key, Value)>)
    ensures EntriesSize(h) <= EntriesSize(f) + 2
  {
    SameValuesSize(CastToArray(f), f);
    PutStrSize(CastToArray(f), TypeKey, STD_CLASS);
    Put(CastToArray(f), TypeKey, Str(STD_CLASS))
  }

  /** `_serializeStdClass`. */
  function StdClassText(cfg: Config, fuel: nat, indent: nat, f: seq<(string, Value)>): Result<string>
    decreases fuel, EntriesSize(f) + 4, 1
  {
    Prepend("{", HashFrom(cfg, fuel, indent, StdClassHash(f), 0))
  }

  /** `_serializeObject`: a registered serializer replaces the object, otherwise its property table is walked. */
  function ObjectText(cfg: Config, fuel: nat, indent: nat, cls: string, f: seq<(string, Value)>): Result<string>
    decreases fuel, EntriesSize(f) + 4, 1
  {
    if cls in cfg.serializers then
      if fuel == 0 then Err(CodecNesting)
      else Text(cfg, fuel - 1, indent, cfg.serializers[cls].apply(Obj(cls, f)))
    else
      match ClassDecls(cfg.classes, cls)
      case None => Err(UnknownClass(cls))
      case Some(decls) =>
        var head := "{" + Ws(cfg.format, indent + 1) + "\"" + TYPE + "\":" + cfg.format.padding
          + EncodedOrEmpty(cfg.escape, cls);
        Prepend(head, ObjectFrom(cfg, fuel, indent, f, PropertyTable(decls, cfg.skipPrivate), 0))
  }

  /** The property loop of `_serializeObject` from table entry i on, then the close. */
  function ObjectFrom(cfg: Config, fuel: nat, indent: nat, f: seq<(string, Value)>, table: PropTable, i: nat): Result<string>
    requires i <= |table|
    decreases fuel, EntriesSize(f) + 2, |table| - i
  {
    if i == |table| then Ok(Ws(cfg.format, indent) + "}")
    else
      var name := table[i].0;
      GetValueSize(f, name);
      match Text(cfg, fuel, indent + 1, GetValue(f, name))
      case Err(e) => Err(e)
      case Ok(t) =>
        var entry := "," + Ws(cfg.format, indent + 1) + EncodedOrEmpty(cfg.escape, name) + ":"
          + cfg.format.padding + t;
        Prepend(entry, ObjectFrom(cfg, fuel, indent, f, table, i + 1))
  }
}
