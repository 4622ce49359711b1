/**
 * The document the current revision's encoder writes, as a tree: which
 * values become JSON arrays, which become objects and with which members.
 * `TextIsRenderedWire` proves that the encoder's text is this tree laid out
 * by `Render`, error cases included.
 */
module WireFormat {
  import opened Wrappers
  import opened PhpArrays
  import opened PhpValues
  import opened Reflection
  import opened JsonText
  import opened JsonTree
  import opened Settings
  import opened Encoder

  /** The document for a value: lists become arrays, other arrays and objects become objects. */
  function Wire(cfg: Config, fuel: nat, v: Value): Result<Json>
    decreases fuel, Size(v), 2
  {
    match v
    case Null => Ok(JNull)
    case Bool(b) => Ok(JBool(b))
    case Int(i) => Ok(JInt(i))
    case Str(s) => if JsonString(cfg.escape, s).None? then Err(MalformedString(s)) else Ok(JStr(s))
    case Arr(es) =>
      SizeUnfold(v);
      if IsList(es) then
        (match WireItems(cfg, fuel, es, 0)
         case Ok(items) => Ok(JArray(items))
         case Err(e) => Err(e))
      else
        (match WireEntries(cfg, fuel, es, 0)
         case Ok(ms) => Ok(JObject(ms))
         case Err(e) => Err(e))
    case Obj(cls, f) =>
      SizeUnfold(v);
      WireObject(cfg, fuel, cls, f)
  }

  /** An object: a `stdClass` as a hash with its tag last, a registered class through its serializer, any other class as its tag and its property table. */
  function WireObject(cfg: Config, fuel: nat, cls: string, f: seq<(string, Value)>): Result<Json>
    decreases fuel, EntriesSize(f) + 4, 1
  {
    if cls == STD_CLASS then
      (match WireEntries(cfg, fuel, StdClassHash(f), 0)
       case Ok(ms) => Ok(JObject(ms))
       case Err(e) => Err(e))
    else if cls in cfg.serializers then
      if fuel == 0 then Err(CodecNesting)
      else Wire(cfg, fuel - 1, cfg.serializers[cls].apply(Obj(cls, f)))
    else
      match ClassDecls(cfg.classes, cls)
      case None => Err(UnknownClass(cls))
      case Some(decls) =>
        match WireFields(cfg, fuel, f, PropertyTable(decls, cfg.skipPrivate), 0)
        case Ok(ms) => Ok(JObject([(TYPE, JStr(cls))] + ms))
        case Err(e) => Err(e)
  }

  function WireItems(cfg: Config, fuel: nat, es: seq<(Key, Value)>, i: nat): (r: Result<seq<Json>>)
    requires i <= |es|
    ensures r.Ok? ==> |r.value| == |es| - i
    decreases fuel, EntriesSize(es) + 1, |es| - i
  {
    if i == |es| then Ok([])
    else
      EntrySmaller(es, i);
      match Wire(cfg, fuel, es[i].1)
      case Err(e) => Err(e)
      case Ok(j) =>
        match WireItems(cfg, fuel, es, i + 1)
        case Err(e) => Err(e)
        case Ok(rest) => Ok([j] + rest)
  }

  /** A hash's members: each key as a string, with its value's document. */
  function WireEntries(cfg: Config, fuel: nat, es: seq<(Key, Value)>, i: nat): (r: Result<seq<(string, Json)>>)
    requires i <= |es|
    ensures r.Ok? ==> |r.value| == |es| - i
    decreases fuel, EntriesSize(es) + 1, |es| - i
  {
    if i == |es| then Ok([])
    else
      EntrySmaller(es, i);
      match Wire(cfg, fuel, es[i].1)
      case Err(e) => Err(e)
      case Ok(j) =>
        match WireEntries(cfg, fuel, es, i + 1)
        case Err(e) => Err(e)
        case Ok(rest) => Ok([(KeyString(es[i].0), j)] + rest)
  }

  /** An object's members after the tag: one per property-table entry, in table order. */
  function WireFields(cfg: Config, fuel: nat, f: seq<(string, Value)>, table: PropTable, i: nat)
    : (r: Result<seq<(string, Json)>>)
    requires i <= |table|
    ensures r.Ok? ==> |r.value| == |table| - i
    decreases fuel, EntriesSize(f) + 2, |table| - i
  {
    if i == |table| then Ok([])
    else
      GetValueSize(f, table[i].0);
      match Wire(cfg, fuel, GetValue(f, table[i].0))
      case Err(e) => Err(e)
      case Ok(j) =>
        match WireFields(cfg, fuel, f, table, i + 1)
        case Err(e) => Err(e)
        case Ok(rest) => Ok([(table[i].0, j)] + rest)
  }

  /** A document laid out at level `indent`, or the error that prevented it. */
  function Rendered(cfg: Config, indent: nat, r: Result<Json>): Result<string>
  {
    match r
    case Ok(j) => Ok(Render(cfg.format, cfg.escape, indent, j))
    case Err(e) => Err(e)
  }
}
