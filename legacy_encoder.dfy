/**
 * The older revision's encoder (`mindplay\jsonfreeze\JsonSerializer`):
 * `serialize` accepts only objects, a hash carries the `#hash` tag ahead of
 * its entries, every property reflection reports (static ones included) is
 * written, and there are neither registered codecs nor a `stdClass` case.
 * Without codecs the walk needs no fuel: it terminates on the number of
 * objects in a value and then on its size (a static property's value is a
 * constant, which holds no object).
 */
module LegacyEncoder {
  import opened Wrappers
  import opened PhpArrays
  import opened Numerals
  import opened PhpValues
  import opened Reflection
  import opened JsonText
  import Encoder

  /** What an instance of the older serializer is configured with: the layout, and what reflection and `json_encode` see. */
  datatype Setup = Setup(format: Format, classes: ClassTable, escape: Escaper)

  // ---------------------------------------------------------------------------
  // The number of objects in a value: the first termination measure.

  function Objects(v: Value): nat
  {
    match v
    case Arr(e) => Sum(seq(|e|, i requires 0 <= i < |e| => Objects(e[i].1)))
    case Obj(_, f) => 1 + Sum(seq(|f|, i requires 0 <= i < |f| => Objects(f[i].1)))
    case _ => 0
  }

  function EntriesObjects<K(!new)>(e: seq<(K, Value)>): nat
  {
    if e == [] then 0 else Objects(e[0].1) + EntriesObjects(e[1..])
  }

  lemma {:induction false} SumIsEntriesObjects<K(!new)>(e: seq<(K, Value)>)
    ensures Sum(seq(|e|, i requires 0 <= i < |e| => Objects(e[i].1))) == EntriesObjects(e)
  {
    if e != [] {
      SumIsEntriesObjects(e[1..]);
      assert seq(|e|, i requires 0 <= i < |e| => Objects(e[i].1))[1..]
          == seq(|e[1..]|, i requires 0 <= i < |e[1..]| => Objects(e[1..][i].1));
    }
  }

  lemma ObjectsUnfold(v: Value)
    ensures v.Arr? ==> Objects(v) == EntriesObjects(v.entries)
    ensures v.Obj? ==> Objects(v) == EntriesObjects(v.fields) + 1
  {
    match v
    case Arr(e) => SumIsEntriesObjects(e);
    case Obj(_, f) => SumIsEntriesObjects(f);
    case _ =>
  }

  lemma {:induction false} EntryObjects<K(!new)>(e: seq<(K, Value)>, i: nat)
    requires i < |e|
    ensures Objects(e[i].1) <= EntriesObjects(e)
  {
    if i > 0 {
      EntryObjects(e[1..], i - 1);
    }
  }

  lemma {:induction false} LookupObjects<K(!new)>(e: seq<(K, Value)>, k: K)
    requires Lookup(e, k).Some?
    ensures Objects(Lookup(e, k).value) <= EntriesObjects(e)
  {
    if e[0].0 != k {
      LookupObjects(e[1..], k);
    }
  }

  lemma GetValueObjects(f: seq<(string, Value)>, name: string)
    ensures Objects(GetValue(f, name)) <= EntriesObjects(f)
  {
    if Lookup(f, name).Some? {
      LookupObjects(f, name);
    }
  }

  lemma {:induction false} ConstObjects(c: Const)
    ensures Objects(ToValue(c)) == 0
  {
    match c
    case CArr(e) =>
      var a := seq(|e|, i requires 0 <= i < |e| => (e[i].0, ToValue(e[i].1)));
      forall i | 0 <= i < |e| ensures Objects(a[i].1) == 0 {
        ConstObjects(e[i].1);
      }
      NoObjects(a);
      ObjectsUnfold(Arr(a));
    case _ =>
  }

  lemma {:induction false} NoObjects(a: seq<(Key, Value)>)
    requires forall i :: 0 <= i < |a| ==> Objects(a[i].1) == 0
    ensures EntriesObjects(a) == 0
  {
    if a != [] {
      NoObjects(a[1..]);
    }
  }

  // ---------------------------------------------------------------------------
  // Reflection.

  /** The older `_getClassProperties`: every declared property, static ones included, stored under its name. */
  function LegacyTable(decls: seq<PropDecl>): (t: PropTable)
    ensures UniqueKeys(t)
    ensures forall e :: e in t ==> e.0 == e.1.name && e.1 in decls
    ensures forall d :: d in decls ==> HasKey(t, d.name)
    decreases |decls|
  {
    if decls == [] then []
    else
      var init := decls[..|decls| - 1];
      var d := decls[|decls| - 1];
      var t := LegacyTable(init);
      assert forall e :: e in decls ==> e in init || e == d;
      PutUnique(t, d.name, d);
      assert forall e :: e in Put(t, d.name, d) ==> e in t || e == (d.name, d) by {
        PutMembers(t, d.name, d);
      }
      Put(t, d.name, d)
  }

  /**
   * The older `_getClassProperties` keeps every declaration: with the
   * distinct names reflection reports, the table is the declarations in
   * order, static and private ones included, each under its name.
   */
  lemma {:induction false} LegacyTableIsDecls(decls: seq<PropDecl>)
    requires DistinctNames(decls)
    ensures |LegacyTable(decls)| == |decls|
    ensures forall i :: 0 <= i < |decls| ==> LegacyTable(decls)[i] == (decls[i].name, decls[i])
    decreases |decls|
  {
    if decls != [] {
      var init := decls[..|decls| - 1];
      var d := decls[|decls| - 1];
      assert DistinctNames(init);
      LegacyTableIsDecls(init);
      var t := LegacyTable(init);
      NameOutsideTable(decls, t);
      assert LegacyTable(decls) == t + [(d.name, d)];
      forall i | 0 <= i < |decls| ensures LegacyTable(decls)[i] == (decls[i].name, decls[i]) {
        if i < |init| {
          assert decls[i] == init[i];
        }
      }
    }
  }

  /** `$prop->getValue($object)`: an instance property's slot, or for a static one the class's value, taken as its declared default. */
  function PropertyValue(f: seq<(string, Value)>, d: PropDecl): Value
  {
    if d.isStatic then ToValue(d.default) else GetValue(f, d.name)
  }

  lemma PropertyValueMeasure(f: seq<(string, Value)>, d: PropDecl)
    ensures Objects(PropertyValue(f, d)) <= EntriesObjects(f)
  {
    if d.isStatic {
      ConstObjects(d.default);
    } else {
      GetValueObjects(f, d.name);
    }
  }

  // ---------------------------------------------------------------------------
  // The walk.

  /** The opening of a hash: `{`, then the `#hash` tag on its own line. */
  function HashHead(st: Setup, indent: nat): string
  {
    "{" + Ws(st.format, indent + 1) + "\"" + TYPE + "\":" + st.format.padding + "\"" + HASH + "\""
  }

  /** The opening of an object: `{`, then its class name on its own line. */
  function ObjectHead(st: Setup, indent: nat, cls: string): string
  {
    "{" + Ws(st.format, indent + 1) + "\"" + TYPE + "\":" + st.format.padding + EncodedOrEmpty(st.escape, cls)
  }

  /** `serialize($object)`: anything but an object is refused; an object is written at level 0. */
  function Serialize(st: Setup, v: Value): (r: Result<string>)
    ensures !v.Obj? ==> r == Err(NotAnObject)
  {
    if !v.Obj? then Err(NotAnObject) else ObjectText(st, 0, v.cls, v.fields)
  }

  /** `_serialize($value, $indent)`; a string `json_encode` refuses is written as nothing. */
  function Text(st: Setup, indent: nat, v: Value): Result<string>
    decreases Objects(v), Size(v), 2
  {
    match v
    case Null => Ok("null")
    case Bool(b) => Ok(if b then "true" else "false")
    case Int(i) => Ok(Decimal(i))
    case Str(s) => Ok(EncodedOrEmpty(st.escape, s))
    case Arr(es) =>
      SizeUnfold(v);
      ObjectsUnfold(v);
      if Encoder.IsList(es) then Encoder.Prepend("[", ListFrom(st, indent, es, 0))
      else Encoder.Prepend(HashHead(st, indent), HashFrom(st, indent, es, 0))
    case Obj(cls, f) =>
      SizeUnfold(v);
      ObjectsUnfold(v);
      ObjectText(st, indent, cls, f)
  }

  /** `_serializeArray` from item i on: each item, a comma unless its key is the last one, then `]`. */
  function ListFrom(st: Setup, indent: nat, es: seq<(Key, Value)>, i: nat): Result<string>
    requires i <= |es|
    decreases EntriesObjects(es), EntriesSize(es) + 1, |es| - i
  {
    if i == |es| then Ok("]")
    else
      EntrySmaller(es, i);
      EntryObjects(es, i);
      match Text(st, indent, es[i].1)
      case Err(e) => Err(e)
      case Ok(t) =>
        Encoder.Prepend(t + (if es[i].0 == IntK(|es| - 1) then "" else ","), ListFrom(st, indent, es, i + 1))
  }

  /** `_serializeHash` from entry i on: each entry on its own `,`-prefixed line, then the close. */
  function HashFrom(st: Setup, indent: nat, es: seq<(Key, Value)>, i: nat): Result<string>
    requires i <= |es|
    decreases EntriesObjects(es), EntriesSize(es) + 1, |es| - i
  {
    if i == |es| then Ok(Ws(st.format, indent) + "}")
    else
      EntrySmaller(es, i);
      EntryObjects(es, i);
      match Text(st, indent + 1, es[i].1)
      case Err(e) => Err(e)
      case Ok(t) =>
        var entry := "," + Ws(st.format, indent + 1) + Encoder.KeyLiteral(st.escape, es[i].0) + ":" + st.format.padding + t;
        Encoder.Prepend(entry, HashFrom(st, indent, es, i + 1))
  }

  /** `_serializeObject($object, $indent)`: the class tag, then every reflected property. */
  function ObjectText(st: Setup, indent: nat, cls: string, f: seq<(string, Value)>): Result<string>
    decreases EntriesObjects(f) + 1, EntriesSize(f) + 4, 1
  {
    match ClassDecls(st.classes, cls)
    case None => Err(UnknownClass(cls))
    case Some(decls) => Encoder.Prepend(ObjectHead(st, indent, cls), ObjectFrom(st, indent, f, LegacyTable(decls), 0))
  }

  /** The property loop of `_serializeObject` from table entry i on, then the close. */
  function ObjectFrom(st: Setup, indent: nat, f: seq<(string, Value)>, table: PropTable, i: nat): Result<string>
    requires i <= |table|
    decreases EntriesObjects(f) + 1, EntriesSize(f) + 2, |table| - i
  {
    if i == |table| then Ok(Ws(st.format, indent) + "}")
    else
      PropertyValueMeasure(f, table[i].1);
      match Text(st, indent + 1, PropertyValue(f, table[i].1))
      case Err(e) => Err(e)
      case Ok(t) =>
        var entry := "," + Ws(st.format, indent + 1) + EncodedOrEmpty(st.escape, table[i].0) + ":"
          + st.format.padding + t;
        Encoder.Prepend(entry, ObjectFrom(st, indent, f, table, i + 1))
  }
}
