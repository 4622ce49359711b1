/** What decoding the generic tree promises, proved of the decoder's definition. */
module DecoderLaws {
  import opened Wrappers
  import opened PhpArrays
  import opened PhpValues
  import opened Reflection
  import opened Settings
  import opened Decoder

  /** Every entry from i on decodes without error. */
  predicate DecodesFrom(cfg: Config, fuel: nat, es: seq<(Key, Value)>, i: nat)
  {
    forall j :: i <= j < |es| ==> Decode(cfg, fuel, es[j].1).Ok?
  }

  /** The entries with each value decoded, keys kept. */
  function Decoded(cfg: Config, fuel: nat, es: seq<(Key, Value)>): (d: seq<(Key, Value)>)
    requires DecodesFrom(cfg, fuel, es, 0)
    ensures |d| == |es|
    ensures forall j :: 0 <= j < |es| ==> d[j] == (es[j].0, Decode(cfg, fuel, es[j].1).value)
  {
    seq(|es|, j requires 0 <= j < |es| => (es[j].0, Decode(cfg, fuel, es[j].1).value))
  }

  lemma {:induction false} ArrayFromOk(cfg: Config, fuel: nat, es: seq<(Key, Value)>, i: nat, acc: seq<(Key, Value)>)
    requires i <= |es|
    ensures ArrayFrom(cfg, fuel, es, i, acc).Ok? <==> DecodesFrom(cfg, fuel, es, i)
    decreases |es| - i
  {
    if i < |es| && Decode(cfg, fuel, es[i].1).Ok? {
      ArrayFromOk(cfg, fuel, es, i + 1, Put(acc, es[i].0, Decode(cfg, fuel, es[i].1).value));
    }
  }

  lemma {:induction false} ArrayFromValue(cfg: Config, fuel: nat, es: seq<(Key, Value)>, i: nat)
    requires i <= |es| && UniqueKeys(es) && DecodesFrom(cfg, fuel, es, 0)
    ensures ArrayFrom(cfg, fuel, es, i, Decoded(cfg, fuel, es)[..i]) == Ok(Decoded(cfg, fuel, es))
    decreases |es| - i
  {
    var d := Decoded(cfg, fuel, es);
    if i == |es| {
      assert d[..i] == d;
    } else {
      var k := es[i].0;
      var x := Decode(cfg, fuel, es[i].1).value;
      assert d[i] == (k, x);
      assert UniqueKeys(d);
      PrefixLacksNext(d, i);
      assert Put(d[..i], k, x) == d[..i + 1] by {
        assert d[..i] + [d[i]] == d[..i + 1];
      }
      assert ArrayFrom(cfg, fuel, es, i, d[..i]) == ArrayFrom(cfg, fuel, es, i + 1, d[..i + 1]);
      ArrayFromValue(cfg, fuel, es, i + 1);
    }
  }

  /**
   * `_unserializeArray` on an array with distinct keys succeeds exactly when
   * every value decodes, and then gives the same keys in the same order,
   * each with its value decoded.
   */
  lemma ArrayDecodeSpec(cfg: Config, fuel: nat, es: seq<(Key, Value)>)
    requires UniqueKeys(es)
    ensures ArrayDecode(cfg, fuel, es).Ok? <==> DecodesFrom(cfg, fuel, es, 0)
    ensures ArrayDecode(cfg, fuel, es).Ok? ==> ArrayDecode(cfg, fuel, es).value == Arr(Decoded(cfg, fuel, es))
  {
    ArrayFromOk(cfg, fuel, es, 0, []);
    if DecodesFrom(cfg, fuel, es, 0) {
      ArrayFromValue(cfg, fuel, es, 0);
      assert Decoded(cfg, fuel, es)[..0] == [];
    }
  }

  /** Generic data with no `#type` key at any depth (and, being PHP arrays, distinct keys). */
  predicate TagFree(v: Value)
  {
    match v
    case Arr(es) =>
      UniqueKeys(es) && !HasKey(es, TypeKey) && forall j :: 0 <= j < |es| ==> TagFree(es[j].1)
    case _ => true
  }

  /** Decoding is the identity on tag-free data: non-arrays unchanged, arrays with the same keys in the same order. */
  lemma {:induction false} DecodeTagFree(cfg: Config, fuel: nat, v: Value)
    requires TagFree(v)
    ensures Decode(cfg, fuel, v) == Ok(v)
    decreases Size(v)
  {
    if v.Arr? {
      var es := v.entries;
      SizeUnfold(v);
      forall j | 0 <= j < |es| ensures Decode(cfg, fuel, es[j].1) == Ok(es[j].1) {
        EntrySmaller(es, j);
        DecodeTagFree(cfg, fuel, es[j].1);
      }
      ArrayDecodeSpec(cfg, fuel, es);
      assert Decoded(cfg, fuel, es) == es;
    }
  }

  /**
   * The legacy `#hash` tag is stripped: a tagged array decodes as the array
   * without the tag, and when that succeeds no `#type` key survives.
   */
  lemma DecodeHashTag(cfg: Config, fuel: nat, es: seq<(Key, Value)>)
    requires Lookup(es, TypeKey) == Some(Str(HASH))
    ensures Decode(cfg, fuel, Arr(es)) == Decode(cfg, fuel, Arr(Remove(es, TypeKey)))
    ensures UniqueKeys(es) && Decode(cfg, fuel, Arr(es)).Ok? ==>
      Decode(cfg, fuel, Arr(es)).value.Arr? &&
      Keys(Decode(cfg, fuel, Arr(es)).value.entries) == Keys(Remove(es, TypeKey)) &&
      !HasKey(Decode(cfg, fuel, Arr(es)).value.entries, TypeKey)
  {
    var rest := Remove(es, TypeKey);
    assert Lookup(rest, TypeKey).None?;
    if UniqueKeys(es) {
      RemoveUnique(es, TypeKey);
      ArrayDecodeSpec(cfg, fuel, rest);
      if Decode(cfg, fuel, Arr(es)).Ok? {
        var d := Decoded(cfg, fuel, rest);
        assert Keys(d) == Keys(rest);
      }
    }
  }

  /** Table property n takes its value from the data: the table lists it and the data has its key. */
  predicate Assigned(table: PropTable, es: seq<(Key, Value)>, n: string)
  {
    HasKey(table, n) && HasKey(es, NormalizeKey(n))
  }

  /** Table property n is listed at position i or later. */
  predicate ListedFrom(table: PropTable, i: nat, n: string)
  {
    exists j :: i <= j < |table| && table[j].0 == n
  }

  /** The value the data holds for property n, decoded. */
  function DecodedField(cfg: Config, fuel: nat, es: seq<(Key, Value)>, n: string): Result<Value>
    requires HasKey(es, NormalizeKey(n))
  {
    Decode(cfg, fuel, Lookup(es, NormalizeKey(n)).value)
  }

  lemma ListedFromStep(table: PropTable, i: nat)
    requires i < |table|
    ensures forall n :: ListedFrom(table, i, n) <==> n == table[i].0 || ListedFrom(table, i + 1, n)
    ensures UniqueKeys(table) ==> !ListedFrom(table, i + 1, table[i].0)
  {
    assert ListedFrom(table, i, table[i].0);
  }

  /** Every property listed from position i on that the data holds decodes without error. */
  ghost predicate FieldsDecodeFrom(cfg: Config, fuel: nat, es: seq<(Key, Value)>, table: PropTable, i: nat)
  {
    forall n :: ListedFrom(table, i, n) && HasKey(es, NormalizeKey(n)) ==> DecodedField(cfg, fuel, es, n).Ok?
  }

  lemma {:induction false} FieldsFromOk(cfg: Config, fuel: nat, es: seq<(Key, Value)>, table: PropTable,
                                         i: nat, fields: seq<(string, Value)>)
    requires i <= |table|
    ensures FieldsFrom(cfg, fuel, es, table, i, fields).Ok? <==> FieldsDecodeFrom(cfg, fuel, es, table, i)
    decreases |table| - i
  {
    if i < |table| {
      var name := table[i].0;
      ListedFromStep(table, i);
      match Lookup(es, NormalizeKey(name))
      case None =>
        assert FieldsFrom(cfg, fuel, es, table, i, fields) == FieldsFrom(cfg, fuel, es, table, i + 1, fields);
        FieldsFromOk(cfg, fuel, es, table, i + 1, fields);
        assert !HasKey(es, NormalizeKey(name));
        assert FieldsDecodeFrom(cfg, fuel, es, table, i) <==> FieldsDecodeFrom(cfg, fuel, es, table, i + 1);
      case Some(data) =>
        assert HasKey(es, NormalizeKey(name));
        assert DecodedField(cfg, fuel, es, name) == Decode(cfg, fuel, data);
        match Decode(cfg, fuel, data)
        case Err(e) =>
          assert !FieldsDecodeFrom(cfg, fuel, es, table, i);
        case Ok(x) =>
          assert FieldsFrom(cfg, fuel, es, table, i, fields)
              == FieldsFrom(cfg, fuel, es, table, i + 1, Put(fields, name, x));
          FieldsFromOk(cfg, fuel, es, table, i + 1, Put(fields, name, x));
          assert FieldsDecodeFrom(cfg, fuel, es, table, i) <==> FieldsDecodeFrom(cfg, fuel, es, table, i + 1);
    }
  }

  lemma {:induction false} FieldsFromValue(cfg: Config, fuel: nat, es: seq<(Key, Value)>, table: PropTable,
                                            i: nat, fields: seq<(string, Value)>)
    requires i <= |table| && UniqueKeys(table)
    requires forall j :: 0 <= j < |table| ==> HasKey(fields, table[j].0)
    requires FieldsFrom(cfg, fuel, es, table, i, fields).Ok?
    ensures FieldsDecodeFrom(cfg, fuel, es, table, i)
    ensures var r := FieldsFrom(cfg, fuel, es, table, i, fields).value;
      Keys(r) == Keys(fields) &&
      forall n :: Lookup(r, n) ==
        if ListedFrom(table, i, n) && HasKey(es, NormalizeKey(n)) then Some(DecodedField(cfg, fuel, es, n).value)
        else Lookup(fields, n)
    decreases |table| - i
  {
    FieldsFromOk(cfg, fuel, es, table, i, fields);
    if i < |table| {
      var name := table[i].0;
      ListedFromStep(table, i);
      match Lookup(es, NormalizeKey(name))
      case None =>
        assert FieldsFrom(cfg, fuel, es, table, i, fields) == FieldsFrom(cfg, fuel, es, table, i + 1, fields);
        FieldsFromValue(cfg, fuel, es, table, i + 1, fields);
      case Some(data) =>
        var x := Decode(cfg, fuel, data).value;
        assert DecodedField(cfg, fuel, es, name) == Decode(cfg, fuel, data) == Ok(x);
        var next := Put(fields, name, x);
        assert FieldsFrom(cfg, fuel, es, table, i, fields) == FieldsFrom(cfg, fuel, es, table, i + 1, next);
        forall n ensures Lookup(next, n) == if n == name then Some(x) else Lookup(fields, n) {
          PutLookup(fields, name, x, n);
        }
        assert Keys(next) == Keys(fields);
        FieldsFromValue(cfg, fuel, es, table, i + 1, next);
    }
  }

  /**
   * Object decode for a declared class without a custom unserializer: it
   * succeeds exactly when every assigned property decodes, and the object
   * then has the class's instance properties, each assigned one holding its
   * decoded value and every other one its default; keys of the data that
   * name no table property play no part.
   */
  lemma ObjectDecodeSpec(cfg: Config, fuel: nat, es: seq<(Key, Value)>, cls: string, decls: seq<PropDecl>)
    requires Lookup(es, TypeKey) == Some(Str(cls))
    requires cls != HASH && cls != STD_CLASS && cls !in cfg.unserializers
    requires ClassDecls(cfg.classes, cls) == Some(decls)
    ensures var table := PropertyTable(decls, cfg.skipPrivate);
      Decode(cfg, fuel, Arr(es)).Ok? <==>
        forall n :: Assigned(table, es, n) ==> DecodedField(cfg, fuel, es, n).Ok?
    ensures var table := PropertyTable(decls, cfg.skipPrivate);
      var defaults := Instantiate(cls, decls).fields;
      Decode(cfg, fuel, Arr(es)).Ok? ==>
        var o := Decode(cfg, fuel, Arr(es)).value;
        o.Obj? && o.cls == cls && Keys(o.fields) == Keys(defaults) &&
        forall n :: Lookup(o.fields, n) ==
          if Assigned(table, es, n) then Some(DecodedField(cfg, fuel, es, n).value) else Lookup(defaults, n)
  {
    var table := PropertyTable(decls, cfg.skipPrivate);
    var defaults := Instantiate(cls, decls).fields;
    TableInDefaults(cls, decls, cfg.skipPrivate);
    TableListed(table);
    var r := FieldsFrom(cfg, fuel, es, table, 0, defaults);
    ObjectDecodeUnfold(cfg, fuel, es, cls, decls);
    FieldsFromOk(cfg, fuel, es, table, 0, defaults);
    if r.Ok? {
      FieldsFromValue(cfg, fuel, es, table, 0, defaults);
    }
  }

  lemma TableInDefaults(cls: string, decls: seq<PropDecl>, skip: bool)
    ensures var table := PropertyTable(decls, skip);
      forall j :: 0 <= j < |table| ==> HasKey(Instantiate(cls, decls).fields, table[j].0)
  {
    var table := PropertyTable(decls, skip);
    forall j | 0 <= j < |table| ensures HasKey(Instantiate(cls, decls).fields, table[j].0) {
      assert table[j] in table;
    }
  }

  lemma TableListed(table: PropTable)
    ensures forall n :: ListedFrom(table, 0, n) <==> HasKey(table, n)
  {
    forall n ensures ListedFrom(table, 0, n) <==> HasKey(table, n) {
      if HasKey(table, n) {
        var j :| 0 <= j < |table| && Keys(table)[j] == n;
        assert table[j].0 == n;
      }
    }
  }

  lemma ObjectDecodeUnfold(cfg: Config, fuel: nat, es: seq<(Key, Value)>, cls: string, decls: seq<PropDecl>)
    requires Lookup(es, TypeKey) == Some(Str(cls))
    requires cls != HASH && cls != STD_CLASS && cls !in cfg.unserializers
    requires ClassDecls(cfg.classes, cls) == Some(decls)
    ensures var r := FieldsFrom(cfg, fuel, es, PropertyTable(decls, cfg.skipPrivate), 0, Instantiate(cls, decls).fields);
      Decode(cfg, fuel, Arr(es)) == if r.Ok? then Ok(Obj(cls, r.value)) else Err(r.error)
  {
    assert Decode(cfg, fuel, Arr(es)) == ObjectDecode(cfg, fuel, es, Str(cls));
  }

  lemma {:induction false} FieldsFromCongruent(cfg: Config, fuel: nat, es: seq<(Key, Value)>, es': seq<(Key, Value)>,
                                                table: PropTable, i: nat, fields: seq<(string, Value)>)
    requires i <= |table|
    requires forall j :: 0 <= j < |table| ==> Lookup(es', NormalizeKey(table[j].0)) == Lookup(es, NormalizeKey(table[j].0))
    ensures FieldsFrom(cfg, fuel, es', table, i, fields) == FieldsFrom(cfg, fuel, es, table, i, fields)
    decreases |table| - i
  {
    if i < |table| {
      var name := table[i].0;
      match Lookup(es, NormalizeKey(name))
      case None =>
        FieldsFromCongruent(cfg, fuel, es, es', table, i + 1, fields);
      case Some(data) =>
        match Decode(cfg, fuel, data)
        case Err(e) =>
        case Ok(x) =>
          FieldsFromCongruent(cfg, fuel, es, es', table, i + 1, Put(fields, name, x));
    }
  }

  /**
   * Unknown keys are ignored: two data arrays tagged with the same declared
   * class that agree on every key the property table asks for decode alike.
   */
  lemma DecodeIgnoresUnknownKeys(cfg: Config, fuel: nat, es: seq<(Key, Value)>, es': seq<(Key, Value)>,
                                 cls: string, decls: seq<PropDecl>)
    requires Lookup(es, TypeKey) == Some(Str(cls)) && Lookup(es', TypeKey) == Some(Str(cls))
    requires cls != HASH && cls != STD_CLASS && cls !in cfg.unserializers
    requires ClassDecls(cfg.classes, cls) == Some(decls)
    requires forall n :: HasKey(PropertyTable(decls, cfg.skipPrivate), n) ==>
      Lookup(es', NormalizeKey(n)) == Lookup(es, NormalizeKey(n))
    ensures Decode(cfg, fuel, Arr(es')) == Decode(cfg, fuel, Arr(es))
  {
    var table := PropertyTable(decls, cfg.skipPrivate);
    forall j | 0 <= j < |table| ensures Lookup(es', NormalizeKey(table[j].0)) == Lookup(es, NormalizeKey(table[j].0)) {
      assert Keys(table)[j] == table[j].0;
    }
    FieldsFromCongruent(cfg, fuel, es, es', table, 0, Instantiate(cls, decls).fields);
    ObjectDecodeUnfold(cfg, fuel, es, cls, decls);
    ObjectDecodeUnfold(cfg, fuel, es', cls, decls);
  }

  /**
   * A `stdClass` tag without a custom unserializer: the other entries are
   * decoded as an array, which becomes the object's properties.
   */
  lemma StdClassDecodeSpec(cfg: Config, fuel: nat, es: seq<(Key, Value)>)
    requires Lookup(es, TypeKey) == Some(Str(STD_CLASS)) && STD_CLASS !in cfg.unserializers
    requires UniqueKeys(es)
    ensures Decode(cfg, fuel, Arr(es)).Ok? <==> DecodesFrom(cfg, fuel, Remove(es, TypeKey), 0)
    ensures Decode(cfg, fuel, Arr(es)).Ok? ==>
      Decode(cfg, fuel, Arr(es)) == Ok(Obj(STD_CLASS, CastToObject(Decoded(cfg, fuel, Remove(es, TypeKey)))))
  {
    var rest := Remove(es, TypeKey);
    var r := ArrayFrom(cfg, fuel, rest, 0, []);
    assert Decode(cfg, fuel, Arr(es)) == ObjectDecode(cfg, fuel, es, Str(STD_CLASS));
    assert ObjectDecode(cfg, fuel, es, Str(STD_CLASS))
        == if r.Ok? then Ok(Obj(STD_CLASS, CastToObject(r.value))) else Err(r.error);
    RemoveUnique(es, TypeKey);
    ArrayDecodeSpec(cfg, fuel, rest);
  }

  /**
   * A registered unserializer takes precedence over `stdClass` and declared
   * classes alike: its result is decoded in place of the data.
   */
  lemma DecodeUsesUnserializer(cfg: Config, fuel: nat, es: seq<(Key, Value)>, cls: string)
    requires Lookup(es, TypeKey) == Some(Str(cls)) && cls != HASH && cls in cfg.unserializers
    ensures fuel > 0 ==> Decode(cfg, fuel, Arr(es)) == Decode(cfg, fuel - 1, cfg.unserializers[cls].apply(Arr(es)))
    ensures fuel == 0 ==> Decode(cfg, fuel, Arr(es)) == Err(CodecNesting)
  {
  }
}
