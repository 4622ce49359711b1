/**
 * Reading back what the current revision writes: for every value the
 * format can represent, decoding what `json_decode($text, true)` makes of
 * the document `serialize` lays out gives the value itself. The document
 * is `Wire`, its reading is `Parsed`, the decoder is `Decode`; the text
 * `serialize` returns is that document rendered (`TextIsRenderedWire`).
 */
module RoundTrip {
  import opened Wrappers
  import opened PhpArrays
  import opened Numerals
  import opened PhpValues
  import opened Reflection
  import opened JsonText
  import opened JsonTree
  import opened Settings
  import Encoder
  import opened Decoder
  import opened DecoderLaws
  import opened WireFormat
  import EncoderLayout

  /**
   * The values the format carries back: 64-bit integers, arrays with keys
   * PHP can hold and no `#type` key, objects without a `#type` property
   * whose class has no custom unserializer and which, unless they are
   * `stdClass`, are as their declared class builds them.
   */
  ghost predicate Representable(cfg: Config, v: Value)
  {
    match v
    case Arr(es) =>
      UniqueKeys(es) && !HasKey(es, TypeKey) &&
      forall k :: 0 <= k < |es| ==> WellFormedKey(es[k].0) && Representable(cfg, es[k].1)
    case Obj(cls, f) =>
      UniqueKeys(f) && !HasKey(f, TYPE) && cls !in cfg.unserializers &&
      (forall k :: 0 <= k < |f| ==> Representable(cfg, f[k].1)) &&
      (cls == STD_CLASS || Restorable(cfg, cls, f))
    case Int(i) => InInt64(i)
    case _ => true
  }

  /**
   * An object of a declared class that decoding can rebuild: written
   * through its property table rather than a serializer, holding exactly
   * the properties a fresh instance has, and in every property the table
   * leaves out (a private one, when those are skipped) its default.
   */
  ghost predicate Restorable(cfg: Config, cls: string, f: seq<(string, Value)>)
  {
    cls !in cfg.serializers && cls != HASH &&
    match ClassDecls(cfg.classes, cls)
    case None => false
    case Some(decls) =>
      Keys(f) == Keys(Instantiate(cls, decls).fields) &&
      forall n :: HasKey(f, n) && !HasKey(PropertyTable(decls, cfg.skipPrivate), n) ==>
        Lookup(f, n) == Lookup(Instantiate(cls, decls).fields, n)
  }

  // ---------------------------------------------------------------------------
  // The document's members, position by position.

  lemma {:induction false} WireItemsAt(cfg: Config, fuel: nat, es: seq<(Key, Value)>, i: nat)
    requires i <= |es| && WireItems(cfg, fuel, es, i).Ok?
    ensures forall k :: i <= k < |es| ==> Wire(cfg, fuel, es[k].1) == Ok(WireItems(cfg, fuel, es, i).value[k - i])
    decreases |es| - i
  {
    if i < |es| {
      WireItemsAt(cfg, fuel, es, i + 1);
    }
  }

  lemma {:induction false} WireEntriesAt(cfg: Config, fuel: nat, es: seq<(Key, Value)>, i: nat)
    requires i <= |es| && WireEntries(cfg, fuel, es, i).Ok?
    ensures forall k :: i <= k < |es| ==>
      WireEntries(cfg, fuel, es, i).value[k - i].0 == KeyString(es[k].0) &&
      Wire(cfg, fuel, es[k].1) == Ok(WireEntries(cfg, fuel, es, i).value[k - i].1)
    decreases |es| - i
  {
    if i < |es| {
      WireEntriesAt(cfg, fuel, es, i + 1);
    }
  }

  lemma {:induction false} WireFieldsAt(cfg: Config, fuel: nat, f: seq<(string, Value)>, table: PropTable, i: nat)
    requires i <= |table| && WireFields(cfg, fuel, f, table, i).Ok?
    ensures forall k :: i <= k < |table| ==>
      WireFields(cfg, fuel, f, table, i).value[k - i].0 == table[k].0 &&
      Wire(cfg, fuel, GetValue(f, table[k].0)) == Ok(WireFields(cfg, fuel, f, table, i).value[k - i].1)
    decreases |table| - i
  {
    if i < |table| {
      WireFieldsAt(cfg, fuel, f, table, i + 1);
    }
  }

  // ---------------------------------------------------------------------------
  // Reading and decoding.

  /** `json_decode` of an object whose member names make distinct keys keeps every member, in order. */
  lemma ParsedMembers(ms: seq<(string, Json)>, p: seq<(Key, Value)>)
    requires |p| == |ms| && UniqueKeys(p)
    requires forall k :: 0 <= k < |ms| ==> p[k] == (NormalizeKey(ms[k].0), Parsed(ms[k].1))
    ensures Parsed(JObject(ms)) == Arr(p)
  {
    assert seq(|ms|, k requires 0 <= k < |ms| => (NormalizeKey(ms[k].0), Parsed(ms[k].1))) == p;
    assert [] + p == p;
    PutAllDistinct([], p);
  }

  /** An untagged array whose values decode to those of es, under es's keys, decodes to es. */
  lemma DecodeEntries(cfg: Config, fuel: nat, es: seq<(Key, Value)>, p: seq<(Key, Value)>)
    requires UniqueKeys(es) && !HasKey(es, TypeKey) && |p| == |es|
    requires forall k :: 0 <= k < |p| ==> p[k].0 == es[k].0 && Decode(cfg, fuel, p[k].1) == Ok(es[k].1)
    ensures Decode(cfg, fuel, Arr(p)) == Ok(Arr(es))
  {
    SameKeys(p, es);
    ArrayDecodeSpec(cfg, fuel, p);
    assert DecodesFrom(cfg, fuel, p, 0);
    assert Decoded(cfg, fuel, p) == es;
  }

  lemma TypeKeyNormal()
    ensures NormalizeKey(TYPE) == TypeKey
  {
    assert !IsDigit(TYPE[0]);
  }

  // ---------------------------------------------------------------------------
  // The round trip.

  /**
   * Every representable value comes back: when `serialize` can write the
   * document of v, decoding what `json_decode` reads from it is v.
   */
  lemma {:induction false} DecodeWire(cfg: Config, fuel: nat, v: Value, j: Json)
    requires Representable(cfg, v) && Wire(cfg, fuel, v) == Ok(j)
    ensures Decode(cfg, fuel, Parsed(j)) == Ok(v)
    decreases Size(v), 1
  {
    match v
    case Arr(es) =>
      if Encoder.IsList(es) {
        ListRoundTrip(cfg, fuel, es, j.items);
      } else {
        HashRoundTrip(cfg, fuel, es, j.members);
      }
    case Obj(cls, f) =>
      if cls == STD_CLASS {
        StdClassRoundTrip(cfg, fuel, f, j.members);
      } else {
        var decls := ClassDecls(cfg.classes, cls).value;
        ClassRoundTrip(cfg, fuel, cls, f, decls, j.members[1..]);
      }
    case _ =>
  }

  /** A list is written as a JSON array and read back as the same 0-based list. */
  lemma {:induction false} ListRoundTrip(cfg: Config, fuel: nat, es: seq<(Key, Value)>, items: seq<Json>)
    requires Encoder.IsList(es) && Representable(cfg, Arr(es)) && WireItems(cfg, fuel, es, 0) == Ok(items)
    ensures Decode(cfg, fuel, Parsed(JArray(items))) == Ok(Arr(es))
    decreases Size(Arr(es)), 0
  {
    SizeUnfold(Arr(es));
    WireItemsAt(cfg, fuel, es, 0);
    var p := seq(|items|, k requires 0 <= k < |items| => (IntK(k), Parsed(items[k])));
    forall k | 0 <= k < |p| ensures p[k].0 == es[k].0 && Decode(cfg, fuel, p[k].1) == Ok(es[k].1) {
      EntrySmaller(es, k);
      DecodeWire(cfg, fuel, es[k].1, items[k]);
    }
    DecodeEntries(cfg, fuel, es, p);
  }

  /** A hash is written as a JSON object whose member names the reader turns back into its keys. */
  lemma {:induction false} HashRoundTrip(cfg: Config, fuel: nat, es: seq<(Key, Value)>, ms: seq<(string, Json)>)
    requires Representable(cfg, Arr(es)) && WireEntries(cfg, fuel, es, 0) == Ok(ms)
    ensures Decode(cfg, fuel, Parsed(JObject(ms))) == Ok(Arr(es))
    decreases Size(Arr(es)), 0
  {
    SizeUnfold(Arr(es));
    WireEntriesAt(cfg, fuel, es, 0);
    var p := seq(|ms|, k requires 0 <= k < |ms| => (NormalizeKey(ms[k].0), Parsed(ms[k].1)));
    forall k | 0 <= k < |p| ensures p[k].0 == es[k].0 && Decode(cfg, fuel, p[k].1) == Ok(es[k].1) {
      KeyStringRoundTrip(es[k].0);
      EntrySmaller(es, k);
      DecodeWire(cfg, fuel, es[k].1, ms[k].1);
    }
    SameKeys(p, es);
    ParsedMembers(ms, p);
    DecodeEntries(cfg, fuel, es, p);
  }

  /** A `stdClass`'s properties, cast to an array, carry distinct keys none of which is `#type`. */
  lemma CastKeys(f: seq<(string, Value)>)
    requires UniqueKeys(f) && !HasKey(f, TYPE)
    ensures UniqueKeys(CastToArray(f)) && !HasKey(CastToArray(f), TypeKey)
  {
    var c := CastToArray(f);
    forall k | 0 <= k < |c| ensures KeyString(c[k].0) == f[k].0 && c[k].0 != TypeKey {
      NormalizeKeyString(f[k].0);
      assert Keys(f)[k] == f[k].0;
    }
  }

  /** The hash `_serializeStdClass` builds: the properties cast to an array, then the tag. */
  lemma StdClassHashIs(f: seq<(string, Value)>)
    requires UniqueKeys(f) && !HasKey(f, TYPE)
    ensures Encoder.StdClassHash(f) == CastToArray(f) + [(TypeKey, Str(STD_CLASS))]
  {
    CastKeys(f);
  }

  /** The members written for entries c followed by one more entry e. */
  lemma WireEntriesSnoc(cfg: Config, fuel: nat, h: seq<(Key, Value)>, c: seq<(Key, Value)>, e: (Key, Value),
                        ms: seq<(string, Json)>)
    requires h == c + [e] && WireEntries(cfg, fuel, h, 0) == Ok(ms)
    ensures |ms| == |c| + 1
    ensures forall k :: 0 <= k < |c| ==> ms[k].0 == KeyString(c[k].0) && Wire(cfg, fuel, c[k].1) == Ok(ms[k].1)
    ensures ms[|c|].0 == KeyString(e.0) && Wire(cfg, fuel, e.1) == Ok(ms[|c|].1)
  {
    WireEntriesAt(cfg, fuel, h, 0);
    assert h[|c|] == e;
    forall k | 0 <= k < |c| ensures h[k] == c[k] {
    }
  }

  /** The properties of a `stdClass` under their array keys, each holding what `json_decode` reads from its member. */
  function CastRead(f: seq<(string, Value)>, ms: seq<(string, Json)>): (q: seq<(Key, Value)>)
    requires |ms| >= |f|
    ensures |q| == |f| && forall k :: 0 <= k < |f| ==> q[k] == (NormalizeKey(f[k].0), Parsed(ms[k].1))
  {
    seq(|f|, k requires 0 <= k < |f| => (NormalizeKey(f[k].0), Parsed(ms[k].1)))
  }

  /**
   * The document of a `stdClass`: one member per property, under the
   * property's name and with the property's document, then the tag.
   */
  lemma StdClassWire(cfg: Config, fuel: nat, f: seq<(string, Value)>, ms: seq<(string, Json)>)
    requires UniqueKeys(f) && !HasKey(f, TYPE)
    requires WireEntries(cfg, fuel, Encoder.StdClassHash(f), 0) == Ok(ms)
    ensures |ms| == |f| + 1 && ms[|f|] == (TYPE, JStr(STD_CLASS))
    ensures forall k :: 0 <= k < |f| ==> ms[k].0 == KeyString(CastToArray(f)[k].0)
    ensures forall k :: 0 <= k < |f| ==> Wire(cfg, fuel, f[k].1) == Ok(ms[k].1)
  {
    var c := CastToArray(f);
    StdClassHashIs(f);
    WireEntriesSnoc(cfg, fuel, Encoder.StdClassHash(f), c, (TypeKey, Str(STD_CLASS)), ms);
    TagWire(cfg, fuel, ms[|c|].1);
    CastWires(cfg, fuel, f, c, ms);
  }

  /** The tag's value is written as a plain string. */
  lemma TagWire(cfg: Config, fuel: nat, j: Json)
    requires Wire(cfg, fuel, Str(STD_CLASS)) == Ok(j)
    ensures j == JStr(STD_CLASS)
  {
    assert Plain(STD_CLASS);
  }

  /** Read back, the members written for a `stdClass` are the properties' keys and values, then the tag. */
  lemma StdClassMembers(f: seq<(string, Value)>, ms: seq<(string, Json)>)
    requires UniqueKeys(f) && !HasKey(f, TYPE) && |ms| == |f| + 1
    requires forall k :: 0 <= k < |f| ==> ms[k].0 == KeyString(CastToArray(f)[k].0)
    requires ms[|f|] == (TYPE, JStr(STD_CLASS))
    ensures Parsed(JObject(ms)) == Arr(CastRead(f, ms) + [(TypeKey, Str(STD_CLASS))])
  {
    StdClassMemberKeys(f, ms);
    StdClassReadUnique(f, ms);
    ParsedMembers(ms, CastRead(f, ms) + [(TypeKey, Str(STD_CLASS))]);
  }

  lemma StdClassMemberKeys(f: seq<(string, Value)>, ms: seq<(string, Json)>)
    requires |ms| == |f| + 1 && ms[|f|] == (TYPE, JStr(STD_CLASS))
    requires forall k :: 0 <= k < |f| ==> ms[k].0 == KeyString(CastToArray(f)[k].0)
    ensures forall k :: 0 <= k < |ms| ==>
      (CastRead(f, ms) + [(TypeKey, Str(STD_CLASS))])[k] == (NormalizeKey(ms[k].0), Parsed(ms[k].1))
  {
    var p := CastRead(f, ms) + [(TypeKey, Str(STD_CLASS))];
    forall k | 0 <= k < |ms| ensures p[k] == (NormalizeKey(ms[k].0), Parsed(ms[k].1)) {
      if k < |f| {
        NormalizeKeyString(f[k].0);
      } else {
        TypeKeyNormal();
      }
    }
  }

  lemma StdClassReadUnique(f: seq<(string, Value)>, ms: seq<(string, Json)>)
    requires UniqueKeys(f) && !HasKey(f, TYPE) && |ms| >= |f|
    ensures UniqueKeys(CastRead(f, ms) + [(TypeKey, Str(STD_CLASS))])
  {
    var tag := (TypeKey, Str(STD_CLASS));
    CastKeys(f);
    SameKeys(CastRead(f, ms) + [tag], CastToArray(f) + [tag]);
  }

  /** The value written for a cast property is the property's own value. */
  lemma CastWires(cfg: Config, fuel: nat, f: seq<(string, Value)>, c: seq<(Key, Value)>, ms: seq<(string, Json)>)
    requires c == CastToArray(f) && |ms| > |c|
    requires forall k :: 0 <= k < |c| ==> Wire(cfg, fuel, c[k].1) == Ok(ms[k].1)
    ensures forall k :: 0 <= k < |f| ==> Wire(cfg, fuel, f[k].1) == Ok(ms[k].1)
  {
    forall k | 0 <= k < |f| ensures c[k].1 == f[k].1 {
    }
  }

  /** The properties cast to an array, each decoding to its value, followed by the `stdClass` tag, decode to the object. */
  lemma StdClassDecoded(cfg: Config, fuel: nat, f: seq<(string, Value)>, q: seq<(Key, Value)>)
    requires UniqueKeys(f) && !HasKey(f, TYPE) && STD_CLASS !in cfg.unserializers && |q| == |f|
    requires forall k :: 0 <= k < |f| ==> q[k].0 == NormalizeKey(f[k].0) && Decode(cfg, fuel, q[k].1) == Ok(f[k].1)
    ensures Decode(cfg, fuel, Arr(q + [(TypeKey, Str(STD_CLASS))])) == Ok(Obj(STD_CLASS, f))
  {
    var c := CastToArray(f);
    var tag := (TypeKey, Str(STD_CLASS));
    var p := q + [tag];
    assert UniqueKeys(p) && Lookup(p, TypeKey) == Some(Str(STD_CLASS)) by {
      CastKeys(f);
      SameKeys(p, c + [tag]);
      LookupUnique(p, TypeKey, |f|);
    }
    assert Remove(p, TypeKey) == q by {
      CastKeys(f);
      SameKeys(q, c);
      RemoveSnocKey(q, tag);
    }
    StdClassDecodeSpec(cfg, fuel, p);
    assert DecodesFrom(cfg, fuel, q, 0);
    var d := Decoded(cfg, fuel, q);
    assert CastToObject(d) == f by {
      forall k | 0 <= k < |f| ensures CastToObject(d)[k] == f[k] {
        NormalizeKeyString(f[k].0);
      }
    }
  }

  /**
   * A `stdClass` is written as its properties with the tag last, and read
   * back through the `stdClass` case of the decoder.
   */
  lemma {:induction false} StdClassRoundTrip(cfg: Config, fuel: nat, f: seq<(string, Value)>, ms: seq<(string, Json)>)
    requires Representable(cfg, Obj(STD_CLASS, f)) && WireEntries(cfg, fuel, Encoder.StdClassHash(f), 0) == Ok(ms)
    ensures Decode(cfg, fuel, Parsed(JObject(ms))) == Ok(Obj(STD_CLASS, f))
    decreases Size(Obj(STD_CLASS, f)), 0
  {
    SizeUnfold(Obj(STD_CLASS, f));
    StdClassWire(cfg, fuel, f, ms);
    StdClassMembers(f, ms);
    var q := CastRead(f, ms);
    forall k | 0 <= k < |f| ensures Decode(cfg, fuel, q[k].1) == Ok(f[k].1) {
      EntrySmaller(f, k);
      DecodeWire(cfg, fuel, f[k].1, ms[k].1);
    }
    StdClassDecoded(cfg, fuel, f, q);
  }

  /** The entries `json_decode` reads from an object's document: the tag, then one per property-table entry. */
  function ClassEntries(cls: string, table: PropTable, ms: seq<(string, Json)>): (p: seq<(Key, Value)>)
    requires |ms| == |table|
    ensures |p| == |table| + 1 && p[0] == (TypeKey, Str(cls))
    ensures forall k :: 0 <= k < |table| ==> p[k + 1] == (NormalizeKey(table[k].0), Parsed(ms[k].1))
  {
    [(TypeKey, Str(cls))] + seq(|table|, k requires 0 <= k < |table| => (NormalizeKey(table[k].0), Parsed(ms[k].1)))
  }

  /** With distinct property names none of which is `#type`, the entries read from an object's document have distinct keys. */
  lemma ClassEntriesUnique(cls: string, table: PropTable, ms: seq<(string, Json)>)
    requires |ms| == |table| && UniqueKeys(table)
    requires forall k :: 0 <= k < |table| ==> table[k].0 != TYPE
    ensures UniqueKeys(ClassEntries(cls, table, ms))
  {
    var p := ClassEntries(cls, table, ms);
    TypeKeyNormal();
    forall j | 1 <= j < |p| ensures p[j].0 != TypeKey && KeyString(p[j].0) == table[j - 1].0 {
      NormalizeKeyString(table[j - 1].0);
    }
  }

  /** No name in the property table of a restorable object without a `#type` property is `#type`. */
  lemma TableLacksTag(cfg: Config, cls: string, f: seq<(string, Value)>, decls: seq<PropDecl>)
    requires Restorable(cfg, cls, f) && ClassDecls(cfg.classes, cls) == Some(decls) && !HasKey(f, TYPE)
    ensures forall k :: 0 <= k < |PropertyTable(decls, cfg.skipPrivate)| ==> PropertyTable(decls, cfg.skipPrivate)[k].0 != TYPE
  {
    var table := PropertyTable(decls, cfg.skipPrivate);
    TableInDefaults(cls, decls, cfg.skipPrivate);
    forall k | 0 <= k < |table| ensures table[k].0 != TYPE {
      assert HasKey(f, table[k].0);
    }
  }

  /** An object's document, the tag first and then the table's properties by name, is read member for member. */
  lemma ClassRead(cls: string, table: PropTable, ms: seq<(string, Json)>)
    requires |ms| == |table| && UniqueKeys(table)
    requires forall k :: 0 <= k < |table| ==> ms[k].0 == table[k].0 && table[k].0 != TYPE
    ensures Parsed(JObject([(TYPE, JStr(cls))] + ms)) == Arr(ClassEntries(cls, table, ms))
  {
    var all := [(TYPE, JStr(cls))] + ms;
    var p := ClassEntries(cls, table, ms);
    TypeKeyNormal();
    forall k | 0 <= k < |all| ensures p[k] == (NormalizeKey(all[k].0), Parsed(all[k].1)) {
    }
    ClassEntriesUnique(cls, table, ms);
    ParsedMembers(all, p);
  }

  /** What the entries read from an object's document hold for a table property: the reading of its member. */
  lemma ClassFieldAt(cls: string, table: PropTable, ms: seq<(string, Json)>, n: string) returns (m: nat)
    requires |ms| == |table| && UniqueKeys(table) && HasKey(table, n)
    requires forall k :: 0 <= k < |table| ==> table[k].0 != TYPE
    ensures m < |table| && table[m].0 == n
    ensures Lookup(ClassEntries(cls, table, ms), NormalizeKey(n)) == Some(Parsed(ms[m].1))
  {
    m := KeyAt(table, n);
    ClassEntriesUnique(cls, table, ms);
    LookupUnique(ClassEntries(cls, table, ms), NormalizeKey(n), m + 1);
  }

  /**
   * Tagged entries from which every table property decodes to the
   * object's own value decode to the object, when the object holds its
   * defaults everywhere else.
   */
  lemma ClassDecoded(cfg: Config, fuel: nat, cls: string, f: seq<(string, Value)>, decls: seq<PropDecl>,
                     p: seq<(Key, Value)>)
    requires cls != STD_CLASS && cls !in cfg.unserializers && UniqueKeys(f)
    requires Restorable(cfg, cls, f) && ClassDecls(cfg.classes, cls) == Some(decls)
    requires Lookup(p, TypeKey) == Some(Str(cls))
    requires forall n :: HasKey(PropertyTable(decls, cfg.skipPrivate), n) ==>
      HasKey(p, NormalizeKey(n)) && DecodedField(cfg, fuel, p, n) == Ok(GetValue(f, n))
    ensures Decode(cfg, fuel, Arr(p)) == Ok(Obj(cls, f))
  {
    var table := PropertyTable(decls, cfg.skipPrivate);
    var defaults := Instantiate(cls, decls).fields;
    ObjectDecodeSpec(cfg, fuel, p, cls, decls);
    TableInDefaults(cls, decls, cfg.skipPrivate);
    var o := Decode(cfg, fuel, Arr(p)).value;
    forall n ensures Lookup(f, n) == Lookup(o.fields, n) {
      if !HasKey(table, n) && !HasKey(f, n) {
        assert !HasKey(defaults, n);
      }
    }
    SameLookupsEqual(f, o.fields);
  }

  /**
   * An object of a declared class is written as its tag and its table's
   * properties, and read back into an instance of that class holding the
   * same properties.
   */
  lemma {:induction false} ClassRoundTrip(cfg: Config, fuel: nat, cls: string, f: seq<(string, Value)>,
                                          decls: seq<PropDecl>, ms: seq<(string, Json)>)
    requires cls != STD_CLASS && Representable(cfg, Obj(cls, f)) && ClassDecls(cfg.classes, cls) == Some(decls)
    requires WireFields(cfg, fuel, f, PropertyTable(decls, cfg.skipPrivate), 0) == Ok(ms)
    ensures Decode(cfg, fuel, Parsed(JObject([(TYPE, JStr(cls))] + ms))) == Ok(Obj(cls, f))
    decreases Size(Obj(cls, f)), 0
  {
    SizeUnfold(Obj(cls, f));
    var table := PropertyTable(decls, cfg.skipPrivate);
    WireFieldsAt(cfg, fuel, f, table, 0);
    TableLacksTag(cfg, cls, f, decls);
    ClassRead(cls, table, ms);
    var p := ClassEntries(cls, table, ms);
    forall n | HasKey(table, n) ensures HasKey(p, NormalizeKey(n)) && DecodedField(cfg, fuel, p, n) == Ok(GetValue(f, n)) {
      var m := ClassFieldAt(cls, table, ms, n);
      GetValueSize(f, n);
      FieldRepresentable(cfg, f, n);
      DecodeWire(cfg, fuel, GetValue(f, n), ms[m].1);
    }
    ClassDecoded(cfg, fuel, cls, f, decls, p);
  }

  /** A property of a representable object holds a representable value. */
  lemma FieldRepresentable(cfg: Config, f: seq<(string, Value)>, n: string)
    requires forall k :: 0 <= k < |f| ==> Representable(cfg, f[k].1)
    ensures Representable(cfg, GetValue(f, n))
  {
    if HasKey(f, n) {
      var x := Lookup(f, n).value;
      var k :| 0 <= k < |f| && f[k] == (n, x);
    }
  }

  // ---------------------------------------------------------------------------
  // The text.

  /** `json_decode($text, true)` reads the layout of document j as j's generic data. */
  ghost predicate ReadsBack(cfg: Config, parse: string -> Value, j: Json)
  {
    parse(Render(cfg.format, cfg.escape, 0, j)) == Parsed(j)
  }

  /**
   * `unserialize(serialize($v))` is `$v`: the text `serialize` returns for
   * a representable value, read by a `json_decode` that reads the
   * document back, decodes to the value.
   */
  lemma UnserializeSerialized(cfg: Config, fuel: nat, v: Value, parse: string -> Value)
    requires Representable(cfg, v) && Wire(cfg, fuel, v).Ok? && ReadsBack(cfg, parse, Wire(cfg, fuel, v).value)
    ensures Encoder.Text(cfg, fuel, 0, v).Ok?
    ensures Decode(cfg, fuel, parse(Encoder.Text(cfg, fuel, 0, v).value)) == Ok(v)
  {
    EncoderLayout.TextIsRenderedWire(cfg, fuel, 0, v);
    DecodeWire(cfg, fuel, v, Wire(cfg, fuel, v).value);
  }

  /**
   * The reserved key is not carried: a hash whose `#type` entry names
   * `stdClass` is written without complaint and read back as an empty
   * `stdClass` object.
   */
  lemma TagKeyNotCarried(cfg: Config, fuel: nat)
    requires STD_CLASS !in cfg.unserializers
    ensures Wire(cfg, fuel, Arr([(TypeKey, Str(STD_CLASS))])) == Ok(JObject([(TYPE, JStr(STD_CLASS))]))
    ensures Decode(cfg, fuel, Parsed(JObject([(TYPE, JStr(STD_CLASS))]))) == Ok(Obj(STD_CLASS, []))
  {
    var es := [(TypeKey, Str(STD_CLASS))];
    var ms := [(TYPE, JStr(STD_CLASS))];
    assert !Encoder.IsList(es);
    assert Wire(cfg, fuel, Str(STD_CLASS)) == Ok(JStr(STD_CLASS)) by {
      assert Plain(STD_CLASS);
    }
    assert WireEntries(cfg, fuel, es, 1) == Ok([]);
    assert [(KeyString(es[0].0), JStr(STD_CLASS))] + [] == ms;
    assert WireEntries(cfg, fuel, es, 0) == Ok(ms);
    TypeKeyNormal();
    assert seq(|ms|, k requires 0 <= k < |ms| => (NormalizeKey(ms[k].0), Parsed(ms[k].1))) == es;
    assert PutAll([], es) == es by {
      PutAllDistinct([], es);
    }
    assert Lookup(es, TypeKey) == Some(Str(STD_CLASS));
    assert Remove(es, TypeKey) == [];
    assert ArrayFrom(cfg, fuel, [], 0, []) == Ok([]);
    assert Decode(cfg, fuel, Arr(es)) == ObjectDecode(cfg, fuel, es, Str(STD_CLASS));
  }
}
