/**
 * The current revision's `JsonSerializer` as an object: its format strings,
 * the private-property switch, the registered codecs and the reflection
 * cache are fields that its methods update, and every method that builds a
 * string or an array does so with the source's loop. Each method is proved
 * to compute what the matching function of `Encoder` or `Decoder` describes.
 */
module Serializer {
  import opened Wrappers
  import opened PhpArrays
  import opened Numerals
  import opened PhpValues
  import opened Reflection
  import opened JsonText
  import opened Settings
  import opened Encoder
  import opened Decoder
  import EncoderLayout

  class JsonSerializer {
    var indentation: string
    var newline: string
    var padding: string
    var skipPrivate: bool
    var serializers: map<string, Codec>
    var unserializers: map<string, Codec>
    /** The reflection cache: class name => property table, filled on first use. */
    var reflections: map<string, PropTable>
    /** The classes reflection can see. */
    const classes: ClassTable
    /** `json_encode` on strings that need escaping. */
    const escape: Escaper
    /** `json_decode($string, true)`. */
    const parse: string -> Value

    /** The configuration the encoder and decoder functions are read against. */
    function Cfg(): Config
      reads this`indentation, this`newline, this`padding, this`skipPrivate, this`serializers, this`unserializers
    {
      Config(Format(indentation, newline, padding), skipPrivate, serializers, unserializers, classes, escape)
    }

    /** Every cached table is the one reflection yields under the current private-property setting. */
    ghost predicate Valid()
      reads this`reflections, this`skipPrivate
    {
      forall cls :: cls in reflections ==>
        ClassDecls(classes, cls).Some? && reflections[cls] == PropertyTable(ClassDecls(classes, cls).value, skipPrivate)
    }

    /**
     * `new JsonSerializer($pretty)`: the pretty or compact layout, private
     * properties included, and the date/time codecs registered for
     * `DateTime` and `DateTimeImmutable`.
     */
    constructor(pretty: bool, classes: ClassTable, escape: Escaper, parse: string -> Value,
                dateSerializer: Codec, dateUnserializer: Codec)
      ensures Valid() && reflections == map[]
      ensures Cfg().format == if pretty then Pretty else Compact
      ensures !skipPrivate
      ensures serializers == map["DateTime" := dateSerializer, "DateTimeImmutable" := dateSerializer]
      ensures unserializers == map["DateTime" := dateUnserializer, "DateTimeImmutable" := dateUnserializer]
      ensures this.classes == classes && this.escape == escape && this.parse == parse
    {
      if pretty {
        indentation, newline, padding := "  ", "\n", " ";
      } else {
        indentation, newline, padding := "", "", "";
      }
      skipPrivate := false;
      this.classes, this.escape, this.parse := classes, escape, parse;
      serializers := map["DateTime" := dateSerializer, "DateTimeImmutable" := dateSerializer];
      unserializers := map["DateTime" := dateUnserializer, "DateTimeImmutable" := dateUnserializer];
      reflections := map[];
    }

    /** `skipPrivateProperties($skip)`: the cache is emptied only when the setting changes. */
    method SkipPrivateProperties(skip: bool)
      requires Valid()
      modifies this`skipPrivate, this`reflections
      ensures Valid() && skipPrivate == skip
      ensures reflections == if old(skipPrivate) != skip then map[] else old(reflections)
    {
      if skipPrivate != skip {
        skipPrivate := skip;
        reflections := map[];
      }
    }

    /** `defineSerialization($type, $serialize, $unserialize)`: both codecs are (re)registered for the class. */
    method DefineSerialization(cls: string, serialize: Codec, unserialize: Codec)
      modifies this`serializers, this`unserializers
      ensures serializers == old(serializers)[cls := serialize]
      ensures unserializers == old(unserializers)[cls := unserialize]
    {
      serializers := serializers[cls := serialize];
      unserializers := unserializers[cls := unserialize];
    }

    /**
     * `_getClassProperties($type)`: the cached table, or one built by
     * walking the declarations and then cached. An unknown class is the
     * exception `new ReflectionClass` throws.
     */
    method GetClassProperties(cls: string) returns (r: Result<PropTable>)
      requires Valid()
      modifies this`reflections
      ensures Valid()
      ensures r == match ClassDecls(classes, cls)
                   case None => Err(UnknownClass(cls))
                   case Some(decls) => Ok(PropertyTable(decls, skipPrivate))
      ensures r.Ok? ==> cls in reflections && reflections == old(reflections)[cls := r.value]
      ensures r.Err? ==> reflections == old(reflections)
    {
      if cls in reflections {
        return Ok(reflections[cls]);
      }
      var found := ClassDecls(classes, cls);
      if found.None? {
        return Err(UnknownClass(cls));
      }
      var props := CollectProperties(found.value);
      reflections := reflections[cls := props];
      r := Ok(props);
    }

    /**
     * The loop of `_getClassProperties` over `getProperties()`: static
     * properties are omitted, private ones too when they are skipped, and
     * each remaining one is stored under its name.
     */
    method CollectProperties(decls: seq<PropDecl>) returns (props: PropTable)
      ensures props == PropertyTable(decls, skipPrivate)
    {
      props := [];
      TableEmpty(decls, skipPrivate);
      var j := 0;
      while j < |decls|
        invariant 0 <= j <= |decls|
        invariant props == PropertyTable(decls[..j], skipPrivate)
      {
        var prop := decls[j];
        if !prop.isStatic && !(skipPrivate && prop.isPrivate) {
          TableKeeps(decls, j, skipPrivate, props);
          props := Put(props, prop.name, prop);
        } else {
          TableSkips(decls, j, skipPrivate, props);
        }
        j := j + 1;
      }
      TableWhole(decls, skipPrivate, props);
    }

    /** `serialize($value)`; `fuel` bounds how deep registered serializers may hand values back. */
    method Serialize(fuel: nat, value: Value) returns (r: Result<string>)
      requires Valid()
      modifies this`reflections
      ensures Valid() && r == Text(Cfg(), fuel, 0, value)
    {
      r := SerializeValue(fuel, 0, value);
    }

    /** `_serialize($value, $indent)`: dispatch on the kind of value. */
    method SerializeValue(fuel: nat, indent: nat, value: Value) returns (r: Result<string>)
      requires Valid()
      modifies this`reflections
      ensures Valid() && r == Text(Cfg(), fuel, indent, value)
      decreases fuel, Size(value), 2
    {
      match value
      case Null => r := Ok("null");
      case Bool(b) => r := Ok(if b then "true" else "false");
      case Int(i) => r := Ok(Decimal(i));
      case Str(s) =>
        var data := JsonString(escape, s);
        if data.None? {
          r := Err(MalformedString(s));
        } else {
          r := Ok(data.value);
        }
      case Arr(es) =>
        SizeUnfold(value);
        if IsList(es) {
          r := SerializeArray(fuel, indent, es);
        } else {
          r := SerializeHash(fuel, indent, es);
        }
      case Obj(cls, f) =>
        SizeUnfold(value);
        if cls == STD_CLASS {
          r := SerializeStdClass(fuel, indent, f);
        } else {
          r := SerializeObject(fuel, indent, cls, f);
        }
    }

    /** `_serializeObject($object, $indent)`. */
    method SerializeObject(fuel: nat, indent: nat, cls: string, f: seq<(string, Value)>) returns (r: Result<string>)
      requires Valid()
      modifies this`reflections
      ensures Valid() && r == ObjectText(Cfg(), fuel, indent, cls, f)
      decreases fuel, EntriesSize(f) + 4, 1
    {
      if cls in serializers {
        if fuel == 0 {
          return Err(CodecNesting);
        }
        r := SerializeValue(fuel - 1, indent, serializers[cls].apply(Obj(cls, f)));
        return;
      }
      var whitespace := newline + Repeat(indentation, indent + 1);
      var head := "{" + whitespace + "\"" + TYPE + "\":" + padding + EncodedOrEmpty(escape, cls);
      var props := GetClassProperties(cls);
      if props.Err? {
        return Err(props.error);
      }
      ObjectOpen(Cfg(), fuel, indent, cls, f, head, whitespace, props.value);
      r := SerializeProperties(fuel, indent, f, props.value, head);
    }

    /** The property loop of `_serializeObject`, appending each property's line to `head`, then the close. */
    method SerializeProperties(fuel: nat, indent: nat, f: seq<(string, Value)>, table: PropTable, head: string)
      returns (r: Result<string>)
      requires Valid()
      modifies this`reflections
      ensures Valid() && r == Prepend(head, ObjectFrom(Cfg(), fuel, indent, f, table, 0))
      decreases fuel, EntriesSize(f) + 4, 0
    {
      ghost var cfg := Cfg();
      var whitespace := newline + Repeat(indentation, indent + 1);
      var s := head;
      var i := 0;
      while i < |table|
        invariant 0 <= i <= |table| && Valid() && Cfg() == cfg
        invariant cfg.format.padding == padding && cfg.escape == escape
        invariant Prepend(s, ObjectFrom(cfg, fuel, indent, f, table, i)) == Prepend(head, ObjectFrom(cfg, fuel, indent, f, table, 0))
      {
        var name := table[i].0;
        GetValueSize(f, name);
        var item := SerializeValue(fuel, indent + 1, GetValue(f, name));
        if item.Err? {
          ObjectFails(cfg, fuel, indent, f, table, i, s, item.error);
          return Err(item.error);
        }
        ObjectStep(cfg, fuel, indent, f, table, i, s, whitespace, padding, escape, item.value);
        s := s + Line(",", whitespace, EncodedOrEmpty(escape, name), padding, item.value);
        i := i + 1;
      }
      var close := newline + Repeat(indentation, indent) + "}";
      ObjectClose(cfg, fuel, indent, f, table, s, close);
      s := s + close;
      r := Ok(s);
    }

    /** `_serializeArray($array, $indent)`: each item, and a comma unless its key is the last position. */
    method SerializeArray(fuel: nat, indent: nat, es: seq<(Key, Value)>) returns (r: Result<string>)
      requires Valid()
      modifies this`reflections
      ensures Valid() && r == Prepend("[", ListFrom(Cfg(), fuel, indent, es, 0))
      decreases fuel, EntriesSize(es) + 1, 1
    {
      ghost var cfg := Cfg();
      var s := "[";
      var lastKey := |es| - 1;
      var i := 0;
      while i < |es|
        invariant 0 <= i <= |es| && Valid() && Cfg() == cfg
        invariant Prepend(s, ListFrom(cfg, fuel, indent, es, i)) == Prepend("[", ListFrom(cfg, fuel, indent, es, 0))
      {
        EntrySmaller(es, i);
        var item := SerializeValue(fuel, indent, es[i].1);
        var sep := if es[i].0 == IntK(lastKey) then "" else ",";
        if item.Err? {
          ListFails(cfg, fuel, indent, es, i, s, item.error);
          return Err(item.error);
        }
        ListStep(cfg, fuel, indent, es, i, s, sep, item.value);
        s := s + (item.value + sep);
        i := i + 1;
      }
      ListClose(cfg, fuel, indent, es, s);
      s := s + "]";
      r := Ok(s);
    }

    /** `_serializeHash($hash, $indent)`: one line per entry, comma-separated after the first. */
    method SerializeHash(fuel: nat, indent: nat, es: seq<(Key, Value)>) returns (r: Result<string>)
      requires Valid()
      modifies this`reflections
      ensures Valid() && r == Prepend("{", HashFrom(Cfg(), fuel, indent, es, 0))
      decreases fuel, EntriesSize(es) + 1, 1
    {
      ghost var cfg := Cfg();
      var whitespace := newline + Repeat(indentation, indent + 1);
      assert whitespace == Ws(cfg.format, indent + 1);
      var s := "{";
      var comma := "";
      var i := 0;
      while i < |es|
        invariant 0 <= i <= |es| && Valid() && Cfg() == cfg
        invariant cfg.format.padding == padding && cfg.escape == escape
        invariant comma == if i == 0 then "" else ","
        invariant Prepend(s, HashFrom(cfg, fuel, indent, es, i)) == Prepend("{", HashFrom(cfg, fuel, indent, es, 0))
      {
        EntrySmaller(es, i);
        var item := SerializeValue(fuel, indent + 1, es[i].1);
        if item.Err? {
          HashFails(cfg, fuel, indent, es, i, s, item.error);
          return Err(item.error);
        }
        HashStep(cfg, fuel, indent, es, i, s, comma, whitespace, padding, escape, item.value);
        s := s + Line(comma, whitespace, KeyLiteral(escape, es[i].0), padding, item.value);
        comma := ",";
        i := i + 1;
      }
      var close := newline + Repeat(indentation, indent) + "}";
      HashClose(cfg, fuel, indent, es, s, close);
      s := s + close;
      r := Ok(s);
    }

    /** `_serializeStdClass($value, $indent)`: the properties as a hash, tagged `stdClass`. */
    method SerializeStdClass(fuel: nat, indent: nat, f: seq<(string, Value)>) returns (r: Result<string>)
      requires Valid()
      modifies this`reflections
      ensures Valid() && r == StdClassText(Cfg(), fuel, indent, f)
      decreases fuel, EntriesSize(f) + 4, 1
    {
      var items := CastToArray(f);
      items := Put(items, TypeKey, Str(STD_CLASS));
      assert items == StdClassHash(f);
      r := SerializeHash(fuel, indent, items);
    }

    /** `unserialize($string)`: decode the JSON text, then rebuild the value. */
    method Unserialize(fuel: nat, text: string) returns (r: Result<Value>)
      requires Valid()
      modifies this`reflections
      ensures Valid() && r == Decode(Cfg(), fuel, parse(text))
    {
      var data := parse(text);
      r := UnserializeValue(fuel, data);
    }

    /** `_unserialize($data)`: scalars as they are, tagged arrays as objects, the rest as arrays. */
    method UnserializeValue(fuel: nat, data: Value) returns (r: Result<Value>)
      requires Valid()
      modifies this`reflections
      ensures Valid() && r == Decode(Cfg(), fuel, data)
      decreases fuel, Size(data), 2
    {
      if !data.Arr? {
        return Ok(data);
      }
      var es := data.entries;
      SizeUnfold(data);
      var tag := Lookup(es, TypeKey);
      if tag.None? {
        r := UnserializeArray(fuel, es);
      } else if tag.value == Str(HASH) {
        RemoveSize(es, TypeKey);
        r := UnserializeArray(fuel, Remove(es, TypeKey));
      } else {
        r := UnserializeObject(fuel, es);
      }
    }

    /** `_unserializeObject($data)`, which its caller invokes only when `$data` has a `#type` entry. */
    method UnserializeObject(fuel: nat, es: seq<(Key, Value)>) returns (r: Result<Value>)
      requires Valid() && HasKey(es, TypeKey)
      modifies this`reflections
      ensures Valid() && r == ObjectDecode(Cfg(), fuel, es, Lookup(es, TypeKey).value)
      decreases fuel, EntriesSize(es) + 1, 1
    {
      var tag := Lookup(es, TypeKey).value;
      if !tag.Str? {
        return Err(BadTypeTag(tag));
      }
      var cls := tag.s;
      if cls in unserializers {
        if fuel == 0 {
          return Err(CodecNesting);
        }
        CodecDecodes(Cfg(), fuel, es, tag);
        r := UnserializeValue(fuel - 1, unserializers[cls].apply(Arr(es)));
        return;
      }
      if cls == STD_CLASS {
        RemoveSize(es, TypeKey);
        var items := UnserializeArray(fuel, Remove(es, TypeKey));
        if items.Err? {
          StdClassFails(Cfg(), fuel, es, tag, items.error);
          return Err(items.error);
        }
        StdClassBuilt(Cfg(), fuel, es, tag, items.value.entries);
        return Ok(Obj(STD_CLASS, CastToObject(items.value.entries)));
      }
      var found := ClassDecls(classes, cls);
      if found.None? {
        return Err(UnknownClass(cls));
      }
      var instance := Instantiate(cls, found.value);
      var props := GetClassProperties(cls);
      var fields := UnserializeProperties(fuel, es, props.value, instance.fields);
      if fields.Err? {
        InstanceFails(Cfg(), fuel, es, tag, found.value, fields.error);
        return Err(fields.error);
      }
      InstanceBuilt(Cfg(), fuel, es, tag, found.value, fields.value);
      r := Ok(Obj(cls, fields.value));
    }

    /** The property loop of `_unserializeObject`: each property present in the data is rebuilt and set. */
    method UnserializeProperties(fuel: nat, es: seq<(Key, Value)>, table: PropTable, start: seq<(string, Value)>)
      returns (r: Result<seq<(string, Value)>>)
      requires Valid()
      modifies this`reflections
      ensures Valid() && r == FieldsFrom(Cfg(), fuel, es, table, 0, start)
      decreases fuel, EntriesSize(es) + 1, 0
    {
      ghost var cfg := Cfg();
      var fields := start;
      var i := 0;
      while i < |table|
        invariant 0 <= i <= |table| && Valid() && Cfg() == cfg
        invariant FieldsFrom(cfg, fuel, es, table, i, fields) == FieldsFrom(cfg, fuel, es, table, 0, start)
      {
        var name := table[i].0;
        var entry := Lookup(es, NormalizeKey(name));
        if entry.Some? {
          LookupSmaller(es, NormalizeKey(name));
          var x := UnserializeValue(fuel, entry.value);
          if x.Err? {
            FieldsFail(cfg, fuel, es, table, i, fields, entry.value, x.error);
            return Err(x.error);
          }
          FieldsStep(cfg, fuel, es, table, i, fields, entry.value, x.value);
          fields := Put(fields, name, x.value);
        } else {
          FieldsSkip(cfg, fuel, es, table, i, fields);
        }
        i := i + 1;
      }
      FieldsDone(cfg, fuel, es, table, fields);
      r := Ok(fields);
    }

    /** `_unserializeArray($data)`: every entry rebuilt and stored under its key. */
    method UnserializeArray(fuel: nat, es: seq<(Key, Value)>) returns (r: Result<Value>)
      requires Valid()
      modifies this`reflections
      ensures Valid() && r == ArrayDecode(Cfg(), fuel, es)
      ensures r.Ok? ==> r.value.Arr?
      decreases fuel, EntriesSize(es) + 1, 0
    {
      ghost var cfg := Cfg();
      var items: seq<(Key, Value)> := [];
      var i := 0;
      while i < |es|
        invariant 0 <= i <= |es| && Valid() && Cfg() == cfg
        invariant ArrayFrom(cfg, fuel, es, i, items) == ArrayFrom(cfg, fuel, es, 0, [])
      {
        EntrySmaller(es, i);
        var x := UnserializeValue(fuel, es[i].1);
        if x.Err? {
          ArrayFails(cfg, fuel, es, i, items, x.error);
          return Err(x.error);
        }
        ArrayStep(cfg, fuel, es, i, items, x.value);
        items := Put(items, es[i].0, x.value);
        i := i + 1;
      }
      r := Ok(Arr(items));
    }
  }

  /** One turn of the `_serializeArray` loop: the item's text and separator join `s`. */
  lemma ListStep(cfg: Config, fuel: nat, indent: nat, es: seq<(Key, Value)>, i: nat, s: string, sep: string, t: string)
    requires i < |es| && Text(cfg, fuel, indent, es[i].1) == Ok(t)
    requires sep == if es[i].0 == IntK(|es| - 1) then "" else ","
    ensures Prepend(s, ListFrom(cfg, fuel, indent, es, i)) == Prepend(s + (t + sep), ListFrom(cfg, fuel, indent, es, i + 1))
  {
    EncoderLayout.PrependPrepend(s, t + sep, ListFrom(cfg, fuel, indent, es, i + 1));
  }

  /** A `_serializeArray` item that fails makes the whole array fail with its error. */
  lemma ListFails(cfg: Config, fuel: nat, indent: nat, es: seq<(Key, Value)>, i: nat, s: string, e: Error)
    requires i < |es| && Text(cfg, fuel, indent, es[i].1) == Err(e)
    ensures Prepend(s, ListFrom(cfg, fuel, indent, es, i)) == Err(e)
  {
  }

  /** After the `_serializeArray` loop: the closing bracket ends the text. */
  lemma ListClose(cfg: Config, fuel: nat, indent: nat, es: seq<(Key, Value)>, s: string)
    ensures Prepend(s, ListFrom(cfg, fuel, indent, es, |es|)) == Ok(s + "]")
  {
  }

  /** One member line of a hash or an object: separator, line break, key literal, `:`, padding, value text. */
  function Line(sep: string, ws: string, key: string, pad: string, text: string): string
  {
    sep + ws + key + ":" + pad + text
  }

  /** One turn of the `_serializeHash` loop: the entry's line joins `s`. */
  lemma HashStep(cfg: Config, fuel: nat, indent: nat, es: seq<(Key, Value)>, i: nat, s: string,
                 comma: string, ws: string, pad: string, esc: Escaper, t: string)
    requires i < |es| && Text(cfg, fuel, indent + 1, es[i].1) == Ok(t)
    requires comma == (if i == 0 then "" else ",") && ws == Ws(cfg.format, indent + 1)
    requires pad == cfg.format.padding && esc == cfg.escape
    ensures Prepend(s, HashFrom(cfg, fuel, indent, es, i))
      == Prepend(s + Line(comma, ws, KeyLiteral(esc, es[i].0), pad, t), HashFrom(cfg, fuel, indent, es, i + 1))
  {
    var line := Line(comma, ws, KeyLiteral(esc, es[i].0), pad, t);
    assert HashFrom(cfg, fuel, indent, es, i) == Prepend(line, HashFrom(cfg, fuel, indent, es, i + 1));
    EncoderLayout.PrependPrepend(s, line, HashFrom(cfg, fuel, indent, es, i + 1));
  }

  /** A `_serializeHash` entry that fails makes the whole hash fail with its error. */
  lemma HashFails(cfg: Config, fuel: nat, indent: nat, es: seq<(Key, Value)>, i: nat, s: string, e: Error)
    requires i < |es| && Text(cfg, fuel, indent + 1, es[i].1) == Err(e)
    ensures Prepend(s, HashFrom(cfg, fuel, indent, es, i)) == Err(e)
  {
  }

  /** After the `_serializeHash` loop: the close ends the text. */
  lemma HashClose(cfg: Config, fuel: nat, indent: nat, es: seq<(Key, Value)>, s: string, close: string)
    requires close == cfg.format.newline + Repeat(cfg.format.indentation, indent) + "}"
    ensures Prepend(s, HashFrom(cfg, fuel, indent, es, |es|)) == Ok(s + close)
  {
  }

  /** One turn of the property loop of `_serializeObject`: the property's line joins `s`. */
  lemma ObjectStep(cfg: Config, fuel: nat, indent: nat, f: seq<(string, Value)>, table: PropTable, i: nat,
                   s: string, ws: string, pad: string, esc: Escaper, t: string)
    requires i < |table| && Text(cfg, fuel, indent + 1, GetValue(f, table[i].0)) == Ok(t)
    requires ws == Ws(cfg.format, indent + 1) && pad == cfg.format.padding && esc == cfg.escape
    ensures Prepend(s, ObjectFrom(cfg, fuel, indent, f, table, i))
      == Prepend(s + Line(",", ws, EncodedOrEmpty(esc, table[i].0), pad, t), ObjectFrom(cfg, fuel, indent, f, table, i + 1))
  {
    var line := Line(",", ws, EncodedOrEmpty(esc, table[i].0), pad, t);
    assert ObjectFrom(cfg, fuel, indent, f, table, i) == Prepend(line, ObjectFrom(cfg, fuel, indent, f, table, i + 1));
    EncoderLayout.PrependPrepend(s, line, ObjectFrom(cfg, fuel, indent, f, table, i + 1));
  }

  /** A property of `_serializeObject` that fails makes the whole object fail with its error. */
  lemma ObjectFails(cfg: Config, fuel: nat, indent: nat, f: seq<(string, Value)>, table: PropTable, i: nat,
                    s: string, e: Error)
    requires i < |table| && Text(cfg, fuel, indent + 1, GetValue(f, table[i].0)) == Err(e)
    ensures Prepend(s, ObjectFrom(cfg, fuel, indent, f, table, i)) == Err(e)
  {
  }

  /** Before the property loop of `_serializeObject`: the head written, the whole table still to walk. */
  lemma ObjectOpen(cfg: Config, fuel: nat, indent: nat, cls: string, f: seq<(string, Value)>, head: string,
                   ws: string, table: PropTable)
    requires cls !in cfg.serializers && ClassDecls(cfg.classes, cls).Some?
    requires table == PropertyTable(ClassDecls(cfg.classes, cls).value, cfg.skipPrivate)
    requires ws == cfg.format.newline + Repeat(cfg.format.indentation, indent + 1)
    requires head == "{" + ws + "\"" + TYPE + "\":" + cfg.format.padding + EncodedOrEmpty(cfg.escape, cls)
    ensures Prepend(head, ObjectFrom(cfg, fuel, indent, f, table, 0)) == ObjectText(cfg, fuel, indent, cls, f)
  {
  }

  /** After the property loop of `_serializeObject`: the close ends the text. */
  lemma ObjectClose(cfg: Config, fuel: nat, indent: nat, f: seq<(string, Value)>, table: PropTable, s: string,
                    close: string)
    requires close == cfg.format.newline + Repeat(cfg.format.indentation, indent) + "}"
    ensures Prepend(s, ObjectFrom(cfg, fuel, indent, f, table, |table|)) == Ok(s + close)
  {
  }

  /** One turn of the `_unserializeArray` loop: the rebuilt entry is stored under its key. */
  lemma ArrayStep(cfg: Config, fuel: nat, es: seq<(Key, Value)>, i: nat, acc: seq<(Key, Value)>, x: Value)
    requires i < |es| && Decode(cfg, fuel, es[i].1) == Ok(x)
    ensures ArrayFrom(cfg, fuel, es, i, acc) == ArrayFrom(cfg, fuel, es, i + 1, Put(acc, es[i].0, x))
  {
  }

  /** An entry of `_unserializeArray` that fails makes the whole array fail with its error. */
  lemma ArrayFails(cfg: Config, fuel: nat, es: seq<(Key, Value)>, i: nat, acc: seq<(Key, Value)>, e: Error)
    requires i < |es| && Decode(cfg, fuel, es[i].1) == Err(e)
    ensures ArrayFrom(cfg, fuel, es, i, acc) == Err(e)
  {
  }

  /** A turn of the property loop of `_unserializeObject` that finds the property: it is set. */
  lemma FieldsStep(cfg: Config, fuel: nat, es: seq<(Key, Value)>, table: PropTable, i: nat,
                   fields: seq<(string, Value)>, data: Value, x: Value)
    requires i < |table| && Lookup(es, NormalizeKey(table[i].0)) == Some(data) && Decode(cfg, fuel, data) == Ok(x)
    ensures FieldsFrom(cfg, fuel, es, table, i, fields) == FieldsFrom(cfg, fuel, es, table, i + 1, Put(fields, table[i].0, x))
  {
  }

  /** A property of `_unserializeObject` whose data fails makes the whole object fail with its error. */
  lemma FieldsFail(cfg: Config, fuel: nat, es: seq<(Key, Value)>, table: PropTable, i: nat,
                   fields: seq<(string, Value)>, data: Value, e: Error)
    requires i < |table| && Lookup(es, NormalizeKey(table[i].0)) == Some(data) && Decode(cfg, fuel, data) == Err(e)
    ensures FieldsFrom(cfg, fuel, es, table, i, fields) == Err(e)
  {
  }

  /** After the property loop of `_unserializeObject`: the properties as set. */
  lemma FieldsDone(cfg: Config, fuel: nat, es: seq<(Key, Value)>, table: PropTable, fields: seq<(string, Value)>)
    ensures FieldsFrom(cfg, fuel, es, table, |table|, fields) == Ok(fields)
  {
  }

  /** `_unserializeObject` of a class with a registered unserializer rebuilds what the unserializer returns. */
  lemma CodecDecodes(cfg: Config, fuel: nat, es: seq<(Key, Value)>, tag: Value)
    requires tag.Str? && tag.s in cfg.unserializers && fuel > 0
    ensures ObjectDecode(cfg, fuel, es, tag) == Decode(cfg, fuel - 1, cfg.unserializers[tag.s].apply(Arr(es)))
  {
  }

  /** `_unserializeObject` of `stdClass`: the untagged entries, cast to an object. */
  lemma StdClassBuilt(cfg: Config, fuel: nat, es: seq<(Key, Value)>, tag: Value, a: seq<(Key, Value)>)
    requires tag == Str(STD_CLASS) && STD_CLASS !in cfg.unserializers
    requires ArrayDecode(cfg, fuel, Remove(es, TypeKey)) == Ok(Arr(a))
    ensures ObjectDecode(cfg, fuel, es, tag) == Ok(Obj(STD_CLASS, CastToObject(a)))
  {
  }

  /** `_unserializeObject` of `stdClass` fails when one of its entries does. */
  lemma StdClassFails(cfg: Config, fuel: nat, es: seq<(Key, Value)>, tag: Value, e: Error)
    requires tag == Str(STD_CLASS) && STD_CLASS !in cfg.unserializers
    requires ArrayDecode(cfg, fuel, Remove(es, TypeKey)) == Err(e)
    ensures ObjectDecode(cfg, fuel, es, tag) == Err(e)
  {
  }

  /** `_unserializeObject` of a declared class whose property loop fails fails with the same error. */
  lemma InstanceFails(cfg: Config, fuel: nat, es: seq<(Key, Value)>, tag: Value, decls: seq<PropDecl>, e: Error)
    requires tag.Str? && tag.s !in cfg.unserializers && tag.s != STD_CLASS && ClassDecls(cfg.classes, tag.s) == Some(decls)
    requires FieldsFrom(cfg, fuel, es, PropertyTable(decls, cfg.skipPrivate), 0, Instantiate(tag.s, decls).fields) == Err(e)
    ensures ObjectDecode(cfg, fuel, es, tag) == Err(e)
  {
  }

  /** `_unserializeObject` of a declared class: the instance with the properties the loop set. */
  lemma InstanceBuilt(cfg: Config, fuel: nat, es: seq<(Key, Value)>, tag: Value, decls: seq<PropDecl>,
                      fields: seq<(string, Value)>)
    requires tag.Str? && tag.s !in cfg.unserializers && tag.s != STD_CLASS && ClassDecls(cfg.classes, tag.s) == Some(decls)
    requires FieldsFrom(cfg, fuel, es, PropertyTable(decls, cfg.skipPrivate), 0, Instantiate(tag.s, decls).fields) == Ok(fields)
    ensures ObjectDecode(cfg, fuel, es, tag) == Ok(Obj(tag.s, fields))
  {
  }

  /** A turn of the property loop of `_unserializeObject` that does not find the property. */
  lemma FieldsSkip(cfg: Config, fuel: nat, es: seq<(Key, Value)>, table: PropTable, i: nat,
                   fields: seq<(string, Value)>)
    requires i < |table| && Lookup(es, NormalizeKey(table[i].0)).None?
    ensures FieldsFrom(cfg, fuel, es, table, i, fields) == FieldsFrom(cfg, fuel, es, table, i + 1, fields)
  {
  }

  /** A turn of the `_getClassProperties` loop that keeps the declaration: it is stored under its name. */
  lemma TableKeeps(decls: seq<PropDecl>, j: nat, skipPrivate: bool, props: PropTable)
    requires j < |decls| && props == PropertyTable(decls[..j], skipPrivate) && Kept(decls[j], skipPrivate)
    ensures Put(props, decls[j].name, decls[j]) == PropertyTable(decls[..j + 1], skipPrivate)
  {
    var p := decls[..j + 1];
    assert p[..|p| - 1] == decls[..j];
    assert p[|p| - 1] == decls[j];
  }

  /** A turn of the `_getClassProperties` loop that omits the declaration. */
  lemma TableSkips(decls: seq<PropDecl>, j: nat, skipPrivate: bool, props: PropTable)
    requires j < |decls| && props == PropertyTable(decls[..j], skipPrivate) && !Kept(decls[j], skipPrivate)
    ensures props == PropertyTable(decls[..j + 1], skipPrivate)
  {
    var p := decls[..j + 1];
    assert p[..|p| - 1] == decls[..j];
    assert p[|p| - 1] == decls[j];
  }

  lemma TableEmpty(decls: seq<PropDecl>, skipPrivate: bool)
    ensures PropertyTable(decls[..0], skipPrivate) == []
  {
    assert decls[..0] == [];
  }

  lemma TableWhole(decls: seq<PropDecl>, skipPrivate: bool, props: PropTable)
    requires props == PropertyTable(decls[..|decls|], skipPrivate)
    ensures props == PropertyTable(decls, skipPrivate)
  {
    assert decls[..|decls|] == decls;
  }
}
