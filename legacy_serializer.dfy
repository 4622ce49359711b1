/**
 * The older revision's `JsonSerializer` as an object: its three format
 * strings and the reflection cache are fields, and every method that
 * builds a string or an array does so with the source's loop. Each method
 * is proved to compute what the matching function of `LegacyEncoder` or
 * `LegacyDecoder` describes.
 */
module LegacySerializer {
  import opened Wrappers
  import opened PhpArrays
  import opened Numerals
  import opened PhpValues
  import opened Reflection
  import opened JsonText
  import opened LegacyEncoder
  import opened LegacyDecoder
  import Encoder
  import EncoderLayout
  import Serializer

  class JsonSerializer {
    var indentation: string
    var newline: string
    var padding: string
    /** The reflection cache: class name => property table, filled on first use. */
    var reflections: map<string, PropTable>
    /** The classes reflection can see. */
    const classes: ClassTable
    /** `json_encode` on strings that need escaping. */
    const escape: Escaper
    /** `json_decode($string, true)`. */
    const parse: string -> Value

    /** The setup the encoder and decoder functions are read against. */
    function Setting(): Setup
      reads this`indentation, this`newline, this`padding
    {
      Setup(Format(indentation, newline, padding), classes, escape)
    }

    /** Every cached table is the one reflection yields. */
    ghost predicate Valid()
      reads this`reflections
    {
      forall cls :: cls in reflections ==>
        ClassDecls(classes, cls).Some? && reflections[cls] == LegacyTable(ClassDecls(classes, cls).value)
    }

    /** `new JsonSerializer($pretty)`: two spaces, a newline and one space, or all three empty. */
    constructor(pretty: bool, classes: ClassTable, escape: Escaper, parse: string -> Value)
      ensures Valid() && reflections == map[]
      ensures pretty ==> indentation == "  " && newline == "\n" && padding == " "
      ensures !pretty ==> indentation == "" && newline == "" && padding == ""
      ensures this.classes == classes && this.escape == escape && this.parse == parse
    {
      indentation, newline, padding := "  ", "\n", " ";
      if !pretty {
        indentation, newline, padding := "", "", "";
      }
      this.classes, this.escape, this.parse := classes, escape, parse;
      reflections := map[];
    }

    /** `_getClassProperties($type)`: the cached table, or one built from reflection and then cached. */
    method GetClassProperties(cls: string) returns (r: Result<PropTable>)
      requires Valid()
      modifies this`reflections
      ensures Valid()
      ensures r == match ClassDecls(classes, cls)
                   case None => Err(UnknownClass(cls))
                   case Some(decls) => Ok(LegacyTable(decls))
      ensures r.Ok? ==> cls in reflections && reflections == old(reflections)[cls := r.value]
      ensures r.Err? ==> reflections == old(reflections)
    {
      if cls in reflections {
        return Ok(reflections[cls]);
      }
      var found := ClassDecls(classes, cls);
      if found.None? {
        return Err(UnknownClass(cls));
      }
      var props := CollectProperties(found.value);
      reflections := reflections[cls := props];
      r := Ok(props);
    }

    /** The loop of `_getClassProperties` over `getProperties()`: each property stored under its name. */
    method CollectProperties(decls: seq<PropDecl>) returns (props: PropTable)
      ensures props == LegacyTable(decls)
    {
      props := [];
      TableEmpty(decls);
      var j := 0;
      while j < |decls|
        invariant 0 <= j <= |decls|
        invariant props == LegacyTable(decls[..j])
      {
        var prop := decls[j];
        TableStep(decls, j, props);
        props := Put(props, prop.name, prop);
        j := j + 1;
      }
      TableWhole(decls, props);
    }

    /** `serialize($object)`: only an object is accepted, and it is written at level 0. */
    method Serialize(value: Value) returns (r: Result<string>)
      requires Valid()
      modifies this`reflections
      ensures Valid() && r == LegacyEncoder.Serialize(Setting(), value)
    {
      if !value.Obj? {
        return Err(NotAnObject);
      }
      SizeUnfold(value);
      ObjectsUnfold(value);
      r := SerializeObject(0, value.cls, value.fields);
    }

    /** `_serialize($value, $indent)`: dispatch on the kind of value. */
    method SerializeValue(indent: nat, value: Value) returns (r: Result<string>)
      requires Valid()
      modifies this`reflections
      ensures Valid() && r == Text(Setting(), indent, value)
      decreases Objects(value), Size(value), 2
    {
      SizeUnfold(value);
      ObjectsUnfold(value);
      match value
      case Null => r := Ok("null");
      case Bool(b) => r := Ok(if b then "true" else "false");
      case Int(i) => r := Ok(Decimal(i));
      case Str(s) => r := Ok(EncodedOrEmpty(escape, s));
      case Arr(es) =>
        if Encoder.IsList(es) {
          r := SerializeArray(indent, es);
        } else {
          r := SerializeHash(indent, es);
        }
      case Obj(cls, f) =>
        r := SerializeObject(indent, cls, f);
    }

    /** `_serializeObject($object, $indent)`. */
    method SerializeObject(indent: nat, cls: string, f: seq<(string, Value)>) returns (r: Result<string>)
      requires Valid()
      modifies this`reflections
      ensures Valid() && r == ObjectText(Setting(), indent, cls, f)
      decreases EntriesObjects(f) + 1, EntriesSize(f) + 4, 1
    {
      var whitespace := newline + Repeat(indentation, indent + 1);
      var head := "{" + whitespace + "\"" + TYPE + "\":" + padding + EncodedOrEmpty(escape, cls);
      var props := GetClassProperties(cls);
      if props.Err? {
        return Err(props.error);
      }
      ObjectOpen(Setting(), indent, cls, f, head, whitespace, props.value);
      r := SerializeProperties(indent, f, props.value, head);
    }

    /** The property loop of `_serializeObject`, appending each property's line to `head`, then the close. */
    method SerializeProperties(indent: nat, f: seq<(string, Value)>, table: PropTable, head: string)
      returns (r: Result<string>)
      requires Valid()
      modifies this`reflections
      ensures Valid() && r == Encoder.Prepend(head, ObjectFrom(Setting(), indent, f, table, 0))
      decreases EntriesObjects(f) + 1, EntriesSize(f) + 4, 0
    {
      ghost var st := Setting();
      var whitespace := newline + Repeat(indentation, indent + 1);
      var s := head;
      var i := 0;
      while i < |table|
        invariant 0 <= i <= |table| && Valid() && Setting() == st
        invariant st.format.padding == padding && st.escape == escape
        invariant Encoder.Prepend(s, ObjectFrom(st, indent, f, table, i)) == Encoder.Prepend(head, ObjectFrom(st, indent, f, table, 0))
      {
        var name := table[i].0;
        PropertyValueMeasure(f, table[i].1);
        var item := SerializeValue(indent + 1, PropertyValue(f, table[i].1));
        if item.Err? {
          ObjectFails(st, indent, f, table, i, s, item.error);
          return Err(item.error);
        }
        ObjectStep(st, indent, f, table, i, s, whitespace, padding, escape, item.value);
        s := s + Serializer.Line(",", whitespace, EncodedOrEmpty(escape, name), padding, item.value);
        i := i + 1;
      }
      var close := newline + Repeat(indentation, indent) + "}";
      ObjectClose(st, indent, f, table, s, close);
      s := s + close;
      r := Ok(s);
    }

    /** `_serializeArray($array, $indent)`: each item, and a comma unless its key is the last position. */
    method SerializeArray(indent: nat, es: seq<(Key, Value)>) returns (r: Result<string>)
      requires Valid()
      modifies this`reflections
      ensures Valid() && r == Encoder.Prepend("[", ListFrom(Setting(), indent, es, 0))
      decreases EntriesObjects(es), EntriesSize(es) + 1, 1
    {
      ghost var st := Setting();
      var s := "[";
      var lastKey := |es| - 1;
      var i := 0;
      while i < |es|
        invariant 0 <= i <= |es| && Valid() && Setting() == st
        invariant Encoder.Prepend(s, ListFrom(st, indent, es, i)) == Encoder.Prepend("[", ListFrom(st, indent, es, 0))
      {
        EntrySmaller(es, i);
        EntryObjects(es, i);
        var item := SerializeValue(indent, es[i].1);
        var sep := if es[i].0 == IntK(lastKey) then "" else ",";
        if item.Err? {
          ListFails(st, indent, es, i, s, item.error);
          return Err(item.error);
        }
        ListStep(st, indent, es, i, s, sep, item.value);
        s := s + (item.value + sep);
        i := i + 1;
      }
      ListClose(st, indent, es, s);
      s := s + "]";
      r := Ok(s);
    }

    /** `_serializeHash($hash, $indent)`: the `#hash` tag line, then one `,`-prefixed line per entry. */
    method SerializeHash(indent: nat, es: seq<(Key, Value)>) returns (r: Result<string>)
      requires Valid()
      modifies this`reflections
      ensures Valid() && r == Encoder.Prepend(HashHead(Setting(), indent), HashFrom(Setting(), indent, es, 0))
      decreases EntriesObjects(es), EntriesSize(es) + 1, 1
    {
      ghost var st := Setting();
      var whitespace := newline + Repeat(indentation, indent + 1);
      var head := "{" + whitespace + "\"" + TYPE + "\":" + padding + "\"" + HASH + "\"";
      assert head == HashHead(st, indent);
      var s := head;
      var i := 0;
      while i < |es|
        invariant 0 <= i <= |es| && Valid() && Setting() == st
        invariant st.format.padding == padding && st.escape == escape
        invariant Encoder.Prepend(s, HashFrom(st, indent, es, i)) == Encoder.Prepend(head, HashFrom(st, indent, es, 0))
      {
        EntrySmaller(es, i);
        EntryObjects(es, i);
        var item := SerializeValue(indent + 1, es[i].1);
        if item.Err? {
          HashFails(st, indent, es, i, s, item.error);
          return Err(item.error);
        }
        HashStep(st, indent, es, i, s, whitespace, padding, escape, item.value);
        s := s + Serializer.Line(",", whitespace, Encoder.KeyLiteral(escape, es[i].0), padding, item.value);
        i := i + 1;
      }
      var close := newline + Repeat(indentation, indent) + "}";
      HashClose(st, indent, es, s, close);
      s := s + close;
      r := Ok(s);
    }

    /** `unserialize($string)`: decode the JSON text, then rebuild the value. */
    method Unserialize(text: string) returns (r: Result<Value>)
      requires Valid()
      modifies this`reflections
      ensures Valid() && r == Decode(Setting(), parse(text))
    {
      var data := parse(text);
      r := UnserializeValue(data);
    }

    /** `_unserialize($data)`: scalars as they are, `#hash`-tagged arrays as hashes, other tags as objects, the rest as lists. */
    method UnserializeValue(data: Value) returns (r: Result<Value>)
      requires Valid()
      modifies this`reflections
      ensures Valid() && r == Decode(Setting(), data)
      decreases Size(data), 2
    {
      if !data.Arr? {
        return Ok(data);
      }
      var es := data.entries;
      SizeUnfold(data);
      var tag := Lookup(es, TypeKey);
      if tag.None? {
        r := UnserializeArray(es);
      } else if tag.value == Str(HASH) {
        r := UnserializeHash(es);
      } else {
        r := UnserializeObject(es);
      }
    }

    /** `_unserializeObject($data)`, which its caller invokes only on data tagged with something other than `#hash`. */
    method UnserializeObject(es: seq<(Key, Value)>) returns (r: Result<Value>)
      requires Valid() && HasKey(es, TypeKey)
      modifies this`reflections
      ensures Valid() && r == ObjectDecode(Setting(), es, Lookup(es, TypeKey).value)
      decreases EntriesSize(es) + 1, 1
    {
      var tag := Lookup(es, TypeKey).value;
      if !tag.Str? {
        return Err(BadTypeTag(tag));
      }
      var cls := tag.s;
      var found := ClassDecls(classes, cls);
      if found.None? {
        return Err(UnknownClass(cls));
      }
      var instance := Instantiate(cls, found.value);
      var props := GetClassProperties(cls);
      var fields := UnserializeProperties(es, props.value, instance.fields);
      if fields.Err? {
        InstanceFails(Setting(), es, tag, found.value, fields.error);
        return Err(fields.error);
      }
      InstanceBuilt(Setting(), es, tag, found.value, fields.value);
      r := Ok(Obj(cls, fields.value));
    }

    /** The property loop of `_unserializeObject`: each property present in the data is rebuilt and, unless static, set on the instance. */
    method UnserializeProperties(es: seq<(Key, Value)>, table: PropTable, start: seq<(string, Value)>)
      returns (r: Result<seq<(string, Value)>>)
      requires Valid()
      modifies this`reflections
      ensures Valid() && r == FieldsFrom(Setting(), es, table, 0, start)
      decreases EntriesSize(es) + 1, 0
    {
      ghost var st := Setting();
      var fields := start;
      var i := 0;
      while i < |table|
        invariant 0 <= i <= |table| && Valid() && Setting() == st
        invariant FieldsFrom(st, es, table, i, fields) == FieldsFrom(st, es, table, 0, start)
      {
        var name := table[i].0;
        var entry := Lookup(es, NormalizeKey(name));
        if entry.Some? {
          LookupSmaller(es, NormalizeKey(name));
          var x := UnserializeValue(entry.value);
          if x.Err? {
            FieldsFail(st, es, table, i, fields, entry.value, x.error);
            return Err(x.error);
          }
          FieldsStep(st, es, table, i, fields, entry.value, x.value);
          fields := SetValue(fields, table[i], x.value);
        } else {
          FieldsSkip(st, es, table, i, fields);
        }
        i := i + 1;
      }
      FieldsDone(st, es, table, fields);
      r := Ok(fields);
    }

    /** `_unserializeArray($data)`: positions 0 .. count($data) - 1 rebuilt and appended. */
    method UnserializeArray(es: seq<(Key, Value)>) returns (r: Result<Value>)
      requires Valid()
      modifies this`reflections
      ensures Valid() && r == ArrayDecode(Setting(), es)
      decreases EntriesSize(es) + 1, 1
    {
      ghost var st := Setting();
      var items: seq<(Key, Value)> := [];
      var i := 0;
      while i < |es|
        invariant 0 <= i <= |es| && Valid() && Setting() == st
        invariant ItemsFrom(st, es, i, items) == ItemsFrom(st, es, 0, [])
      {
        AtSmaller(es, i);
        var x := UnserializeValue(At(es, i));
        if x.Err? {
          ItemsFail(st, es, i, items, x.error);
          return Err(x.error);
        }
        ItemsStep(st, es, i, items, x.value);
        items := items + [(IntK(i), x.value)];
        i := i + 1;
      }
      r := Ok(Arr(items));
    }

    /** `_unserializeHash($data)`: every entry but `#type` rebuilt and stored under its key. */
    method UnserializeHash(es: seq<(Key, Value)>) returns (r: Result<Value>)
      requires Valid()
      modifies this`reflections
      ensures Valid() && r == HashDecode(Setting(), es)
      decreases EntriesSize(es) + 1, 1
    {
      ghost var st := Setting();
      var items: seq<(Key, Value)> := [];
      var i := 0;
      while i < |es|
        invariant 0 <= i <= |es| && Valid() && Setting() == st
        invariant HashEntriesFrom(st, es, i, items) == HashEntriesFrom(st, es, 0, [])
      {
        if es[i].0 == TypeKey {
          EntryTagSkipped(st, es, i, items);
        } else {
          EntrySmaller(es, i);
          var x := UnserializeValue(es[i].1);
          if x.Err? {
            EntryFails(st, es, i, items, x.error);
            return Err(x.error);
          }
          EntryStep(st, es, i, items, x.value);
          items := Put(items, es[i].0, x.value);
        }
        i := i + 1;
      }
      r := Ok(Arr(items));
    }
  }

  /** One turn of the `_serializeArray` loop: the item's text and separator join `s`. */
  lemma ListStep(st: Setup, indent: nat, es: seq<(Key, Value)>, i: nat, s: string, sep: string, t: string)
    requires i < |es| && Text(st, indent, es[i].1) == Ok(t)
    requires sep == if es[i].0 == IntK(|es| - 1) then "" else ","
    ensures Encoder.Prepend(s, ListFrom(st, indent, es, i)) == Encoder.Prepend(s + (t + sep), ListFrom(st, indent, es, i + 1))
  {
    EncoderLayout.PrependPrepend(s, t + sep, ListFrom(st, indent, es, i + 1));
  }

  /** A `_serializeArray` item that fails makes the whole array fail with its error. */
  lemma ListFails(st: Setup, indent: nat, es: seq<(Key, Value)>, i: nat, s: string, e: Error)
    requires i < |es| && Text(st, indent, es[i].1) == Err(e)
    ensures Encoder.Prepend(s, ListFrom(st, indent, es, i)) == Err(e)
  {
  }

  /** After the `_serializeArray` loop: the closing bracket ends the text. */
  lemma ListClose(st: Setup, indent: nat, es: seq<(Key, Value)>, s: string)
    ensures Encoder.Prepend(s, ListFrom(st, indent, es, |es|)) == Ok(s + "]")
  {
  }

  /** One turn of the `_serializeHash` loop: the entry's line joins `s`. */
  lemma HashStep(st: Setup, indent: nat, es: seq<(Key, Value)>, i: nat, s: string,
                 ws: string, pad: string, esc: Escaper, t: string)
    requires i < |es| && Text(st, indent + 1, es[i].1) == Ok(t)
    requires ws == Ws(st.format, indent + 1) && pad == st.format.padding && esc == st.escape
    ensures Encoder.Prepend(s, HashFrom(st, indent, es, i))
      == Encoder.Prepend(s + Serializer.Line(",", ws, Encoder.KeyLiteral(esc, es[i].0), pad, t), HashFrom(st, indent, es, i + 1))
  {
    var line := Serializer.Line(",", ws, Encoder.KeyLiteral(esc, es[i].0), pad, t);
    assert HashFrom(st, indent, es, i) == Encoder.Prepend(line, HashFrom(st, indent, es, i + 1));
    EncoderLayout.PrependPrepend(s, line, HashFrom(st, indent, es, i + 1));
  }

  /** A `_serializeHash` entry that fails makes the whole hash fail with its error. */
  lemma HashFails(st: Setup, indent: nat, es: seq<(Key, Value)>, i: nat, s: string, e: Error)
    requires i < |es| && Text(st, indent + 1, es[i].1) == Err(e)
    ensures Encoder.Prepend(s, HashFrom(st, indent, es, i)) == Err(e)
  {
  }

  /** After the `_serializeHash` loop: the close ends the text. */
  lemma HashClose(st: Setup, indent: nat, es: seq<(Key, Value)>, s: string, close: string)
    requires close == st.format.newline + Repeat(st.format.indentation, indent) + "}"
    ensures Encoder.Prepend(s, HashFrom(st, indent, es, |es|)) == Ok(s + close)
  {
  }

  /** One turn of the property loop of `_serializeObject`: the property's line joins `s`. */
  lemma ObjectStep(st: Setup, indent: nat, f: seq<(string, Value)>, table: PropTable, i: nat,
                   s: string, ws: string, pad: string, esc: Escaper, t: string)
    requires i < |table| && Text(st, indent + 1, PropertyValue(f, table[i].1)) == Ok(t)
    requires ws == Ws(st.format, indent + 1) && pad == st.format.padding && esc == st.escape
    ensures Encoder.Prepend(s, ObjectFrom(st, indent, f, table, i))
      == Encoder.Prepend(s + Serializer.Line(",", ws, EncodedOrEmpty(esc, table[i].0), pad, t), ObjectFrom(st, indent, f, table, i + 1))
  {
    var line := Serializer.Line(",", ws, EncodedOrEmpty(esc, table[i].0), pad, t);
    assert ObjectFrom(st, indent, f, table, i) == Encoder.Prepend(line, ObjectFrom(st, indent, f, table, i + 1));
    EncoderLayout.PrependPrepend(s, line, ObjectFrom(st, indent, f, table, i + 1));
  }

  /** A property of `_serializeObject` that fails makes the whole object fail with its error. */
  lemma ObjectFails(st: Setup, indent: nat, f: seq<(string, Value)>, table: PropTable, i: nat, s: string, e: Error)
    requires i < |table| && Text(st, indent + 1, PropertyValue(f, table[i].1)) == Err(e)
    ensures Encoder.Prepend(s, ObjectFrom(st, indent, f, table, i)) == Err(e)
  {
  }

  /** Before the property loop of `_serializeObject`: the head written, the whole table still to walk. */
  lemma ObjectOpen(st: Setup, indent: nat, cls: string, f: seq<(string, Value)>, head: string, ws: string, table: PropTable)
    requires ClassDecls(st.classes, cls).Some? && table == LegacyTable(ClassDecls(st.classes, cls).value)
    requires ws == st.format.newline + Repeat(st.format.indentation, indent + 1)
    requires head == "{" + ws + "\"" + TYPE + "\":" + st.format.padding + EncodedOrEmpty(st.escape, cls)
    ensures Encoder.Prepend(head, ObjectFrom(st, indent, f, table, 0)) == ObjectText(st, indent, cls, f)
  {
  }

  /** After the property loop of `_serializeObject`: the close ends the text. */
  lemma ObjectClose(st: Setup, indent: nat, f: seq<(string, Value)>, table: PropTable, s: string, close: string)
    requires close == st.format.newline + Repeat(st.format.indentation, indent) + "}"
    ensures Encoder.Prepend(s, ObjectFrom(st, indent, f, table, |table|)) == Ok(s + close)
  {
  }

  /** A turn of the property loop of `_unserializeObject` that finds the property: an instance property is set, a static one changes only the class. */
  lemma FieldsStep(st: Setup, es: seq<(Key, Value)>, table: PropTable, i: nat, fields: seq<(string, Value)>,
                   data: Value, x: Value)
    requires i < |table| && Lookup(es, NormalizeKey(table[i].0)) == Some(data) && Decode(st, data) == Ok(x)
    ensures FieldsFrom(st, es, table, i, fields) == FieldsFrom(st, es, table, i + 1, SetValue(fields, table[i], x))
  {
  }

  /** A property of `_unserializeObject` whose data fails makes the whole object fail with its error. */
  lemma FieldsFail(st: Setup, es: seq<(Key, Value)>, table: PropTable, i: nat, fields: seq<(string, Value)>,
                   data: Value, e: Error)
    requires i < |table| && Lookup(es, NormalizeKey(table[i].0)) == Some(data) && Decode(st, data) == Err(e)
    ensures FieldsFrom(st, es, table, i, fields) == Err(e)
  {
  }

  /** A turn of the property loop of `_unserializeObject` that does not find the property. */
  lemma FieldsSkip(st: Setup, es: seq<(Key, Value)>, table: PropTable, i: nat, fields: seq<(string, Value)>)
    requires i < |table| && Lookup(es, NormalizeKey(table[i].0)).None?
    ensures FieldsFrom(st, es, table, i, fields) == FieldsFrom(st, es, table, i + 1, fields)
  {
  }

  /** After the property loop of `_unserializeObject`: the properties as set. */
  lemma FieldsDone(st: Setup, es: seq<(Key, Value)>, table: PropTable, fields: seq<(string, Value)>)
    ensures FieldsFrom(st, es, table, |table|, fields) == Ok(fields)
  {
  }

  /** `_unserializeObject` of a declared class whose property loop fails fails with the same error. */
  lemma InstanceFails(st: Setup, es: seq<(Key, Value)>, tag: Value, decls: seq<PropDecl>, e: Error)
    requires tag.Str? && ClassDecls(st.classes, tag.s) == Some(decls)
    requires FieldsFrom(st, es, LegacyTable(decls), 0, Instantiate(tag.s, decls).fields) == Err(e)
    ensures ObjectDecode(st, es, tag) == Err(e)
  {
  }

  /** `_unserializeObject` of a declared class: the instance with the properties the loop set. */
  lemma InstanceBuilt(st: Setup, es: seq<(Key, Value)>, tag: Value, decls: seq<PropDecl>, fields: seq<(string, Value)>)
    requires tag.Str? && ClassDecls(st.classes, tag.s) == Some(decls)
    requires FieldsFrom(st, es, LegacyTable(decls), 0, Instantiate(tag.s, decls).fields) == Ok(fields)
    ensures ObjectDecode(st, es, tag) == Ok(Obj(tag.s, fields))
  {
  }

  /** A turn of the `_getClassProperties` loop: the declaration is stored under its name. */
  lemma TableStep(decls: seq<PropDecl>, j: nat, props: PropTable)
    requires j < |decls| && props == LegacyTable(decls[..j])
    ensures Put(props, decls[j].name, decls[j]) == LegacyTable(decls[..j + 1])
  {
    var p := decls[..j + 1];
    assert p[..|p| - 1] == decls[..j];
    assert p[|p| - 1] == decls[j];
  }

  lemma TableEmpty(decls: seq<PropDecl>)
    ensures LegacyTable(decls[..0]) == []
  {
    assert decls[..0] == [];
  }

  lemma TableWhole(decls: seq<PropDecl>, props: PropTable)
    requires props == LegacyTable(decls[..|decls|])
    ensures props == LegacyTable(decls)
  {
    assert decls[..|decls|] == decls;
  }
}
