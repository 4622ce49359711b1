/**
 * The shape of the older revision's output, stated on its encoder: the
 * root must be an object, lists and hashes are told apart by the same
 * strict key test, a hash opens with its `#hash` tag, and an object lists
 * every property reflection reports.
 */
module LegacyEncoderLaws {
  import opened Wrappers
  import opened PhpArrays
  import opened Numerals
  import opened PhpValues
  import opened Reflection
  import opened JsonText
  import opened LegacyEncoder
  import Encoder
  import EncoderLayout
  import EncoderShape

  /** The text of a value, or "" where encoding fails. */
  function TextOf(st: Setup, indent: nat, v: Value): string
  {
    match Text(st, indent, v)
    case Ok(t) => t
    case Err(_) => ""
  }

  /** The item texts of a list, each at the list's own level. */
  function ItemTexts(st: Setup, indent: nat, es: seq<(Key, Value)>): (r: seq<string>)
    ensures |r| == |es|
  {
    seq(|es|, k requires 0 <= k < |es| => TextOf(st, indent, es[k].1))
  }

  /** The entry lines of a hash: each `,`-prefixed, on its own line one level in. */
  function HashLines(st: Setup, indent: nat, es: seq<(Key, Value)>): (r: seq<string>)
    ensures |r| == |es|
  {
    seq(|es|, k requires 0 <= k < |es| =>
      "," + Ws(st.format, indent + 1) + Encoder.KeyLiteral(st.escape, es[k].0) + ":"
      + st.format.padding + TextOf(st, indent + 1, es[k].1))
  }

  /** The property lines of an object: one `,`-prefixed line per table entry, in table order. */
  function PropertyLines(st: Setup, indent: nat, f: seq<(string, Value)>, table: PropTable): (r: seq<string>)
    ensures |r| == |table|
  {
    seq(|table|, k requires 0 <= k < |table| =>
      "," + Ws(st.format, indent + 1) + EncodedOrEmpty(st.escape, table[k].0) + ":"
      + st.format.padding + TextOf(st, indent + 1, PropertyValue(f, table[k].1)))
  }

  /**
   * `serialize($object)`: a root that is not an object is refused with an
   * error; an object root is written by `_serializeObject` at level 0, as
   * `_serialize` would write it.
   */
  lemma SerializeRoot(st: Setup, v: Value)
    ensures Serialize(st, v).Ok? ==> v.Obj?
    ensures v.Obj? ==> Serialize(st, v) == Text(st, 0, v)
  {
  }

  /** Scalars: null, booleans and ints as JSON literals; a string `json_encode` rejects is written as nothing. */
  lemma ScalarText(st: Setup, indent: nat, b: bool, i: int, s: string)
    ensures Text(st, indent, Null) == Ok("null")
    ensures Text(st, indent, Bool(b)) == Ok(if b then "true" else "false")
    ensures Text(st, indent, Int(i)) == Ok(Decimal(i))
    ensures JsonString(st.escape, s).None? ==> Text(st, indent, Str(s)) == Ok("")
    ensures JsonString(st.escape, s).Some? ==> Text(st, indent, Str(s)) == Ok(JsonString(st.escape, s).value)
  {
  }

  lemma {:induction false} ListFromJoin(st: Setup, indent: nat, es: seq<(Key, Value)>, i: nat)
    requires Encoder.IsList(es) && i < |es|
    ensures ListFrom(st, indent, es, i).Ok? <==> forall k :: i <= k < |es| ==> Text(st, indent, es[k].1).Ok?
    ensures ListFrom(st, indent, es, i).Ok? ==>
      ListFrom(st, indent, es, i).value == Join(",", ItemTexts(st, indent, es)[i..]) + "]"
    decreases |es| - i
  {
    var texts := ItemTexts(st, indent, es);
    var r := Text(st, indent, es[i].1);
    if i == |es| - 1 {
      assert ListFrom(st, indent, es, i + 1) == Ok("]");
      if r.Ok? {
        assert texts[i..] == [r.value];
        assert ListFrom(st, indent, es, i) == Ok(r.value + "" + "]");
        assert r.value + "" == r.value;
      }
    } else {
      ListFromJoin(st, indent, es, i + 1);
      if r.Ok? {
        assert es[i].0 != IntK(|es| - 1);
        assert ListFrom(st, indent, es, i) == Encoder.Prepend(r.value + ",", ListFrom(st, indent, es, i + 1));
        assert texts[i..][1..] == texts[i + 1..];
        if ListFrom(st, indent, es, i + 1).Ok? {
          EncoderShape.JoinStep(r.value, Join(",", texts[i + 1..]));
        }
      }
    }
  }

  /**
   * `_serializeArray`: an array whose keys are 0 .. n-1 in order is `[`,
   * its items' texts at the same level joined by single commas, `]` (no
   * trailing comma, no whitespace); it fails exactly when an item does.
   */
  lemma ListLayout(st: Setup, indent: nat, es: seq<(Key, Value)>)
    requires Encoder.IsList(es)
    ensures Text(st, indent, Arr(es)).Ok? <==> forall k :: 0 <= k < |es| ==> Text(st, indent, es[k].1).Ok?
    ensures Text(st, indent, Arr(es)).Ok? ==>
      Text(st, indent, Arr(es)).value == "[" + Join(",", ItemTexts(st, indent, es)) + "]"
  {
    var texts := ItemTexts(st, indent, es);
    assert Text(st, indent, Arr(es)) == Encoder.Prepend("[", ListFrom(st, indent, es, 0));
    if es == [] {
      assert Join(",", texts) == "";
    } else {
      ListFromJoin(st, indent, es, 0);
      assert texts[0..] == texts;
    }
  }

  /** One step of the `_serializeHash` loop writes entry line i. */
  lemma HashFromStep(st: Setup, indent: nat, es: seq<(Key, Value)>, i: nat)
    requires i < |es| && Text(st, indent + 1, es[i].1).Ok?
    ensures HashFrom(st, indent, es, i) == Encoder.Prepend(HashLines(st, indent, es)[i], HashFrom(st, indent, es, i + 1))
  {
    var t := Text(st, indent + 1, es[i].1).value;
    assert TextOf(st, indent + 1, es[i].1) == t;
  }

  lemma {:induction false} HashFromOk(st: Setup, indent: nat, es: seq<(Key, Value)>, i: nat)
    requires i <= |es|
    ensures HashFrom(st, indent, es, i).Ok? <==> forall k :: i <= k < |es| ==> Text(st, indent + 1, es[k].1).Ok?
    decreases |es| - i
  {
    if i < |es| {
      HashFromOk(st, indent, es, i + 1);
      if Text(st, indent + 1, es[i].1).Ok? {
        HashFromStep(st, indent, es, i);
      }
    }
  }

  lemma {:induction false} HashFromConcat(st: Setup, indent: nat, es: seq<(Key, Value)>, i: nat)
    requires i <= |es| && HashFrom(st, indent, es, i).Ok?
    ensures HashFrom(st, indent, es, i).value == Concat(HashLines(st, indent, es)[i..]) + Ws(st.format, indent) + "}"
    decreases |es| - i
  {
    var lines := HashLines(st, indent, es);
    if i == |es| {
      assert lines[i..] == [];
    } else {
      HashFromOk(st, indent, es, i);
      HashFromStep(st, indent, es, i);
      HashFromConcat(st, indent, es, i + 1);
      EncoderShape.ConcatSuffix(lines, i);
      EncoderLayout.CloseAssoc(lines[i], Concat(lines[i + 1..]), Ws(st.format, indent));
    }
  }

  /**
   * `_serializeHash`: any other array opens with `{` and the `"#type":`
   * `"#hash"` line, then has one `,`-prefixed line per entry in iteration
   * order, then the closing line one level out; it fails exactly when an
   * entry does.
   */
  lemma HashLayout(st: Setup, indent: nat, es: seq<(Key, Value)>)
    requires !Encoder.IsList(es)
    ensures Text(st, indent, Arr(es)).Ok? <==> forall k :: 0 <= k < |es| ==> Text(st, indent + 1, es[k].1).Ok?
    ensures Text(st, indent, Arr(es)).Ok? ==>
      Text(st, indent, Arr(es)).value == HashHead(st, indent) + (Concat(HashLines(st, indent, es)) + Ws(st.format, indent) + "}")
  {
    assert Text(st, indent, Arr(es)) == Encoder.Prepend(HashHead(st, indent), HashFrom(st, indent, es, 0));
    HashFromOk(st, indent, es, 0);
    if HashFrom(st, indent, es, 0).Ok? {
      HashFromConcat(st, indent, es, 0);
    }
    assert HashLines(st, indent, es)[0..] == HashLines(st, indent, es);
  }

  /** The hash tag line: `"#type":`, the padding, `"#hash"`, after the opening brace and line break. */
  lemma HashHeadText(st: Setup, indent: nat)
    ensures HashHead(st, indent)
         == "{" + st.format.newline + Repeat(st.format.indentation, indent + 1) + "\"#type\":" + st.format.padding + "\"#hash\""
  {
  }

  /** One step of the property loop of `_serializeObject` writes property line i. */
  lemma ObjectFromStep(st: Setup, indent: nat, f: seq<(string, Value)>, table: PropTable, i: nat)
    requires i < |table| && Text(st, indent + 1, PropertyValue(f, table[i].1)).Ok?
    ensures ObjectFrom(st, indent, f, table, i)
         == Encoder.Prepend(PropertyLines(st, indent, f, table)[i], ObjectFrom(st, indent, f, table, i + 1))
  {
    var t := Text(st, indent + 1, PropertyValue(f, table[i].1)).value;
    assert TextOf(st, indent + 1, PropertyValue(f, table[i].1)) == t;
  }

  lemma {:induction false} ObjectFromOk(st: Setup, indent: nat, f: seq<(string, Value)>, table: PropTable, i: nat)
    requires i <= |table|
    ensures ObjectFrom(st, indent, f, table, i).Ok?
        <==> forall k :: i <= k < |table| ==> Text(st, indent + 1, PropertyValue(f, table[k].1)).Ok?
    decreases |table| - i
  {
    if i < |table| {
      ObjectFromOk(st, indent, f, table, i + 1);
      if Text(st, indent + 1, PropertyValue(f, table[i].1)).Ok? {
        ObjectFromStep(st, indent, f, table, i);
      }
    }
  }

  lemma {:induction false} ObjectFromConcat(st: Setup, indent: nat, f: seq<(string, Value)>, table: PropTable, i: nat)
    requires i <= |table| && ObjectFrom(st, indent, f, table, i).Ok?
    ensures ObjectFrom(st, indent, f, table, i).value
         == Concat(PropertyLines(st, indent, f, table)[i..]) + Ws(st.format, indent) + "}"
    decreases |table| - i
  {
    var lines := PropertyLines(st, indent, f, table);
    if i == |table| {
      assert lines[i..] == [];
    } else {
      ObjectFromOk(st, indent, f, table, i);
      ObjectFromStep(st, indent, f, table, i);
      ObjectFromConcat(st, indent, f, table, i + 1);
      EncoderShape.ConcatSuffix(lines, i);
      EncoderLayout.CloseAssoc(lines[i], Concat(lines[i + 1..]), Ws(st.format, indent));
    }
  }

  /**
   * `_serializeObject`: the class tag line, one `,`-prefixed line per
   * reflected property (a static one holding the class's value), the
   * closing line; it fails exactly when a property's text does, and an
   * object of a class reflection does not know is an error.
   */
  lemma ObjectLayout(st: Setup, indent: nat, cls: string, f: seq<(string, Value)>)
    ensures ClassDecls(st.classes, cls).None? ==> Text(st, indent, Obj(cls, f)) == Err(UnknownClass(cls))
    ensures ClassDecls(st.classes, cls).Some? ==>
      var table := LegacyTable(ClassDecls(st.classes, cls).value);
      (Text(st, indent, Obj(cls, f)).Ok? <==>
         forall k :: 0 <= k < |table| ==> Text(st, indent + 1, PropertyValue(f, table[k].1)).Ok?) &&
      (Text(st, indent, Obj(cls, f)).Ok? ==>
        Text(st, indent, Obj(cls, f)).value
        == ObjectHead(st, indent, cls) + (Concat(PropertyLines(st, indent, f, table)) + Ws(st.format, indent) + "}"))
  {
    assert Text(st, indent, Obj(cls, f)) == ObjectText(st, indent, cls, f);
    if ClassDecls(st.classes, cls).Some? {
      var table := LegacyTable(ClassDecls(st.classes, cls).value);
      var lines := PropertyLines(st, indent, f, table);
      assert ObjectText(st, indent, cls, f) == Encoder.Prepend(ObjectHead(st, indent, cls), ObjectFrom(st, indent, f, table, 0));
      ObjectFromOk(st, indent, f, table, 0);
      if ObjectFrom(st, indent, f, table, 0).Ok? {
        ObjectFromConcat(st, indent, f, table, 0);
        assert lines[0..] == lines;
      }
    }
  }
}
