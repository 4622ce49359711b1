/**
 * The shape of the current revision's output, stated on the encoder itself:
 * which values become lists and which objects, the exact text of a list, a
 * hash and a declared object, delegation to a registered serializer, and
 * the compact format.
 */
module EncoderShape {
  import opened Wrappers
  import opened PhpArrays
  import opened Numerals
  import opened PhpValues
  import opened Reflection
  import opened JsonText
  import opened JsonTree
  import opened Settings
  import opened Encoder
  import opened WireFormat
  import opened EncoderLayout

  /** The text of a value, or "" where encoding fails. */
  function TextOf(cfg: Config, fuel: nat, indent: nat, v: Value): string
  {
    match Text(cfg, fuel, indent, v)
    case Ok(t) => t
    case Err(_) => ""
  }

  /** The document of a value, or null where encoding fails. */
  function WireOf(cfg: Config, fuel: nat, v: Value): Json
  {
    match Wire(cfg, fuel, v)
    case Ok(j) => j
    case Err(_) => JNull
  }

  /** The item texts of a list, each at the list's own level. */
  function ItemTexts(cfg: Config, fuel: nat, indent: nat, es: seq<(Key, Value)>): (r: seq<string>)
    ensures |r| == |es|
  {
    seq(|es|, k requires 0 <= k < |es| => TextOf(cfg, fuel, indent, es[k].1))
  }

  /** The entry lines of a hash: a comma before all but the first, each on its own line one level in. */
  function HashLines(cfg: Config, fuel: nat, indent: nat, es: seq<(Key, Value)>): (r: seq<string>)
    ensures |r| == |es|
  {
    seq(|es|, k requires 0 <= k < |es| =>
      (if k == 0 then "" else ",") + Ws(cfg.format, indent + 1) + KeyLiteral(cfg.escape, es[k].0) + ":"
      + cfg.format.padding + TextOf(cfg, fuel, indent + 1, es[k].1))
  }

  /** The property lines of a declared object: one `,`-prefixed line per table entry, in table order. */
  function PropertyLines(cfg: Config, fuel: nat, indent: nat, f: seq<(string, Value)>, table: PropTable): (r: seq<string>)
    ensures |r| == |table|
  {
    seq(|table|, k requires 0 <= k < |table| => PropertyLine(cfg, fuel, indent, f, table[k].0))
  }

  /** The line `_serializeObject` writes for property `name`. */
  function PropertyLine(cfg: Config, fuel: nat, indent: nat, f: seq<(string, Value)>, name: string): string
  {
    "," + Ws(cfg.format, indent + 1) + EncodedOrEmpty(cfg.escape, name) + ":"
    + cfg.format.padding + TextOf(cfg, fuel, indent + 1, GetValue(f, name))
  }

  /** The opening of a declared object: `{`, then the class tag on its own line. */
  function ObjectHead(cfg: Config, indent: nat, cls: string): string
  {
    "{" + Ws(cfg.format, indent + 1) + "\"" + TYPE + "\":" + cfg.format.padding + EncodedOrEmpty(cfg.escape, cls)
  }

  lemma JoinStep(t: string, j: string)
    ensures t + "," + (j + "]") == t + "," + j + "]"
  {
  }

  lemma {:induction false} ListFromJoin(cfg: Config, fuel: nat, indent: nat, es: seq<(Key, Value)>, i: nat)
    requires IsList(es) && i < |es|
    ensures ListFrom(cfg, fuel, indent, es, i).Ok? <==> forall k :: i <= k < |es| ==> Text(cfg, fuel, indent, es[k].1).Ok?
    ensures ListFrom(cfg, fuel, indent, es, i).Ok? ==>
      ListFrom(cfg, fuel, indent, es, i).value == Join(",", ItemTexts(cfg, fuel, indent, es)[i..]) + "]"
    decreases |es| - i
  {
    var texts := ItemTexts(cfg, fuel, indent, es);
    var r := Text(cfg, fuel, indent, es[i].1);
    if i == |es| - 1 {
      assert ListFrom(cfg, fuel, indent, es, i + 1) == Ok("]");
      if r.Ok? {
        assert texts[i..] == [r.value];
        assert ListFrom(cfg, fuel, indent, es, i) == Ok(r.value + "" + "]");
        assert r.value + "" == r.value;
      }
    } else {
      ListFromJoin(cfg, fuel, indent, es, i + 1);
      if r.Ok? {
        assert es[i].0 != IntK(|es| - 1);
        assert ListFrom(cfg, fuel, indent, es, i) == Prepend(r.value + ",", ListFrom(cfg, fuel, indent, es, i + 1));
        assert texts[i..][1..] == texts[i + 1..];
        if ListFrom(cfg, fuel, indent, es, i + 1).Ok? {
          JoinStep(r.value, Join(",", texts[i + 1..]));
        }
      }
    }
  }

  /**
   * `_serializeArray`: a list is `[`, its items' texts at the same level
   * joined by single commas, `]`; it fails exactly when an item does.
   */
  lemma ListLayout(cfg: Config, fuel: nat, indent: nat, es: seq<(Key, Value)>)
    requires IsList(es)
    ensures Text(cfg, fuel, indent, Arr(es)).Ok? <==> forall k :: 0 <= k < |es| ==> Text(cfg, fuel, indent, es[k].1).Ok?
    ensures Text(cfg, fuel, indent, Arr(es)).Ok? ==>
      Text(cfg, fuel, indent, Arr(es)).value == "[" + Join(",", ItemTexts(cfg, fuel, indent, es)) + "]"
  {
    var texts := ItemTexts(cfg, fuel, indent, es);
    assert Text(cfg, fuel, indent, Arr(es)) == Prepend("[", ListFrom(cfg, fuel, indent, es, 0));
    if es == [] {
      assert Join(",", texts) == "";
    } else {
      ListFromJoin(cfg, fuel, indent, es, 0);
      assert texts[0..] == texts;
    }
  }

  /** A list of n items carries exactly n - 1 commas of its own. */
  lemma ListCommas(cfg: Config, fuel: nat, indent: nat, es: seq<(Key, Value)>)
    requires IsList(es) && |es| > 0 && Text(cfg, fuel, indent, Arr(es)).Ok?
    ensures |Text(cfg, fuel, indent, Arr(es)).value| == 2 + |Concat(ItemTexts(cfg, fuel, indent, es))| + (|es| - 1)
  {
    ListLayout(cfg, fuel, indent, es);
    JoinLength(",", ItemTexts(cfg, fuel, indent, es));
  }

  /** One step of the `_serializeHash` loop writes entry line i. */
  lemma HashFromStep(cfg: Config, fuel: nat, indent: nat, es: seq<(Key, Value)>, i: nat)
    requires i < |es| && Text(cfg, fuel, indent + 1, es[i].1).Ok?
    ensures HashFrom(cfg, fuel, indent, es, i) == Prepend(HashLines(cfg, fuel, indent, es)[i], HashFrom(cfg, fuel, indent, es, i + 1))
  {
    var t := Text(cfg, fuel, indent + 1, es[i].1).value;
    assert TextOf(cfg, fuel, indent + 1, es[i].1) == t;
  }

  lemma {:induction false} HashFromOk(cfg: Config, fuel: nat, indent: nat, es: seq<(Key, Value)>, i: nat)
    requires i <= |es|
    ensures HashFrom(cfg, fuel, indent, es, i).Ok? <==> forall k :: i <= k < |es| ==> Text(cfg, fuel, indent + 1, es[k].1).Ok?
    decreases |es| - i
  {
    if i < |es| {
      HashFromOk(cfg, fuel, indent, es, i + 1);
      if Text(cfg, fuel, indent + 1, es[i].1).Ok? {
        HashFromStep(cfg, fuel, indent, es, i);
      }
    }
  }

  lemma {:induction false} HashFromConcat(cfg: Config, fuel: nat, indent: nat, es: seq<(Key, Value)>, i: nat)
    requires i <= |es| && HashFrom(cfg, fuel, indent, es, i).Ok?
    ensures HashFrom(cfg, fuel, indent, es, i).value
         == Concat(HashLines(cfg, fuel, indent, es)[i..]) + Ws(cfg.format, indent) + "}"
    decreases |es| - i
  {
    var lines := HashLines(cfg, fuel, indent, es);
    if i == |es| {
      assert lines[i..] == [];
    } else {
      HashFromOk(cfg, fuel, indent, es, i);
      HashFromStep(cfg, fuel, indent, es, i);
      HashFromConcat(cfg, fuel, indent, es, i + 1);
      ConcatSuffix(lines, i);
      CloseAssoc(lines[i], Concat(lines[i + 1..]), Ws(cfg.format, indent));
    }
  }

  lemma ConcatSuffix(lines: seq<string>, i: nat)
    requires i < |lines|
    ensures Concat(lines[i..]) == lines[i] + Concat(lines[i + 1..])
  {
    assert lines[i..][1..] == lines[i + 1..];
  }

  /**
   * `_serializeHash`: any other array is `{`, one line per entry in
   * iteration order (exactly |es| of them, so no tag is added), the closing
   * line one level out.
   */
  lemma HashLayout(cfg: Config, fuel: nat, indent: nat, es: seq<(Key, Value)>)
    requires !IsList(es)
    ensures Text(cfg, fuel, indent, Arr(es)).Ok? <==> forall k :: 0 <= k < |es| ==> Text(cfg, fuel, indent + 1, es[k].1).Ok?
    ensures Text(cfg, fuel, indent, Arr(es)).Ok? ==>
      Text(cfg, fuel, indent, Arr(es)).value
      == "{" + (Concat(HashLines(cfg, fuel, indent, es)) + Ws(cfg.format, indent) + "}")
  {
    assert Text(cfg, fuel, indent, Arr(es)) == Prepend("{", HashFrom(cfg, fuel, indent, es, 0));
    HashFromOk(cfg, fuel, indent, es, 0);
    if HashFrom(cfg, fuel, indent, es, 0).Ok? {
      HashFromConcat(cfg, fuel, indent, es, 0);
    }
    assert HashLines(cfg, fuel, indent, es)[0..] == HashLines(cfg, fuel, indent, es);
  }

  /** One step of the property loop of `_serializeObject` writes property line i. */
  lemma ObjectFromStep(cfg: Config, fuel: nat, indent: nat, f: seq<(string, Value)>, table: PropTable, i: nat)
    requires i < |table| && Text(cfg, fuel, indent + 1, GetValue(f, table[i].0)).Ok?
    ensures ObjectFrom(cfg, fuel, indent, f, table, i)
         == Prepend(PropertyLines(cfg, fuel, indent, f, table)[i], ObjectFrom(cfg, fuel, indent, f, table, i + 1))
  {
    var t := Text(cfg, fuel, indent + 1, GetValue(f, table[i].0)).value;
    assert TextOf(cfg, fuel, indent + 1, GetValue(f, table[i].0)) == t;
  }

  /** The property loop of `_serializeObject` succeeds from entry i on exactly when entry i and the rest do. */
  lemma ObjectFromOkStep(cfg: Config, fuel: nat, indent: nat, f: seq<(string, Value)>, table: PropTable, i: nat)
    requires i < |table|
    ensures ObjectFrom(cfg, fuel, indent, f, table, i).Ok?
        <==> Text(cfg, fuel, indent + 1, GetValue(f, table[i].0)).Ok? && ObjectFrom(cfg, fuel, indent, f, table, i + 1).Ok?
  {
  }

  lemma {:induction false} ObjectFromConcat(cfg: Config, fuel: nat, indent: nat, f: seq<(string, Value)>, table: PropTable, i: nat)
    requires i <= |table| && ObjectFrom(cfg, fuel, indent, f, table, i).Ok?
    ensures ObjectFrom(cfg, fuel, indent, f, table, i).value
         == Concat(PropertyLines(cfg, fuel, indent, f, table)[i..]) + Ws(cfg.format, indent) + "}"
    decreases |table| - i
  {
    if i == |table| {
      assert PropertyLines(cfg, fuel, indent, f, table)[i..] == [];
    } else {
      ObjectFromOkStep(cfg, fuel, indent, f, table, i);
      ObjectFromConcat(cfg, fuel, indent, f, table, i + 1);
      ObjectFromLine(cfg, fuel, indent, f, table, i);
    }
  }

  lemma ObjectFromLine(cfg: Config, fuel: nat, indent: nat, f: seq<(string, Value)>, table: PropTable, i: nat)
    requires i < |table| && ObjectFrom(cfg, fuel, indent, f, table, i).Ok?
    requires ObjectFrom(cfg, fuel, indent, f, table, i + 1).Ok?
    requires ObjectFrom(cfg, fuel, indent, f, table, i + 1).value
          == Concat(PropertyLines(cfg, fuel, indent, f, table)[i + 1..]) + Ws(cfg.format, indent) + "}"
    ensures ObjectFrom(cfg, fuel, indent, f, table, i).value
         == Concat(PropertyLines(cfg, fuel, indent, f, table)[i..]) + Ws(cfg.format, indent) + "}"
  {
    var lines := PropertyLines(cfg, fuel, indent, f, table);
    ObjectFromOkStep(cfg, fuel, indent, f, table, i);
    ObjectFromStep(cfg, fuel, indent, f, table, i);
    ConcatSuffix(lines, i);
    CloseAssoc(lines[i], Concat(lines[i + 1..]), Ws(cfg.format, indent));
  }

  /**
   * `_serializeObject` for a declared class with no registered serializer:
   * the tag line, one line per property-table entry in table order, the
   * closing line.
   */
  lemma ObjectLayout(cfg: Config, fuel: nat, indent: nat, cls: string, f: seq<(string, Value)>, decls: seq<PropDecl>)
    requires cls != STD_CLASS && cls !in cfg.serializers && ClassDecls(cfg.classes, cls) == Some(decls)
    ensures var table := PropertyTable(decls, cfg.skipPrivate);
      Text(cfg, fuel, indent, Obj(cls, f)).Ok? ==>
        Text(cfg, fuel, indent, Obj(cls, f)).value
        == ObjectHead(cfg, indent, cls) + (Concat(PropertyLines(cfg, fuel, indent, f, table)) + Ws(cfg.format, indent) + "}")
  {
    var table := PropertyTable(decls, cfg.skipPrivate);
    var lines := PropertyLines(cfg, fuel, indent, f, table);
    assert Text(cfg, fuel, indent, Obj(cls, f)) == ObjectText(cfg, fuel, indent, cls, f);
    assert ObjectText(cfg, fuel, indent, cls, f)
        == Prepend(ObjectHead(cfg, indent, cls), ObjectFrom(cfg, fuel, indent, f, table, 0));
    if ObjectFrom(cfg, fuel, indent, f, table, 0).Ok? {
      ObjectFromConcat(cfg, fuel, indent, f, table, 0);
      assert lines[0..] == lines;
    }
  }

  /**
   * A registered serializer replaces a non-`stdClass` object by its result,
   * which is encoded in its place at the same level; for `stdClass`, which
   * `_serialize` sends to `_serializeStdClass` first, a registration is ignored.
   */
  lemma SerializerDelegation(cfg: Config, fuel: nat, indent: nat, cls: string, f: seq<(string, Value)>)
    requires cls in cfg.serializers
    ensures cls != STD_CLASS && fuel > 0 ==>
      Text(cfg, fuel, indent, Obj(cls, f)) == Text(cfg, fuel - 1, indent, cfg.serializers[cls].apply(Obj(cls, f)))
    ensures cls != STD_CLASS && fuel == 0 ==> Text(cfg, fuel, indent, Obj(cls, f)) == Err(CodecNesting)
    ensures cls == STD_CLASS ==> Text(cfg, fuel, indent, Obj(cls, f)) == StdClassText(cfg, fuel, indent, f)
  {
  }

  /** The formats `__construct` chooses: compact adds no whitespace, pretty indents by two spaces. */
  lemma FormatWhitespace(level: nat)
    ensures Ws(Compact, level) == "" && Compact.padding == ""
    ensures Ws(Pretty, level) == "\n" + Repeat("  ", level) && |Ws(Pretty, level)| == 1 + 2 * level
  {
  }

  /** In compact mode the output is standard compact JSON of the value's document: no whitespace is added anywhere. */
  lemma CompactOutput(cfg: Config, fuel: nat, indent: nat, v: Value)
    requires cfg.format == Compact
    ensures Text(cfg, fuel, indent, v).Ok? <==> Wire(cfg, fuel, v).Ok?
    ensures Text(cfg, fuel, indent, v).Ok? ==> Text(cfg, fuel, indent, v).value == CompactText(cfg.escape, Wire(cfg, fuel, v).value)
  {
    TextIsRenderedWire(cfg, fuel, indent, v);
    if Wire(cfg, fuel, v).Ok? {
      RenderCompact(cfg.escape, indent, Wire(cfg, fuel, v).value);
    }
  }

  /** Scalars: null is `null`, an int its decimal text, and a string `json_encode` rejects is an error, not coerced. */
  lemma ScalarText(cfg: Config, fuel: nat, indent: nat, s: string, i: int)
    ensures Text(cfg, fuel, indent, Null) == Ok("null")
    ensures Text(cfg, fuel, indent, Int(i)) == Ok(Decimal(i))
    ensures Text(cfg, fuel, indent, Str(s)).Err? <==> JsonString(cfg.escape, s).None?
    ensures JsonString(cfg.escape, s).None? ==> Text(cfg, fuel, indent, Str(s)) == Err(MalformedString(s))
  {
  }
}
