/**
 * The encoder's text is its document laid out: `Text` equals `Render`
 * applied to `Wire`, for every value, format and nesting level, and on every
 * error path the two fail alike.
 */
module EncoderLayout {
  import opened Wrappers
  import opened PhpArrays
  import opened PhpValues
  import opened Reflection
  import opened JsonText
  import opened JsonTree
  import opened Settings
  import opened Encoder
  import opened WireFormat

  function RenderAll(fmt: Format, escape: Escaper, indent: nat, items: seq<Json>): (r: seq<string>)
    ensures |r| == |items|
  {
    seq(|items|, k requires 0 <= k < |items| => Render(fmt, escape, indent, items[k]))
  }

  /** The rest of a list from some item on: the items joined by commas, then `]`. */
  function ListTail(fmt: Format, escape: Escaper, indent: nat, r: Result<seq<Json>>): Result<string>
  {
    match r
    case Ok(items) => Ok(Join(",", RenderAll(fmt, escape, indent, items)) + "]")
    case Err(e) => Err(e)
  }

  /** Member line k of an object laid out at level `indent`. */
  function MemberLine(fmt: Format, escape: Escaper, indent: nat, m: (string, Json), k: nat): string
  {
    (if k == 0 then "" else ",") + Ws(fmt, indent + 1) + EncodedOrEmpty(escape, m.0) + ":"
    + fmt.padding + Render(fmt, escape, indent + 1, m.1)
  }

  function Members(fmt: Format, escape: Escaper, indent: nat, ms: seq<(string, Json)>, offset: nat): (r: seq<string>)
    ensures |r| == |ms|
  {
    seq(|ms|, k requires 0 <= k < |ms| => MemberLine(fmt, escape, indent, ms[k], k + offset))
  }

  /** The rest of an object from member `offset` on: its member lines, then the closing line. */
  function MembersTail(fmt: Format, escape: Escaper, indent: nat, r: Result<seq<(string, Json)>>, offset: nat)
    : Result<string>
  {
    match r
    case Ok(ms) => Ok(Concat(Members(fmt, escape, indent, ms, offset)) + Ws(fmt, indent) + "}")
    case Err(e) => Err(e)
  }

  lemma RenderArray(fmt: Format, escape: Escaper, indent: nat, items: seq<Json>)
    ensures Ok(Render(fmt, escape, indent, JArray(items))) == Prepend("[", ListTail(fmt, escape, indent, Ok(items)))
  {
    var parts := RenderAll(fmt, escape, indent, items);
    assert parts == seq(|items|, k requires 0 <= k < |items| => Render(fmt, escape, indent, items[k]));
    assert Render(fmt, escape, indent, JArray(items)) == "[" + Join(",", parts) + "]";
    assert "[" + Join(",", parts) + "]" == "[" + (Join(",", parts) + "]");
  }

  lemma RenderObject(fmt: Format, escape: Escaper, indent: nat, ms: seq<(string, Json)>)
    ensures Ok(Render(fmt, escape, indent, JObject(ms))) == Prepend("{", MembersTail(fmt, escape, indent, Ok(ms), 0))
  {
    RenderMembers(fmt, escape, indent, ms);
    OpenAssoc(Concat(Members(fmt, escape, indent, ms, 0)), Ws(fmt, indent));
  }

  lemma OpenAssoc(c: string, w: string)
    ensures "{" + c + (w + "}") == "{" + (c + w + "}")
  {
  }

  lemma RenderMembers(fmt: Format, escape: Escaper, indent: nat, ms: seq<(string, Json)>)
    ensures Render(fmt, escape, indent, JObject(ms)) == "{" + Concat(Members(fmt, escape, indent, ms, 0)) + (Ws(fmt, indent) + "}")
  {
    var lines := Members(fmt, escape, indent, ms, 0);
    var inline := seq(|ms|, k requires 0 <= k < |ms| =>
      (if k == 0 then "" else ",") + Ws(fmt, indent + 1) + EncodedOrEmpty(escape, ms[k].0) + ":"
      + fmt.padding + Render(fmt, escape, indent + 1, ms[k].1));
    assert lines == inline by {
      forall k | 0 <= k < |ms| ensures lines[k] == inline[k] {
        assert lines[k] == MemberLine(fmt, escape, indent, ms[k], k);
      }
    }
    var w := Ws(fmt, indent) + "}";
    assert Render(fmt, escape, indent, JObject(ms)) == "{" + Concat(inline) + Ws(fmt, indent) + "}";
    assert "{" + Concat(inline) + Ws(fmt, indent) + "}" == "{" + Concat(inline) + w;
  }

  lemma ListTailNil(fmt: Format, escape: Escaper, indent: nat)
    ensures ListTail(fmt, escape, indent, Ok([])) == Ok("]")
  {
    var none: seq<Json> := [];
    assert RenderAll(fmt, escape, indent, none) == [];
    assert Join(",", []) == "";
    assert "" + "]" == "]";
  }

  lemma ListTailCons(fmt: Format, escape: Escaper, indent: nat, j: Json, rest: seq<Json>)
    ensures ListTail(fmt, escape, indent, Ok([j] + rest)) ==
      Prepend(Render(fmt, escape, indent, j) + (if rest == [] then "" else ","), ListTail(fmt, escape, indent, Ok(rest)))
  {
    var parts := RenderAll(fmt, escape, indent, [j] + rest);
    var tail := RenderAll(fmt, escape, indent, rest);
    var head := Render(fmt, escape, indent, j);
    assert parts[0] == head;
    assert parts[1..] == tail;
    if rest == [] {
      assert tail == [];
      assert Join(",", parts) == head;
      assert Join(",", tail) == "";
      assert head + "]" == head + "" + ("" + "]");
    } else {
      assert Join(",", parts) == head + "," + Join(",", tail);
      assert Join(",", parts) + "]" == head + "," + (Join(",", tail) + "]");
    }
  }

  lemma MembersTailNil(fmt: Format, escape: Escaper, indent: nat, offset: nat)
    ensures MembersTail(fmt, escape, indent, Ok([]), offset) == Ok(Ws(fmt, indent) + "}")
  {
    var none: seq<(string, Json)> := [];
    assert Members(fmt, escape, indent, none, offset) == [];
    assert MembersTail(fmt, escape, indent, Ok(none), offset) == Ok(Concat([]) + Ws(fmt, indent) + "}");
    assert Concat([]) + Ws(fmt, indent) + "}" == Ws(fmt, indent) + "}";
  }

  lemma MembersTailCons(fmt: Format, escape: Escaper, indent: nat, m: (string, Json), rest: seq<(string, Json)>, offset: nat)
    ensures MembersTail(fmt, escape, indent, Ok([m] + rest), offset) ==
      Prepend(MemberLine(fmt, escape, indent, m, offset), MembersTail(fmt, escape, indent, Ok(rest), offset + 1))
  {
    var all := Members(fmt, escape, indent, [m] + rest, offset);
    var tail := Members(fmt, escape, indent, rest, offset + 1);
    MembersCons(fmt, escape, indent, m, rest, offset);
    ConcatHead(all, Ws(fmt, indent));
  }

  lemma MembersCons(fmt: Format, escape: Escaper, indent: nat, m: (string, Json), rest: seq<(string, Json)>, offset: nat)
    ensures var all := Members(fmt, escape, indent, [m] + rest, offset);
      all[0] == MemberLine(fmt, escape, indent, m, offset) && all[1..] == Members(fmt, escape, indent, rest, offset + 1)
  {
    var all := Members(fmt, escape, indent, [m] + rest, offset);
    var tail := Members(fmt, escape, indent, rest, offset + 1);
    assert all[1..] == tail by {
      forall k | 0 <= k < |tail| ensures all[1..][k] == tail[k] {
        assert ([m] + rest)[k + 1] == rest[k];
      }
    }
  }

  /** Splitting the first line off a concatenation followed by a closing line. */
  lemma ConcatHead(lines: seq<string>, w: string)
    requires |lines| > 0
    ensures Concat(lines) + w + "}" == lines[0] + (Concat(lines[1..]) + w + "}")
  {
    assert Concat(lines) == lines[0] + Concat(lines[1..]);
    CloseAssoc(lines[0], Concat(lines[1..]), w);
  }

  lemma CloseAssoc(a: string, c: string, w: string)
    ensures a + c + w + "}" == a + (c + w + "}")
  {
  }

  /** `_serialize` writes exactly the rendered document of the value, or fails with the same error. */
  lemma {:induction false} TextIsRenderedWire(cfg: Config, fuel: nat, indent: nat, v: Value)
    ensures Text(cfg, fuel, indent, v) == Rendered(cfg, indent, Wire(cfg, fuel, v))
    decreases fuel, Size(v), 2
  {
    match v
    case Arr(es) =>
      SizeUnfold(v);
      if IsList(es) {
        ListRendered(cfg, fuel, indent, es, 0);
        var w := WireItems(cfg, fuel, es, 0);
        assert Text(cfg, fuel, indent, v) == Prepend("[", ListFrom(cfg, fuel, indent, es, 0));
        if w.Ok? {
          assert Wire(cfg, fuel, v) == Ok(JArray(w.value));
          RenderArray(cfg.format, cfg.escape, indent, w.value);
        } else {
          assert Wire(cfg, fuel, v) == Err(w.error);
        }
      } else {
        HashRendered(cfg, fuel, indent, es, 0);
        var w := WireEntries(cfg, fuel, es, 0);
        assert Text(cfg, fuel, indent, v) == Prepend("{", HashFrom(cfg, fuel, indent, es, 0));
        if w.Ok? {
          assert Wire(cfg, fuel, v) == Ok(JObject(w.value));
          RenderObject(cfg.format, cfg.escape, indent, w.value);
        } else {
          assert Wire(cfg, fuel, v) == Err(w.error);
        }
      }
    case Obj(cls, f) =>
      SizeUnfold(v);
      assert Wire(cfg, fuel, v) == WireObject(cfg, fuel, cls, f);
      ObjectRendered(cfg, fuel, indent, cls, f);
    case _ =>
  }

  lemma {:induction false} ListRendered(cfg: Config, fuel: nat, indent: nat, es: seq<(Key, Value)>, i: nat)
    requires IsList(es) && i <= |es|
    ensures ListFrom(cfg, fuel, indent, es, i) == ListTail(cfg.format, cfg.escape, indent, WireItems(cfg, fuel, es, i))
    decreases fuel, EntriesSize(es) + 1, |es| - i
  {
    if i < |es| {
      EntrySmaller(es, i);
      TextIsRenderedWire(cfg, fuel, indent, es[i].1);
      ListRendered(cfg, fuel, indent, es, i + 1);
      if Wire(cfg, fuel, es[i].1).Ok? && WireItems(cfg, fuel, es, i + 1).Ok? {
        var j := Wire(cfg, fuel, es[i].1).value;
        var rest := WireItems(cfg, fuel, es, i + 1).value;
        assert WireItems(cfg, fuel, es, i) == Ok([j] + rest);
        ListTailCons(cfg.format, cfg.escape, indent, j, rest);
        assert (rest == []) == (es[i].0 == IntK(|es| - 1));
      }
    } else {
      assert WireItems(cfg, fuel, es, i) == Ok([]);
      ListTailNil(cfg.format, cfg.escape, indent);
    }
  }

  lemma {:induction false} HashRendered(cfg: Config, fuel: nat, indent: nat, es: seq<(Key, Value)>, i: nat)
    requires i <= |es|
    ensures HashFrom(cfg, fuel, indent, es, i) == MembersTail(cfg.format, cfg.escape, indent, WireEntries(cfg, fuel, es, i), i)
    decreases fuel, EntriesSize(es) + 1, |es| - i
  {
    if i < |es| {
      EntrySmaller(es, i);
      TextIsRenderedWire(cfg, fuel, indent + 1, es[i].1);
      HashRendered(cfg, fuel, indent, es, i + 1);
      if Wire(cfg, fuel, es[i].1).Ok? && WireEntries(cfg, fuel, es, i + 1).Ok? {
        var j := Wire(cfg, fuel, es[i].1).value;
        var rest := WireEntries(cfg, fuel, es, i + 1).value;
        assert WireEntries(cfg, fuel, es, i) == Ok([(KeyString(es[i].0), j)] + rest);
        MembersTailCons(cfg.format, cfg.escape, indent, (KeyString(es[i].0), j), rest, i);
      }
    } else {
      assert WireEntries(cfg, fuel, es, i) == Ok([]);
      MembersTailNil(cfg.format, cfg.escape, indent, i);
    }
  }

  lemma {:induction false} FieldsRendered(cfg: Config, fuel: nat, indent: nat, f: seq<(string, Value)>,
                                           table: PropTable, i: nat)
    requires i <= |table|
    ensures ObjectFrom(cfg, fuel, indent, f, table, i)
         == MembersTail(cfg.format, cfg.escape, indent, WireFields(cfg, fuel, f, table, i), i + 1)
    decreases fuel, EntriesSize(f) + 2, |table| - i
  {
    if i < |table| {
      var name := table[i].0;
      GetValueSize(f, name);
      TextIsRenderedWire(cfg, fuel, indent + 1, GetValue(f, name));
      FieldsRendered(cfg, fuel, indent, f, table, i + 1);
      if Wire(cfg, fuel, GetValue(f, name)).Ok? && WireFields(cfg, fuel, f, table, i + 1).Ok? {
        var j := Wire(cfg, fuel, GetValue(f, name)).value;
        var rest := WireFields(cfg, fuel, f, table, i + 1).value;
        assert WireFields(cfg, fuel, f, table, i) == Ok([(name, j)] + rest);
        MembersTailCons(cfg.format, cfg.escape, indent, (name, j), rest, i + 1);
      }
    } else {
      assert WireFields(cfg, fuel, f, table, i) == Ok([]);
      MembersTailNil(cfg.format, cfg.escape, indent, i + 1);
    }
  }

  lemma {:induction false} ObjectRendered(cfg: Config, fuel: nat, indent: nat, cls: string, f: seq<(string, Value)>)
    ensures cls == STD_CLASS ==> StdClassText(cfg, fuel, indent, f) == Rendered(cfg, indent, WireObject(cfg, fuel, cls, f))
    ensures cls != STD_CLASS ==> ObjectText(cfg, fuel, indent, cls, f) == Rendered(cfg, indent, WireObject(cfg, fuel, cls, f))
    decreases fuel, EntriesSize(f) + 4, 1
  {
    if cls == STD_CLASS {
      StdClassRendered(cfg, fuel, indent, f);
    } else if cls in cfg.serializers {
      if fuel > 0 {
        TextIsRenderedWire(cfg, fuel - 1, indent, cfg.serializers[cls].apply(Obj(cls, f)));
      }
    } else if ClassDecls(cfg.classes, cls).Some? {
      ClassRendered(cfg, fuel, indent, cls, f);
    }
  }

  lemma {:induction false} StdClassRendered(cfg: Config, fuel: nat, indent: nat, f: seq<(string, Value)>)
    ensures StdClassText(cfg, fuel, indent, f) == Rendered(cfg, indent, WireObject(cfg, fuel, STD_CLASS, f))
    decreases fuel, EntriesSize(f) + 4, 0
  {
    var h := StdClassHash(f);
    HashRendered(cfg, fuel, indent, h, 0);
    var w := WireEntries(cfg, fuel, h, 0);
    if w.Ok? {
      assert WireObject(cfg, fuel, STD_CLASS, f) == Ok(JObject(w.value));
      RenderObject(cfg.format, cfg.escape, indent, w.value);
    } else {
      assert WireObject(cfg, fuel, STD_CLASS, f) == Err(w.error);
    }
  }

  lemma {:induction false} ClassRendered(cfg: Config, fuel: nat, indent: nat, cls: string, f: seq<(string, Value)>)
    requires cls != STD_CLASS && cls !in cfg.serializers && ClassDecls(cfg.classes, cls).Some?
    ensures ObjectText(cfg, fuel, indent, cls, f) == Rendered(cfg, indent, WireObject(cfg, fuel, cls, f))
    decreases fuel, EntriesSize(f) + 4, 0
  {
    var fmt, esc := cfg.format, cfg.escape;
    var table := PropertyTable(ClassDecls(cfg.classes, cls).value, cfg.skipPrivate);
    var head := "{" + Ws(fmt, indent + 1) + "\"" + TYPE + "\":" + fmt.padding + EncodedOrEmpty(esc, cls);
    var w := WireFields(cfg, fuel, f, table, 0);
    assert ObjectText(cfg, fuel, indent, cls, f) == Prepend(head, ObjectFrom(cfg, fuel, indent, f, table, 0));
    assert WireObject(cfg, fuel, cls, f) == (match w case Ok(ms) => Ok(JObject([(TYPE, JStr(cls))] + ms)) case Err(e) => Err(e));
    TaggedRendered(cfg, fuel, indent, cls, f, table);
  }

  lemma {:induction false} TaggedRendered(cfg: Config, fuel: nat, indent: nat, cls: string, f: seq<(string, Value)>,
                                           table: PropTable)
    ensures
      var head := "{" + Ws(cfg.format, indent + 1) + "\"" + TYPE + "\":" + cfg.format.padding + EncodedOrEmpty(cfg.escape, cls);
      Prepend(head, ObjectFrom(cfg, fuel, indent, f, table, 0))
      == Rendered(cfg, indent, match WireFields(cfg, fuel, f, table, 0)
                               case Ok(ms) => Ok(JObject([(TYPE, JStr(cls))] + ms))
                               case Err(e) => Err(e))
    decreases fuel, EntriesSize(f) + 3, 0
  {
    FieldsRendered(cfg, fuel, indent, f, table, 0);
    var w := WireFields(cfg, fuel, f, table, 0);
    if w.Ok? {
      TaggedMembers(cfg.format, cfg.escape, indent, cls, w.value);
    }
  }

  /** An object rendered with its tag first is the tag line followed by the remaining members. */
  lemma TaggedMembers(fmt: Format, escape: Escaper, indent: nat, cls: string, ms: seq<(string, Json)>)
    ensures var head := "{" + Ws(fmt, indent + 1) + "\"" + TYPE + "\":" + fmt.padding + EncodedOrEmpty(escape, cls);
      Prepend(head, MembersTail(fmt, escape, indent, Ok(ms), 1))
      == Ok(Render(fmt, escape, indent, JObject([(TYPE, JStr(cls))] + ms)))
  {
    var line := MemberLine(fmt, escape, indent, (TYPE, JStr(cls)), 0);
    RenderObject(fmt, escape, indent, [(TYPE, JStr(cls))] + ms);
    MembersTailCons(fmt, escape, indent, (TYPE, JStr(cls)), ms, 0);
    TypeLine(fmt, escape, indent, cls);
    PrependPrepend("{", line, MembersTail(fmt, escape, indent, Ok(ms), 1));
  }

  lemma PrependPrepend(a: string, b: string, r: Result<string>)
    ensures Prepend(a, Prepend(b, r)) == Prepend(a + b, r)
  {
    if r.Ok? {
      assert a + (b + r.value) == a + b + r.value;
    }
  }

  /** The tag line written by `_serializeObject` is the first member line of the rendered object. */
  lemma TypeLine(fmt: Format, escape: Escaper, indent: nat, cls: string)
    ensures "{" + Ws(fmt, indent + 1) + "\"" + TYPE + "\":" + fmt.padding + EncodedOrEmpty(escape, cls)
         == "{" + MemberLine(fmt, escape, indent, (TYPE, JStr(cls)), 0)
  {
    var q := "\"" + TYPE + "\"";
    assert EncodedOrEmpty(escape, TYPE) == q by {
      assert Plain(TYPE);
    }
    Regroup(Ws(fmt, indent + 1), fmt.padding, EncodedOrEmpty(escape, cls));
  }

  /** The same concatenation, grouped as `_serializeObject` writes it and as a member line. */
  lemma Regroup(w: string, p: string, c: string)
    ensures "{" + w + "\"" + TYPE + "\":" + p + c == "{" + ("" + w + ("\"" + TYPE + "\"") + ":" + p + c)
  {
    var t := TYPE;
    assert "\":" == "\"" + ":";
    calc {
      "{" + w + "\"" + t + "\":" + p + c;
      "{" + (w + ("\"" + t + "\"") + ":" + p + c);
      "{" + ("" + w + ("\"" + t + "\"") + ":" + p + c);
    }
  }
}
