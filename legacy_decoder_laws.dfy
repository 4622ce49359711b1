/** What the older revision's decoder promises, proved of its definition. */
module LegacyDecoderLaws {
  import opened Wrappers
  import opened PhpArrays
  import opened PhpValues
  import opened Reflection
  import opened LegacyEncoder
  import opened LegacyDecoder
  import Encoder

  /**
   * `_unserialize` dispatches on the data alone: a non-array comes back
   * unchanged, an untagged array is read as a list, the `#hash` tag routes
   * to hash decode and any other tag to object decode.
   */
  lemma DecodeDispatch(st: Setup, data: Value)
    ensures !data.Arr? ==> Decode(st, data) == Ok(data)
    ensures data.Arr? && !HasKey(data.entries, TypeKey) ==> Decode(st, data) == ArrayDecode(st, data.entries)
    ensures data.Arr? && Lookup(data.entries, TypeKey) == Some(Str(HASH)) ==> Decode(st, data) == HashDecode(st, data.entries)
    ensures data.Arr? && HasKey(data.entries, TypeKey) && Lookup(data.entries, TypeKey) != Some(Str(HASH)) ==>
      Decode(st, data) == ObjectDecode(st, data.entries, Lookup(data.entries, TypeKey).value)
  {
  }

  // ---------------------------------------------------------------------------
  // Lists: `_unserializeArray` reads positions 0 .. count($data) - 1.

  /** Every position of the data decodes without error. */
  predicate ItemsDecode(st: Setup, es: seq<(Key, Value)>)
  {
    forall j :: 0 <= j < |es| ==> Decode(st, At(es, j)).Ok?
  }

  /** Every position from i on decodes without error, as the loop meets them. */
  predicate ItemsDecodeFrom(st: Setup, es: seq<(Key, Value)>, i: nat)
    decreases |es| - i
  {
    i >= |es| || (Decode(st, At(es, i)).Ok? && ItemsDecodeFrom(st, es, i + 1))
  }

  lemma {:induction false} ItemsDecodeFromAll(st: Setup, es: seq<(Key, Value)>, i: nat)
    requires i <= |es|
    ensures ItemsDecodeFrom(st, es, i) <==> forall j :: i <= j < |es| ==> Decode(st, At(es, j)).Ok?
    decreases |es| - i
  {
    if i < |es| {
      ItemsDecodeFromAll(st, es, i + 1);
      assert ItemsDecodeFrom(st, es, i) == (Decode(st, At(es, i)).Ok? && ItemsDecodeFrom(st, es, i + 1));
    }
  }

  /** The list `_unserializeArray` builds: one item per entry of the data, item j being position j decoded. */
  function Items(st: Setup, es: seq<(Key, Value)>): (d: seq<(Key, Value)>)
    requires ItemsDecode(st, es)
    ensures |d| == |es|
    ensures forall j :: 0 <= j < |es| ==> d[j] == (IntK(j), Decode(st, At(es, j)).value)
  {
    seq(|es|, j requires 0 <= j < |es| => (IntK(j), Decode(st, At(es, j)).value))
  }

  lemma {:induction false} ItemsFromOk(st: Setup, es: seq<(Key, Value)>, i: nat, acc: seq<(Key, Value)>)
    requires i <= |es|
    ensures ItemsFrom(st, es, i, acc).Ok? <==> ItemsDecodeFrom(st, es, i)
    decreases |es| - i
  {
    if i < |es| {
      var r := Decode(st, At(es, i));
      if r.Ok? {
        ItemsStep(st, es, i, acc, r.value);
        ItemsFromOk(st, es, i + 1, acc + [(IntK(i), r.value)]);
      } else {
        ItemsFail(st, es, i, acc, r.error);
      }
    }
  }

  lemma {:induction false} ItemsFromValue(st: Setup, es: seq<(Key, Value)>, i: nat)
    requires i <= |es| && ItemsDecode(st, es)
    ensures ItemsFrom(st, es, i, Items(st, es)[..i]) == Ok(Items(st, es))
    decreases |es| - i
  {
    var d := Items(st, es);
    if i == |es| {
      assert d[..i] == d;
    } else {
      assert d[..i] + [d[i]] == d[..i + 1];
      ItemsFromValue(st, es, i + 1);
    }
  }

  /**
   * `_unserializeArray` on untagged data succeeds exactly when every
   * position decodes, and then yields a list of count($data) items, item j
   * under key j holding the decode of `$data[j]` (null where the data has
   * no key j): 0-based and contiguous whatever keys the data had.
   */
  lemma ListDecodeSpec(st: Setup, es: seq<(Key, Value)>)
    requires !HasKey(es, TypeKey)
    ensures Decode(st, Arr(es)).Ok? <==> ItemsDecode(st, es)
    ensures Decode(st, Arr(es)).Ok? ==>
      Decode(st, Arr(es)) == Ok(Arr(Items(st, es))) && Encoder.IsList(Items(st, es))
  {
    assert Decode(st, Arr(es)) == ArrayDecode(st, es);
    ItemsFromOk(st, es, 0, []);
    ItemsDecodeFromAll(st, es, 0);
    assert ItemsDecodeFrom(st, es, 0) <==> forall j :: 0 <= j < |es| ==> Decode(st, At(es, j)).Ok?;
    if ItemsDecode(st, es) {
      ItemsFromValue(st, es, 0);
      assert Items(st, es)[..0] == [];
    }
  }

  // ---------------------------------------------------------------------------
  // Hashes: `_unserializeHash` drops the tag and keeps the rest.

  /** Every entry decodes without error. */
  predicate DecodesAll(st: Setup, es: seq<(Key, Value)>)
  {
    forall j :: 0 <= j < |es| ==> Decode(st, es[j].1).Ok?
  }

  /** The entries with each value decoded, keys kept. */
  function Decoded(st: Setup, es: seq<(Key, Value)>): (d: seq<(Key, Value)>)
    requires DecodesAll(st, es)
    ensures |d| == |es|
    ensures forall j :: 0 <= j < |es| ==> d[j] == (es[j].0, Decode(st, es[j].1).value)
  {
    seq(|es|, j requires 0 <= j < |es| => (es[j].0, Decode(st, es[j].1).value))
  }

  /** Every entry from i on other than the tag decodes without error. */
  predicate UntaggedDecodeFrom(st: Setup, es: seq<(Key, Value)>, i: nat)
  {
    forall j :: i <= j < |es| && es[j].0 != TypeKey ==> Decode(st, es[j].1).Ok?
  }

  lemma {:induction false} HashEntriesOk(st: Setup, es: seq<(Key, Value)>, i: nat, acc: seq<(Key, Value)>)
    requires i <= |es|
    ensures HashEntriesFrom(st, es, i, acc).Ok? <==> UntaggedDecodeFrom(st, es, i)
    decreases |es| - i
  {
    if i < |es| {
      if es[i].0 == TypeKey {
        HashEntriesOk(st, es, i + 1, acc);
      } else if Decode(st, es[i].1).Ok? {
        HashEntriesOk(st, es, i + 1, Put(acc, es[i].0, Decode(st, es[i].1).value));
      }
    }
  }

  /** The untagged entries decode exactly when the entries of the array with the tag unset do. */
  lemma UntaggedIsRemoved(st: Setup, es: seq<(Key, Value)>)
    ensures UntaggedDecodeFrom(st, es, 0) <==> DecodesAll(st, Remove(es, TypeKey))
  {
    var rest := Remove(es, TypeKey);
    RemoveMembers(es, TypeKey);
    if UntaggedDecodeFrom(st, es, 0) {
      forall j | 0 <= j < |rest| ensures Decode(st, rest[j].1).Ok? {
        assert rest[j] in rest;
        var m :| 0 <= m < |es| && es[m] == rest[j];
      }
    }
    if DecodesAll(st, rest) {
      forall j | 0 <= j < |es| && es[j].0 != TypeKey ensures Decode(st, es[j].1).Ok? {
        assert es[j] in rest;
        var m :| 0 <= m < |rest| && rest[m] == es[j];
      }
    }
  }

  lemma {:induction false} HashEntriesValue(st: Setup, es: seq<(Key, Value)>, i: nat)
    requires i <= |es| && UniqueKeys(es) && DecodesAll(st, Remove(es, TypeKey))
    ensures DecodesAll(st, Remove(es[..i], TypeKey))
    ensures HashEntriesFrom(st, es, i, Decoded(st, Remove(es[..i], TypeKey))) == Ok(Decoded(st, Remove(es, TypeKey)))
    decreases |es| - i
  {
    RemovedPrefixDecodes(st, es, i);
    if i == |es| {
      assert es[..i] == es;
    } else {
      var acc := Decoded(st, Remove(es[..i], TypeKey));
      HashEntriesValue(st, es, i + 1);
      if es[i].0 == TypeKey {
        RemovePrefixKey(es, TypeKey, i);
        EntryTagSkipped(st, es, i, acc);
      } else {
        RemovePrefixOther(es, TypeKey, i);
        RemovedLacksNext(es, TypeKey, i);
        UntaggedEntryDecodes(st, es, i);
        var x := Decode(st, es[i].1).value;
        DecodedSnoc(st, Remove(es[..i], TypeKey), es[i]);
        EntryStep(st, es, i, acc, x);
      }
    }
  }

  /** The untagged entries of a prefix decode when those of the whole array do. */
  lemma RemovedPrefixDecodes(st: Setup, es: seq<(Key, Value)>, i: nat)
    requires i <= |es| && DecodesAll(st, Remove(es, TypeKey))
    ensures DecodesAll(st, Remove(es[..i], TypeKey))
  {
    var r := Remove(es[..i], TypeKey);
    forall j | 0 <= j < |r| ensures Decode(st, r[j].1).Ok? {
      var m := RemovePrefixEntry(es, TypeKey, i, j);
    }
  }

  /** An entry other than the tag decodes when all the untagged entries do. */
  lemma UntaggedEntryDecodes(st: Setup, es: seq<(Key, Value)>, i: nat)
    requires i < |es| && es[i].0 != TypeKey && DecodesAll(st, Remove(es, TypeKey))
    ensures Decode(st, es[i].1).Ok?
  {
    RemoveMembers(es, TypeKey);
    assert es[i] in Remove(es, TypeKey);
    var m :| 0 <= m < |Remove(es, TypeKey)| && Remove(es, TypeKey)[m] == es[i];
  }

  /** Decoding the entries of an array extended by one entry. */
  lemma DecodedSnoc(st: Setup, a: seq<(Key, Value)>, e: (Key, Value))
    requires DecodesAll(st, a) && Decode(st, e.1).Ok? && !HasKey(Decoded(st, a), e.0)
    ensures DecodesAll(st, a + [e])
    ensures Put(Decoded(st, a), e.0, Decode(st, e.1).value) == Decoded(st, a + [e])
  {
    assert forall j :: 0 <= j < |a| ==> (a + [e])[j] == a[j];
  }

  /**
   * `_unserializeHash`: for `#hash`-tagged data with distinct keys, decode
   * succeeds exactly when every entry other than the tag does, and yields
   * the data with exactly the `#type` entry dropped and every other entry,
   * in order and under its key, decoded.
   */
  lemma HashDecodeSpec(st: Setup, es: seq<(Key, Value)>)
    requires Lookup(es, TypeKey) == Some(Str(HASH)) && UniqueKeys(es)
    ensures Decode(st, Arr(es)).Ok? <==> DecodesAll(st, Remove(es, TypeKey))
    ensures Decode(st, Arr(es)).Ok? ==>
      Decode(st, Arr(es)) == Ok(Arr(Decoded(st, Remove(es, TypeKey)))) &&
      !HasKey(Decode(st, Arr(es)).value.entries, TypeKey) &&
      Keys(Decode(st, Arr(es)).value.entries) == Keys(Remove(es, TypeKey))
  {
    assert Decode(st, Arr(es)) == HashDecode(st, es);
    HashEntriesOk(st, es, 0, []);
    UntaggedIsRemoved(st, es);
    if DecodesAll(st, Remove(es, TypeKey)) {
      HashEntriesValue(st, es, 0);
      assert es[..0] == [];
      var d := Decoded(st, Remove(es, TypeKey));
      assert Keys(d) == Keys(Remove(es, TypeKey));
    }
  }

  // ---------------------------------------------------------------------------
  // Objects: `_unserializeObject` sets the reflected properties the data holds.

  /** Table property n is listed at position i or later as an instance property. */
  predicate SetFrom(table: PropTable, i: nat, n: string)
  {
    exists j :: i <= j < |table| && table[j].0 == n && !table[j].1.isStatic
  }

  /** Table property n is listed at position i or later. */
  predicate ListedFrom(table: PropTable, i: nat, n: string)
  {
    exists j :: i <= j < |table| && table[j].0 == n
  }

  /** The value the data holds for property n, decoded. */
  function DecodedField(st: Setup, es: seq<(Key, Value)>, n: string): Result<Value>
    requires HasKey(es, NormalizeKey(n))
  {
    Decode(st, Lookup(es, NormalizeKey(n)).value)
  }

  /** Every property listed from position i on that the data holds, static or not, decodes without error. */
  ghost predicate FieldsDecodeFrom(st: Setup, es: seq<(Key, Value)>, table: PropTable, i: nat)
  {
    forall n :: ListedFrom(table, i, n) && HasKey(es, NormalizeKey(n)) ==> DecodedField(st, es, n).Ok?
  }

  lemma ListedStep(table: PropTable, i: nat)
    requires i < |table|
    ensures forall n :: ListedFrom(table, i, n) <==> n == table[i].0 || ListedFrom(table, i + 1, n)
    ensures forall n :: SetFrom(table, i, n) <==> (n == table[i].0 && !table[i].1.isStatic) || SetFrom(table, i + 1, n)
    ensures UniqueKeys(table) ==> !ListedFrom(table, i + 1, table[i].0) && !SetFrom(table, i + 1, table[i].0)
  {
    assert ListedFrom(table, i, table[i].0);
  }

  lemma {:induction false} FieldsFromOk(st: Setup, es: seq<(Key, Value)>, table: PropTable, i: nat,
                                         fields: seq<(string, Value)>)
    requires i <= |table|
    ensures FieldsFrom(st, es, table, i, fields).Ok? <==> FieldsDecodeFrom(st, es, table, i)
    decreases |table| - i
  {
    if i < |table| {
      var name := table[i].0;
      ListedStep(table, i);
      match Lookup(es, NormalizeKey(name))
      case None =>
        FieldsFromOk(st, es, table, i + 1, fields);
        assert FieldsDecodeFrom(st, es, table, i) <==> FieldsDecodeFrom(st, es, table, i + 1);
      case Some(data) =>
        assert DecodedField(st, es, name) == Decode(st, data);
        match Decode(st, data)
        case Err(e) =>
          assert !FieldsDecodeFrom(st, es, table, i);
        case Ok(x) =>
          var next := SetValue(fields, table[i], x);
          assert FieldsFrom(st, es, table, i, fields) == FieldsFrom(st, es, table, i + 1, next);
          FieldsFromOk(st, es, table, i + 1, next);
          assert FieldsDecodeFrom(st, es, table, i) <==> FieldsDecodeFrom(st, es, table, i + 1);
    }
  }

  lemma {:induction false} FieldsFromValue(st: Setup, es: seq<(Key, Value)>, table: PropTable, i: nat,
                                            fields: seq<(string, Value)>)
    requires i <= |table| && UniqueKeys(table)
    requires forall j :: 0 <= j < |table| && !table[j].1.isStatic ==> HasKey(fields, table[j].0)
    requires FieldsFrom(st, es, table, i, fields).Ok?
    ensures FieldsDecodeFrom(st, es, table, i)
    ensures var r := FieldsFrom(st, es, table, i, fields).value;
      Keys(r) == Keys(fields) &&
      forall n :: Lookup(r, n) ==
        if SetFrom(table, i, n) && HasKey(es, NormalizeKey(n)) then Some(DecodedField(st, es, n).value)
        else Lookup(fields, n)
    decreases |table| - i
  {
    FieldsFromOk(st, es, table, i, fields);
    if i < |table| {
      var name := table[i].0;
      ListedStep(table, i);
      match Lookup(es, NormalizeKey(name))
      case None =>
        FieldsFromValue(st, es, table, i + 1, fields);
      case Some(data) =>
        var x := Decode(st, data).value;
        assert DecodedField(st, es, name) == Ok(x);
        if table[i].1.isStatic {
          assert FieldsFrom(st, es, table, i, fields) == FieldsFrom(st, es, table, i + 1, fields);
          FieldsFromValue(st, es, table, i + 1, fields);
        } else {
          var next := Put(fields, name, x);
          assert FieldsFrom(st, es, table, i, fields) == FieldsFrom(st, es, table, i + 1, next);
          forall n ensures Lookup(next, n) == if n == name then Some(x) else Lookup(fields, n) {
            PutLookup(fields, name, x, n);
          }
          assert Keys(next) == Keys(fields);
          FieldsFromValue(st, es, table, i + 1, next);
        }
    }
  }

  /** The instance property n takes its value from the data: reflection lists it, it is not static, the data has its key. */
  predicate Assigned(table: PropTable, es: seq<(Key, Value)>, n: string)
  {
    HasKey(table, n) && !Lookup(table, n).value.isStatic && HasKey(es, NormalizeKey(n))
  }

  lemma TableFacts(cls: string, decls: seq<PropDecl>)
    ensures var table := LegacyTable(decls);
      (forall j :: 0 <= j < |table| && !table[j].1.isStatic ==> HasKey(Instantiate(cls, decls).fields, table[j].0)) &&
      (forall n :: ListedFrom(table, 0, n) <==> HasKey(table, n)) &&
      (forall n :: SetFrom(table, 0, n) <==> HasKey(table, n) && !Lookup(table, n).value.isStatic)
  {
    var table := LegacyTable(decls);
    forall j | 0 <= j < |table| && !table[j].1.isStatic ensures HasKey(Instantiate(cls, decls).fields, table[j].0) {
      assert table[j] in table;
    }
    forall n ensures ListedFrom(table, 0, n) <==> HasKey(table, n) {
      if HasKey(table, n) {
        var j := KeyAtTable(table, n);
        assert table[j].0 == n;
      }
    }
    forall n ensures SetFrom(table, 0, n) <==> HasKey(table, n) && !Lookup(table, n).value.isStatic {
      SetExactly(table, n);
    }
  }

  /** An entry is set by the loop exactly when it is an instance property of the table. */
  lemma SetExactly(table: PropTable, n: string)
    requires UniqueKeys(table)
    ensures SetFrom(table, 0, n) <==> HasKey(table, n) && !Lookup(table, n).value.isStatic
  {
    if HasKey(table, n) {
      var j := KeyAtTable(table, n);
      LookupUnique(table, n, j);
    }
    if SetFrom(table, 0, n) {
      var j :| 0 <= j < |table| && table[j].0 == n && !table[j].1.isStatic;
      assert Keys(table)[j] == n;
      LookupUnique(table, n, j);
    }
  }

  lemma KeyAtTable(t: PropTable, n: string) returns (m: nat)
    requires HasKey(t, n)
    ensures m < |t| && t[m].0 == n
  {
    m :| 0 <= m < |Keys(t)| && Keys(t)[m] == n;
  }

  /**
   * `_unserializeObject` of a declared class: decode succeeds exactly when
   * every reflected property the data holds decodes (static ones too, since
   * they are rebuilt before being set on the class); the instance then has
   * the class's instance properties, each one reflection lists and the data
   * holds carrying its decoded value and every other one its default.
   */
  lemma ObjectDecodeSpec(st: Setup, es: seq<(Key, Value)>, cls: string, decls: seq<PropDecl>)
    requires Lookup(es, TypeKey) == Some(Str(cls)) && cls != HASH
    requires ClassDecls(st.classes, cls) == Some(decls)
    ensures var table := LegacyTable(decls);
      Decode(st, Arr(es)).Ok? <==>
        forall n :: HasKey(table, n) && HasKey(es, NormalizeKey(n)) ==> DecodedField(st, es, n).Ok?
    ensures var table := LegacyTable(decls);
      var defaults := Instantiate(cls, decls).fields;
      Decode(st, Arr(es)).Ok? ==>
        var o := Decode(st, Arr(es)).value;
        o.Obj? && o.cls == cls && Keys(o.fields) == Keys(defaults) &&
        forall n :: Lookup(o.fields, n) ==
          if Assigned(table, es, n) then Some(DecodedField(st, es, n).value) else Lookup(defaults, n)
  {
    var table := LegacyTable(decls);
    var defaults := Instantiate(cls, decls).fields;
    TableFacts(cls, decls);
    var r := FieldsFrom(st, es, table, 0, defaults);
    assert Decode(st, Arr(es)) == ObjectDecode(st, es, Str(cls));
    assert Decode(st, Arr(es)) == if r.Ok? then Ok(Obj(cls, r.value)) else Err(r.error);
    FieldsFromOk(st, es, table, 0, defaults);
    if r.Ok? {
      FieldsFromValue(st, es, table, 0, defaults);
    }
  }

  /** A tag that is not a string, or names no class reflection knows, makes decode fail. */
  lemma ObjectDecodeFails(st: Setup, es: seq<(Key, Value)>, tag: Value)
    requires Lookup(es, TypeKey) == Some(tag) && tag != Str(HASH)
    ensures !tag.Str? ==> Decode(st, Arr(es)) == Err(BadTypeTag(tag))
    ensures tag.Str? && ClassDecls(st.classes, tag.s).None? ==> Decode(st, Arr(es)) == Err(UnknownClass(tag.s))
  {
  }
}
