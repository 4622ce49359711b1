/**
 * The PHP values the serializer walks: scalars, ordered arrays keyed by int or
 * string, and objects (a class name with its named properties; a `stdClass`
 * object is `Obj("stdClass", ...)` holding its dynamic properties). Floats and
 * resources are not part of this model.
 */
module PhpValues {
  import opened Wrappers
  import opened PhpArrays
  import opened Numerals

  /** An array key is an int or a string that does not read as an int. */
  datatype Key = IntK(i: int) | StrK(s: string)

  datatype Value =
    | Null
    | Bool(b: bool)
    | Int(i: int)
    | Str(s: string)
    | Arr(entries: seq<(Key, Value)>)
    /** An object of class `cls` with its properties in slot order. */
    | Obj(cls: string, fields: seq<(string, Value)>)

  /** The constant expressions PHP accepts as a property's declared default. */
  datatype Const =
    | CNull
    | CBool(b: bool)
    | CInt(i: int)
    | CStr(s: string)
    | CArr(entries: seq<(Key, Const)>)

  datatype Error =
    /** `json_encode` refused a string (malformed UTF-8): a RuntimeException. */
    | MalformedString(s: string)
    /** Reflection asked about a class that does not exist: a ReflectionException. */
    | UnknownClass(name: string)
    /** A `#type` entry that holds something other than a string. */
    | BadTypeTag(tag: Value)
    /** The older `serialize` was handed something other than an object. */
    | NotAnObject
    /** Custom codecs nested deeper than the model's bound. */
    | CodecNesting

  datatype Result<T> = Ok(value: T) | Err(error: Error)

  /** The reserved key carrying a class name, and the legacy tag of a hash. */
  const TYPE: string := "#type"
  const HASH: string := "#hash"
  const STD_CLASS: string := "stdClass"
  const TypeKey: Key := StrK(TYPE)

  function ToValue(c: Const): Value
  {
    match c
    case CNull => Null
    case CBool(b) => Bool(b)
    case CInt(i) => Int(i)
    case CStr(s) => Str(s)
    case CArr(e) => Arr(seq(|e|, i requires 0 <= i < |e| => (e[i].0, ToValue(e[i].1))))
  }

  /** `(array) $object` for a `stdClass`: property names become array keys. */
  function CastToArray(f: seq<(string, Value)>): (a: seq<(Key, Value)>)
    ensures |a| == |f|
    ensures forall i :: 0 <= i < |f| ==> a[i] == (NormalizeKey(f[i].0), f[i].1)
  {
    seq(|f|, i requires 0 <= i < |f| => (NormalizeKey(f[i].0), f[i].1))
  }

  /** `(object) $array`: array keys become property names of a `stdClass`. */
  function CastToObject(a: seq<(Key, Value)>): (f: seq<(string, Value)>)
    ensures |f| == |a|
    ensures forall i :: 0 <= i < |a| ==> f[i] == (KeyString(a[i].0), a[i].1)
  {
    seq(|a|, i requires 0 <= i < |a| => (KeyString(a[i].0), a[i].1))
  }

  /** `$prop->getValue($object)` for an instance property; a missing slot reads as null. */
  function GetValue(fields: seq<(string, Value)>, name: string): Value
  {
    match Lookup(fields, name)
    case Some(x) => x
    case None => Null
  }

  // ---------------------------------------------------------------------------
  // Sizes, used as termination measures for the recursive walks.

  function Sum(s: seq<nat>): nat
  {
    if s == [] then 0 else s[0] + Sum(s[1..])
  }

  function Size(v: Value): nat
  {
    match v
    case Arr(e) => 2 + Sum(seq(|e|, i requires 0 <= i < |e| => 1 + Size(e[i].1)))
    case Obj(_, f) => 4 + Sum(seq(|f|, i requires 0 <= i < |f| => 1 + Size(f[i].1)))
    case _ => 1
  }

  function EntriesSize<K(!new)>(e: seq<(K, Value)>): nat
  {
    if e == [] then 0 else 1 + Size(e[0].1) + EntriesSize(e[1..])
  }

  lemma {:induction false} SumIsEntriesSize<K(!new)>(e: seq<(K, Value)>)
    ensures Sum(seq(|e|, i requires 0 <= i < |e| => 1 + Size(e[i].1))) == EntriesSize(e)
  {
    if e != [] {
      SumIsEntriesSize(e[1..]);
      assert seq(|e|, i requires 0 <= i < |e| => 1 + Size(e[i].1))[1..]
          == seq(|e[1..]|, i requires 0 <= i < |e[1..]| => 1 + Size(e[1..][i].1));
    }
  }

  lemma SizeUnfold(v: Value)
    ensures v.Arr? ==> Size(v) == EntriesSize(v.entries) + 2
    ensures v.Obj? ==> Size(v) == EntriesSize(v.fields) + 4
  {
    match v
    case Arr(e) => SumIsEntriesSize(e);
    case Obj(_, f) => SumIsEntriesSize(f);
    case _ =>
  }

  lemma {:induction false} EntrySmaller<K(!new)>(e: seq<(K, Value)>, i: nat)
    requires i < |e|
    ensures Size(e[i].1) < EntriesSize(e)
  {
    if i > 0 {
      EntrySmaller(e[1..], i - 1);
    }
  }

  lemma {:induction false} LookupSmaller<K(!new)>(e: seq<(K, Value)>, k: K)
    requires Lookup(e, k).Some?
    ensures Size(Lookup(e, k).value) < EntriesSize(e)
  {
    if e[0].0 != k {
      LookupSmaller(e[1..], k);
    }
  }

  lemma GetValueSize(f: seq<(string, Value)>, name: string)
    ensures Size(GetValue(f, name)) <= EntriesSize(f) + 1
  {
    if Lookup(f, name).Some? {
      LookupSmaller(f, name);
    }
  }

  lemma {:induction false} RemoveSize<K(!new)>(e: seq<(K, Value)>, k: K)
    ensures EntriesSize(Remove(e, k)) <= EntriesSize(e)
  {
    if e != [] {
      RemoveSize(e[1..], k);
      if e[0].0 != k {
        assert ([e[0]] + Remove(e[1..], k))[1..] == Remove(e[1..], k);
      }
    }
  }

  /** Entries holding the same values, under whatever keys, have the same size. */
  lemma {:induction false} SameValuesSize<K(!new), L(!new)>(a: seq<(K, Value)>, b: seq<(L, Value)>)
    requires |a| == |b| && forall i :: 0 <= i < |a| ==> a[i].1 == b[i].1
    ensures EntriesSize(a) == EntriesSize(b)
  {
    if a != [] {
      SameValuesSize(a[1..], b[1..]);
    }
  }

  /** Storing a string under a key grows the entries by at most one entry and one leaf. */
  lemma {:induction false} PutStrSize<K(!new)>(e: seq<(K, Value)>, k: K, s: string)
    ensures EntriesSize(Put(e, k, Str(s))) <= EntriesSize(e) + 2
  {
    if e != [] {
      if e[0].0 == k {
        assert ([(k, Str(s))] + e[1..])[1..] == e[1..];
      } else {
        PutStrSize(e[1..], k, s);
        assert ([e[0]] + Put(e[1..], k, Str(s)))[1..] == Put(e[1..], k, Str(s));
      }
    }
  }

  // ---------------------------------------------------------------------------
  // Array keys as PHP normalises them.

  predicate InInt64(i: int)
  {
    -0x8000_0000_0000_0000 <= i < 0x8000_0000_0000_0000
  }

  /**
   * The key PHP stores when a string is used as an array key (and when
   * `json_decode($s, true)` turns an object member name into a key): a
   * canonical decimal within the 64-bit range becomes an int key.
   */
  function NormalizeKey(s: string): Key
  {
    match ParseDecimal(s)
    case Some(i) => if InInt64(i) then IntK(i) else StrK(s)
    case None => StrK(s)
  }

  /** `(string) $key`. */
  function KeyString(k: Key): string
  {
    match k
    case IntK(i) => Decimal(i)
    case StrK(s) => s
  }

  /** A string used as an array key and cast back to a string is unchanged. */
  lemma NormalizeKeyString(s: string)
    ensures KeyString(NormalizeKey(s)) == s
  {
    if ParseDecimal(s).Some? {
      ParseDecimalCanonical(s);
    }
  }

  /** A key PHP can actually hold: a 64-bit int, or a string that is not an int key. */
  predicate WellFormedKey(k: Key)
  {
    match k
    case IntK(i) => InInt64(i)
    case StrK(s) => NormalizeKey(s) == k
  }

  /** Casting a key to a string and using that string as a key gives the key back. */
  lemma KeyStringRoundTrip(k: Key)
    requires WellFormedKey(k)
    ensures NormalizeKey(KeyString(k)) == k
  {
    if k.IntK? {
      DecimalRoundTrip(k.i);
    }
  }

  /** A value PHP can hold: 64-bit ints, proper arrays with proper keys, throughout. */
  predicate WellFormed(v: Value)
  {
    match v
    case Int(i) => InInt64(i)
    case Arr(e) =>
      UniqueKeys(e) && forall i :: 0 <= i < |e| ==> WellFormedKey(e[i].0) && WellFormed(e[i].1)
    case Obj(_, f) =>
      UniqueKeys(f) && forall i :: 0 <= i < |f| ==> WellFormed(f[i].1)
    case _ => true
  }
}
