/**
 * JSON documents as trees, the layout the serializer gives them, and the
 * generic PHP data `json_decode($text, true)` reads back from them.
 */
module JsonTree {
  import opened Numerals
  import opened PhpArrays
  import opened PhpValues
  import opened JsonText

  datatype Json =
    | JNull
    | JBool(b: bool)
    | JInt(i: int)
    | JStr(s: string)
    | JArray(items: seq<Json>)
    | JObject(members: seq<(string, Json)>)

  /**
   * The serializer's layout of a document at nesting level `indent`: arrays
   * on one line with bare commas, each object member on its own line one
   * level deeper, the closing brace back at `indent`.
   */
  function Render(fmt: Format, escape: Escaper, indent: nat, j: Json): string
    decreases j
  {
    match j
    case JNull => "null"
    case JBool(b) => if b then "true" else "false"
    case JInt(i) => Decimal(i)
    case JStr(s) => EncodedOrEmpty(escape, s)
    case JArray(items) =>
      "[" + Join(",", seq(|items|, k requires 0 <= k < |items| => Render(fmt, escape, indent, items[k]))) + "]"
    case JObject(ms) =>
      "{" + Concat(seq(|ms|, k requires 0 <= k < |ms| =>
              (if k == 0 then "" else ",") + Ws(fmt, indent + 1) + EncodedOrEmpty(escape, ms[k].0) + ":"
              + fmt.padding + Render(fmt, escape, indent + 1, ms[k].1)))
      + Ws(fmt, indent) + "}"
  }

  /** Standard compact JSON: members and items separated by bare commas, no whitespace anywhere. */
  function CompactText(escape: Escaper, j: Json): string
    decreases j
  {
    match j
    case JNull => "null"
    case JBool(b) => if b then "true" else "false"
    case JInt(i) => Decimal(i)
    case JStr(s) => EncodedOrEmpty(escape, s)
    case JArray(items) =>
      "[" + Join(",", seq(|items|, k requires 0 <= k < |items| => CompactText(escape, items[k]))) + "]"
    case JObject(ms) =>
      "{" + Join(",", seq(|ms|, k requires 0 <= k < |ms| =>
              EncodedOrEmpty(escape, ms[k].0) + ":" + CompactText(escape, ms[k].1)))
      + "}"
  }

  /** With the compact format the serializer's layout is standard compact JSON, at every level. */
  lemma {:induction false} RenderCompact(escape: Escaper, indent: nat, j: Json)
    ensures Render(Compact, escape, indent, j) == CompactText(escape, j)
    decreases j
  {
    match j
    case JArray(items) =>
      forall k | 0 <= k < |items|
        ensures Render(Compact, escape, indent, items[k]) == CompactText(escape, items[k])
      {
        RenderCompact(escape, indent, items[k]);
      }
      assert seq(|items|, k requires 0 <= k < |items| => Render(Compact, escape, indent, items[k]))
          == seq(|items|, k requires 0 <= k < |items| => CompactText(escape, items[k]));
    case JObject(ms) =>
      var parts := seq(|ms|, k requires 0 <= k < |ms| => EncodedOrEmpty(escape, ms[k].0) + ":" + CompactText(escape, ms[k].1));
      var lead := seq(|ms|, k requires 0 <= k < |ms| =>
        (if k == 0 then "" else ",") + Ws(Compact, indent + 1) + EncodedOrEmpty(escape, ms[k].0) + ":"
        + Compact.padding + Render(Compact, escape, indent + 1, ms[k].1));
      forall k | 0 <= k < |ms| ensures lead[k] == (if k == 0 then "" else ",") + parts[k] {
        RenderCompact(escape, indent + 1, ms[k].1);
        CompactLine(if k == 0 then "" else ",", EncodedOrEmpty(escape, ms[k].0), CompactText(escape, ms[k].1));
      }
      JoinIsConcat(",", parts, lead);
      assert Render(Compact, escape, indent, j) == "{" + Concat(lead) + "" + "}";
    case _ =>
  }

  lemma CompactLine(sep: string, name: string, text: string)
    ensures sep + "" + name + ":" + "" + text == sep + (name + ":" + text)
  {
  }

  /** Storing the entries one after another into an array, as for repeated `$a[$k] = $v`. */
  function PutAll(acc: seq<(Key, Value)>, es: seq<(Key, Value)>): seq<(Key, Value)>
    decreases |es|
  {
    if es == [] then acc else PutAll(Put(acc, es[0].0, es[0].1), es[1..])
  }

  /**
   * `json_decode($text, true)` of the text of a document within PHP's default
   * nesting depth, with every integer in 64 bits: arrays become
   * 0-based lists, objects become arrays whose keys are the member names as
   * PHP normalises an array key, a later duplicate member overwriting an
   * earlier one.
   */
  function Parsed(j: Json): Value
    decreases j
  {
    match j
    case JNull => Null
    case JBool(b) => Bool(b)
    case JInt(i) => Int(i)
    case JStr(s) => Str(s)
    case JArray(items) => Arr(seq(|items|, k requires 0 <= k < |items| => (IntK(k), Parsed(items[k]))))
    case JObject(ms) => Arr(PutAll([], seq(|ms|, k requires 0 <= k < |ms| => (NormalizeKey(ms[k].0), Parsed(ms[k].1)))))
  }

  /** Distinct keys are stored in order, one entry each. */
  lemma {:induction false} PutAllDistinct(acc: seq<(Key, Value)>, es: seq<(Key, Value)>)
    requires UniqueKeys(acc + es)
    ensures PutAll(acc, es) == acc + es
    decreases |es|
  {
    if es != [] {
      PrefixLacksNext(acc + es, |acc|);
      assert (acc + es)[..|acc|] == acc;
      assert acc + es == (acc + [es[0]]) + es[1..];
      PutAllDistinct(acc + [es[0]], es[1..]);
    }
  }
}
