# jsonfreeze serializer, modelled in Dafny

jsonfreeze writes a PHP object graph as human-readable JSON and reads it back.
Objects are written as JSON objects whose first member, `"#type"`, names the
class. Arrays with keys 0..n-1 in order ("lists") become JSON arrays. Any other
array ("hash") becomes a JSON object. Reading back dispatches on `#type`.

This project models two revisions of the `JsonSerializer` class:

- the current one, `src/JsonSerializer.php`, with registered codecs, `stdClass`
  support and an option to skip private properties;
- the older one, `mindplay/jsonfreeze/JsonSerializer.php`, which tags every hash
  with `"#type":"#hash"` and reads lists back by position.

Each revision is modelled in three parts.

- **Specification functions.** Recursive functions over PHP values give the text
  the encoder writes (`Encoder`, `LegacyEncoder`) and the value the decoder
  builds (`Decoder`, `LegacyDecoder`).
- **Classes.** `Serializer.JsonSerializer` and `LegacySerializer.JsonSerializer`
  keep the source's fields: the format strings, the private-property switch, the
  codec maps and the reflection cache. Their methods run the source's
  `foreach`/`for` loops. Each method is proved to return what the specification
  function gives and to keep the cache consistent.
- **Laws.** Lemmas give the shape of the output and the behaviour of decoding:
  - the exact layout of lists, hashes and objects;
  - that compact mode adds no whitespace;
  - which values decode to themselves;
  - how tags are stripped;
  - which object properties a decode sets;
  - what the property table holds;
  - that `unserialize(serialize($v))` gives `$v` back for every value in
    `RoundTrip.Representable`, given a `json_decode` that reads the document
    back as its JSON tree (`RoundTrip`).

PHP arrays are ordered sequences of key/value pairs. PHP's assignment (`Put`),
`unset` (`Remove`) and key normalisation (`"5"` becomes the int key 5) are
modelled exactly. `json_encode` of a string that needs escaping, `json_decode`,
reflection and registered codec callables are parameters of the model. The
current revision's document is also built as a JSON tree (`WireFormat.Wire`).
`EncoderLayout.TextIsRenderedWire` proves that the encoder's text is that tree
laid out by `JsonTree.Render`, including every error path.

The round trip is stated for the current revision. `JsonTree.Parsed` models
what `json_decode($text, true)` makes of a document's text within PHP's
default nesting depth; the depth limit is not modelled. `RoundTrip.Representable`
names the values the format carries back:
- integers that fit in 64 bits;
- arrays with keys PHP can hold and no `#type` key;
- objects without a `#type` property whose class has no custom unserializer;
- for a declared class, objects that hold exactly an instance's properties and
  their defaults wherever the property table leaves one out.

`RoundTrip.TagKeyNotCarried` shows why the reserved key is excluded.

## Model

| member | source | states |
|---|---|---|
| Serializer.JsonSerializer.constructor | src/JsonSerializer.php:83-102 | pretty gives two-space indentation, `"\n"` and one space of padding, compact gives three empty strings; private properties are kept; DateTime and DateTimeImmutable have codecs; the cache starts empty |
| Serializer.JsonSerializer.Serialize | src/JsonSerializer.php:111-114 | the result is `Encoder.Text` of the value at level 0 |
| Serializer.JsonSerializer.Unserialize | src/JsonSerializer.php:123-128 | the result is `Decoder.Decode` of what `json_decode` parses |
| Serializer.JsonSerializer.SkipPrivateProperties | src/JsonSerializer.php:138-145 | the switch takes the new setting; the cache is emptied exactly when the setting changes and is otherwise untouched |
| Serializer.JsonSerializer.DefineSerialization | src/JsonSerializer.php:154-158 | both codec maps register the pair under the class name; other entries are unchanged |
| Serializer.JsonSerializer.SerializeValue | src/JsonSerializer.php:168-195 | the dispatch on the value's shape returns `Encoder.Text`, errors included |
| Serializer.JsonSerializer.SerializeObject | src/JsonSerializer.php:205-229 | a registered serializer is applied and its result encoded; otherwise the result is `Encoder.ObjectText` |
| Serializer.JsonSerializer.SerializeProperties | src/JsonSerializer.php:217-226 | the property loop appends one line per table entry and the close, which is `Encoder.ObjectFrom` |
| Serializer.JsonSerializer.SerializeArray | src/JsonSerializer.php:239-252 | the loop's text, with the `$last_key` comma test, is `[` then `Encoder.ListFrom` |
| Serializer.JsonSerializer.SerializeHash | src/JsonSerializer.php:262-284 | the loop's text, with the `$comma` flag, is `{` then `Encoder.HashFrom` |
| Serializer.JsonSerializer.SerializeStdClass | src/JsonSerializer.php:294-301 | the properties cast to an array, with `#type` set to `stdClass`, are written as a hash |
| Serializer.JsonSerializer.UnserializeValue | src/JsonSerializer.php:310-327 | the dispatch on `#type` returns `Decoder.Decode` |
| Serializer.JsonSerializer.UnserializeObject | src/JsonSerializer.php:336-361 | unserializer, then `stdClass`, then class instance, giving `Decoder.ObjectDecode` |
| Serializer.JsonSerializer.UnserializeProperties | src/JsonSerializer.php:353-358 | the `setValue` loop over the table gives `Decoder.FieldsFrom` |
| Serializer.JsonSerializer.UnserializeArray | src/JsonSerializer.php:370-379 | the `$array[$key] =` loop gives `Decoder.ArrayDecode`, always an array |
| Serializer.JsonSerializer.GetClassProperties | src/JsonSerializer.php:388-413 | returns the property table of the class, or the reflection error for an unknown class; a table is cached under the class name and nothing else in the cache changes |
| Serializer.JsonSerializer.CollectProperties | src/JsonSerializer.php:395-407 | the loop that fills `$props` yields `Reflection.PropertyTable` |
| Reflection.PropertyTable | src/JsonSerializer.php:395-407 | keys are unique; every entry is a declaration stored under its own name and kept by the filter; every kept declaration is present |
| Reflection.PropertyTableIsKeptDecls | src/JsonSerializer.php:395-407 | with distinct names the table is exactly the kept declarations in declaration order |
| Reflection.TableKeepsPrivateIff | src/JsonSerializer.php:396-402 | the table has no static property; it holds a private property if and only if private properties are not skipped |
| Reflection.ClassDecls | src/JsonSerializer.php:391 | reflection succeeds exactly for `stdClass` and the known classes; `stdClass` declares nothing |
| Reflection.Instantiate | src/JsonSerializer.php:349 | a new instance of the class has exactly the instance properties as slots, and its slots are `Reflection.Defaults`: each instance property in declared order, holding its default |
| EncoderShape.ListLayout | src/JsonSerializer.php:239-252 | a list encodes if and only if every item does, and is `[` + the item texts at the same level joined by `,` + `]` |
| EncoderShape.ListCommas | src/JsonSerializer.php:243-246 | a list of n items carries exactly n - 1 commas of its own: no trailing comma |
| EncoderShape.HashLayout | src/JsonSerializer.php:262-284 | a non-list array encodes if and only if every value does one level deeper; the text is `{`, one line per key (comma before all but the first), then the close at the array's level; no `#type` tag is added |
| EncoderShape.ObjectLayout | src/JsonSerializer.php:213-226 | a class object is the `"#type":` line with the encoded class name, one `,`-prefixed line per table entry in table order, then newline, indentation and `}` |
| EncoderShape.SerializerDelegation | src/JsonSerializer.php:209-211 | with a serializer registered, the object's text is the text of the serializer's result at the same level; for `stdClass` the registration is ignored |
| EncoderShape.FormatWhitespace | src/JsonSerializer.php:83-89 | compact mode's line break and padding are empty at every level; pretty mode's are `"\n"` + two spaces per level |
| EncoderShape.CompactOutput | src/JsonSerializer.php:83-89 | in compact mode the text is the standard compact JSON of the document: no whitespace is added anywhere |
| EncoderShape.ScalarText | src/JsonSerializer.php:182-194 | `null` is written `null`, an int its decimal; a string fails with an error exactly when `json_encode` refuses it |
| EncoderLayout.TextIsRenderedWire | src/JsonSerializer.php:168-195 | the encoder's result is the document tree laid out at the value's level, and it fails exactly when the tree fails |
| DecoderLaws.DecodeTagFree | src/JsonSerializer.php:310-327 | data with no `#type` key anywhere decodes to itself: non-arrays unchanged, arrays with the same keys in the same order |
| DecoderLaws.DecodeHashTag | src/JsonSerializer.php:316-320 | a `#hash`-tagged array decodes as the array without the tag; the result has the remaining keys and no `#type` key |
| DecoderLaws.ArrayDecodeSpec | src/JsonSerializer.php:370-379 | array decode succeeds if and only if every value decodes, and keeps every key in order with its value decoded |
| DecoderLaws.StdClassDecodeSpec | src/JsonSerializer.php:344-347 | a `stdClass` tag gives a `stdClass` object of the other entries, decoded, if and only if they all decode |
| DecoderLaws.DecodeUsesUnserializer | src/JsonSerializer.php:340-342 | a registered unserializer's result is decoded in place of the data |
| DecoderLaws.ObjectDecodeSpec | src/JsonSerializer.php:353-358 | decode succeeds if and only if every table property present in the data decodes; it then sets exactly those properties and every other slot keeps its default |
| DecoderLaws.DecodeIgnoresUnknownKeys | src/JsonSerializer.php:353-358 | two data arrays that agree on the table properties decode alike: keys with no matching property are ignored |
| PhpValues.CastToArray | src/JsonSerializer.php:296 | `(array)` keeps the properties in order, each name normalised as an array key |
| PhpValues.CastToObject | src/JsonSerializer.php:346 | `(object)` keeps the entries in order, each key as a string property name |
| LegacySerializer.JsonSerializer.constructor | mindplay/jsonfreeze/JsonSerializer.php:45-52 | pretty keeps the defaults (two spaces, `"\n"`, one space); compact sets all three to `""`; the cache starts empty |
| LegacySerializer.JsonSerializer.Serialize | mindplay/jsonfreeze/JsonSerializer.php:59-66 | the result is `LegacyEncoder.Serialize`: an error for a non-object, the object written at level 0 otherwise |
| LegacySerializer.JsonSerializer.Unserialize | mindplay/jsonfreeze/JsonSerializer.php:73-78 | the result is `LegacyDecoder.Decode` of what `json_decode` parses |
| LegacySerializer.JsonSerializer.SerializeValue | mindplay/jsonfreeze/JsonSerializer.php:83-98 | the dispatch returns `LegacyEncoder.Text` |
| LegacySerializer.JsonSerializer.SerializeObject | mindplay/jsonfreeze/JsonSerializer.php:103-118 | the result is `LegacyEncoder.ObjectText` |
| LegacySerializer.JsonSerializer.SerializeProperties | mindplay/jsonfreeze/JsonSerializer.php:111-115 | the property loop gives `LegacyEncoder.ObjectFrom` |
| LegacySerializer.JsonSerializer.SerializeArray | mindplay/jsonfreeze/JsonSerializer.php:123-136 | the loop's text is `[` then `LegacyEncoder.ListFrom` |
| LegacySerializer.JsonSerializer.SerializeHash | mindplay/jsonfreeze/JsonSerializer.php:141-154 | the loop's text is the tagged head then `LegacyEncoder.HashFrom` |
| LegacySerializer.JsonSerializer.UnserializeValue | mindplay/jsonfreeze/JsonSerializer.php:159-173 | the dispatch returns `LegacyDecoder.Decode` |
| LegacySerializer.JsonSerializer.UnserializeObject | mindplay/jsonfreeze/JsonSerializer.php:178-196 | the result is `LegacyDecoder.ObjectDecode` |
| LegacySerializer.JsonSerializer.UnserializeProperties | mindplay/jsonfreeze/JsonSerializer.php:186-191 | the `setValue` loop gives `LegacyDecoder.FieldsFrom` |
| LegacySerializer.JsonSerializer.UnserializeArray | mindplay/jsonfreeze/JsonSerializer.php:201-210 | the index loop gives `LegacyDecoder.ArrayDecode` |
| LegacySerializer.JsonSerializer.UnserializeHash | mindplay/jsonfreeze/JsonSerializer.php:215-227 | the `foreach` that skips `#type` gives `LegacyDecoder.HashDecode` |
| LegacySerializer.JsonSerializer.GetClassProperties | mindplay/jsonfreeze/JsonSerializer.php:237-255 | returns the class's table, or the reflection error; a table is cached under the class name and nothing else in the cache changes |
| LegacySerializer.JsonSerializer.CollectProperties | mindplay/jsonfreeze/JsonSerializer.php:246-249 | the loop that fills `$props` yields `LegacyEncoder.LegacyTable` |
| LegacyEncoder.LegacyTable | mindplay/jsonfreeze/JsonSerializer.php:246-249 | keys are unique; every declaration, static and private ones included, is present under its name |
| LegacyEncoder.LegacyTableIsDecls | mindplay/jsonfreeze/JsonSerializer.php:246-249 | with distinct names the table is every declaration in order, each under its name |
| LegacyEncoder.Serialize | mindplay/jsonfreeze/JsonSerializer.php:61-63 | anything but an object is refused with an error |
| LegacyEncoderLaws.SerializeRoot | mindplay/jsonfreeze/JsonSerializer.php:59-66 | `serialize` succeeds only on an object, and on an object it is the object's text at level 0 |
| LegacyEncoderLaws.ScalarText | mindplay/jsonfreeze/JsonSerializer.php:93-97 | `null`, booleans and ints are written as JSON literals; a string `json_encode` refuses is written as nothing |
| LegacyEncoderLaws.ListLayout | mindplay/jsonfreeze/JsonSerializer.php:123-136 | a list encodes if and only if every item does, and is `[` + item texts joined by `,` + `]` |
| LegacyEncoderLaws.HashLayout | mindplay/jsonfreeze/JsonSerializer.php:141-154 | a non-list array is the tag line, then one `,`-prefixed line per key in iteration order, then the close |
| LegacyEncoderLaws.HashHeadText | mindplay/jsonfreeze/JsonSerializer.php:145 | the tag line is `{`, the break, `"#type":`, the padding and `"#hash"` |
| LegacyEncoderLaws.ObjectLayout | mindplay/jsonfreeze/JsonSerializer.php:103-118 | an unknown class is an error; otherwise the object succeeds if and only if every property value encodes, and its text is the `#type` line, one line per table entry, then the close |
| LegacyDecoder.AtIsLookup | mindplay/jsonfreeze/JsonSerializer.php:206 | `$data[$i]` is the entry under the int key i, or null when there is none |
| LegacyDecoderLaws.DecodeDispatch | mindplay/jsonfreeze/JsonSerializer.php:159-173 | a non-array is returned unchanged; untagged data is read as a list, a `#hash` tag as a hash, any other tag as an object |
| LegacyDecoderLaws.ListDecodeSpec | mindplay/jsonfreeze/JsonSerializer.php:201-210 | untagged data decodes if and only if every position 0..count-1 does; the result has count entries, item i under key i being the decode of `$data[$i]`: always a list |
| LegacyDecoderLaws.HashDecodeSpec | mindplay/jsonfreeze/JsonSerializer.php:215-227 | a `#hash` array decodes if and only if every other entry does; the result drops exactly the `#type` key and keeps every other key in order with its value decoded |
| LegacyDecoderLaws.ObjectDecodeSpec | mindplay/jsonfreeze/JsonSerializer.php:186-191 | decode succeeds if and only if every table property present in the data decodes; the result sets exactly the present instance properties and every other slot keeps its default |
| LegacyDecoderLaws.ObjectDecodeFails | mindplay/jsonfreeze/JsonSerializer.php:180-182 | a tag that is not a string, or names no known class, makes decode fail |
| RoundTrip.DecodeWire | src/JsonSerializer.php:111-128 | for every representable value whose document can be written, decoding what `json_decode` reads from that document gives the value itself |
| RoundTrip.UnserializeSerialized | src/JsonSerializer.php:111-128 | `serialize` succeeds on a representable value whose document can be written, and `unserialize` of its text is the value, given a `json_decode` that reads the document back |
| RoundTrip.ListRoundTrip | src/JsonSerializer.php:239-252 | a representable list is written as a JSON array and decodes back to the same list |
| RoundTrip.HashRoundTrip | src/JsonSerializer.php:262-284 | a representable hash is written as an object whose member names read back as the same keys, in order, and decodes back to the same hash |
| RoundTrip.StdClassRoundTrip | src/JsonSerializer.php:294-301 | a representable `stdClass` decodes back to a `stdClass` with the same properties in the same order |
| RoundTrip.StdClassHashIs | src/JsonSerializer.php:296-298 | the hash built for a `stdClass` is its properties cast to an array, then the `#type` entry, appended last |
| RoundTrip.StdClassWire | src/JsonSerializer.php:294-301 | the document of a `stdClass` has one member per property, under its name and with its value's document, then `"#type":"stdClass"` |
| RoundTrip.StdClassDecoded | src/JsonSerializer.php:344-347 | properties cast to an array, each decoding to its value, followed by the `stdClass` tag decode to that `stdClass` object |
| RoundTrip.ClassRoundTrip | src/JsonSerializer.php:213-226 | a representable object of a declared class decodes back to an object of that class with the same properties |
| RoundTrip.ClassRead | src/JsonSerializer.php:213-226 | an object's document, the tag and then the table's properties by name, is read member for member with no key lost |
| RoundTrip.ClassDecoded | src/JsonSerializer.php:349-358 | tagged data from which every table property decodes to the object's value gives back the object, when every other property holds its default |
| RoundTrip.DecodeEntries | src/JsonSerializer.php:370-379 | untagged data whose values decode to those of a proper array, under the same keys, decodes to that array |
| RoundTrip.TagKeyNotCarried | src/JsonSerializer.php:310-327 | the hash `["#type" => "stdClass"]` is written without error and reads back as an empty `stdClass` object, not as the hash |
| Findings.KeyLiteralAsWritten | src/JsonSerializer.php:273 | `json_encode($key)` as written; on string keys it agrees with the corrected literal |
| Findings.AsWrittenIntKeyBare | src/JsonSerializer.php:273 | as written, no integer key is ever a quoted member name |
| Findings.AsWrittenExample | mindplay/jsonfreeze/JsonSerializer.php:148 | as written, the hash `[1 => "x"]` has the member `1:"x"` |
| Findings.CorrectedIntKeyQuoted | src/JsonSerializer.php:273 | corrected, an integer key is its decimal text between quotes, which reads back as the same key |
| Findings.CorrectedExample | src/JsonSerializer.php:273 | corrected, the same hash has the member `"1":"x"` |

## Left out

- Floats, resources and closures as values are not modelled. Only null, booleans, ints, strings, arrays and objects are.
- The DateTime and DateTimeImmutable codecs (`_serializeDateTime`, `_unserializeDateTime`) depend on date and time-zone arithmetic. The constructor registers them as codec parameters, and only the dispatch to them is modelled.
- `json_encode` of strings that need escaping is the parameter `escape`, and `json_decode` is the parameter `parse`. The model does not state PHP's escaping rules or its JSON grammar.
- Reflection is a class table of property declarations (name, static, private, default). `ReflectionClass`, `setAccessible`, and instance creation through `unserialize('O:...')` are not part of this model.
- A registered codec callable is a function on values. What user code does inside it is not modelled.
- The reflection cache is a `static` in both revisions, shared by every instance in the process. Here it is a field of each serializer object. Sharing it between instances and concurrent access are not modelled. In the current revision `skipPrivateProperties` empties the shared cache (src/JsonSerializer.php:143), but the tables it holds afterwards were built under whichever instance filled them first. So after `$a->skipPrivateProperties(); $a->serialize($o);`, a fresh `(new JsonSerializer)->serialize($o)` also leaves out `$o`'s private properties. The per-instance field does not show this.
- Object identity, references, aliasing and cyclic object graphs are not modelled: values are trees.
- An exception thrown by the source is an `Err` result. A string `json_encode` refuses gives `MalformedString` in the current revision.
- Serializer.JsonSerializer.Serialize: encoding and decoding through registered codecs can nest without bound in PHP, so the current revision's functions take a `fuel` bound. When the bound runs out they give `Err(CodecNesting)`, which PHP never does. Recursion over the value itself needs no fuel.
- EncoderShape.ObjectLayout: states the text of a successful encode only. When an object's encode fails is not stated for the current revision; the older revision's `LegacyEncoderLaws.ObjectLayout` states it.
- LegacySerializer.JsonSerializer.Serialize: the older revision writes `throw new Exception(...)` inside a namespace without importing `Exception`. PHP would then fail with a class-not-found error instead of throwing the intended exception. The model keeps only that the call fails (`NotAnObject`).
- LegacyDecoder.ObjectDecode: the older revision does not check the `#type` value. A non-string tag fails somewhere inside `unserialize` or reflection; the model gives one error, `BadTypeTag`, for all such cases.
- LegacyEncoder.PropertyValue: the older revision also writes static properties. `getValue` of a static property is taken to be its declared default, because the class's run-time static state is not modelled. `setValue` on a static property does not change the new instance's slots.
- In the current revision, `_serializeStdClass` adds `#type` after the object's own properties, so the tag comes last in a `stdClass` object's text. Decoding does not depend on key order, and the model writes the tag where the source does.
- Type aliases and ancestor-qualified `Type#field` keys appear in the library's design notes but in neither source file. They are not modelled.
- RoundTrip.UnserializeSerialized: takes as a premise that `json_decode` reads the laid-out document as `JsonTree.Parsed`, because `json_decode` is a parameter of the model. Values with floats, which the model leaves out, are not covered.
- RoundTrip.Representable: has no depth bound. PHP's `json_decode` fails on a document nested deeper than its default limit of 512 levels, so `unserialize` of such a value gives `null`; the premise of `RoundTrip.UnserializeSerialized` excludes this. Integers outside 64 bits are excluded, because `json_decode` reads them as floats.
- LegacySerializer.JsonSerializer.GetClassProperties: the older revision writes `new ReflectionClass($type)` (mindplay/jsonfreeze/JsonSerializer.php:240) inside the namespace `mindplay\jsonfreeze` with no `use` line. PHP resolves that to `mindplay\jsonfreeze\ReflectionClass`, which is not defined, so as written every call fails, and with it every object encode and every class-tagged decode. The model reads it as the global `ReflectionClass`, as the current revision imports it.
- Default arguments are not modelled as such: `__construct($pretty = true)`, `skipPrivateProperties($skip = true)` and `_serialize($value, $indent = 0)` take every argument explicitly in the model.
- The round trip is not stated for the older revision, for classes with registered codecs, or for objects of undeclared classes. Codecs are user code, and the other cases fail to encode.
- The test harness (`test/test.php`) and its fixture classes are not modelled.

## Findings

| source | as written | input that shows it | evidently intended | confidence | as-written member | corrected member |
|---|---|---|---|---|---|---|
| src/JsonSerializer.php:273 | `json_encode($key)` writes an integer hash key as a bare number | the hash `[1 => "x"]` is written with the member `1:"x"`, which is not valid JSON | `json_encode((string) $key)`, giving `"1":"x"`, which `json_decode` reads back as the int key 1 | high; not executed | Findings.AsWrittenIntKeyBare | Findings.CorrectedIntKeyQuoted |
| mindplay/jsonfreeze/JsonSerializer.php:148 | the same `json_encode($key)` in the older revision's hash loop | the hash `[1 => "x"]` gives the member `1:"x"` | the key cast to a string before encoding | high; not executed | Findings.AsWrittenExample | Findings.CorrectedExample |

Both encoders in the model (`Encoder.HashFrom`, `LegacyEncoder.HashFrom`) use the corrected literal, `Encoder.KeyLiteral`.
